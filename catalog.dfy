/**
 * The static configuration of the wizard: the catalog of acts, each entry
 * "<name> - <description>", the three project-type labels offered in the
 * sidebar, and the map from a key to the word used in the system prompt.
 */
module Catalog {
  import opened Wrappers
  import opened Strings

  /** The Python exceptions that the start transition can raise. */
  datatype PyError = IndexError | StopIteration | KeyError

  /** The separator between an act's name and its description. */
  const Sep: string := " - "

  function Entry(name: string, desc: string): string {
    name + Sep + desc
  }

  /** The catalog of acts, in sidebar order. */
  const Acts: seq<string> := Entries(ActNames, ActDescs)

  const ActNames: seq<string> := [
    "22nd Amendment (1951)",
    "25th Amendment (1967)",
    "Pendleton Act (1883)",
    "Hatch Act (1939)"
  ]

  /** The longer descriptions are written as two adjacent pieces of one text, so that
      the proofs about them can look at each piece on its own. */
  const ActDescs: seq<string> := [
    "Limits presidents to two terms.",
    "Handles what happens if the " + "president can't do their job.",
    "Makes government jobs " + "based on skills, not politics.",
    "Stops government workers " + "from doing politics on the job."
  ]

  function Entries(names: seq<string>, descs: seq<string>): (r: seq<string>)
    requires |names| == |descs|
    ensures |r| == |names|
    ensures forall j :: 0 <= j < |names| ==> r[j] == Entry(names[j], descs[j])
  {
    if names == [] then [] else [Entry(names[0], descs[0])] + Entries(names[1..], descs[1..])
  }

  /** The project-type labels, in sidebar order. */
  const ProjectTypes: seq<string> := [
    "A paragraph describing a scenario",
    "A comic strip of a scenario",
    "A skit showing a scenario"
  ]

  /** `entry.split(" - ")[0]`: the act name offered in the sidebar. */
  function ActName(entry: string): string {
    Split(entry, Sep)[0]
  }

  /** `entry.split(" - ")[1]` exists. */
  predicate HasDesc(entry: string) {
    |Split(entry, Sep)| >= 2
  }

  /** `[a.split(" - ")[0] for a in acts]`. */
  function Names(catalog: seq<string>): seq<string> {
    if catalog == [] then [] else [ActName(catalog[0])] + Names(catalog[1..])
  }

  /** The names are the first piece of each entry, in catalog order. */
  lemma {:induction false} NamesSpec(catalog: seq<string>)
    ensures |Names(catalog)| == |catalog|
    ensures forall j :: 0 <= j < |catalog| ==> Names(catalog)[j] == ActName(catalog[j])
  {
    if catalog != [] {
      NamesSpec(catalog[1..]);
    }
  }

  /** `[a.split(" - ")[1] for a in acts]`: fails with IndexError at the first entry without a separator. */
  function Descs(catalog: seq<string>): Result<seq<string>, PyError> {
    if catalog == [] then Ok([])
    else if !HasDesc(catalog[0]) then Err(IndexError)
    else
      match Descs(catalog[1..])
      case Err(e) => Err(e)
      case Ok(rest) => Ok([Split(catalog[0], Sep)[1]] + rest)
  }

  /** The descriptions fail exactly when some entry has no separator, and otherwise are the second
      piece of each entry, in catalog order. */
  lemma {:induction false} DescsSpec(catalog: seq<string>)
    ensures Descs(catalog).Err? <==> exists j :: 0 <= j < |catalog| && !HasDesc(catalog[j])
    ensures Descs(catalog).Err? ==> Descs(catalog).error == IndexError
    ensures Descs(catalog).Ok? ==> |Descs(catalog).value| == |catalog|
    ensures Descs(catalog).Ok? ==>
      forall j :: 0 <= j < |catalog| ==> Descs(catalog).value[j] == Split(catalog[j], Sep)[1]
  {
    if catalog != [] {
      DescsSpec(catalog[1..]);
      if HasDesc(catalog[0]) {
        if exists j :: 0 <= j < |catalog| && !HasDesc(catalog[j]) {
          var j :| 0 <= j < |catalog| && !HasDesc(catalog[j]);
          assert catalog[1..][j - 1] == catalog[j];
        }
        if exists j :: 0 <= j < |catalog| - 1 && !HasDesc(catalog[1..][j]) {
          var j :| 0 <= j < |catalog| - 1 && !HasDesc(catalog[1..][j]);
          assert catalog[j + 1] == catalog[1..][j];
        }
      }
    }
  }

  /** `next(desc for act, desc in zip(names, descs) if act == name)`; `zip` stops at the shorter list. */
  function FirstMatch(names: seq<string>, descs: seq<string>, name: string): Result<string, PyError> {
    if names == [] || descs == [] then Err(StopIteration)
    else if names[0] == name then Ok(descs[0])
    else FirstMatch(names[1..], descs[1..], name)
  }

  /** The search fails with StopIteration exactly when no name matches, and otherwise gives the
      description paired with the first matching name. */
  lemma {:induction false} FirstMatchSpec(names: seq<string>, descs: seq<string>, name: string)
    requires |names| == |descs|
    ensures FirstMatch(names, descs, name).Err? <==> name !in names
    ensures FirstMatch(names, descs, name).Err? ==> FirstMatch(names, descs, name).error == StopIteration
    ensures FirstMatch(names, descs, name).Ok? ==>
      exists j :: 0 <= j < |names| && names[j] == name && name !in names[..j] &&
        FirstMatch(names, descs, name).value == descs[j]
  {
    if names != [] {
      if names[0] == name {
        assert names[..0] == [];
      } else {
        FirstMatchSpec(names[1..], descs[1..], name);
        assert names == [names[0]] + names[1..];
        var r := FirstMatch(names, descs, name);
        if r.Ok? {
          var j :| 0 <= j < |names| - 1 && names[1..][j] == name && name !in names[1..][..j] && r.value == descs[1..][j];
          assert names[..j + 1] == [names[0]] + names[1..][..j];
        }
      }
    }
  }

  /** The description of the act called `name` (app.py line 70), or the exception that line raises. */
  function LookupDesc(catalog: seq<string>, name: string): Result<string, PyError> {
    match Descs(catalog)
    case Err(e) => Err(e)
    case Ok(descs) => FirstMatch(Names(catalog), descs, name)
  }

  /** The lookup raises IndexError when some entry has no separator, StopIteration when no entry has
      the name, and otherwise gives the second " - "-piece (`split(" - ")[1]`) of the first entry with that name. */
  lemma LookupDescSpec(catalog: seq<string>, name: string)
    ensures LookupDesc(catalog, name) == Err(IndexError) <==>
      exists j :: 0 <= j < |catalog| && !HasDesc(catalog[j])
    ensures LookupDesc(catalog, name) == Err(StopIteration) <==>
      (forall j :: 0 <= j < |catalog| ==> HasDesc(catalog[j])) && name !in Names(catalog)
    ensures LookupDesc(catalog, name).Ok? ==>
      exists j :: 0 <= j < |catalog| && ActName(catalog[j]) == name &&
        (forall k :: 0 <= k < j ==> ActName(catalog[k]) != name) &&
        LookupDesc(catalog, name).value == Split(catalog[j], Sep)[1]
  {
    var r := LookupDesc(catalog, name);
    DescsSpec(catalog);
    NamesSpec(catalog);
    if Descs(catalog).Ok? {
      FirstMatchSpec(Names(catalog), Descs(catalog).value, name);
      var names, descs := Names(catalog), Descs(catalog).value;
      if r.Ok? {
        var j :| 0 <= j < |names| && names[j] == name && name !in names[..j] && r.value == descs[j];
        assert forall k :: 0 <= k < j ==> names[..j][k] == ActName(catalog[k]);
      }
    }
  }

  /** The `type_map` dictionary: a sidebar key to the word used in the prompt; None for a missing key. */
  function TypeMap(key: string): Option<string> {
    if key == "A paragraph describing a scenario" then Some("paragraph")
    else if key == "A comic strip of a scenario" then Some("comic strip")
    else if key == "A skit showing a scenario" then Some("skit")
    else None
  }

  /** `type_map` has exactly the sidebar labels as keys. */
  lemma TypeMapKeys(key: string)
    ensures TypeMap(key).Some? <==> key in ProjectTypes
  {
  }

  /** An entry whose name has no '-' splits into that name followed by the pieces of its description. */
  lemma EntrySplit(name: string, desc: string)
    requires '-' !in name
    ensures Split(Entry(name, desc), Sep) == [name] + Split(desc, Sep)
    ensures ActName(Entry(name, desc)) == name && HasDesc(Entry(name, desc))
  {
    NoDashNoSep(name + " -", name);
    assert Sep[..|Sep| - 1] == " -";
    SplitAround(name, Sep, desc);
  }

  /** " - " cannot occur in `x` when its only '-' characters lie past `prefix`'s last character plus one. */
  lemma NoDashNoSep(x: string, prefix: string)
    requires '-' !in prefix
    requires x == prefix || x == prefix + " -"
    ensures !Contains(x, Sep)
  {
    forall j: nat | j + |Sep| <= |x| ensures !OccursAt(x, Sep, j) {
      if j + 1 < |prefix| {
        assert x[j + 1] == prefix[j + 1] != '-';
      } else {
        assert x[j + 1] == ' ';
      }
      assert x[j..j + |Sep|][1] != Sep[1];
    }
    ContainsIff(x, Sep);
  }

  /** Every entry of a catalog built from dash-free names splits into its name and the pieces of its description. */
  lemma EntriesSplit(names: seq<string>, descs: seq<string>)
    requires |names| == |descs|
    requires forall j :: 0 <= j < |names| ==> '-' !in names[j]
    ensures forall j :: 0 <= j < |names| ==>
      HasDesc(Entries(names, descs)[j]) && ActName(Entries(names, descs)[j]) == names[j] &&
      Split(Entries(names, descs)[j], Sep)[1] == Split(descs[j], Sep)[0]
  {
    forall j | 0 <= j < |names|
      ensures HasDesc(Entries(names, descs)[j]) && ActName(Entries(names, descs)[j]) == names[j]
      ensures Split(Entries(names, descs)[j], Sep)[1] == Split(descs[j], Sep)[0]
    {
      EntrySplit(names[j], descs[j]);
    }
  }

  /** A name that does not occur earlier finds the description paired with it. */
  lemma {:induction false} FirstMatchAt(names: seq<string>, descs: seq<string>, j: nat)
    requires |names| == |descs| && j < |names|
    requires forall k :: 0 <= k < j ==> names[k] != names[j]
    ensures FirstMatch(names, descs, names[j]) == Ok(descs[j])
  {
    if j > 0 {
      FirstMatchAt(names[1..], descs[1..], j - 1);
    }
  }

  /** In a catalog built from dash-free, pairwise distinct names, looking up the name at `j`
      gives the description at `j` up to any further separator. */
  lemma LookupEntry(names: seq<string>, descs: seq<string>, j: nat)
    requires |names| == |descs| && j < |names|
    requires forall k :: 0 <= k < |names| ==> '-' !in names[k]
    requires forall k, l :: 0 <= k < l < |names| ==> names[k] != names[l]
    ensures LookupDesc(Entries(names, descs), names[j]) == Ok(Split(descs[j], Sep)[0])
  {
    var catalog := Entries(names, descs);
    EntriesSplit(names, descs);
    NamesOfEntries(names, descs);
    DescsSpec(catalog);
    var ds := Descs(catalog).value;
    FirstMatchAt(names, ds, j);
    assert ds[j] == Split(catalog[j], Sep)[1];
  }

  /** A catalog built from dash-free names offers exactly those names. */
  lemma NamesOfEntries(names: seq<string>, descs: seq<string>)
    requires |names| == |descs|
    requires forall k :: 0 <= k < |names| ==> '-' !in names[k]
    ensures Names(Entries(names, descs)) == names
  {
    EntriesSplit(names, descs);
    NamesSpec(Entries(names, descs));
  }

  /** No act name contains '-'. */
  lemma NamesDashFree()
    ensures forall j :: 0 <= j < |ActNames| ==> '-' !in ActNames[j]
  {
    assert '-' !in ActNames[0] && '-' !in ActNames[1] && '-' !in ActNames[2] && '-' !in ActNames[3];
  }

  /** The act names are pairwise distinct. */
  lemma NamesDistinct()
    ensures forall j, k :: 0 <= j < k < |ActNames| ==> ActNames[j] != ActNames[k]
  {
    assert ActNames[0][1] != ActNames[1][1];
    assert ActNames[0][0] != ActNames[2][0] && ActNames[0][0] != ActNames[3][0];
    assert ActNames[1][0] != ActNames[2][0] && ActNames[1][0] != ActNames[3][0];
    assert ActNames[2][0] != ActNames[3][0];
  }

  /** The act description at `j` contains no '-'. */
  lemma DescDashFree(j: nat)
    requires j < |ActDescs|
    ensures '-' !in ActDescs[j]
  {
    if j == 0 {
      assert '-' !in ActDescs[0];
    } else if j == 1 {
      SecondDescDashFree();
    } else if j == 2 {
      ThirdDescDashFree();
    } else {
      FourthDescDashFree();
    }
  }

  // Each longer description gets a lemma of its own, so each is checked in a proof of its own.

  lemma SecondDescDashFree()
    ensures '-' !in ActDescs[1]
  {
  }

  lemma ThirdDescDashFree()
    ensures '-' !in ActDescs[2]
  {
  }

  lemma FourthDescDashFree()
    ensures '-' !in ActDescs[3]
  {
  }

  /** A text without '-' is a single piece when split on the separator. */
  lemma DashFreeWhole(x: string)
    requires '-' !in x
    ensures Split(x, Sep) == [x]
  {
    NoDashNoSep(x, x);
    ContainsIff(x, Sep);
    SplitHead(x, Sep);
  }

  /** Every act in the catalog has a description, the sidebar offers exactly the catalog's names,
      and looking one up never raises: it gives that act's description. */
  lemma ActsLookup()
    ensures forall j :: 0 <= j < |Acts| ==> HasDesc(Acts[j])
    ensures Names(Acts) == ActNames
    ensures forall j :: 0 <= j < |ActNames| ==> LookupDesc(Acts, ActNames[j]) == Ok(ActDescs[j])
  {
    NamesDashFree();
    NamesDistinct();
    EntriesSplit(ActNames, ActDescs);
    NamesOfEntries(ActNames, ActDescs);
    forall j | 0 <= j < |ActNames| ensures LookupDesc(Acts, ActNames[j]) == Ok(ActDescs[j]) {
      LookupEntry(ActNames, ActDescs, j);
      DescDashFree(j);
      DashFreeWhole(ActDescs[j]);
    }
  }
}
