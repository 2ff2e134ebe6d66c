/**
 * The pure text helpers of the controller: the system prompt built at start,
 * the keyword test that ends information gathering, and the name of the
 * downloaded file.
 */
module AppText {
  import opened Strings

  /** The system prompt's own text around the selection: the prompt is `head`, the project word,
      `about`, the act name, ": ", the act description, ".", a blank line, "Rules:", the `rules`
      one per line, a blank line and `closing`. */
  datatype Wording = Wording(head: string, about: string, rules: seq<string>, closing: string)

  /** The line break and the twelve spaces of indentation that start every later line of the prompt. */
  const Indent: string := "\n            "

  /** Each rule on a line of its own. */
  function RuleLines(rules: seq<string>): string {
    if rules == [] then "" else Indent + rules[0] + RuleLines(rules[1..])
  }

  /** The pieces of the system prompt for the chosen project word, act name and act description. */
  function PromptParts(w: Wording, projWord: string, act: string, desc: string): seq<string> {
    [w.head, projWord, w.about, act, ": ", desc, "." + Indent + Indent + "Rules:",
     RuleLines(w.rules), Indent + Indent + w.closing]
  }

  /** The system prompt for the chosen project word, act name and act description (app.py lines 77-91). */
  function BuildPrompt(w: Wording, projWord: string, act: string, desc: string): string {
    Concat(PromptParts(w, projWord, act, desc))
  }

  const ParagraphRule: string := "- For paragraphs: Aim for 4-6 sentences."
  const ComicRule: string := "- For comic strips: Create 3-4 panels with simple text descriptions (no images yet)."
  const SkitRule: string := "- For skits: Write a short script with 2-3 characters and simple dialogue."

  /** The wording of the page's system prompt. */
  const PromptWording: Wording := Wording(
    "You are a kind and patient AI teacher assistant for special needs students in a general education classroom. " +
    Indent + "Your goal is to help the student create a simple, fun ",
    " about a scenario under the ",
    [ "- Keep everything simple, positive, and short.",
      "- Always ask one question at a time, with 2-4 simple options (e.g., A, B, C) for the student to choose from.",
      "- Use the student's choices to build the project step by step.",
      ParagraphRule,
      ComicRule,
      SkitRule,
      "- End by generating the full project once enough info is gathered.",
      "- If the student says \"done\" or similar, generate the final output.",
      "- Be encouraging: \"Great choice!\" or \"That's a cool idea!\"" ],
    "Start by asking: 'What's a fun scenario you can think of for this act? Like, who is involved? " +
    "(A) A president and vice president, (B) Government workers at a party, (C) Friends talking about " +
    "elections, (D) Something else - tell me!'")

  /** The suffix added to the system prompt for the final generation (app.py line 140). */
  const FinalSuffix: string := "\n\nNow, using all the info from our chat, generate the final project."

  /** Whatever the wording, the prompt names the project word, the act and its description. */
  lemma PromptMentionsSelection(w: Wording, projWord: string, act: string, desc: string)
    ensures Contains(BuildPrompt(w, projWord, act, desc), projWord)
    ensures Contains(BuildPrompt(w, projWord, act, desc), act)
    ensures Contains(BuildPrompt(w, projWord, act, desc), desc)
  {
    var parts := PromptParts(w, projWord, act, desc);
    ConcatContains(parts, 1);
    ConcatContains(parts, 3);
    ConcatContains(parts, 5);
  }

  /** Every rule occurs in the rule lines. */
  lemma {:induction false} RuleLinesContain(rules: seq<string>, k: nat)
    requires k < |rules|
    ensures Contains(RuleLines(rules), rules[k])
  {
    if k == 0 {
      ContainsMiddle(Indent, rules[0], RuleLines(rules[1..]));
    } else {
      RuleLinesContain(rules[1..], k - 1);
      ContainsExtend(Indent + rules[0], RuleLines(rules[1..]), "", rules[k]);
      assert Indent + rules[0] + RuleLines(rules[1..]) + "" == RuleLines(rules);
    }
  }

  /** Whatever the selection, the prompt carries every rule of its wording. */
  lemma PromptCarriesRules(w: Wording, projWord: string, act: string, desc: string, k: nat)
    requires k < |w.rules|
    ensures Contains(BuildPrompt(w, projWord, act, desc), w.rules[k])
  {
    var parts := PromptParts(w, projWord, act, desc);
    ConcatContains(parts, 7);
    RuleLinesContain(w.rules, k);
    ContainsTrans(Concat(parts), RuleLines(w.rules), w.rules[k]);
  }

  /** Whatever the selection, the page's prompt carries the length rule of every project type. */
  lemma PromptHasLengthRules(projWord: string, act: string, desc: string)
    ensures Contains(BuildPrompt(PromptWording, projWord, act, desc), ParagraphRule)
    ensures Contains(BuildPrompt(PromptWording, projWord, act, desc), ComicRule)
    ensures Contains(BuildPrompt(PromptWording, projWord, act, desc), SkitRule)
  {
    PromptCarriesRules(PromptWording, projWord, act, desc, 3);
    PromptCarriesRules(PromptWording, projWord, act, desc, 4);
    PromptCarriesRules(PromptWording, projWord, act, desc, 5);
  }

  /** Whatever the wording, the prompt is never empty, so a started session counts as started (app.py line 101). */
  lemma PromptNonEmpty(w: Wording, projWord: string, act: string, desc: string)
    ensures |BuildPrompt(w, projWord, act, desc)| > 0
  {
    ConcatContains(PromptParts(w, projWord, act, desc), 4);
  }

  /** The words whose presence in the lower-cased input ends information gathering. */
  const DoneWords: seq<string> := ["done", "finish", "ready"]

  /** `any(word in s for word in words)`. */
  predicate AnyContained(words: seq<string>, s: string) {
    words != [] && (Contains(s, words[0]) || AnyContained(words[1..], s))
  }

  /** `any(word in prompt.lower() for word in ["done", "finish", "ready"])` (app.py line 132). */
  predicate IsDoneInput(input: string) {
    AnyContained(DoneWords, Lower(input))
  }

  /** `any` holds exactly when one of the words occurs somewhere in the string. */
  lemma {:induction false} AnyContainedIff(words: seq<string>, s: string)
    ensures AnyContained(words, s) <==> exists j: nat, i: nat :: j < |words| && OccursAt(s, words[j], i)
  {
    if words != [] {
      AnyContainedIff(words[1..], s);
      ContainsIff(s, words[0]);
      if exists j: nat, i: nat :: j < |words| && OccursAt(s, words[j], i) {
        var j: nat, i: nat :| j < |words| && OccursAt(s, words[j], i);
        if j > 0 {
          assert OccursAt(s, words[1..][j - 1], i);
        }
      }
      if AnyContained(words[1..], s) {
        var j: nat, i: nat :| j < |words[1..]| && OccursAt(s, words[1..][j], i);
        assert OccursAt(s, words[j + 1], i);
      }
    }
  }

  /** Gathering ends exactly when one of the words occurs somewhere in the lower-cased input. */
  lemma DoneInputIff(input: string)
    ensures IsDoneInput(input) <==>
      exists j: nat, i: nat :: j < |DoneWords| && OccursAt(Lower(input), DoneWords[j], i)
  {
    AnyContainedIff(DoneWords, Lower(input));
    assert IsDoneInput(input) == AnyContained(DoneWords, Lower(input));
    assert AnyContained(DoneWords, Lower(input)) <==>
      exists j: nat, i: nat :: j < |DoneWords| && OccursAt(Lower(input), DoneWords[j], i);
  }

  /** The test ignores ASCII case. */
  lemma DoneInputCaseInsensitive(input: string)
    ensures IsDoneInput(Lower(input)) == IsDoneInput(input)
  {
    LowerIdempotent(input);
  }

  /** The test is a plain substring test: text around a finishing input never undoes it. */
  lemma DoneInputExtends(a: string, input: string, b: string)
    requires IsDoneInput(input)
    ensures IsDoneInput(a + input + b)
  {
    DoneInputIff(input);
    var j: nat, i: nat :| j < |DoneWords| && OccursAt(Lower(input), DoneWords[j], i);
    assert Contains(Lower(input), DoneWords[j]) by { ContainsIff(Lower(input), DoneWords[j]); }
    LowerAppend(a + input, b);
    LowerAppend(a, input);
    ContainsExtend(Lower(a), Lower(input), Lower(b), DoneWords[j]);
    ContainsIff(Lower(a + input + b), DoneWords[j]);
    DoneInputIff(a + input + b);
  }

  /** A word inside a longer one counts: "already" ends gathering. */
  lemma AlreadyIsDone()
    ensures IsDoneInput("already")
  {
    assert Lower("already") == "al" + "ready" + "";
    ContainsMiddle("al", "ready", "");
    assert DoneWords[2] == "ready";
  }

  /** Case does not matter: "FINISHED" ends gathering. */
  lemma FinishedIsDone()
    ensures IsDoneInput("FINISHED")
  {
    assert Lower("FINISHED") == "" + "finish" + "ed";
    ContainsMiddle("", "finish", "ed");
    assert DoneWords[1] == "finish";
  }

  /** A bare option letter is too short to hold any of the words. */
  lemma OptionLetterNotDone(c: char)
    ensures !IsDoneInput([c])
  {
    LowerShape([c]);
    assert forall j :: 0 <= j < |DoneWords| ==> |DoneWords[j]| >= 4;
    DoneInputIff([c]);
  }

  /** The download file name: the act as it is, "_", the lower-cased project type with spaces
      turned into "_", and ".txt" (app.py line 157). */
  function FileName(act: string, projectType: string): string {
    act + "_" + ReplaceChar(Lower(projectType), ' ', '_') + ".txt"
  }

  /** The file name keeps the act unchanged, ends in ".txt", and its middle part is the project type
      character by character, lower-cased, with every space replaced, so it holds no space or capital. */
  lemma FileNameShape(act: string, projectType: string)
    ensures |FileName(act, projectType)| == |act| + |projectType| + 5
    ensures FileName(act, projectType)[..|act| + 1] == act + "_"
    ensures FileName(act, projectType)[|act| + 1 + |projectType|..] == ".txt"
    ensures var mid := FileName(act, projectType)[|act| + 1..|act| + 1 + |projectType|];
      forall i :: 0 <= i < |projectType| ==>
        mid[i] == (if projectType[i] == ' ' then '_' else LowerChar(projectType[i])) &&
        mid[i] != ' ' && !('A' <= mid[i] <= 'Z')
  {
    var low := Lower(projectType);
    LowerShape(projectType);
    ReplaceCharShape(low, ' ', '_');
    var mid := ReplaceChar(low, ' ', '_');
    var f := FileName(act, projectType);
    assert f == act + "_" + mid + ".txt";
    assert f[|act| + 1..|act| + 1 + |projectType|] == mid;
  }
}
