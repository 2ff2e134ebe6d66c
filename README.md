# Session controller of the U.S. Government Acts helper

The page script `app.py` guides a student through a short conversation with a
chat model. The student picks an act and a project type, answers questions, and
gets a finished paragraph, comic strip or skit. The logic that has state is a
small state machine over six session keys:

- `act` and `project_type`;
- `chat_history`;
- `system_prompt`;
- `gathering_info`;
- `final_project`.

Five transitions act on these keys on every rerun of the page: sidebar
selection, "Start Creating!", a gathering turn, the final generation, and
"Create Another Project".

This project models that controller in Dafny:

- `wrappers.dfy`: the `Option` and `Result` types.
- `strings.dfy`: the Python `str` operations the controller uses. These are
  substring search (the `in` of the keyword test, and the separator search
  inside `split`), `split` on a non-empty separator with its inverse
  `sep.join`, an ASCII `lower`, and a one-character `replace`. It also proves
  their laws: split then join gives the input back, no piece holds the
  separator, lower-casing is idempotent, and so on.
- `catalog.dfy`: the four acts `"<name> - <description>"` and the sidebar name
  list `[a.split(" - ")[0] for a in acts]`. It models the description lookup
  `next(desc for act, desc in zip(names, descs) if act == name)`, including
  its `IndexError` and `StopIteration`, and the `type_map` dictionary.
- `apptext.dfy`: the system prompt, the `done` / `finish` / `ready` keyword
  test, the final-generation suffix, and the download file name.
- `controller.dfy`: the class `Session`, with the six keys as fields, and the
  transitions as methods.
  - Each method that calls the chat API returns the request it would send.
    It takes the API's answer as a parameter: a reply, or a failure.
  - `SidebarRun` and `MainRun` compose the transitions the way one rerun of
    the page does.

The history invariant `Conversation` says two things:

- every stored message is a user message, or an assistant message straight
  after a user message;
- the system message is never stored, only put in front of the history for
  each request.

Every method keeps this invariant, together with the flag invariants in
`Session.Valid`.

Some behaviour of the code is worth stating plainly, because the model keeps it:

- The sidebar overwrites `act` and `project_type` on every rerun, in every
  phase (app.py:58-65). The stored system prompt keeps the act it was built
  for.
- A failing chat call leaves the user's message in the history (app.py:113
  runs before app.py:121).
- A final project that is the empty string counts as missing, so it is
  generated again (app.py:138).
- "Create Another Project" is reachable only inside the branch that generates
  the final project (app.py:138-165).
  - That branch runs only while no final project is stored.
  - On the reruns after a successful generation, the whole branch is skipped.
    The finished project is no longer shown and the reset button is not
    reached.
  - `Session.MainRun` models this nesting: once a final project is stored, a
    rerun changes nothing.
  - A new conversation can still be begun from the sidebar, because
    `Session.Start` clears the final project.

## Model

| member | source | states |
|---|---|---|
| Strings.IndexOf | app.py:132 | the result is the leftmost index where the word occurs, or None exactly when it occurs nowhere; `in` and `split` are built on it |
| Strings.ContainsIff | app.py:132 | `t in s` holds exactly when `t` occurs at some index of `s` |
| Strings.Split | app.py:58 | Python's `s.split(sep)` for a non-empty `sep`; characterised by SplitJoin, SplitPiecesLackSeparator and SplitAround |
| Strings.SplitJoin | app.py:58 | joining the pieces of a split with the separator gives back the split string |
| Strings.SplitPiecesLackSeparator | app.py:58 | no piece of a split contains the separator |
| Strings.SplitAround | app.py:58 | a string `a + sep + b` whose `a`, followed by all but the last character of `sep`, holds no `sep` splits into `a` followed by the pieces of `b` |
| Strings.Lower | app.py:132 | `str.lower` on ASCII letters; characterised by LowerShape and LowerIdempotent |
| Strings.LowerShape | app.py:132 | lower-casing keeps the length, maps each character on its own and leaves no ASCII capital |
| Strings.LowerIdempotent | app.py:132 | lower-casing twice is lower-casing once |
| Strings.ReplaceChar | app.py:157 | `.replace(' ', '_')` for one character by another; characterised by ReplaceCharShape and ReplaceCharRemoves |
| Strings.ReplaceCharShape | app.py:157 | replacing a character keeps the length and changes exactly the positions that held it |
| Strings.ReplaceCharRemoves | app.py:157 | after replacing ' ' by '_' no ' ' is left |
| Catalog.Entries | app.py:48-53 | each catalog entry is a name, " - " and a description, in order |
| Catalog.Names | app.py:58 | the sidebar list `[a.split(" - ")[0] for a in acts]`; characterised by NamesSpec and NamesOfEntries |
| Catalog.NamesSpec | app.py:58 | the offered names are the first piece of each entry, in catalog order |
| Catalog.Descs | app.py:70 | the list `[a.split(" - ")[1] for a in acts]` with its IndexError; characterised by DescsSpec |
| Catalog.DescsSpec | app.py:70 | the description list raises IndexError exactly when some entry has no " - ", and otherwise holds the second piece of each entry |
| Catalog.FirstMatch | app.py:70 | `next(...)` over the zip of names and descriptions, with its StopIteration; characterised by FirstMatchSpec and FirstMatchAt |
| Catalog.FirstMatchSpec | app.py:70 | the search raises StopIteration exactly when no name matches, and otherwise gives the description paired with the first matching name |
| Catalog.LookupDesc | app.py:70 | the whole description lookup; characterised by LookupDescSpec, LookupEntry and ActsLookup |
| Catalog.LookupDescSpec | app.py:70 | the lookup raises IndexError exactly when some entry has no " - ", StopIteration exactly when every entry has one and no name matches, and otherwise gives the second `" - "`-piece (`split(" - ")[1]`) of the first entry with that name |
| Catalog.TypeMap | app.py:71-75 | the `type_map` dictionary; characterised by TypeMapKeys |
| Catalog.TypeMapKeys | app.py:71-76 | the dictionary has a word exactly for the three sidebar labels |
| Catalog.EntrySplit | app.py:58 | an entry whose name has no '-' splits into that name followed by the pieces of its description, so the offered name is the name and a description exists |
| Catalog.FirstMatchAt | app.py:70 | a name that does not occur earlier finds the description paired with it |
| Catalog.LookupEntry | app.py:70 | in a catalog of dash-free, distinct names, looking up the name at `j` never raises and gives the description at `j` up to any further " - " |
| Catalog.NamesOfEntries | app.py:58 | a catalog of dash-free names offers exactly those names |
| Catalog.NamesDashFree | app.py:48-53 | no act name contains '-' |
| Catalog.NamesDistinct | app.py:48-53 | the act names are pairwise distinct |
| Catalog.ActsLookup | app.py:48-70 | every act has a description, the sidebar offers exactly the four names in order, and looking up any of them never raises and gives exactly its description, since no description holds '-' |
| AppText.BuildPrompt | app.py:77-91 | the system-prompt f-string; characterised by PromptMentionsSelection, PromptCarriesRules, PromptHasLengthRules and PromptNonEmpty |
| AppText.PromptMentionsSelection | app.py:77-78 | the system prompt contains the project word, the act name and the act description |
| AppText.RuleLinesContain | app.py:80-89 | each rule occurs in the rule lines |
| AppText.PromptCarriesRules | app.py:80-89 | whatever the selection, the prompt contains every rule of its wording |
| AppText.PromptHasLengthRules | app.py:84-86 | whatever the selection, the page's prompt contains the paragraph, comic-strip and skit length rules |
| AppText.PromptNonEmpty | app.py:77-91 | the prompt is never empty |
| AppText.IsDoneInput | app.py:132 | the keyword test; characterised by DoneInputIff, DoneInputCaseInsensitive and DoneInputExtends |
| AppText.AnyContainedIff | app.py:132 | `any(word in s ...)` holds exactly when one of the words occurs in `s` |
| AppText.DoneInputIff | app.py:132 | the test holds exactly when "done", "finish" or "ready" occurs somewhere in the lower-cased input |
| AppText.DoneInputCaseInsensitive | app.py:132 | the test gives the same answer for an input and its lower-cased form |
| AppText.DoneInputExtends | app.py:132 | text added on either side of an input that ends gathering still ends it |
| AppText.AlreadyIsDone | app.py:132 | "already" ends gathering, because it contains "ready" |
| AppText.FinishedIsDone | app.py:132 | "FINISHED" ends gathering, because case is ignored |
| AppText.OptionLetterNotDone | app.py:132 | a one-letter option answer never ends gathering |
| AppText.FileName | app.py:157 | the download file name; characterised by FileNameShape |
| AppText.FileNameShape | app.py:157 | the file name is the act unchanged, "_", the project type lower-cased with every space made "_", and ".txt"; its middle holds no space and no capital |
| Controller.TypeWord | app.py:76 | `type_map[selected_type]` has a value exactly when the selection is one of the three labels |
| Controller.StartPrompt | app.py:67-91 | the prompt a start press would store, or the exception it raises; characterised by StartPromptSpec and StartPromptNonEmpty |
| Controller.StartPromptSpec | app.py:70-91 | the start prompt is built exactly when the act's description is found and the type is a label; a lookup exception comes first; the prompt names the act, its description and the project word |
| Controller.StartPromptNonEmpty | app.py:77-91 | a built start prompt is never empty |
| Controller.ConversationAppend | app.py:113-129 | appending a user message, with or without its answer, keeps the history a conversation |
| Controller.ConversationRoles | app.py:113-129 | a conversation holds no system message and does not open with the assistant |
| Controller.Session.constructor | app.py:34-45 | a new session has every key at its default and is idle |
| Controller.Session.SelectSidebar | app.py:58-65 | a non-empty selection overwrites `act` or `project_type`; nothing else changes, and neither does the phase |
| Controller.Session.Start | app.py:67-98 | without both selections it only warns and changes nothing; a lookup exception changes nothing; otherwise the prompt for the act and the chosen label is stored, gathering is on, the history is empty and the final project cleared |
| Controller.Session.UserTurn | app.py:110-135 | the request is the system message and the whole history with the user's message, with 300 tokens; a failure leaves the user's message appended; a reply appends exactly the user's and the assistant's messages; after a reply, gathering ends exactly when the input holds a keyword; after a failure it stays on |
| Controller.Session.Finalize | app.py:138-148 | the request is the system prompt with the final suffix, then the whole history, with 800 tokens; the reply becomes the final project |
| Controller.Session.Reset | app.py:162-165 | every key is back at its default and the session is idle |
| Controller.Session.SidebarRun | app.py:56-98 | a non-empty selection overwrites `act` or `project_type`; only a press acts; a press warns exactly when a selection is missing; a warning, an exception or no press leaves the conversation fields alone; a start stores the prompt built for the stored act and the selected type, turns gathering on, empties the history and clears the final project |
| Controller.Session.MainRun | app.py:101-165 | nothing happens until all three of act, type and prompt are set; while gathering, only a non-empty input makes a turn, whose request, new history and gathering flag are those of a gathering turn; a non-empty final project is never generated again; otherwise the request is the prompt with the final suffix and the whole history, the reply becomes the final project with every other key unchanged, and only after a reply can the reset act |

## Left out

- The chat client: `init_client`, the `XAI_API_KEY` lookup, the base URL and the model name (app.py:16-27, 121-127, 141-147). Each call is replaced by its request and an `ApiResult` parameter.
- Temperatures 0.7 and 0.5 are left out. They only parameterise the external call.
- A reply whose content is None is not modelled. A reply is always a string.
- Rendering is left out: title, headers, chat bubbles, spinners, markdown, the info and warning texts, and the download button's bytes.
- `st.rerun` and the button click mechanics are left out. A button press is a boolean parameter of the rerun that sees it.
- Exceptions are not propagated. An exception raised by the lookups at start, or by a failing chat call, becomes an outcome of the method. The model proves which fields it leaves changed. How Streamlit aborts and reports the run is not modelled.
- Strings.Lower: lower-cases ASCII letters only. Python's `str.lower` also lower-cases other Unicode letters, so a project type with such letters would give a different file name. The keyword test is not affected: no non-ASCII character lower-cases into a completion of "done", "finish" or "ready".
- The header text at app.py:102 is left out. It is rendering only.
