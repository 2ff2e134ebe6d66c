/**
 * The conversation session controller: the six session fields and the
 * transitions that the page script applies to them on each rerun. The chat API
 * is not called here; each transition that talks to it returns the request it
 * would send and takes the API's answer (a reply or a failure) as a parameter.
 */
module Controller {
  import opened Wrappers
  import opened Strings
  import opened Catalog
  import opened AppText

  datatype Role = System | User | Assistant

  datatype Message = Message(role: Role, content: string)

  /** A chat-completion request: the role-tagged messages and the reply-token budget. */
  datatype Request = Request(messages: seq<Message>, maxTokens: nat)

  /** Reply-token budgets of a gathering turn and of the final generation (app.py lines 124, 144). */
  const GatherMaxTokens: nat := 300
  const FinalMaxTokens: nat := 800

  /** What the chat API gives back for one request: the reply text, or an exception. */
  datatype ApiResult = Reply(content: string) | ApiError

  /** The phases of a conversation, read off the session flags. */
  datatype Phase = Idle | Gathering | Finalizing | Complete

  /** What pressing "Start Creating!" does: a warning, an exception from the lookups, or a new conversation. */
  datatype StartOutcome = Warned | Raised(error: PyError) | Started

  /** Python truthiness of a value that is None or a string. */
  predicate Truthy(o: Option<string>) {
    o.Some? && o.value != ""
  }

  /** `type_map[selected_type]`: a None or unknown label raises KeyError. */
  function TypeWord(selectedType: Option<string>): (r: Option<string>)
    ensures r.Some? <==> selectedType.Some? && selectedType.value in ProjectTypes
  {
    TypeMapKeys(if selectedType.Some? then selectedType.value else "");
    if selectedType.Some? then TypeMap(selectedType.value) else None
  }

  /** The system prompt that "Start Creating!" builds for the act named `act` and the sidebar label
      `selectedType`, or the exception raised first: the description lookup runs before `type_map`. */
  function StartPrompt(acts: seq<string>, wording: Wording, act: string, selectedType: Option<string>): Result<string, PyError> {
    match LookupDesc(acts, act)
    case Err(e) => Err(e)
    case Ok(desc) =>
      match TypeWord(selectedType)
      case None => Err(KeyError)
      case Some(word) => Ok(BuildPrompt(wording, word, act, desc))
  }

  /** Start succeeds exactly when the act is found and the label is a `type_map` key; the prompt it
      builds names the act, the act's description and the project word. */
  lemma StartPromptSpec(acts: seq<string>, wording: Wording, act: string, selectedType: Option<string>)
    ensures StartPrompt(acts, wording, act, selectedType).Ok? <==>
      LookupDesc(acts, act).Ok? && selectedType.Some? && selectedType.value in ProjectTypes
    ensures LookupDesc(acts, act).Err? ==> StartPrompt(acts, wording, act, selectedType) == Err(LookupDesc(acts, act).error)
    ensures StartPrompt(acts, wording, act, selectedType).Ok? ==>
      Contains(StartPrompt(acts, wording, act, selectedType).value, act) &&
      Contains(StartPrompt(acts, wording, act, selectedType).value, LookupDesc(acts, act).value) &&
      Contains(StartPrompt(acts, wording, act, selectedType).value, TypeMap(selectedType.value).value)
  {
    var r := StartPrompt(acts, wording, act, selectedType);
    if r.Ok? {
      PromptMentionsSelection(wording, TypeWord(selectedType).value, act, LookupDesc(acts, act).value);
    }
  }

  /** A built prompt is never empty, so a started session shows its chat area (app.py line 101). */
  lemma StartPromptNonEmpty(acts: seq<string>, wording: Wording, act: string, selectedType: Option<string>)
    requires StartPrompt(acts, wording, act, selectedType).Ok?
    ensures |StartPrompt(acts, wording, act, selectedType).value| > 0
  {
    PromptNonEmpty(wording, TypeWord(selectedType).value, act, LookupDesc(acts, act).value);
  }

  /** Message `k` of `h` is a user message, or an assistant message answering the user message just before it. */
  predicate WellPlaced(h: seq<Message>, k: int)
    requires 0 <= k < |h|
  {
    h[k].role == User || (h[k].role == Assistant && k > 0 && h[k - 1].role == User)
  }

  /** A history the controller can build: user messages, each possibly answered by one assistant
      message straight after it (an unanswered one is left by a failed call). */
  ghost predicate Conversation(h: seq<Message>) {
    forall k {:trigger WellPlaced(h, k)} :: 0 <= k < |h| ==> WellPlaced(h, k)
  }

  /** Appending a user message, with or without the assistant's answer, keeps a conversation one. */
  lemma ConversationAppend(h: seq<Message>, text: string, answer: Option<string>)
    requires Conversation(h)
    ensures Conversation(h + [Message(User, text)])
    ensures answer.Some? ==> Conversation(h + [Message(User, text), Message(Assistant, answer.value)])
  {
    var h1 := h + [Message(User, text)];
    forall k | 0 <= k < |h1| ensures WellPlaced(h1, k) {
      if k < |h| {
        assert WellPlaced(h, k);
      }
    }
    if answer.Some? {
      var h2 := h1 + [Message(Assistant, answer.value)];
      assert h2 == h + [Message(User, text), Message(Assistant, answer.value)];
      forall k | 0 <= k < |h2| ensures WellPlaced(h2, k) {
        if k < |h1| {
          assert WellPlaced(h1, k);
        }
      }
    }
  }

  /** A conversation never stores a system message and never opens with the assistant:
      the system message is put in front of it for each request instead. */
  lemma ConversationRoles(h: seq<Message>)
    requires Conversation(h)
    ensures forall k :: 0 <= k < |h| ==> h[k].role != System
    ensures |h| > 0 ==> h[0].role == User
  {
    forall k | 0 <= k < |h| ensures h[k].role != System {
      assert WellPlaced(h, k);
    }
    if |h| > 0 {
      assert WellPlaced(h, 0);
    }
  }

  class Session {
    /** The catalog of acts the page offers (the module-level list at app.py lines 48-53). */
    const acts: seq<string>
    /** The fixed text of the system prompt (app.py lines 77-91). */
    const wording: Wording

    var act: Option<string>
    var projectType: Option<string>
    var chatHistory: seq<Message>
    var systemPrompt: Option<string>
    var gatheringInfo: bool
    var finalProject: Option<string>

    /** The history is a conversation, and nothing has been said or produced before a start. */
    ghost predicate Valid()
      reads this
    {
      Conversation(chatHistory) &&
      (chatHistory != [] ==> Truthy(systemPrompt)) &&
      (!gatheringInfo ==> Truthy(systemPrompt)) &&
      (finalProject.Some? ==> !gatheringInfo)
    }

    /** The main chat area is shown (app.py line 101). */
    predicate Active()
      reads this
    {
      Truthy(act) && Truthy(projectType) && Truthy(systemPrompt)
    }

    ghost function Phase(): Phase
      reads this
    {
      if !Truthy(systemPrompt) then Idle
      else if gatheringInfo then Gathering
      else if !Truthy(finalProject) then Finalizing
      else Complete
    }

    /** The defaults applied to every missing session key (app.py lines 34-45). */
    predicate IsFresh()
      reads this
    {
      act == None && projectType == None && chatHistory == [] &&
      systemPrompt == None && gatheringInfo && finalProject == None
    }

    constructor ()
      ensures acts == Acts && wording == PromptWording
      ensures IsFresh() && Valid() && Phase() == Idle
    {
      acts := Acts;
      wording := PromptWording;
      act := None;
      projectType := None;
      chatHistory := [];
      systemPrompt := None;
      gatheringInfo := true;
      finalProject := None;
    }

    /** The sidebar boxes overwrite `act` and `project_type` with any non-empty selection,
        on every rerun and in every phase, and leave the conversation alone (app.py lines 58-65). */
    method SelectSidebar(selectedAct: Option<string>, selectedType: Option<string>)
      requires Valid()
      modifies this`act, this`projectType
      ensures Valid() && Phase() == old(Phase())
      ensures act == if Truthy(selectedAct) then selectedAct else old(act)
      ensures projectType == if Truthy(selectedType) then selectedType else old(projectType)
    {
      if Truthy(selectedAct) {
        act := selectedAct;
      }
      if Truthy(selectedType) {
        projectType := selectedType;
      }
    }

    /** "Start Creating!" (app.py lines 67-98): warns unless both selections are set; otherwise builds
        the prompt, which can raise, and then starts a new conversation. */
    method Start(selectedType: Option<string>) returns (outcome: StartOutcome)
      requires Valid()
      modifies this`systemPrompt, this`gatheringInfo, this`chatHistory, this`finalProject
      ensures Valid()
      ensures outcome == Warned <==> !(Truthy(act) && Truthy(projectType))
      ensures outcome.Raised? ==> StartPrompt(acts, wording, old(act).value, selectedType) == Err(outcome.error)
      ensures outcome == Started ==> systemPrompt.Some? && StartPrompt(acts, wording, old(act).value, selectedType) == Ok(systemPrompt.value)
      ensures outcome != Started ==> unchanged(this)
      ensures outcome == Started ==>
        systemPrompt.Some? && gatheringInfo && chatHistory == [] && finalProject == None && Phase() == Gathering
    {
      if !(Truthy(act) && Truthy(projectType)) {
        return Warned;
      }
      var desc := LookupDesc(acts, act.value);
      if desc.Err? {
        return Raised(desc.error);
      }
      var word := TypeWord(selectedType);
      if word.None? {
        return Raised(KeyError);
      }
      var prompt := BuildPrompt(wording, word.value, act.value, desc.value);
      PromptNonEmpty(wording, word.value, act.value, desc.value);
      systemPrompt := Some(prompt);
      gatheringInfo := true;
      chatHistory := [];
      finalProject := None;
      return Started;
    }

    /** One gathering turn (app.py lines 110-135): the user's message is appended first, the request is the
        system message followed by the whole history, the reply is appended after it, and only then does
        the keyword test decide whether gathering ends. A failing call leaves the user's message in place. */
    method UserTurn(input: string, reply: ApiResult) returns (request: Request)
      requires Valid() && Active() && gatheringInfo && input != ""
      modifies this`chatHistory, this`gatheringInfo
      ensures Valid()
      ensures request == Request([Message(System, systemPrompt.value)] + old(chatHistory) + [Message(User, input)], GatherMaxTokens)
      ensures reply.ApiError? ==> chatHistory == old(chatHistory) + [Message(User, input)] && gatheringInfo
      ensures reply.Reply? ==>
        chatHistory == old(chatHistory) + [Message(User, input), Message(Assistant, reply.content)] &&
        (gatheringInfo <==> !IsDoneInput(input))
      ensures Phase() == if reply.Reply? && IsDoneInput(input) then Finalizing else Gathering
    {
      ConversationAppend(chatHistory, input, if reply.Reply? then Some(reply.content) else None);
      chatHistory := chatHistory + [Message(User, input)];
      request := Request([Message(System, systemPrompt.value)] + chatHistory, GatherMaxTokens);
      match reply
      case ApiError =>
      case Reply(text) =>
        assert chatHistory + [Message(Assistant, text)] == old(chatHistory) + [Message(User, input), Message(Assistant, text)];
        chatHistory := chatHistory + [Message(Assistant, text)];
        if IsDoneInput(input) {
          gatheringInfo := false;
        }
    }

    /** The final generation (app.py lines 138-148): the request is the system prompt with the final
        instruction appended, followed by the whole history, and the reply becomes the final project. */
    method Finalize(reply: ApiResult) returns (request: Request)
      requires Valid() && Active() && !gatheringInfo && !Truthy(finalProject)
      modifies this`finalProject
      ensures Valid()
      ensures request == Request([Message(System, systemPrompt.value + FinalSuffix)] + chatHistory, FinalMaxTokens)
      ensures finalProject == if reply.Reply? then Some(reply.content) else old(finalProject)
      ensures Phase() == if reply.Reply? && reply.content != "" then Complete else Finalizing
    {
      request := Request([Message(System, systemPrompt.value + FinalSuffix)] + chatHistory, FinalMaxTokens);
      if reply.Reply? {
        finalProject := Some(reply.content);
      }
    }

    /** "Create Another Project" (app.py lines 162-165): all six keys are deleted and the rerun that
        follows re-applies their defaults. */
    method Reset()
      modifies this
      ensures IsFresh() && Valid() && Phase() == Idle
    {
      act := None;
      projectType := None;
      chatHistory := [];
      systemPrompt := None;
      gatheringInfo := true;
      finalProject := None;
    }

    /** The sidebar part of one rerun (app.py lines 56-98): the selections are stored, then the start
        button, when pressed, starts a conversation for them. */
    method SidebarRun(selectedAct: Option<string>, selectedType: Option<string>, startPressed: bool)
      returns (outcome: Option<StartOutcome>)
      requires Valid()
      modifies this
      ensures Valid()
      ensures act == if Truthy(selectedAct) then selectedAct else old(act)
      ensures projectType == if Truthy(selectedType) then selectedType else old(projectType)
      ensures outcome.Some? <==> startPressed
      ensures outcome == Some(Warned) <==> startPressed && !(Truthy(act) && Truthy(projectType))
      ensures outcome != Some(Started) ==>
        Phase() == old(Phase()) && chatHistory == old(chatHistory) && systemPrompt == old(systemPrompt) &&
        gatheringInfo == old(gatheringInfo) && finalProject == old(finalProject)
      ensures outcome.Some? && outcome.value.Raised? ==>
        StartPrompt(acts, wording, act.value, selectedType) == Err(outcome.value.error)
      ensures outcome == Some(Started) ==>
        systemPrompt.Some? && StartPrompt(acts, wording, act.value, selectedType) == Ok(systemPrompt.value) &&
        gatheringInfo && chatHistory == [] && finalProject == None && Phase() == Gathering
      ensures outcome == Some(Started) && Truthy(selectedType) ==>
        Truthy(act) && projectType == selectedType &&
        StartPrompt(acts, wording, act.value, projectType) == Ok(systemPrompt.value)
    {
      SelectSidebar(selectedAct, selectedType);
      if startPressed {
        var o := Start(selectedType);
        outcome := Some(o);
      } else {
        outcome := None;
      }
    }

    /** The main area of one rerun (app.py lines 101-165): while gathering, a submitted input makes a
        turn; once gathering has ended and no final project is stored, the final project is generated
        and only then can the reset button act. A stored final project is never generated again. */
    method MainRun(input: Option<string>, reply: ApiResult, resetPressed: bool) returns (request: Option<Request>)
      requires Valid()
      modifies this
      ensures Valid()
      ensures !old(Active()) ==> request == None && unchanged(this)
      ensures old(Active()) && old(gatheringInfo) ==>
        (request.Some? <==> Truthy(input)) && (request.None? ==> unchanged(this))
      ensures old(Active()) && old(gatheringInfo) && Truthy(input) ==>
        request == Some(Request([Message(System, old(systemPrompt).value)] + old(chatHistory) + [Message(User, input.value)],
                                GatherMaxTokens)) &&
        act == old(act) && projectType == old(projectType) && systemPrompt == old(systemPrompt) &&
        finalProject == old(finalProject) &&
        (reply.ApiError? ==> chatHistory == old(chatHistory) + [Message(User, input.value)] && gatheringInfo) &&
        (reply.Reply? ==>
          chatHistory == old(chatHistory) + [Message(User, input.value), Message(Assistant, reply.content)] &&
          (gatheringInfo <==> !IsDoneInput(input.value)))
      ensures old(Active()) && !old(gatheringInfo) && Truthy(old(finalProject)) ==>
        request == None && unchanged(this)
      ensures old(Active()) && !old(gatheringInfo) && !Truthy(old(finalProject)) ==>
        request == Some(Request([Message(System, old(systemPrompt).value + FinalSuffix)] + old(chatHistory),
                                FinalMaxTokens)) &&
        if resetPressed && reply.Reply? then
          IsFresh()
        else
          act == old(act) && projectType == old(projectType) && chatHistory == old(chatHistory) &&
          systemPrompt == old(systemPrompt) && gatheringInfo == old(gatheringInfo) &&
          finalProject == (if reply.Reply? then Some(reply.content) else old(finalProject))
    {
      if !Active() {
        return None;
      }
      if gatheringInfo {
        if Truthy(input) {
          var r := UserTurn(input.value, reply);
          return Some(r);
        }
        return None;
      }
      if !Truthy(finalProject) {
        var r := Finalize(reply);
        request := Some(r);
        if reply.ApiError? {
          return;
        }
        if resetPressed {
          Reset();
        }
        return;
      }
      return None;
    }
  }
}
