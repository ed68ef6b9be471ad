/** The native subagent router: traffic of many sessions folded into one flat transcript. */
module Router {
  import opened FlatIds
  import opened Json
  import opened Text

  const SUBAGENT_SPAWNED := "subagent_spawned"
  const SUBAGENT_STATE_UPDATE := "subagent_state_update"
  const FALLBACK_AGENT_NAME := "Agent"
  const COLLABORATION_SPAWN_TOOL := "spawnAgent"

  /** `extra` and `rest` stand for the fields the router never looks at. */
  datatype Block = TextBlock(text: string, extra: Value) | OtherBlock(payload: Value)

  datatype ToolKind = Think | OtherKind(name: string)

  datatype ToolStatus = Pending | InProgress | Completed | Failed

  datatype Call = Call(
    id: string, title: string, kind: ToolKind, status: ToolStatus,
    rawInput: Option<Value>, meta: Option<Meta>, rest: Value)

  datatype CallUpdate = CallUpdate(
    id: string, status: Option<ToolStatus>, content: Option<seq<Block>>, meta: Option<Meta>, rest: Value)

  datatype Chunk = Chunk(block: Block, messageId: Option<string>)

  datatype SessionUpdate =
    | Notice(payload: Value)
    | CompactionUpdate(payload: Value)
    | CompactionSummaryChunk(payload: Value)
    | ToolCall(call: Call)
    | ToolCallUpdate(update: CallUpdate)
    | AgentMessageChunk(chunk: Chunk, meta: Option<Meta>)
    | OtherUpdate(payload: Value)

  datatype Routed = Standard(update: SessionUpdate) | Normalized(updates: seq<SessionUpdate>) | Unknown(kind: string)

  datatype Child = Child(toolId: string, answer: seq<Block>, answerMessageId: Option<string>)

  datatype State = State(children: map<string, Child>, noticed: set<string>)

  // What a payload asks for.

  datatype Action =
    | Spawned(parent: string, child: string, name: string, prompt: string)
    | Finished(child: string, completed: bool)
    | Update(session: string, update: SessionUpdate, answer: bool)
    | Unreadable(kind: string)
    | Malformed

  function StrOr(v: Option<Value>, fallback: string): string {
    if AsStr(v).Some? then AsStr(v).value else fallback
  }

  function NameOf(payload: Value): (name: string)
    ensures !IsBlank(name)
  {
    var name := StrOr(Get(payload, "name"), FALLBACK_AGENT_NAME);
    if IsBlank(name) then FALLBACK_AGENT_NAME else name
  }

  /** An announcement without a session id names nobody. */
  function ReadSpawn(session: string, payload: Value): Action {
    var subject := AsStr(Get(payload, "subagentSessionId"));
    if subject.None? || subject.value == "" then Malformed
    else Spawned(session, subject.value, NameOf(payload), StrOr(Get(payload, "task"), ""))
  }

  function ReadFinish(payload: Value): Action {
    var subject := AsStr(Get(payload, "subagentSessionId"));
    if subject.None? then Malformed
    else Finished(subject.value, AsStr(Get(payload, "state")) == Some("completed"))
  }

  function Read(
      session: string, payload: Value, decode: Value -> Option<SessionUpdate>, isAnswer: Option<Meta> -> bool): Action
  {
    var kind := StrOr(Get(payload, "sessionUpdate"), "");
    if kind == SUBAGENT_SPAWNED then ReadSpawn(session, payload)
    else if kind == SUBAGENT_STATE_UPDATE then ReadFinish(payload)
    else
      match decode(payload)
      case None => Unreadable(kind)
      case Some(u) => Update(session, u, u.AgentMessageChunk? && isAnswer(u.meta))
  }

  // What the router answers and becomes.

  function Launch(child: string, parent: Option<string>, name: string, prompt: string): SessionUpdate {
    ToolCall(Call(
      ParentToolId(child), name, Think, InProgress,
      Some(Object(map["subagent_type" := Str(name), "prompt" := Str(prompt)])),
      if parent.Some? then Some(WithParentToolId(None, parent.value)) else None, Null))
  }

  function ToolIdOf(s: State, session: string): Option<string> {
    if session in s.children then Some(s.children[session].toolId) else None
  }

  function Report(child: Child, completed: bool): SessionUpdate {
    ToolCallUpdate(CallUpdate(
      child.toolId, Some(if completed then Completed else Failed),
      if child.answer == [] then None else Some(child.answer), None, Null))
  }

  function Accumulated(child: Child, chunk: Chunk): Child {
    var n := |child.answer|;
    if child.answerMessageId == chunk.messageId && n > 0
       && child.answer[n - 1].TextBlock? && chunk.block.TextBlock? then
      var last := child.answer[n - 1];
      child.(answer := child.answer[..n - 1] + [last.(text := last.text + chunk.block.text)])
    else
      child.(answer := child.answer + [chunk.block], answerMessageId := chunk.messageId)
  }

  /** A child session's own update, re-keyed into the root transcript. */
  function Rewritten(session: string, toolId: string, update: SessionUpdate): seq<SessionUpdate> {
    match update
    case Notice(_) => [update]
    case CompactionUpdate(_) => [update]
    case CompactionSummaryChunk(_) => [update]
    case ToolCall(call) =>
      [ToolCall(call.(id := ChildToolId(session, call.id), meta := Some(WithParentToolId(call.meta, toolId))))]
    case ToolCallUpdate(tcu) =>
      [ToolCallUpdate(tcu.(id := ChildToolId(session, tcu.id), meta := Some(WithParentToolId(tcu.meta, toolId))))]
    case AgentMessageChunk(_, _) => []
    case OtherUpdate(_) => []
  }

  function Answer(s: State, a: Action): Routed {
    match a
    case Malformed => Normalized([])
    case Spawned(parent, child, name, prompt) =>
      Normalized(if child in s.children then [] else [Launch(child, ToolIdOf(s, parent), name, prompt)])
    case Finished(child, completed) =>
      Normalized(if child in s.children then [Report(s.children[child], completed)] else [])
    case Update(session, update, _) =>
      if session in s.children then Normalized(Rewritten(session, s.children[session].toolId, update))
      else Standard(update)
    case Unreadable(kind) => if kind in s.noticed then Normalized([]) else Unknown(kind)
  }

  function Next(s: State, a: Action): State {
    match a
    case Malformed => s
    case Spawned(_, child, _, _) =>
      if child in s.children then s else s.(children := s.children[child := Child(ParentToolId(child), [], None)])
    case Finished(child, _) =>
      if child in s.children then s.(children := s.children[child := s.children[child].(answer := [])]) else s
    case Update(session, update, answer) =>
      if session in s.children && update.AgentMessageChunk? && answer
      then s.(children := s.children[session := Accumulated(s.children[session], update.chunk)])
      else s
    case Unreadable(kind) => s.(noticed := s.noticed + {kind})
  }

  /** Exactly the legacy spawn tool: other collaboration tools reach the client in native mode too. */
  predicate Delegates(payload: Value) {
    AsStr(Pointer(payload, ["_meta", "codex", "collaboration", "tool"])) == Some(COLLABORATION_SPAWN_TOOL)
  }

  predicate ReportsDelegation(noticed: bool, payload: Value) { Delegates(payload) && !noticed }

  predicate NoticesDelegation(noticed: bool, payload: Value) { noticed || Delegates(payload) }

  class NativeSubagentRouter {
    /** `serde_json::from_value::<SessionUpdate>`. */
    const decode: Value -> Option<SessionUpdate>
    /** The adapter's reading of a chunk's `_meta`: whether its phase is the answer. */
    var isAnswer: Option<Meta> -> bool
    var children: map<string, Child>
    var noticed: set<string>
    var legacyDelegationNoticed: bool

    function Now(): State
      reads this
    {
      State(children, noticed)
    }

    constructor (decode: Value -> Option<SessionUpdate>, isAnswer: Option<Meta> -> bool)
      ensures Now() == State(map[], {}) && !legacyDelegationNoticed
      ensures this.decode == decode && this.isAnswer == isAnswer
    {
      this.decode := decode;
      this.isAnswer := isAnswer;
      children := map[];
      noticed := {};
      legacyDelegationNoticed := false;
    }

    method SetAdapter(isAnswer: Option<Meta> -> bool)
      modifies `isAnswer
      ensures this.isAnswer == isAnswer
    {
      this.isAnswer := isAnswer;
    }

    method Route(session: string, payload: Value) returns (r: Routed)
      modifies `children, `noticed
      ensures var action := Read(session, payload, decode, isAnswer);
              r == Answer(old(Now()), action) && Now() == Next(old(Now()), action)
    {
      var kind := StrOr(Get(payload, "sessionUpdate"), "");
      if kind == SUBAGENT_SPAWNED {
        var updates := Spawn(session, payload);
        r := Normalized(updates);
      } else if kind == SUBAGENT_STATE_UPDATE {
        var updates := Finish(payload);
        r := Normalized(updates);
      } else {
        var standard := decode(payload);
        if standard.None? {
          r := NoticeKind(kind);
        } else if session !in children {
          r := Standard(standard.value);
        } else {
          var updates := RewriteChild(session, standard.value);
          r := Normalized(updates);
        }
      }
    }

    /** The first sign of delegation through the legacy path, reported once. */
    method FirstLegacyDelegation(payload: Value) returns (first: bool)
      modifies `legacyDelegationNoticed
      ensures first <==> ReportsDelegation(old(legacyDelegationNoticed), payload)
      ensures legacyDelegationNoticed <==> NoticesDelegation(old(legacyDelegationNoticed), payload)
    {
      var tool := Pointer(payload, ["_meta", "codex", "collaboration", "tool"]);
      var delegated := AsStr(tool) == Some(COLLABORATION_SPAWN_TOOL);
      first := delegated && !legacyDelegationNoticed;
      legacyDelegationNoticed := legacyDelegationNoticed || delegated;
    }

    method NoticeKind(kind: string) returns (r: Routed)
      modifies `noticed
      ensures r == Answer(old(Now()), Unreadable(kind)) && Now() == Next(old(Now()), Unreadable(kind))
    {
      if kind !in noticed {
        r := Unknown(kind);
      } else {
        r := Normalized([]);
      }
      noticed := noticed + {kind};
    }

    method Register(child: string, parent: string, name: string, prompt: string) returns (update: SessionUpdate)
      modifies `children
      ensures update == Launch(child, ToolIdOf(old(Now()), parent), name, prompt)
      ensures children == old(children)[child := Child(ParentToolId(child), [], None)]
    {
      var parentToolId := None;
      if parent in children {
        parentToolId := Some(children[parent].toolId);
      }
      var toolId := ParentToolId(child);
      children := children[child := Child(toolId, [], None)];
      var rawInput := Object(map["subagent_type" := Str(name), "prompt" := Str(prompt)]);
      var call := Call(toolId, name, Think, InProgress, Some(rawInput), None, Null);
      if parentToolId.Some? {
        call := call.(meta := Some(WithParentToolId(None, parentToolId.value)));
      }
      update := ToolCall(call);
    }

    method Spawn(session: string, payload: Value) returns (updates: seq<SessionUpdate>)
      modifies `children
      ensures var action := ReadSpawn(session, payload);
              Normalized(updates) == Answer(old(Now()), action) && Now() == Next(old(Now()), action)
    {
      var subject := AsStr(Get(payload, "subagentSessionId"));
      if subject.None? || subject.value == "" {
        return [];
      }
      var child := subject.value;
      if child in children {
        return [];
      }
      var update := Register(child, session, NameOf(payload), StrOr(Get(payload, "task"), ""));
      updates := [update];
    }

    method Finish(payload: Value) returns (updates: seq<SessionUpdate>)
      modifies `children
      ensures var action := ReadFinish(payload);
              Normalized(updates) == Answer(old(Now()), action) && Now() == Next(old(Now()), action)
    {
      var subject := AsStr(Get(payload, "subagentSessionId"));
      if subject.None? || subject.value !in children {
        return [];
      }
      var child := children[subject.value];
      var status := if AsStr(Get(payload, "state")) == Some("completed") then Completed else Failed;
      var content := child.answer;
      children := children[subject.value := child.(answer := [])];
      var fields := CallUpdate(child.toolId, Some(status), None, None, Null);
      if content != [] {
        fields := fields.(content := Some(content));
      }
      updates := [ToolCallUpdate(fields)];
    }

    method RewriteChild(session: string, update: SessionUpdate) returns (updates: seq<SessionUpdate>)
      modifies `children
      ensures updates == if session in old(children) then Rewritten(session, old(children)[session].toolId, update)
                         else []
      ensures Now() == Next(old(Now()), Update(session, update, update.AgentMessageChunk? && isAnswer(update.meta)))
    {
      if session !in children {
        return [];
      }
      var parent := children[session].toolId;
      match update {
        case ToolCall(call) =>
          updates := [ToolCall(call.(id := ChildToolId(session, call.id),
                             meta := Some(WithParentToolId(call.meta, parent))))];
        case ToolCallUpdate(tcu) =>
          updates := [ToolCallUpdate(tcu.(id := ChildToolId(session, tcu.id),
                                  meta := Some(WithParentToolId(tcu.meta, parent))))];
        case AgentMessageChunk(chunk, meta) =>
          if isAnswer(meta) {
            Accumulate(session, chunk);
          }
          updates := [];
        case OtherUpdate(_) => updates := [];
        case _ => updates := [update];
      }
    }

    /** Extend the last text block of the same message, or start a block. */
    method Accumulate(session: string, chunk: Chunk)
      modifies `children
      ensures children == if session in old(children)
                          then old(children)[session := Accumulated(old(children)[session], chunk)]
                          else old(children)
    {
      if session !in children {
        return;
      }
      var child := children[session];
      var n := |child.answer|;
      if child.answerMessageId == chunk.messageId && n > 0 {
        match (child.answer[n - 1], chunk.block) {
          case (TextBlock(text, extra), TextBlock(more, _)) =>
            children := children[session := child.(answer := child.answer[..n - 1] + [TextBlock(text + more, extra)])];
            return;
          case _ =>
        }
      }
      children := children[session := child.(answerMessageId := chunk.messageId,
                                       answer := child.answer + [chunk.block])];
    }
  }
}
