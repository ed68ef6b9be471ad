/**
 * One session log's derived state and how each provider folds a record into it:
 * `FileEntry` (`activity_scan.rs`) and the two `count_record`s (`activity.rs`,
 * `codex_activity.rs`).
 */
module ActivityLog {
  import opened Text
  import opened Json
  import TextWalks

  datatype DayCounts = DayCounts(turns: nat, tokens: nat)

  /** What a file's records add up to. */
  datatype Tally = Tally(
    days: map<string, DayCounts>,
    sessionId: Option<string>,
    cwd: Option<string>,
    title: Option<string>,
    titleIsCustom: bool,
    promptPreview: Option<string>,
    gitBranch: Option<string>,
    lastActiveMs: Option<int>)

  const EMPTY := Tally(map[], None, None, None, false, None, None, None)

  /** Date arithmetic is the `chrono` library's and the local time zone's. */
  datatype Clock = Clock(localDate: string -> Option<string>, epochMillis: string -> Option<int>)

  datatype Format = Claude | Codex

  // What a single record says.

  datatype Kind = NoKind | AiTitleKind | CustomTitleKind | LastPrompt | User | Assistant
    | SessionMeta | EventMsg | OtherKind

  function KindOf(r: Value): Kind {
    match AsStr(Get(r, "type"))
    case None => NoKind
    case Some(kind) =>
      if kind == "ai-title" then AiTitleKind
      else if kind == "custom-title" then CustomTitleKind
      else if kind == "last-prompt" then LastPrompt
      else if kind == "user" then User
      else if kind == "assistant" then Assistant
      else if kind == "session_meta" then SessionMeta
      else if kind == "event_msg" then EventMsg
      else OtherKind
  }

  datatype Payload = TaskStarted | UserMessage | TokenCount | OtherPayload

  function PayloadOf(r: Value): Payload {
    match AsStr(Pointer(r, ["payload", "type"]))
    case None => OtherPayload
    case Some(kind) =>
      if kind == "task_started" then TaskStarted
      else if kind == "user_message" then UserMessage
      else if kind == "token_count" then TokenCount
      else OtherPayload
  }

  /** The local date of a record that passes the timestamp gate. */
  function DateOf(clock: Clock, r: Value): Option<string> {
    match AsStr(Get(r, "timestamp"))
    case None => None
    case Some(timestamp) => clock.localDate(timestamp)
  }

  function MillisOf(clock: Clock, r: Value): Option<int> {
    match AsStr(Get(r, "timestamp"))
    case None => None
    case Some(timestamp) => clock.epochMillis(timestamp)
  }

  function NonBlank(raw: Option<string>): Option<string> {
    if raw.Some? && Trim(raw.value) != "" then Some(Trim(raw.value)) else None
  }

  function PreviewOf(raw: Option<string>): Option<string> {
    if raw.Some? then TextWalks.Preview(raw.value) else None
  }

  predicate HoldsToolResult(content: Option<Value>) {
    && content.Some? && content.value.Array?
    && exists k :: 0 <= k < |content.value.items| && AsStr(Get(content.value.items[k], "type")) == Some("tool_result")
  }

  /** The text blocks of a message, separated by spaces. */
  function TextOf(blocks: seq<Value>): string {
    if blocks == [] then ""
    else
      var before := TextOf(blocks[..|blocks| - 1]);
      var block := blocks[|blocks| - 1];
      var part := AsStr(Get(block, "text"));
      if AsStr(Get(block, "type")) != Some("text") || part == None then before
      else (if before == "" then before else before + " ") + part.value
  }

  function ContentPreview(content: Value): Option<string> {
    match content
    case Str(s) => TextWalks.Preview(s)
    case Array(blocks) => TextWalks.Preview(TextOf(blocks))
    case _ => None
  }

  function Usage(r: Value, key: string): nat {
    var n := AsU64(Pointer(r, ["message", "usage", key]));
    if n.Some? then n.value else 0
  }

  // The two folds, as functions of the state before.

  function AddTurn(days: map<string, DayCounts>, date: string): map<string, DayCounts> {
    var day := if date in days then days[date] else DayCounts(0, 0);
    days[date := day.(turns := day.turns + 1)]
  }

  function AddTokens(days: map<string, DayCounts>, date: string, n: nat): map<string, DayCounts> {
    var day := if date in days then days[date] else DayCounts(0, 0);
    days[date := day.(tokens := day.tokens + n)]
  }

  function DayOf(t: Tally, date: string): DayCounts {
    if date in t.days then t.days[date] else DayCounts(0, 0)
  }

  function Or<T>(newer: Option<T>, older: Option<T>): Option<T> { if newer.Some? then newer else older }

  function Latest(ms: Option<int>, previous: Option<int>): Option<int> {
    if ms.Some? && previous.Some? then Some(if ms.value > previous.value then ms.value else previous.value)
    else Or(ms, previous)
  }

  // What a record contributes to each field, per provider.

  function AiTitle(format: Format, r: Value): Option<string> {
    if format.Claude? && KindOf(r).AiTitleKind? then AsStr(Get(r, "aiTitle")) else None
  }

  function CustomTitle(format: Format, r: Value): Option<string> {
    if format.Claude? && KindOf(r).CustomTitleKind? then AsStr(Get(r, "customTitle")) else None
  }

  /** A Claude record that carries session fields: a dated `user` or `assistant` record. */
  predicate IsMessage(clock: Clock, r: Value) {
    (KindOf(r).User? || KindOf(r).Assistant?) && DateOf(clock, r).Some?
  }

  predicate IsTitleOrPrompt(r: Value) {
    KindOf(r).AiTitleKind? || KindOf(r).CustomTitleKind? || KindOf(r).LastPrompt?
  }

  function SessionIdOf(format: Format, clock: Clock, r: Value): Option<string> {
    match format
    case Claude => if IsMessage(clock, r) then AsStr(Get(r, "sessionId")) else None
    case Codex =>
      if !KindOf(r).SessionMeta? then None
      else AsStr(Or(Pointer(r, ["payload", "session_id"]), Pointer(r, ["payload", "id"])))
  }

  function CwdOf(format: Format, clock: Clock, r: Value): Option<string> {
    match format
    case Claude => if IsMessage(clock, r) then AsStr(Get(r, "cwd")) else None
    case Codex => if KindOf(r).SessionMeta? then AsStr(Pointer(r, ["payload", "cwd"])) else None
  }

  function BranchOf(format: Format, clock: Clock, r: Value): Option<string> {
    match format
    case Claude =>
      if !KindOf(r).NoKind? && !IsTitleOrPrompt(r) && DateOf(clock, r).Some?
      then NonBlank(AsStr(Get(r, "gitBranch"))) else None
    case Codex =>
      if KindOf(r).SessionMeta? then NonBlank(AsStr(Pointer(r, ["payload", "git", "branch"]))) else None
  }

  function ActiveMs(format: Format, clock: Clock, r: Value): Option<int> {
    match format
    case Claude => if IsMessage(clock, r) then MillisOf(clock, r) else None
    case Codex => if KindOf(r).EventMsg? && DateOf(clock, r).Some? then MillisOf(clock, r) else None
  }

  /** The date a record counts as one turn on. */
  function TurnDate(format: Format, clock: Clock, r: Value): Option<string> {
    match format
    case Claude =>
      if KindOf(r).User? && !HoldsToolResult(Pointer(r, ["message", "content"])) then DateOf(clock, r) else None
    case Codex =>
      if KindOf(r).EventMsg? && PayloadOf(r).TaskStarted?
      then DateOf(clock, r) else None
  }

  function TokenDelta(format: Format, r: Value): nat {
    match format
    case Claude =>
      if KindOf(r).Assistant? then Usage(r, "input_tokens") + Usage(r, "output_tokens") else 0
    case Codex =>
      if KindOf(r).EventMsg? && PayloadOf(r).TokenCount? then
        var n := AsU64(Pointer(r, ["payload", "info", "last_token_usage", "total_tokens"]));
        if n.Some? then n.value else 0
      else 0
  }

  function PromptOf(format: Format, clock: Clock, r: Value): Option<string> {
    match format
    case Claude =>
      if KindOf(r).LastPrompt? then PreviewOf(AsStr(Get(r, "lastPrompt")))
      else if TurnDate(Claude, clock, r).Some? then
        var content := Pointer(r, ["message", "content"]);
        if content.Some? then ContentPreview(content.value) else None
      else None
    case Codex =>
      if KindOf(r).EventMsg? && DateOf(clock, r).Some?
         && PayloadOf(r).UserMessage?
      then PreviewOf(AsStr(Pointer(r, ["payload", "message"])))
      else None
  }

  /** The state after one record, field by field. */
  function Step(format: Format, clock: Clock, t: Tally, r: Value): Tally {
    var date, turn, tokens := DateOf(clock, r), TurnDate(format, clock, r), TokenDelta(format, r);
    var custom := CustomTitle(format, r);
    Tally(
      if turn.Some? then AddTurn(t.days, turn.value)
      else if tokens > 0 && date.Some? then AddTokens(t.days, date.value, tokens)
      else t.days,
      Or(t.sessionId, SessionIdOf(format, clock, r)),
      Or(t.cwd, CwdOf(format, clock, r)),
      if t.titleIsCustom then Or(custom, t.title) else Or(custom, Or(AiTitle(format, r), t.title)),
      t.titleIsCustom || custom.Some?,
      Or(PromptOf(format, clock, r), t.promptPreview),
      Or(BranchOf(format, clock, r), t.gitBranch),
      Latest(ActiveMs(format, clock, r), t.lastActiveMs))
  }

  /** A cached file: where its parse has got to, and what it has added up to. */
  class FileEntry {
    var consumedOffset: nat
    var mtimeMs: nat
    var size: nat
    var days: map<string, DayCounts>
    var sessionId: Option<string>
    var cwd: Option<string>
    var title: Option<string>
    var titleIsCustom: bool
    var promptPreview: Option<string>
    var gitBranch: Option<string>
    var lastActiveMs: Option<int>

    function Tallied(): Tally
      reads this
    {
      Tally(days, sessionId, cwd, title, titleIsCustom, promptPreview, gitBranch, lastActiveMs)
    }

    constructor Default()
      ensures consumedOffset == mtimeMs == size == 0 && Tallied() == EMPTY
    {
      consumedOffset, mtimeMs, size := 0, 0, 0;
      days, sessionId, cwd, title, titleIsCustom := map[], None, None, None, false;
      promptPreview, gitBranch, lastActiveMs := None, None, None;
    }

    constructor Clone(e: FileEntry)
      ensures consumedOffset == e.consumedOffset && mtimeMs == e.mtimeMs && size == e.size
      ensures Tallied() == e.Tallied()
    {
      consumedOffset, mtimeMs, size := e.consumedOffset, e.mtimeMs, e.size;
      days, sessionId, cwd, title, titleIsCustom := e.days, e.sessionId, e.cwd, e.title, e.titleIsCustom;
      promptPreview, gitBranch, lastActiveMs := e.promptPreview, e.gitBranch, e.lastActiveMs;
    }
  }

  method ContentText(blocks: seq<Value>) returns (text: string)
    ensures text == TextOf(blocks)
  {
    text := "";
    for i := 0 to |blocks|
      invariant text == TextOf(blocks[..i])
    {
      assert blocks[..i + 1][..i] == blocks[..i];
      if AsStr(Get(blocks[i], "type")) != Some("text") {
        continue;
      }
      var part := AsStr(Get(blocks[i], "text"));
      if part.Some? {
        if text != "" {
          text := text + " ";
        }
        text := text + part.value;
      }
    }
    assert blocks[..|blocks|] == blocks;
  }

  method PromptPreviewFromMessageContent(content: Value) returns (r: Option<string>)
    ensures r == ContentPreview(content)
  {
    match content
    case Str(s) => r := TextWalks.SessionPromptPreview(s);
    case Array(blocks) =>
      var text := ContentText(blocks);
      r := TextWalks.SessionPromptPreview(text);
    case _ => r := None;
  }

  /** The records that carry no timestamp and are read before the gate. */
  method ClaudeTitleOrPrompt(clock: Clock, record: Value, entry: FileEntry)
    requires IsTitleOrPrompt(record)
    modifies entry
    ensures entry.Tallied() == Step(Claude, clock, old(entry.Tallied()), record)
    ensures entry.consumedOffset == old(entry.consumedOffset)
    ensures entry.mtimeMs == old(entry.mtimeMs) && entry.size == old(entry.size)
  {
    var kind := KindOf(record);
    if kind.AiTitleKind? {
      var title := AsStr(Get(record, "aiTitle"));
      if !entry.titleIsCustom && title.Some? {
        entry.title := title;
      }
    } else if kind.CustomTitleKind? {
      var title := AsStr(Get(record, "customTitle"));
      if title.Some? {
        entry.title := title;
        entry.titleIsCustom := true;
      }
    } else {
      var prompt := AsStr(Get(record, "lastPrompt"));
      if prompt.Some? {
        var preview := TextWalks.SessionPromptPreview(prompt.value);
        if preview.Some? {
          entry.promptPreview := preview;
        }
      }
    }
  }

  /** The session fields of a dated record. */
  method ClaudeSessionFields(clock: Clock, record: Value, entry: FileEntry)
    requires !KindOf(record).NoKind? && !IsTitleOrPrompt(record) && DateOf(clock, record).Some?
    modifies entry
    ensures var was, step := old(entry.Tallied()), Step(Claude, clock, old(entry.Tallied()), record);
            entry.Tallied() == step.(days := was.days, promptPreview := was.promptPreview)
    ensures entry.consumedOffset == old(entry.consumedOffset)
    ensures entry.mtimeMs == old(entry.mtimeMs) && entry.size == old(entry.size)
  {
    var kind := KindOf(record);
    entry.gitBranch := Or(NonBlank(AsStr(Get(record, "gitBranch"))), entry.gitBranch);
    if kind.User? || kind.Assistant? {
      if entry.sessionId == None {
        entry.sessionId := AsStr(Get(record, "sessionId"));
      }
      if entry.cwd == None {
        entry.cwd := AsStr(Get(record, "cwd"));
      }
      entry.lastActiveMs := Latest(MillisOf(clock, record), entry.lastActiveMs);
    }
  }

  /** The turn or the tokens of a dated record. */
  method ClaudeCounts(clock: Clock, record: Value, date: string, entry: FileEntry)
    requires !KindOf(record).NoKind? && !IsTitleOrPrompt(record) && DateOf(clock, record) == Some(date)
    modifies entry
    ensures var was, step := old(entry.Tallied()), Step(Claude, clock, old(entry.Tallied()), record);
            entry.Tallied() == was.(days := step.days, promptPreview := step.promptPreview)
    ensures entry.consumedOffset == old(entry.consumedOffset)
    ensures entry.mtimeMs == old(entry.mtimeMs) && entry.size == old(entry.size)
  {
    var kind := KindOf(record);
    if kind.User? {
      var content := Pointer(record, ["message", "content"]);
      if !HoldsToolResult(content) {
        entry.days := AddTurn(entry.days, date);
        if content.Some? {
          var preview := PromptPreviewFromMessageContent(content.value);
          if preview.Some? {
            entry.promptPreview := preview;
          }
        }
      }
    } else if kind.Assistant? {
      var input, output := Usage(record, "input_tokens"), Usage(record, "output_tokens");
      if input + output > 0 {
        entry.days := AddTokens(entry.days, date, input + output);
      }
    }
  }

  method ClaudeCountRecord(clock: Clock, record: Value, entry: FileEntry)
    modifies entry
    ensures entry.Tallied() == Step(Claude, clock, old(entry.Tallied()), record)
    ensures entry.consumedOffset == old(entry.consumedOffset)
    ensures entry.mtimeMs == old(entry.mtimeMs) && entry.size == old(entry.size)
  {
    if KindOf(record).NoKind? {
      return;
    }
    if IsTitleOrPrompt(record) {
      ClaudeTitleOrPrompt(clock, record, entry);
      return;
    }
    var date := DateOf(clock, record);
    if date == None {
      return;
    }
    ClaudeSessionFields(clock, record, entry);
    ClaudeCounts(clock, record, date.value, entry);
  }

  method CodexSessionMeta(clock: Clock, record: Value, entry: FileEntry)
    requires KindOf(record).SessionMeta?
    modifies entry
    ensures entry.Tallied() == Step(Codex, clock, old(entry.Tallied()), record)
    ensures entry.consumedOffset == old(entry.consumedOffset)
    ensures entry.mtimeMs == old(entry.mtimeMs) && entry.size == old(entry.size)
  {
    if entry.sessionId == None {
      entry.sessionId := AsStr(Or(Pointer(record, ["payload", "session_id"]), Pointer(record, ["payload", "id"])));
    }
    if entry.cwd == None {
      entry.cwd := AsStr(Pointer(record, ["payload", "cwd"]));
    }
    entry.gitBranch := Or(NonBlank(AsStr(Pointer(record, ["payload", "git", "branch"]))), entry.gitBranch);
  }

  method CodexCountRecord(clock: Clock, record: Value, entry: FileEntry)
    modifies entry
    ensures entry.Tallied() == Step(Codex, clock, old(entry.Tallied()), record)
    ensures entry.consumedOffset == old(entry.consumedOffset)
    ensures entry.mtimeMs == old(entry.mtimeMs) && entry.size == old(entry.size)
  {
    var kind := KindOf(record);
    if kind.SessionMeta? {
      CodexSessionMeta(clock, record, entry);
      return;
    }
    if !kind.EventMsg? {
      return;
    }
    var date := DateOf(clock, record);
    if date == None {
      return;
    }
    entry.lastActiveMs := Latest(MillisOf(clock, record), entry.lastActiveMs);
    var payload := PayloadOf(record);
    if payload.TaskStarted? {
      entry.days := AddTurn(entry.days, date.value);
    } else if payload.UserMessage? {
      var message := AsStr(Pointer(record, ["payload", "message"]));
      if message.Some? {
        var preview := TextWalks.SessionPromptPreview(message.value);
        if preview.Some? {
          entry.promptPreview := preview;
        }
      }
    } else if payload.TokenCount? {
      var delta := AsU64(Pointer(record, ["payload", "info", "last_token_usage", "total_tokens"]));
      if delta.Some? && delta.value > 0 {
        entry.days := AddTokens(entry.days, date.value, delta.value);
      }
    }
  }

  method CountRecord(format: Format, clock: Clock, record: Value, entry: FileEntry)
    modifies entry
    ensures entry.Tallied() == Step(format, clock, old(entry.Tallied()), record)
    ensures entry.consumedOffset == old(entry.consumedOffset)
    ensures entry.mtimeMs == old(entry.mtimeMs) && entry.size == old(entry.size)
  {
    match format
    case Claude => ClaudeCountRecord(clock, record, entry);
    case Codex => CodexCountRecord(clock, record, entry);
  }
}
