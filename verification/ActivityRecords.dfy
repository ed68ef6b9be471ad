/**
 * What one record of a session log does to a tally, told by the record's own JSON: the keys and
 * the literals that the two providers look for.
 */
module ActivityRecords {
  import opened Text
  import opened Json
  import opened ActivityLog
  import TextWalks

  /** A record with a timestamp that falls on `date`. */
  predicate DatedOn(clock: Clock, r: Value, date: string) {
    var timestamp := At(r, ["timestamp"]);
    timestamp.Str? && clock.localDate(timestamp.s) == Some(date)
  }

  /** What a dated record's timestamp is in milliseconds. */
  predicate StampedAt(clock: Clock, r: Value, ms: int) {
    var timestamp := At(r, ["timestamp"]);
    timestamp.Str? && clock.epochMillis(timestamp.s) == Some(ms)
  }

  predicate IsType(r: Value, kind: string) { At(r, ["type"]) == Str(kind) }

  /** A tool's output, fed back as a message of the user. */
  predicate FeedsBackOutput(r: Value) {
    var content := At(r, ["message", "content"]);
    content.Array? && exists b :: b in content.items && IsType(b, "tool_result")
  }

  lemma TypeIs(r: Value)
    ensures match KindOf(r)
            case NoKind => !At(r, ["type"]).Str?
            case AiTitleKind => IsType(r, "ai-title")
            case CustomTitleKind => IsType(r, "custom-title")
            case LastPrompt => IsType(r, "last-prompt")
            case User => IsType(r, "user")
            case Assistant => IsType(r, "assistant")
            case SessionMeta => IsType(r, "session_meta")
            case EventMsg => IsType(r, "event_msg")
            case OtherKind =>
              At(r, ["type"]).Str?
              && At(r, ["type"]).s !in {"ai-title", "custom-title", "last-prompt", "user", "assistant", "session_meta",
                                        "event_msg"}
  {
    GetFinds(r, "type");
  }

  lemma DateIs(clock: Clock, r: Value)
    ensures DateOf(clock, r).Some? ==> DatedOn(clock, r, DateOf(clock, r).value)
    ensures forall date :: DatedOn(clock, r, date) ==> DateOf(clock, r) == Some(date)
    ensures MillisOf(clock, r).Some? ==> StampedAt(clock, r, MillisOf(clock, r).value)
    ensures forall ms :: StampedAt(clock, r, ms) ==> MillisOf(clock, r) == Some(ms)
  {
    GetFinds(r, "timestamp");
  }

  lemma FeedBackIs(r: Value)
    ensures HoldsToolResult(Pointer(r, ["message", "content"])) <==> FeedsBackOutput(r)
  {
    var content := Pointer(r, ["message", "content"]);
    PointerFinds(r, ["message", "content"]);
    if content.Some? && content.value.Array? {
      forall b | b in content.value.items
        ensures AsStr(Get(b, "type")) == Some("tool_result") <==> IsType(b, "tool_result")
      {
        GetFinds(b, "type");
      }
    }
  }

  /** Claude: one turn for a dated message of the user that feeds back no tool output. */
  lemma ClaudeTurn(clock: Clock, t: Tally, r: Value, date: string)
    requires IsType(r, "user") && DatedOn(clock, r, date)
    ensures var content, days := At(r, ["message", "content"]), Step(Claude, clock, t, r).days;
            if content.Array? && exists b :: b in content.items && At(b, ["type"]) == Str("tool_result")
            then days == t.days
            else days == t.days[date := DayCounts(DayOf(t, date).turns + 1, DayOf(t, date).tokens)]
  {
    TypeIs(r);
    DateIs(clock, r);
    FeedBackIs(r);
  }

  /** Claude: the tokens a dated message of the assistant reports, in and out. */
  lemma ClaudeTokens(clock: Clock, t: Tally, r: Value, date: string)
    requires IsType(r, "assistant") && DatedOn(clock, r, date)
    ensures var days := Step(Claude, clock, t, r).days;
            var n := CountIn(At(r, ["message", "usage", "input_tokens"]))
                   + CountIn(At(r, ["message", "usage", "output_tokens"]));
            days == if n == 0 then t.days
                    else t.days[date := DayCounts(DayOf(t, date).turns, DayOf(t, date).tokens + n)]
  {
    TypeIs(r);
    DateIs(clock, r);
    PointerFinds(r, ["message", "usage", "input_tokens"]);
    PointerFinds(r, ["message", "usage", "output_tokens"]);
  }

  /** Claude: no other record counts for a day. */
  lemma ClaudeCountsNothingElse(clock: Clock, t: Tally, r: Value)
    requires (!IsType(r, "user") && !IsType(r, "assistant")) || forall date :: !DatedOn(clock, r, date)
    ensures Step(Claude, clock, t, r).days == t.days
  {
    TypeIs(r);
    DateIs(clock, r);
  }

  /** Claude: titles, a custom one for good. */
  lemma ClaudeTitle(clock: Clock, t: Tally, r: Value)
    ensures var after := Step(Claude, clock, t, r);
            if IsType(r, "custom-title") && At(r, ["customTitle"]).Str?
            then after.title == Some(At(r, ["customTitle"]).s) && after.titleIsCustom
            else if IsType(r, "ai-title") && At(r, ["aiTitle"]).Str? && !t.titleIsCustom
            then after.title == Some(At(r, ["aiTitle"]).s) && !after.titleIsCustom
            else after.title == t.title && after.titleIsCustom == t.titleIsCustom
  {
    TypeIs(r);
    GetFinds(r, "customTitle");
    GetFinds(r, "aiTitle");
  }

  /** Claude: the last prompt recorded as such or sent as a turn, unless its preview is empty. */
  lemma ClaudePreview(clock: Clock, t: Tally, r: Value)
    ensures var recorded, content := At(r, ["lastPrompt"]), At(r, ["message", "content"]);
            var spoken := IsType(r, "user") && !FeedsBackOutput(r) && exists date :: DatedOn(clock, r, date);
            var preview := if IsType(r, "last-prompt") && recorded.Str? then TextWalks.Preview(recorded.s)
                           else if spoken && content.Str? then TextWalks.Preview(content.s)
                           else if spoken && content.Array? then TextWalks.Preview(TextOf(content.items))
                           else None;
            Step(Claude, clock, t, r).promptPreview == if preview.Some? then preview else t.promptPreview
  {
    TypeIs(r);
    DateIs(clock, r);
    FeedBackIs(r);
    GetFinds(r, "lastPrompt");
    PointerFinds(r, ["message", "content"]);
  }

  /** The text of a message: its text blocks in order, one space between. */
  lemma TextGrows(blocks: seq<Value>, b: Value)
    ensures TextOf([]) == ""
    ensures var before, after := TextOf(blocks), TextOf(blocks + [b]);
            if At(b, ["type"]) == Str("text") && At(b, ["text"]).Str?
            then after == (if before == "" then At(b, ["text"]).s else before + " " + At(b, ["text"]).s)
            else after == before
  {
    assert (blocks + [b])[..|blocks|] == blocks;
    GetFinds(b, "type");
    GetFinds(b, "text");
  }

  /** The later of two times, if there is any. */
  function Later(a: Option<int>, b: Option<int>): (r: Option<int>)
    ensures r == a || r == b
    ensures a.Some? ==> r.Some? && a.value <= r.value
    ensures b.Some? ==> r.Some? && b.value <= r.value
  {
    if a.None? || (b.Some? && a.value < b.value) then b else a
  }

  /** Claude: the session's id and directory, first come, and its last activity, from dated messages. */
  lemma ClaudeSession(clock: Clock, t: Tally, r: Value)
    ensures var after := Step(Claude, clock, t, r);
            if (IsType(r, "user") || IsType(r, "assistant")) && exists date :: DatedOn(clock, r, date)
            then after.sessionId == (if t.sessionId.Some? then t.sessionId else StrIn(At(r, ["sessionId"])))
                 && after.cwd == (if t.cwd.Some? then t.cwd else StrIn(At(r, ["cwd"])))
                 && after.lastActiveMs == Later(t.lastActiveMs, clock.epochMillis(At(r, ["timestamp"]).s))
            else after.sessionId == t.sessionId && after.cwd == t.cwd && after.lastActiveMs == t.lastActiveMs
  {
    TypeIs(r);
    DateIs(clock, r);
    GetFinds(r, "sessionId");
    GetFinds(r, "cwd");
  }

  /** Claude: the branch, from every dated record of a type but the three undated ones. */
  lemma ClaudeBranch(clock: Clock, t: Tally, r: Value)
    ensures var after, branch := Step(Claude, clock, t, r).gitBranch, At(r, ["gitBranch"]);
            var titled := IsType(r, "ai-title") || IsType(r, "custom-title") || IsType(r, "last-prompt");
            if At(r, ["type"]).Str? && !titled && (exists date :: DatedOn(clock, r, date))
               && branch.Str? && Trim(branch.s) != ""
            then after == Some(Trim(branch.s))
            else after == t.gitBranch
  {
    TypeIs(r);
    DateIs(clock, r);
    GetFinds(r, "gitBranch");
  }

  /** Codex: a turn for each task started, tokens for each count, both on the date of the event. */
  lemma CodexCounts(clock: Clock, t: Tally, r: Value, date: string)
    requires DatedOn(clock, r, date)
    ensures var days := Step(Codex, clock, t, r).days;
            var n := CountIn(At(r, ["payload", "info", "last_token_usage", "total_tokens"]));
            if IsType(r, "event_msg") && At(r, ["payload", "type"]) == Str("task_started")
            then days == t.days[date := DayCounts(DayOf(t, date).turns + 1, DayOf(t, date).tokens)]
            else if IsType(r, "event_msg") && At(r, ["payload", "type"]) == Str("token_count") && n > 0
            then days == t.days[date := DayCounts(DayOf(t, date).turns, DayOf(t, date).tokens + n)]
            else days == t.days
  {
    TypeIs(r);
    DateIs(clock, r);
    PointerFinds(r, ["payload", "type"]);
    PointerFinds(r, ["payload", "info", "last_token_usage", "total_tokens"]);
  }

  lemma CodexCountsOnlyDated(clock: Clock, t: Tally, r: Value)
    requires forall date :: !DatedOn(clock, r, date)
    ensures var after := Step(Codex, clock, t, r);
            after.days == t.days && after.promptPreview == t.promptPreview && after.lastActiveMs == t.lastActiveMs
  {
    TypeIs(r);
    DateIs(clock, r);
  }

  /** Codex: activity from every dated event, the prompt from the user's messages. */
  lemma CodexEvent(clock: Clock, t: Tally, r: Value, date: string)
    requires DatedOn(clock, r, date)
    ensures var after, message := Step(Codex, clock, t, r), At(r, ["payload", "message"]);
            var spoken := IsType(r, "event_msg") && At(r, ["payload", "type"]) == Str("user_message");
            var preview := if spoken && message.Str? then TextWalks.Preview(message.s) else None;
            && after.promptPreview == (if preview.Some? then preview else t.promptPreview)
            && after.lastActiveMs == (if IsType(r, "event_msg")
                                      then Later(t.lastActiveMs, clock.epochMillis(At(r, ["timestamp"]).s))
                                      else t.lastActiveMs)
  {
    TypeIs(r);
    DateIs(clock, r);
    PointerFinds(r, ["payload", "type"]);
    PointerFinds(r, ["payload", "message"]);
  }

  /** Codex: the session's id and directory, first come, from its `session_meta`, dated or not; never a title. */
  lemma CodexSession(clock: Clock, t: Tally, r: Value)
    ensures var after, payload := Step(Codex, clock, t, r), At(r, ["payload"]);
            var id := if payload.Object? && "session_id" in payload.fields then At(payload, ["session_id"])
                      else At(payload, ["id"]);
            && after.title == t.title && after.titleIsCustom == t.titleIsCustom
            && after.sessionId == (if t.sessionId.None? && IsType(r, "session_meta") then StrIn(id) else t.sessionId)
            && after.cwd == (if t.cwd.None? && IsType(r, "session_meta") then StrIn(At(payload, ["cwd"])) else t.cwd)
  {
    TypeIs(r);
    PointerFinds(r, ["payload", "session_id"]);
    PointerFinds(r, ["payload", "id"]);
    PointerFinds(r, ["payload", "cwd"]);
    PointerOfTwo(r, "payload", "session_id");
    PointerOfTwo(r, "payload", "id");
    PointerOfTwo(r, "payload", "cwd");
  }

  /** Codex: the branch likewise, the last one given. */
  lemma CodexBranch(clock: Clock, t: Tally, r: Value)
    ensures var branch := At(r, ["payload", "git", "branch"]);
            Step(Codex, clock, t, r).gitBranch
              == if IsType(r, "session_meta") && branch.Str? && Trim(branch.s) != "" then Some(Trim(branch.s))
                 else t.gitBranch
  {
    TypeIs(r);
    PointerFinds(r, ["payload", "git", "branch"]);
  }

  // What counts for a day.

  /** A record that counts as a turn on `date`. */
  predicate IsTurn(format: Format, clock: Clock, r: Value, date: string) {
    && DatedOn(clock, r, date)
    && match format
       case Claude => IsType(r, "user") && !FeedsBackOutput(r)
       case Codex => IsType(r, "event_msg") && At(r, ["payload", "type"]) == Str("task_started")
  }

  /** The reading of a record that the folds go by. */
  lemma TurnDateIs(format: Format, clock: Clock, r: Value, date: string)
    ensures TurnDate(format, clock, r) == Some(date) <==> IsTurn(format, clock, r, date)
  {
    TypeIs(r);
    DateIs(clock, r);
    FeedBackIs(r);
    PointerFinds(r, ["payload", "type"]);
  }

  /** What a record of `date` adds to the date's tokens. */
  function TokensIn(format: Format, clock: Clock, r: Value, date: string): nat {
    if !DatedOn(clock, r, date) then 0
    else
      match format
      case Claude =>
        if IsType(r, "assistant")
        then
          CountIn(At(r, ["message", "usage", "input_tokens"])) + CountIn(At(r, ["message", "usage", "output_tokens"]))
        else 0
      case Codex =>
        if IsType(r, "event_msg") && At(r, ["payload", "type"]) == Str("token_count")
        then CountIn(At(r, ["payload", "info", "last_token_usage", "total_tokens"]))
        else 0
  }

  lemma TokenDeltaIs(format: Format, clock: Clock, r: Value, date: string)
    ensures (if DateOf(clock, r) == Some(date) then TokenDelta(format, r) else 0) == TokensIn(format, clock, r, date)
  {
    TypeIs(r);
    DateIs(clock, r);
    PointerFinds(r, ["payload", "type"]);
    PointerFinds(r, ["message", "usage", "input_tokens"]);
    PointerFinds(r, ["message", "usage", "output_tokens"]);
    PointerFinds(r, ["payload", "info", "last_token_usage", "total_tokens"]);
  }
}
