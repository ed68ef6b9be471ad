/**
 * What the router answers to the traffic itself: runs of sessions and payloads, told by the JSON
 * keys and literals that it reads and writes.
 */
module RouterTraffic {
  import opened FlatIds
  import opened Json
  import opened Router
  import opened RouterRuns
  import opened Text

  /** One `session/update`; the adapter at the time says which chunks are answers. */
  datatype Incoming = Incoming(session: string, payload: Value, isAnswer: Option<Meta> -> bool)

  type Decoder = Value -> Option<SessionUpdate>

  function ActionOf(decode: Decoder, m: Incoming): Action { Read(m.session, m.payload, decode, m.isAnswer) }

  function Actions(decode: Decoder, traffic: seq<Incoming>): seq<Action> {
    seq(|traffic|, i requires 0 <= i < |traffic| => ActionOf(decode, traffic[i]))
  }

  /** What `Route` answers to the `k`-th of a run, and what it starts from. */
  function Routing(decode: Decoder, traffic: seq<Incoming>, k: nat): Routed
    requires k < |traffic|
  {
    Answer(After(Actions(decode, traffic[..k])), ActionOf(decode, traffic[k]))
  }

  lemma RoutingIsEmitted(decode: Decoder, traffic: seq<Incoming>, k: nat)
    requires k < |traffic|
    ensures Actions(decode, traffic)[..k] == Actions(decode, traffic[..k])
    ensures Routing(decode, traffic, k) == Emitted(Actions(decode, traffic), k)
  {
    assert Actions(decode, traffic)[..k] == Actions(decode, traffic[..k]);
  }

  /** A router that has routed `traffic` answers `m` so, and goes on from there. */
  lemma RouterGoesOn(decode: Decoder, traffic: seq<Incoming>, m: Incoming)
    ensures var s, action := After(Actions(decode, traffic)), Read(m.session, m.payload, decode, m.isAnswer);
            && Routing(decode, traffic + [m], |traffic|) == Answer(s, action)
            && After(Actions(decode, traffic + [m])) == Next(s, action)
  {
    assert (traffic + [m])[..|traffic|] == traffic;
    assert Actions(decode, traffic + [m]) == Actions(decode, traffic) + [ActionOf(decode, m)];
    AfterSnoc(Actions(decode, traffic), ActionOf(decode, m));
  }

  // What the payloads say.

  predicate IsKind(p: Value, kind: string) { At(p, ["sessionUpdate"]) == Str(kind) }

  predicate Names(p: Value, session: string) { At(p, ["subagentSessionId"]) == Str(session) }

  /** Announces `session` as a child. */
  predicate Spawns(m: Incoming, session: string) {
    IsKind(m.payload, "subagent_spawned") && Names(m.payload, session) && session != ""
  }

  /** `session` has been announced among the first `k`. */
  ghost predicate Known(traffic: seq<Incoming>, k: nat, session: string) {
    exists j :: 0 <= j < k && j < |traffic| && Spawns(traffic[j], session)
  }

  lemma PayloadFinds(p: Value)
    ensures AsStr(Get(p, "sessionUpdate")) == StrIn(At(p, ["sessionUpdate"]))
    ensures AsStr(Get(p, "subagentSessionId")) == StrIn(At(p, ["subagentSessionId"]))
    ensures AsStr(Get(p, "state")) == StrIn(At(p, ["state"]))
    ensures AsStr(Get(p, "name")) == StrIn(At(p, ["name"]))
    ensures AsStr(Get(p, "task")) == StrIn(At(p, ["task"]))
  {
    GetFinds(p, "sessionUpdate");
    GetFinds(p, "subagentSessionId");
    GetFinds(p, "state");
    GetFinds(p, "name");
    GetFinds(p, "task");
  }

  lemma SpawnsIsAnnounces(decode: Decoder, m: Incoming, session: string)
    ensures Announces(ActionOf(decode, m), session) <==> Spawns(m, session)
  {
    PayloadFinds(m.payload);
  }

  lemma KnownIsAnnounced(decode: Decoder, traffic: seq<Incoming>, k: nat, session: string)
    requires k <= |traffic|
    ensures Known(traffic, k, session) <==> AnnouncedAt(Actions(decode, traffic), session) < k
  {
    var n := AnnouncedAt(Actions(decode, traffic), session);
    forall j | 0 <= j < |traffic|
      ensures Spawns(traffic[j], session) <==> Announces(Actions(decode, traffic)[j], session)
    {
      SpawnsIsAnnounces(decode, traffic[j], session);
    }
  }

  // Launches.

  /** A child's row in the transcript. */
  predicate IsLaunch(u: SessionUpdate, session: string, name: string, task: string, parent: Option<string>) {
    && u.ToolCall?
    && u.call.id == "subagent:" + session && u.call.title == name
    && u.call.kind == Think && u.call.status == InProgress
    && u.call.rawInput == Some(Object(map["subagent_type" := Str(name), "prompt" := Str(task)]))
    && u.call.meta == (if parent.None? then None
                       else Some(map["daruda" := Object(map["parentToolId" := Str("subagent:" + parent.value)])]))
  }

  lemma SpawnReads(decode: Decoder, m: Incoming)
    requires IsKind(m.payload, "subagent_spawned")
    ensures var id, name, task :=
              At(m.payload, ["subagentSessionId"]), At(m.payload, ["name"]), At(m.payload, ["task"]);
            ActionOf(decode, m)
              == if !id.Str? || id.s == "" then Malformed
                 else Spawned(m.session, id.s, if name.Str? && !IsBlank(name.s) then name.s else "Agent",
                              if task.Str? then task.s else "")
  {
    PayloadFinds(m.payload);
  }

  /**
   * An announcement of a session not known before launches one call for it: titled by its name, or
   * `Agent`, in progress, its name and task as the raw input, nested under the announcing session
   * exactly if that is known. One without an id, or of a known session, gives nothing.
   */
  lemma SpawnAnswers(decode: Decoder, traffic: seq<Incoming>, k: nat)
    requires k < |traffic| && IsKind(traffic[k].payload, "subagent_spawned")
    ensures var p := traffic[k].payload;
            var id, named, task := At(p, ["subagentSessionId"]), At(p, ["name"]), At(p, ["task"]);
            if id.Str? && id.s != "" && !Known(traffic, k, id.s)
            then exists u ::
                   && Routing(decode, traffic, k) == Normalized([u])
                   && IsLaunch(u, id.s, if named.Str? && !IsBlank(named.s) then named.s else "Agent",
                               if task.Str? then task.s else "",
                               if Known(traffic, k, traffic[k].session) then Some(traffic[k].session) else None)
            else Routing(decode, traffic, k) == Normalized([])
  {
    var trace, m := Actions(decode, traffic), traffic[k];
    var id := At(m.payload, ["subagentSessionId"]);
    SpawnReads(decode, m);
    RoutingIsEmitted(decode, traffic, k);
    if id.Str? && id.s != "" {
      var a := trace[k];
      LaunchNests(trace, k);
      KnownIsAnnounced(decode, traffic, k, id.s);
      KnownIsAnnounced(decode, traffic, k, m.session);
      assert Announces(a, id.s);
      if !Known(traffic, k, id.s) {
        var parent := if Known(traffic, k, m.session) then Some(ParentToolId(m.session)) else None;
        assert Routing(decode, traffic, k) == Normalized([Launch(a.child, parent, a.name, a.prompt)]);
      }
    }
  }

  // Answers and finishes.

  /** Reports `session` finished. */
  predicate Ends(m: Incoming, session: string) {
    IsKind(m.payload, "subagent_state_update") && Names(m.payload, session)
  }

  /** An answer chunk that a session says of itself. */
  predicate SaysChunk(decode: Decoder, m: Incoming, session: string, chunk: Chunk) {
    && m.session == session
    && !IsKind(m.payload, "subagent_spawned") && !IsKind(m.payload, "subagent_state_update")
    && match decode(m.payload)
       case Some(AgentMessageChunk(c, meta)) => c == chunk && m.isAnswer(meta)
       case _ => false
  }

  lemma EndsIsFinished(decode: Decoder, m: Incoming, session: string)
    ensures var a := ActionOf(decode, m); (a.Finished? && a.child == session) <==> Ends(m, session)
    ensures Ends(m, session)
            ==> ActionOf(decode, m) == Finished(session, At(m.payload, ["state"]) == Str("completed"))
  {
    PayloadFinds(m.payload);
  }

  lemma SaysChunkIsSays(decode: Decoder, m: Incoming, session: string, chunk: Chunk)
    ensures var a := ActionOf(decode, m);
            (Says(a, session) && a.update.chunk == chunk) <==> SaysChunk(decode, m, session, chunk)
  {
    PayloadFinds(m.payload);
  }

  /**
   * `said` are the answer chunks of a known session since it was last reported finished: `at` are
   * their places in the traffic, all of them, in order, and none before the last finish.
   */
  ghost predicate HasSaid(
        decode: Decoder, traffic: seq<Incoming>, k: nat, session: string, said: seq<Chunk>, at: seq<nat>) {
    && k <= |traffic| && |at| == |said|
    && (forall i, j :: 0 <= i < j < |at| ==> at[i] < at[j])
    && (forall i :: 0 <= i < |at| ==> at[i] < k && SaysChunk(decode, traffic[at[i]], session, said[i]))
    && (forall i :: 0 <= i < |at| ==> Counts(traffic, at[i], k, session))
    && (forall j, chunk :: 0 <= j < k && SaysChunk(decode, traffic[j], session, chunk) && Counts(traffic, j, k, session)
                           ==> j in at)
  }

  /** What a session says at `j` is still pending at `k`: it was known by then, and has not finished since. */
  ghost predicate Counts(traffic: seq<Incoming>, j: nat, k: nat, session: string)
    requires k <= |traffic|
  {
    Known(traffic, j, session) && forall i :: j < i < k ==> !Ends(traffic[i], session)
  }

  lemma CountsOneMore(traffic: seq<Incoming>, j: nat, k: nat, session: string)
    requires j < k < |traffic|
    ensures Counts(traffic, j, k + 1, session) <==> Counts(traffic, j, k, session) && !Ends(traffic[k], session)
  {
  }

  /** Nothing a session said before the last message but one is pending once that has reported it finished. */
  lemma NothingSaid(decode: Decoder, traffic: seq<Incoming>, k: nat, session: string)
    requires k < |traffic| && Ends(traffic[k], session)
    ensures HasSaid(decode, traffic, k + 1, session, [], [])
  {
    forall j, chunk | 0 <= j < k + 1 && SaysChunk(decode, traffic[j], session, chunk)
      ensures !Counts(traffic, j, k + 1, session)
    {
      if j < k { CountsOneMore(traffic, j, k, session); }
    }
  }

  lemma SaidOneMore(
      decode: Decoder, traffic: seq<Incoming>, k: nat, session: string, said: seq<Chunk>, at: seq<nat>, chunk: Chunk)
    requires k < |traffic| && HasSaid(decode, traffic, k, session, said, at)
    requires Known(traffic, k, session) && SaysChunk(decode, traffic[k], session, chunk)
    ensures HasSaid(decode, traffic, k + 1, session, said + [chunk], at + [k])
  {
    var all: seq<nat> := at + [k];
    forall i | 0 <= i < |all| ensures Counts(traffic, all[i], k + 1, session) {
      if i < |at| { CountsOneMore(traffic, at[i], k, session); }
    }
    forall j: nat, c | j < k + 1 && SaysChunk(decode, traffic[j], session, c) && Counts(traffic, j, k + 1, session)
      ensures j in all
    {
      if j < k {
        CountsOneMore(traffic, j, k, session);
        assert j in at;
      } else {
        assert all[|at|] == j;
      }
    }
  }

  lemma SaidNoMore(
      decode: Decoder, traffic: seq<Incoming>, k: nat, session: string, said: seq<Chunk>, at: seq<nat>)
    requires k < |traffic| && HasSaid(decode, traffic, k, session, said, at)
    requires !Ends(traffic[k], session)
    requires Known(traffic, k, session) ==> forall chunk :: !SaysChunk(decode, traffic[k], session, chunk)
    ensures HasSaid(decode, traffic, k + 1, session, said, at)
  {
    forall i | 0 <= i < |at| ensures Counts(traffic, at[i], k + 1, session) {
      CountsOneMore(traffic, at[i], k, session);
    }
    forall j: nat, c | j < k + 1 && SaysChunk(decode, traffic[j], session, c) && Counts(traffic, j, k + 1, session)
      ensures j in at
    {
      if j < k { CountsOneMore(traffic, j, k, session); }
    }
  }

  lemma {:induction false} ChunksAreSaid(decode: Decoder, traffic: seq<Incoming>, k: nat, session: string)
    returns (at: seq<nat>)
    requires k <= |traffic|
    ensures HasSaid(decode, traffic, k, session, Chunks(Actions(decode, traffic)[..k], session), at)
  {
    at := [];
    if k > 0 {
      var n := k - 1;
      var trace := Actions(decode, traffic);
      var a, said := trace[n], Chunks(trace[..n], session);
      at := ChunksAreSaid(decode, traffic, n, session);
      assert trace[..k] == trace[..n] + [a];
      ChunksSnoc(trace[..n], a, session);
      EndsIsFinished(decode, traffic[n], session);
      KnownIsAnnounced(decode, traffic, n, session);
      AnnouncedByPrefix(trace, n, session);
      if Ends(traffic[n], session) {
        NothingSaid(decode, traffic, n, session);
        at := [];
      } else if Says(a, session) && Known(traffic, n, session) {
        SaysChunkIsSays(decode, traffic[n], session, a.update.chunk);
        SaidOneMore(decode, traffic, n, session, said, at, a.update.chunk);
        at := at + [n];
      } else {
        forall chunk ensures SaysChunk(decode, traffic[n], session, chunk) ==> Says(a, session) {
          SaysChunkIsSays(decode, traffic[n], session, chunk);
        }
        SaidNoMore(decode, traffic, n, session, said, at);
      }
    }
  }

  /** A report that a child has finished: completed or failed, with its answer if it said anything. */
  ghost predicate IsReport(u: SessionUpdate, session: string, completed: bool, said: seq<Chunk>) {
    && u.ToolCallUpdate?
    && u.update.id == "subagent:" + session && u.update.meta == None
    && u.update.status == Some(if completed then Completed else Failed)
    && (u.update.content.None? <==> said == [])
    && (said != [] ==> exists groups: seq<Group> ::
          && Flat(groups) == said && CutExactly(groups)
          && u.update.content == Some(Blocks(groups)) && BlockText(Blocks(groups)) == ChunkText(said))
  }

  /**
   * A finish of a known session is reported once, as completed exactly if its state is the string
   * `completed`, with every answer chunk since its previous finish, in order; of any other
   * session, not at all.
   */
  lemma FinishAnswers(decode: Decoder, traffic: seq<Incoming>, k: nat)
    requires k < |traffic| && IsKind(traffic[k].payload, "subagent_state_update")
    ensures var p := traffic[k].payload;
            var id := At(p, ["subagentSessionId"]);
            if id.Str? && Known(traffic, k, id.s)
            then exists u, said, at ::
                   && Routing(decode, traffic, k) == Normalized([u])
                   && IsReport(u, id.s, At(p, ["state"]) == Str("completed"), said)
                   && HasSaid(decode, traffic, k, id.s, said, at)
            else Routing(decode, traffic, k) == Normalized([])
  {
    var trace, m := Actions(decode, traffic), traffic[k];
    var id := At(m.payload, ["subagentSessionId"]);
    PayloadFinds(m.payload);
    RoutingIsEmitted(decode, traffic, k);
    if id.Str? {
      EndsIsFinished(decode, m, id.s);
      KnownIsAnnounced(decode, traffic, k, id.s);
      ChildAt(trace, k, id.s);
      if Known(traffic, k, id.s) {
        FinishReportsTheAnswer(trace, k);
        var said := Chunks(trace[..k], id.s);
        var at := ChunksAreSaid(decode, traffic, k, id.s);
        var completed := At(m.payload, ["state"]) == Str("completed");
        var u := ToolCallUpdate(CallUpdate(
          "subagent:" + id.s, Some(if completed then Completed else Failed),
          if said == [] then None else Some(Blocks(Groups(said))), None, Null));
        assert Routing(decode, traffic, k) == Normalized([u]);
        assert IsReport(u, id.s, completed, said);
      }
    }
  }

  // Everything else.

  /** The same metadata, linked to the call that stands for `session`. */
  function Linked(meta: Option<Meta>, session: string): Option<Meta> {
    var own := if meta.Some? then meta.value else map[];
    Some(own["daruda" := Object(map["parentToolId" := Str("subagent:" + session)])])
  }

  /** Traffic that is neither an announcement nor a report. */
  predicate IsUpdate(m: Incoming) {
    !IsKind(m.payload, "subagent_spawned") && !IsKind(m.payload, "subagent_state_update")
  }

  lemma UpdateReads(decode: Decoder, m: Incoming)
    requires IsUpdate(m)
    ensures match decode(m.payload)
            case None =>
              ActionOf(decode, m)
                == Unreadable(if At(m.payload, ["sessionUpdate"]).Str? then At(m.payload, ["sessionUpdate"]).s else "")
            case Some(u) => ActionOf(decode, m).Update? && ActionOf(decode, m).session == m.session
                            && ActionOf(decode, m).update == u
  {
    PayloadFinds(m.payload);
  }

  /**
   * An update of a session that is not known as a child passes as it is. Of a child's own, notices
   * and compactions pass, tool calls and their updates are re-keyed and linked, everything else
   * stays out of the transcript.
   */
  lemma UpdateAnswers(decode: Decoder, traffic: seq<Incoming>, k: nat, u: SessionUpdate)
    requires k < |traffic| && IsUpdate(traffic[k]) && decode(traffic[k].payload) == Some(u)
    ensures var session, answer := traffic[k].session, Routing(decode, traffic, k);
            if !Known(traffic, k, session) then answer == Standard(u)
            else
              match u
              case Notice(_) => answer == Normalized([u])
              case CompactionUpdate(_) => answer == Normalized([u])
              case CompactionSummaryChunk(_) => answer == Normalized([u])
              case ToolCall(call) =>
                answer == Normalized([ToolCall(call.(id := "subagent:" + session + ":tool:" + call.id,
                                                     meta := Linked(call.meta, session)))])
              case ToolCallUpdate(tcu) =>
                answer == Normalized([ToolCallUpdate(tcu.(id := "subagent:" + session + ":tool:" + tcu.id,
                                                          meta := Linked(tcu.meta, session)))])
              case AgentMessageChunk(_, _) => answer == Normalized([])
              case OtherUpdate(_) => answer == Normalized([])
  {
    var session := traffic[k].session;
    UpdateReads(decode, traffic[k]);
    RoutingIsEmitted(decode, traffic, k);
    KnownIsAnnounced(decode, traffic, k, session);
    ChildAt(Actions(decode, traffic), k, session);
  }

  /** The kind of an update that the build cannot decode. */
  predicate IsUnreadable(decode: Decoder, m: Incoming, kind: string) {
    && IsUpdate(m) && decode(m.payload) == None
    && kind == if At(m.payload, ["sessionUpdate"]).Str? then At(m.payload, ["sessionUpdate"]).s else ""
  }

  /** A kind the build cannot decode is reported the first time it comes, and ignored from then on. */
  lemma UnreadableAnswers(decode: Decoder, traffic: seq<Incoming>, k: nat, kind: string)
    requires k < |traffic| && IsUnreadable(decode, traffic[k], kind)
    ensures Routing(decode, traffic, k)
         == if exists j :: 0 <= j < k && IsUnreadable(decode, traffic[j], kind) then Normalized([]) else Unknown(kind)
  {
    var trace := Actions(decode, traffic);
    RoutingIsEmitted(decode, traffic, k);
    UpdateReads(decode, traffic[k]);
    UnknownReportedOnce(trace, k);
    forall j | 0 <= j < k ensures trace[j] == trace[k] <==> IsUnreadable(decode, traffic[j], kind) {
      PayloadFinds(traffic[j].payload);
    }
  }

  /** The first update whose collaboration tool is the string `spawnAgent` is reported, and no other. */
  lemma LegacyDelegationReported(payloads: seq<Value>, k: nat)
    requires k < |payloads|
    ensures var path := ["_meta", "codex", "collaboration", "tool"];
            ReportsDelegation(DelegationNoticed(payloads[..k]), payloads[k])
            <==> At(payloads[k], path) == Str("spawnAgent")
                 && forall j :: 0 <= j < k ==> At(payloads[j], path) != Str("spawnAgent")
  {
    DelegationReportedOnce(payloads, k);
    forall j | 0 <= j <= k
      ensures Delegates(payloads[j])
         <==> At(payloads[j], ["_meta", "codex", "collaboration", "tool"]) == Str("spawnAgent")
    {
      PointerFinds(payloads[j], ["_meta", "codex", "collaboration", "tool"]);
    }
  }

  /** A parent link is read from daruda's own namespace, and from Claude's if that holds none. */
  lemma ParentIsRead(meta: Meta)
    ensures var own, claude := At(Object(meta), ["daruda", "parentToolId"]),
                               At(Object(meta), ["claudeCode", "parentToolUseId"]);
            ReadParent(Some(meta)) == (if own.Str? then Some(own.s) else StrIn(claude))
  {
    PointerFinds(Object(meta), ["daruda", "parentToolId"]);
    PointerFinds(Object(meta), ["claudeCode", "parentToolUseId"]);
    if "daruda" in meta { GetFinds(meta["daruda"], "parentToolId"); }
    if "claudeCode" in meta { GetFinds(meta["claudeCode"], "parentToolUseId"); }
  }
}
