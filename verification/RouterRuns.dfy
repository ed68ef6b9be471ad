/** What the router's transcript is over any run: a forest, with every answer whole. */
module RouterRuns {
  import opened FlatIds
  import opened Json
  import opened Router
  import opened Runs
  import opened Text

  const FRESH := State(map[], {})

  function After(trace: seq<Action>): State { FoldWith(Next, FRESH, trace) }

  lemma AfterSnoc(trace: seq<Action>, a: Action)
    ensures After(trace + [a]) == Next(After(trace), a)
  {
    FoldWithSnoc(Next, FRESH, trace, a);
  }

  /** The router's answer to the `k`-th action of a run. */
  function Emitted(trace: seq<Action>, k: nat): Routed
    requires k < |trace|
  {
    Answer(After(trace[..k]), trace[k])
  }

  predicate Announces(a: Action, session: string) { a.Spawned? && a.child == session }

  /** When a session is first announced as a child; `|trace|` if it never is. */
  function AnnouncedAt(trace: seq<Action>, session: string): (k: nat)
    ensures k <= |trace|
    ensures k < |trace| ==> Announces(trace[k], session)
    ensures forall j :: 0 <= j < k ==> !Announces(trace[j], session)
  {
    if trace == [] || Announces(trace[0], session) then 0 else 1 + AnnouncedAt(trace[1..], session)
  }

  predicate Announced(trace: seq<Action>, session: string) { AnnouncedAt(trace, session) < |trace| }

  lemma AnnouncedSnoc(trace: seq<Action>, a: Action, session: string)
    ensures Announced(trace + [a], session) <==> Announced(trace, session) || Announces(a, session)
  {
    var k, n := AnnouncedAt(trace, session), AnnouncedAt(trace + [a], session);
    if k < |trace| {
      assert (trace + [a])[k] == trace[k];
    }
    assert n < |trace| ==> (trace + [a])[n] == trace[n];
    assert (trace + [a])[|trace|] == a;
  }

  lemma AnnouncedByPrefix(trace: seq<Action>, k: nat, session: string)
    requires k <= |trace|
    ensures Announced(trace[..k], session) <==> AnnouncedAt(trace, session) < k
  {
    var m, n := AnnouncedAt(trace, session), AnnouncedAt(trace[..k], session);
    assert m < k ==> trace[..k][m] == trace[m];
    assert n < k ==> trace[..k][n] == trace[n];
  }

  // Answers.

  predicate Says(a: Action, session: string) {
    a.Update? && a.session == session && a.answer && a.update.AgentMessageChunk?
  }

  /** The answer chunks of a session since it was announced or last reported finished. */
  function Chunks(trace: seq<Action>, session: string): seq<Chunk> {
    if trace == [] then []
    else
      var n := |trace| - 1;
      var a, earlier := trace[n], Chunks(trace[..n], session);
      if a.Finished? && a.child == session then []
      else if Says(a, session) && Announced(trace[..n], session) then earlier + [a.update.chunk]
      else earlier
  }

  lemma ChunksSnoc(trace: seq<Action>, a: Action, session: string)
    ensures Chunks(trace + [a], session)
         == if a.Finished? && a.child == session then []
            else if Says(a, session) && Announced(trace, session) then Chunks(trace, session) + [a.update.chunk]
            else Chunks(trace, session)
  {
    assert (trace + [a])[..|trace|] == trace;
  }

  /** Two texts of one message run together. */
  predicate RunTogether(a: Chunk, b: Chunk) { a.messageId == b.messageId && a.block.TextBlock? && b.block.TextBlock? }

  type Group = g: seq<Chunk> | g != [] witness [Chunk(OtherBlock(Null), None)]

  function Last<T>(s: seq<T>): T
    requires s != []
  {
    s[|s| - 1]
  }

  function Grown(groups: seq<Group>, chunk: Chunk): seq<Group> {
    if groups != [] && RunTogether(Last(Last(groups)), chunk)
    then groups[..|groups| - 1] + [Last(groups) + [chunk]]
    else groups + [[chunk]]
  }

  /** Chunks in groups, a new one wherever a chunk does not run together with the one before. */
  function Groups(chunks: seq<Chunk>): seq<Group> {
    if chunks == [] then [] else Grown(Groups(chunks[..|chunks| - 1]), Last(chunks))
  }

  function TextOf(b: Block): string { if b.TextBlock? then b.text else "" }

  function ChunkText(chunks: seq<Chunk>): string {
    if chunks == [] then "" else ChunkText(chunks[..|chunks| - 1]) + TextOf(Last(chunks).block)
  }

  /** One block of output: texts concatenated, anything else as it came. */
  function Merged(group: Group): Block {
    if group[0].block.TextBlock? then TextBlock(ChunkText(group), group[0].block.extra) else group[0].block
  }

  function Blocks(groups: seq<Group>): seq<Block> { seq(|groups|, i requires 0 <= i < |groups| => Merged(groups[i])) }

  function Flat(groups: seq<Group>): seq<Chunk> {
    if groups == [] then [] else Flat(groups[..|groups| - 1]) + Last(groups)
  }

  predicate Whole(group: Group) { forall i :: 0 < i < |group| ==> RunTogether(group[i - 1], group[i]) }

  /** Every group holds together, and no two neighbouring groups could. */
  predicate CutExactly(groups: seq<Group>) {
    && (forall j :: 0 <= j < |groups| ==> Whole(groups[j]))
    && (forall j :: 0 < j < |groups| ==> !RunTogether(Last(groups[j - 1]), groups[j][0]))
  }

  lemma GrownStaysExact(groups: seq<Group>, chunk: Chunk)
    requires CutExactly(groups)
    ensures CutExactly(Grown(groups, chunk))
  {
    if groups != [] && RunTogether(Last(Last(groups)), chunk) {
      var group: Group := Last(groups) + [chunk];
      assert Whole(Last(groups)) && Whole(group) && group[0] == Last(groups)[0];
    }
  }

  lemma GrownFlat(groups: seq<Group>, chunk: Chunk)
    ensures Flat(Grown(groups, chunk)) == Flat(groups) + [chunk]
  {
    var n := |groups| - 1;
    var grown := Grown(groups, chunk);
    if groups != [] && RunTogether(Last(Last(groups)), chunk) {
      assert grown[..n] == groups[..n];
      AppendAssoc(Flat(groups[..n]), Last(groups), [chunk]);
    } else {
      assert grown[..n + 1] == groups;
    }
  }

  /** The groups of a list of chunks are that list, cut exactly where two neighbours do not run together. */
  lemma {:induction false} GroupsMean(chunks: seq<Chunk>)
    ensures Flat(Groups(chunks)) == chunks && CutExactly(Groups(chunks))
  {
    if chunks != [] {
      var n := |chunks| - 1;
      GroupsMean(chunks[..n]);
      GrownStaysExact(Groups(chunks[..n]), chunks[n]);
      GrownFlat(Groups(chunks[..n]), chunks[n]);
      SplitLast(chunks);
    }
  }

  lemma LastOfFlat(groups: seq<Group>)
    requires groups != []
    ensures Flat(groups) != [] && Last(Flat(groups)) == Last(Last(groups))
  {
  }

  /** What a child has pending: its chunks, merged group by group. */
  predicate Holds(child: Child, chunks: seq<Chunk>) {
    && child.answer == Blocks(Groups(chunks))
    && (chunks != [] ==> child.answerMessageId == Last(chunks).messageId)
  }

  lemma MergedGrown(group: Group, chunk: Chunk)
    requires Whole(group) && RunTogether(Last(group), chunk)
    ensures group[0].block.TextBlock?
    ensures Merged(group + [chunk]) == TextBlock(Merged(group).text + chunk.block.text, group[0].block.extra)
  {
    if |group| > 1 { assert RunTogether(group[0], group[1]); }
    assert (group + [chunk])[..|group|] == group;
  }

  lemma MergedKind(group: Group)
    requires Whole(group)
    ensures Merged(group).TextBlock? <==> Last(group).block.TextBlock?
  {
    if |group| > 1 {
      assert RunTogether(group[0], group[1]);
      assert RunTogether(group[|group| - 2], group[|group| - 1]);
    }
  }

  lemma MergedAlone(chunk: Chunk)
    ensures Merged([chunk]) == chunk.block
  {
    assert [chunk][..0] == [];
    assert ChunkText([chunk]) == ChunkText([chunk][..0]) + TextOf(chunk.block);
  }

  /** Merging after a chunk is added extends the last block, or adds one. */
  lemma BlocksGrown(groups: seq<Group>, chunk: Chunk)
    requires CutExactly(groups)
    ensures Blocks(Grown(groups, chunk))
         == if groups != [] && RunTogether(Last(Last(groups)), chunk)
            then Blocks(groups)[..|groups| - 1] + [Merged(Last(groups) + [chunk])]
            else Blocks(groups) + [chunk.block]
  {
    if !(groups != [] && RunTogether(Last(Last(groups)), chunk)) {
      MergedAlone(chunk);
    }
  }

  lemma GroupsSnoc(chunks: seq<Chunk>, chunk: Chunk)
    ensures Groups(chunks + [chunk]) == Grown(Groups(chunks), chunk)
  {
    assert (chunks + [chunk])[..|chunks|] == chunks;
  }

  /** What a child's answer shows of the last chunk it took in. */
  predicate Shows(child: Child, groups: seq<Group>) {
    && child.answer == Blocks(groups)
    && (groups != [] ==> child.answerMessageId == Last(Last(groups)).messageId)
  }

  lemma AccumulatedTogether(child: Child, groups: seq<Group>, chunk: Chunk)
    requires CutExactly(groups) && Shows(child, groups)
    requires groups != [] && RunTogether(Last(Last(groups)), chunk)
    ensures Accumulated(child, chunk).answer == Blocks(Grown(groups, chunk))
    ensures Accumulated(child, chunk).answerMessageId == chunk.messageId
  {
    BlocksGrown(groups, chunk);
    MergedGrown(Last(groups), chunk);
  }

  lemma AccumulatedAlone(child: Child, groups: seq<Group>, chunk: Chunk)
    requires CutExactly(groups) && Shows(child, groups)
    requires groups == [] || !RunTogether(Last(Last(groups)), chunk)
    ensures Accumulated(child, chunk).answer == Blocks(Grown(groups, chunk))
    ensures Accumulated(child, chunk).answerMessageId == chunk.messageId
  {
    BlocksGrown(groups, chunk);
    if groups != [] {
      MergedKind(Last(groups));
    }
  }

  lemma AccumulatedHolds(child: Child, chunks: seq<Chunk>, chunk: Chunk)
    requires Holds(child, chunks)
    ensures Holds(Accumulated(child, chunk), chunks + [chunk])
  {
    var groups := Groups(chunks);
    GroupsMean(chunks);
    GroupsSnoc(chunks, chunk);
    if groups != [] { LastOfFlat(groups); }
    if groups != [] && RunTogether(Last(Last(groups)), chunk) {
      AccumulatedTogether(child, groups, chunk);
    } else {
      AccumulatedAlone(child, groups, chunk);
    }
  }

  function BlockText(blocks: seq<Block>): string {
    if blocks == [] then "" else BlockText(blocks[..|blocks| - 1]) + TextOf(Last(blocks))
  }

  lemma {:induction false} ChunkTextConcat(a: seq<Chunk>, b: seq<Chunk>)
    ensures ChunkText(a + b) == ChunkText(a) + ChunkText(b)
  {
    if b == [] {
      assert a + b == a;
    } else {
      var n := |b| - 1;
      ChunkTextConcat(a, b[..n]);
      assert (a + b)[..|a| + n] == a + b[..n] && Last(a + b) == Last(b);
      AppendAssoc(ChunkText(a), ChunkText(b[..n]), TextOf(Last(b).block));
    }
  }

  lemma MergedKeepsText(group: Group)
    requires Whole(group)
    ensures TextOf(Merged(group)) == ChunkText(group)
  {
    if |group| > 1 {
      assert RunTogether(group[0], group[1]);
    } else {
      assert ChunkText(group[..0]) == "";
    }
  }

  /** Merging neither loses, repeats nor reorders a character. */
  lemma {:induction false} BlocksKeepText(groups: seq<Group>)
    requires CutExactly(groups)
    ensures BlockText(Blocks(groups)) == ChunkText(Flat(groups))
  {
    if groups != [] {
      var n := |groups| - 1;
      BlocksKeepText(groups[..n]);
      assert Blocks(groups)[..n] == Blocks(groups[..n]);
      MergedKeepsText(groups[n]);
      ChunkTextConcat(Flat(groups[..n]), groups[n]);
    }
  }

  lemma ChunksOfUnannounced(trace: seq<Action>, session: string)
    requires !Announced(trace, session)
    ensures Chunks(trace, session) == []
  {
    if trace != [] {
      var n := |trace| - 1;
      SplitLast(trace);
      AnnouncedSnoc(trace[..n], trace[n], session);
      ChunksOfUnannounced(trace[..n], session);
    }
  }

  lemma NextHolds(s: State, trace: seq<Action>, a: Action, session: string)
    requires session in s.children <==> Announced(trace, session)
    requires session in s.children ==> Holds(s.children[session], Chunks(trace, session))
    ensures session in Next(s, a).children ==> Holds(Next(s, a).children[session], Chunks(trace + [a], session))
  {
    ChunksSnoc(trace, a, session);
    if session in s.children {
      if Says(a, session) {
        AccumulatedHolds(s.children[session], Chunks(trace, session), a.update.chunk);
      }
    } else {
      ChunksOfUnannounced(trace, session);
    }
  }

  /**
   * The children after any run are the sessions announced in it, each under its own synthetic id;
   * and what a child has pending is what it has said since it was announced or last finished.
   */
  lemma {:induction false} ChildrenAfter(trace: seq<Action>, session: string)
    ensures session in After(trace).children <==> Announced(trace, session)
    ensures session in After(trace).children
            ==> var child := After(trace).children[session];
                child.toolId == ParentToolId(session) && Holds(child, Chunks(trace, session))
  {
    if trace != [] {
      var n := |trace| - 1;
      ChildrenAfter(trace[..n], session);
      AnnouncedSnoc(trace[..n], trace[n], session);
      NextHolds(After(trace[..n]), trace[..n], trace[n], session);
      AfterSnoc(trace[..n], trace[n]);
      SplitLast(trace);
    }
  }

  /** A session's state where its `k`-th action is answered. */
  lemma ChildAt(trace: seq<Action>, k: nat, session: string)
    requires k < |trace|
    ensures session in After(trace[..k]).children <==> AnnouncedAt(trace, session) < k
    ensures session in After(trace[..k]).children
            ==> var child := After(trace[..k]).children[session];
                child.toolId == ParentToolId(session) && Holds(child, Chunks(trace[..k], session))
  {
    ChildrenAfter(trace[..k], session);
    AnnouncedByPrefix(trace, k, session);
  }

  /**
   * A finish of an announced child reports, exactly once and whole, every answer chunk since the
   * previous finish: in order, texts of one message run together and nothing else; and no
   * content at all when the child said nothing.
   */
  lemma FinishReportsTheAnswer(trace: seq<Action>, k: nat)
    requires k < |trace| && trace[k].Finished? && AnnouncedAt(trace, trace[k].child) < k
    ensures var said := Chunks(trace[..k], trace[k].child);
            && Flat(Groups(said)) == said && CutExactly(Groups(said))
            && BlockText(Blocks(Groups(said))) == ChunkText(said)
            && Emitted(trace, k) == Normalized([ToolCallUpdate(CallUpdate(
                 ParentToolId(trace[k].child), Some(if trace[k].completed then Completed else Failed),
                 if said == [] then None else Some(Blocks(Groups(said))), None, Null))])
  {
    var said := Chunks(trace[..k], trace[k].child);
    ChildAt(trace, k, trace[k].child);
    GroupsMean(said);
    BlocksKeepText(Groups(said));
  }

  /**
   * Only the first announcement of a session launches, and it nests under its parent exactly if
   * that was announced strictly earlier.
   */
  lemma LaunchNests(trace: seq<Action>, k: nat)
    requires k < |trace| && trace[k].Spawned?
    ensures var a := trace[k];
            var parent := if AnnouncedAt(trace, a.parent) < k then Some(ParentToolId(a.parent)) else None;
            Emitted(trace, k)
              == Normalized(if k == AnnouncedAt(trace, a.child) then [Launch(a.child, parent, a.name, a.prompt)]
                            else [])
  {
    ChildAt(trace, k, trace[k].child);
    ChildAt(trace, k, trace[k].parent);
    assert k <= AnnouncedAt(trace, trace[k].child) ==> k == AnnouncedAt(trace, trace[k].child);
  }

  function MetaOf(u: SessionUpdate): Option<Meta> {
    match u
    case ToolCall(call) => call.meta
    case ToolCallUpdate(tcu) => tcu.meta
    case _ => None
  }

  function IdOf(u: SessionUpdate): Option<string> {
    match u
    case ToolCall(call) => Some(call.id)
    case ToolCallUpdate(tcu) => Some(tcu.id)
    case _ => None
  }

  predicate Emits(trace: seq<Action>, k: nat, u: SessionUpdate) {
    k < |trace| && Emitted(trace, k).Normalized? && u in Emitted(trace, k).updates
  }

  /** An announcement that puts a new synthetic call into the transcript. */
  ghost predicate Launches(trace: seq<Action>, k: nat, id: string) {
    k < |trace| && trace[k].Spawned? && exists u :: Emits(trace, k, u) && u.ToolCall? && u.call.id == id
  }

  /**
   * `u` is a child's own call or call update: re-keyed, linked to the child's synthetic call, all
   * else in `_meta` kept.
   */
  ghost predicate IsChildCall(u: SessionUpdate, session: string, own: SessionUpdate)
    requires IdOf(own).Some?
  {
    && IdOf(u) == Some(ChildToolId(session, IdOf(own).value))
    && ReadParent(MetaOf(u)) == Some(ParentToolId(session))
    && MetaOf(u).Some?
    && MetaOf(u).value - {DARUDA_META_KEY}
         == (if MetaOf(own).Some? then MetaOf(own).value else map[]) - {DARUDA_META_KEY}
  }

  lemma RewrittenIsChildCall(session: string, own: SessionUpdate)
    requires IdOf(own).Some?
    ensures var us := Rewritten(session, ParentToolId(session), own);
            |us| == 1 && IsChildCall(us[0], session, own)
  {
    StampReadsBack(MetaOf(own), ParentToolId(session));
  }

  /** What an announced child's tool call or its update becomes. */
  lemma ChildCallNests(trace: seq<Action>, k: nat)
    requires k < |trace| && trace[k].Update? && AnnouncedAt(trace, trace[k].session) < k
    requires IdOf(trace[k].update).Some?
    ensures exists u :: Emitted(trace, k) == Normalized([u]) && IsChildCall(u, trace[k].session, trace[k].update)
  {
    var session, own := trace[k].session, trace[k].update;
    ChildAt(trace, k, session);
    RewrittenIsChildCall(session, own);
    var us := Rewritten(session, ParentToolId(session), own);
    assert us == [us[0]];
    assert Emitted(trace, k) == Normalized([us[0]]);
  }

  lemma AnnouncementLaunches(trace: seq<Action>, session: string)
    requires Announced(trace, session)
    ensures Launches(trace, AnnouncedAt(trace, session), ParentToolId(session))
  {
    var k := AnnouncedAt(trace, session);
    LaunchNests(trace, k);
    var a := trace[k];
    var parent := if AnnouncedAt(trace, a.parent) < k then Some(ParentToolId(a.parent)) else None;
    assert Emits(trace, k, Launch(a.child, parent, a.name, a.prompt));
  }

  /**
   * The transcript is a forest: whatever the router emits under a parent, and every report of a
   * finished child, names a synthetic call launched strictly earlier.
   */
  lemma NothingDangles(trace: seq<Action>, k: nat, u: SessionUpdate, id: string)
    requires Emits(trace, k, u)
    requires ReadParent(MetaOf(u)) == Some(id) || (trace[k].Finished? && IdOf(u) == Some(id))
    ensures exists j: nat :: j < k && Launches(trace, j, id)
  {
    var a := trace[k];
    var session := if a.Spawned? then a.parent else if a.Finished? then a.child else a.session;
    ChildAt(trace, k, session);
    if a.Update? {
      StampReadsBack(MetaOf(a.update), ParentToolId(session));
    } else if a.Spawned? {
      StampReadsBack(None, ParentToolId(session));
    }
    assert id == ParentToolId(session) && AnnouncedAt(trace, session) < k;
    AnnouncementLaunches(trace, session);
  }

  /** No synthetic call is launched twice. */
  lemma LaunchedOnce(trace: seq<Action>, j: nat, k: nat, id: string)
    requires Launches(trace, j, id) && Launches(trace, k, id)
    ensures j == k
  {
    LaunchNests(trace, j);
    LaunchNests(trace, k);
    ParentToolIdInjective(trace[j].child, trace[k].child);
  }

  /** Each kind the build does not understand is reported the first time it comes, and never again. */
  lemma UnknownReportedOnce(trace: seq<Action>, k: nat)
    requires k < |trace| && trace[k].Unreadable?
    ensures Emitted(trace, k) == Unknown(trace[k].kind) <==> forall j :: 0 <= j < k ==> trace[j] != trace[k]
    ensures Emitted(trace, k).Unknown? || Emitted(trace, k) == Normalized([])
  {
    NoticedAfter(trace[..k], trace[k].kind);
    assert forall j :: 0 <= j < k ==> trace[..k][j] == trace[j];
  }

  lemma {:induction false} NoticedAfter(trace: seq<Action>, kind: string)
    ensures kind in After(trace).noticed <==> Unreadable(kind) in trace
  {
    if trace != [] {
      var n := |trace| - 1;
      NoticedAfter(trace[..n], kind);
      AfterSnoc(trace[..n], trace[n]);
      SplitLast(trace);
    }
  }

  /** Whether a delegation has been noticed after a run of updates. */
  predicate DelegationNoticed(payloads: seq<Value>) { FoldWith(NoticesDelegation, false, payloads) }

  lemma {:induction false} NoticedIffDelegated(payloads: seq<Value>)
    ensures DelegationNoticed(payloads) <==> exists j :: 0 <= j < |payloads| && Delegates(payloads[j])
  {
    if payloads != [] {
      var n := |payloads| - 1;
      NoticedIffDelegated(payloads[..n]);
      SplitLast(payloads);
      FoldWithSnoc(NoticesDelegation, false, payloads[..n], payloads[n]);
      assert forall j :: 0 <= j < n ==> payloads[..n][j] == payloads[j];
    }
  }

  /** Over any run of updates the first that delegates through the legacy path is reported, and no other. */
  lemma DelegationReportedOnce(payloads: seq<Value>, k: nat)
    requires k < |payloads|
    ensures ReportsDelegation(DelegationNoticed(payloads[..k]), payloads[k])
            <==> Delegates(payloads[k]) && forall j :: 0 <= j < k ==> !Delegates(payloads[j])
  {
    NoticedIffDelegated(payloads[..k]);
    assert forall j :: 0 <= j < k ==> payloads[..k][j] == payloads[j];
  }

  // Ids across the transcript.

  /** What a call of the transcript stands for: a child session, or a tool call of one. */
  datatype Origin = OfSession(session: string) | OfCall(session: string, id: string)

  function OriginOf(a: Action): Option<Origin> {
    if a.Spawned? then Some(OfSession(a.child))
    else if a.Update? && IdOf(a.update).Some? then Some(OfCall(a.session, IdOf(a.update).value))
    else if a.Finished? then Some(OfSession(a.child))
    else None
  }

  function FlatId(o: Origin): string {
    match o
    case OfSession(session) => ParentToolId(session)
    case OfCall(session, id) => ChildToolId(session, id)
  }

  lemma EmittedIdIsOfOrigin(trace: seq<Action>, k: nat, u: SessionUpdate)
    requires Emits(trace, k, u) && IdOf(u).Some?
    ensures OriginOf(trace[k]).Some? && IdOf(u).value == FlatId(OriginOf(trace[k]).value)
  {
    if trace[k].Finished? {
      ChildAt(trace, k, trace[k].child);
    }
  }

  /**
   * When the sessions involved are clean, calls of the transcript share an id exactly when they
   * stand for the same thing.
   */
  lemma IdsAreIdentities(trace: seq<Action>, j: nat, k: nat, u: SessionUpdate, v: SessionUpdate)
    requires Emits(trace, j, u) && Emits(trace, k, v) && IdOf(u).Some? && IdOf(v).Some?
    requires OriginOf(trace[j]).Some? ==> Clean(OriginOf(trace[j]).value.session)
    requires OriginOf(trace[k]).Some? ==> Clean(OriginOf(trace[k]).value.session)
    ensures IdOf(u) == IdOf(v) <==> OriginOf(trace[j]) == OriginOf(trace[k])
  {
    EmittedIdIsOfOrigin(trace, j, u);
    EmittedIdIsOfOrigin(trace, k, v);
    if IdOf(u) == IdOf(v) {
      OriginsApart(OriginOf(trace[j]).value, OriginOf(trace[k]).value);
    }
  }

  lemma OriginsApart(o: Origin, p: Origin)
    requires Clean(o.session) && Clean(p.session) && FlatId(o) == FlatId(p)
    ensures o == p
  {
    match (o, p) {
      case (OfSession(s), OfSession(t)) => ParentToolIdInjective(s, t);
      case (OfCall(s, i), OfCall(t, j)) => ChildToolIdInjective(s, i, t, j);
      case (OfSession(s), OfCall(t, j)) => MarkInSession(s, t, j);
      case (OfCall(s, i), OfSession(t)) => MarkInSession(t, s, i);
    }
  }

  lemma MarkInSession(s: string, t: string, id: string)
    requires ParentToolId(s) == ChildToolId(t, id)
    ensures !Clean(s)
  {
    ParentIdIsChildIdIff(s);
    if Clean(s) { CleanHoldsNoMark(s); }
  }
}
