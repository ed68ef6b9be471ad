/** The view that runs the passes over its conversation. */
module Reconciler {
  import opened Text
  import opened Digits
  import opened Fences
  import opened EmbedPass
  import opened Runs

  datatype DiffView = DiffView(path: string, oldText: Option<string>, newText: string)

  datatype Block =
    | RawText(text: string)
    | TextBlock(text: string, truncated: bool)
    | SourceText(text: string, language: Option<string>)
    | OtherBlock

  datatype ChatItem =
    | ToolCall(id: string, diffs: seq<DiffView>, output: seq<Block>)
    | Compaction(outputKey: string, summary: seq<Block>)
    | OtherItem

  /** The verbatim body of an output block and its language. */
  datatype Source = Source(text: string, language: Option<string>)

  function OutputEditorSource(block: Block): Option<Source> {
    match block
    case RawText(text) => Some(Source(text, None))
    case TextBlock(text, truncated) =>
      (match SingleFencedBlock(text, truncated)
       case None => None
       case Some((body, tag)) => if tag == Some("mermaid") then None else Some(Source(body, tag)))
    case SourceText(text, language) => Some(Source(text, language))
    case OtherBlock => None
  }

  datatype Theme = Theme(syntax: string, isLight: bool, colors: seq<nat>)

  datatype DiffModel = DiffModel(text: string, decorations: seq<nat>)
  datatype DiffStat = DiffStat(added: nat, removed: nat)

  /** Hashing and diff rendering, which are other modules' work. A fingerprint may collide. */
  datatype Rendering = Rendering(
    diffFingerprint: (DiffView, Theme) -> nat,
    diffModel: (DiffView, Theme) -> Option<(DiffModel, DiffStat)>,
    outputFingerprint: Source -> nat)

  datatype Editor<M> = Editor(entity: nat, model: M)

  type Diffs = Candidate<(DiffModel, DiffStat)>
  type Outputs = Candidate<Source>

  function ItemId(item: ChatItem): Option<string> {
    match item
    case ToolCall(id, _, _) => Some(id)
    case Compaction(key, _) => Some(key)
    case OtherItem => None
  }

  function DiffOf(r: Rendering, theme: Theme, id: string, diff: DiffView, i: nat): Diffs {
    Candidate(EditorKey(id, i), r.diffFingerprint(diff, theme), r.diffModel(diff, theme))
  }

  /** One candidate per file the call changed. */
  function ItemDiffs(r: Rendering, theme: Theme, item: ChatItem): seq<Diffs> {
    if item.ToolCall?
    then seq(|item.diffs|, i requires 0 <= i < |item.diffs| => DiffOf(r, theme, item.id, item.diffs[i], i))
    else []
  }

  function OutputOf(r: Rendering, id: string, source: Source, i: nat): Outputs {
    Candidate(EditorKey(id, i), r.outputFingerprint(source), Some(source))
  }

  function BlockOutputs(r: Rendering, id: string, blocks: seq<Block>): seq<Outputs> {
    if blocks == [] then []
    else
      var n := |blocks| - 1;
      var source := OutputEditorSource(blocks[n]);
      BlockOutputs(r, id, blocks[..n]) + if source.Some? then [OutputOf(r, id, source.value, n)] else []
  }

  /** One candidate per verbatim output block; the index counts every block. */
  function ItemOutputs(r: Rendering, item: ChatItem): seq<Outputs> {
    match item
    case ToolCall(id, _, output) => BlockOutputs(r, id, output)
    case Compaction(key, summary) => BlockOutputs(r, key, summary)
    case OtherItem => []
  }

  /**
   * The candidates a pass visits: items in order, those covered and on screen; `visible` answers
   * for an item's index.
   */
  function Visited<P>(
        of: ChatItem -> seq<Candidate<P>>, items: seq<ChatItem>, visible: nat -> bool,
        scope: Scope): seq<Candidate<P>> {
    if items == [] then []
    else
      var n := |items| - 1;
      Visited(of, items[..n], visible, scope) + if IsVisited(items[n], visible(n), scope) then of(items[n]) else []
  }

  predicate IsVisited(item: ChatItem, onScreen: bool, scope: Scope) {
    ItemId(item).Some? && Covers(scope, ItemId(item).value) && onScreen
  }

  function DiffCandidates(
        r: Rendering, theme: Theme, items: seq<ChatItem>, visible: nat -> bool, scope: Scope): seq<Diffs> {
    Visited(item => ItemDiffs(r, theme, item), items, visible, scope)
  }

  function OutputCandidates(r: Rendering, items: seq<ChatItem>, visible: nat -> bool, scope: Scope): seq<Outputs> {
    Visited(item => ItemOutputs(r, item), items, visible, scope)
  }

  lemma ZipDiffsWithout(
        editors: map<string, Editor<DiffModel>>, stats: map<string, DiffStat>, sources: map<string, nat>, key: string)
    requires editors.Keys == stats.Keys == sources.Keys
    ensures ZipDiffs(editors - {key}, stats - {key}, sources - {key}) == ZipDiffs(editors, stats, sources) - {key}
  {
  }

  lemma ZipDiffsWith(editors: map<string, Editor<DiffModel>>, stats: map<string, DiffStat>, sources: map<string, nat>,
                     key: string, editor: Editor<DiffModel>, stat: DiffStat, source: nat)
    requires editors.Keys == stats.Keys == sources.Keys
    ensures ZipDiffs(editors[key := editor], stats[key := stat], sources[key := source])
         == ZipDiffs(editors, stats, sources)[key := Entry(source, editor.entity, (editor.model, stat))]
  {
  }

  lemma ZipOutputsWith(
        editors: map<string, Editor<Source>>, sources: map<string, nat>, key: string, editor: Editor<Source>,
        source: nat)
    requires editors.Keys == sources.Keys
    ensures ZipOutputs(editors[key := editor], sources[key := source])
         == ZipOutputs(editors, sources)[key := Entry(source, editor.entity, editor.model)]
  {
  }

  lemma WithoutOneMore<V>(m: map<string, V>, stale: set<string>, rest: set<string>, key: string)
    requires key in rest && rest <= stale
    ensures (m - (stale - rest)) - {key} == m - (stale - (rest - {key}))
  {
  }

  /** The parallel maps, read as one. */
  function ZipDiffs(editors: map<string, Editor<DiffModel>>, stats: map<string, DiffStat>, sources: map<string, nat>)
    : Cache<(DiffModel, DiffStat)>
    requires editors.Keys == stats.Keys == sources.Keys
  {
    map k | k in editors :: Entry(sources[k], editors[k].entity, (editors[k].model, stats[k]))
  }

  function ZipOutputs(editors: map<string, Editor<Source>>, sources: map<string, nat>): Cache<Source>
    requires editors.Keys == sources.Keys
  {
    map k | k in editors :: Entry(sources[k], editors[k].entity, editors[k].model)
  }

  // The view's embeds, and what every pass keeps.

  /** Both caches, and how many editor creations have been asked for so far, of either kind. */
  datatype EmbedState = EmbedState(diffs: Cache<(DiffModel, DiffStat)>, outputs: Cache<Source>, attempts: nat)

  const NO_EMBEDS := EmbedState(map[], map[], 0)

  /** One pass of one reconciler over what the conversation shows at the time. */
  datatype Round =
    | DiffRound(theme: Option<Theme>, items: seq<ChatItem>, visible: nat -> bool, scope: Scope)
    | OutputRound(items: seq<ChatItem>, visible: nat -> bool, scope: Scope)

  function Reconciled(r: Rendering, window: nat -> bool, s: EmbedState, round: Round): EmbedState {
    match round
    case DiffRound(None, _, _, _) => s
    case DiffRound(Some(theme), items, visible, scope) =>
      var after := Pass(s.diffs, DiffCandidates(r, theme, items, visible, scope), scope, s.attempts, window);
      s.(diffs := after.cache, attempts := after.attempts)
    case OutputRound(items, visible, scope) =>
      var after := Pass(s.outputs, OutputCandidates(r, items, visible, scope), scope, s.attempts, window);
      s.(outputs := after.cache, attempts := after.attempts)
  }

  /** Every fingerprint with what was rendered for content of that fingerprint. */
  ghost function Renderings(r: Rendering): iset<(nat, (DiffModel, DiffStat))> {
    iset diff: DiffView, theme: Theme | r.diffModel(diff, theme).Some?
      :: (r.diffFingerprint(diff, theme), r.diffModel(diff, theme).value)
  }

  ghost function Sources(r: Rendering): iset<(nat, Source)> {
    iset source: Source | true :: (r.outputFingerprint(source), source)
  }

  ghost predicate AllBuilt(r: Rendering, s: EmbedState) {
    AllMade(s.diffs, Renderings(r)) && AllMade(s.outputs, Sources(r))
  }

  lemma {:induction false} VisitedOffersMade<P>(
      of: ChatItem -> seq<Candidate<P>>, items: seq<ChatItem>, visible: nat -> bool, scope: Scope, made: iset<(nat, P)>)
    requires forall item: ChatItem :: OffersMade(of(item), made)
    ensures OffersMade(Visited(of, items, visible, scope), made)
  {
    if items != [] {
      VisitedOffersMade(of, items[..|items| - 1], visible, scope, made);
    }
  }

  lemma {:induction false} BlockOutputsAreSources(r: Rendering, id: string, blocks: seq<Block>)
    ensures OffersMade(BlockOutputs(r, id, blocks), Sources(r))
  {
    if blocks != [] {
      BlockOutputsAreSources(r, id, blocks[..|blocks| - 1]);
    }
  }

  lemma DiffsAreRenderings(r: Rendering, theme: Theme, items: seq<ChatItem>, visible: nat -> bool, scope: Scope)
    ensures OffersMade(DiffCandidates(r, theme, items, visible, scope), Renderings(r))
  {
    VisitedOffersMade(item => ItemDiffs(r, theme, item), items, visible, scope, Renderings(r));
  }

  lemma OutputsAreSources(r: Rendering, items: seq<ChatItem>, visible: nat -> bool, scope: Scope)
    ensures OffersMade(OutputCandidates(r, items, visible, scope), Sources(r))
  {
    forall item: ChatItem ensures OffersMade(ItemOutputs(r, item), Sources(r)) {
      match item {
        case ToolCall(id, _, output) => BlockOutputsAreSources(r, id, output);
        case Compaction(key, summary) => BlockOutputsAreSources(r, key, summary);
        case OtherItem =>
      }
    }
    VisitedOffersMade(item => ItemOutputs(r, item), items, visible, scope, Sources(r));
  }

  lemma RoundKeepsBuilt(r: Rendering, window: nat -> bool, s: EmbedState, round: Round)
    requires AllBuilt(r, s)
    ensures AllBuilt(r, Reconciled(r, window, s, round))
  {
    match round {
      case DiffRound(None, _, _, _) =>
      case DiffRound(Some(theme), items, visible, scope) =>
        DiffsAreRenderings(r, theme, items, visible, scope);
        PassKeepsMade(s.diffs, DiffCandidates(r, theme, items, visible, scope),
                      scope, s.attempts, window, Renderings(r));
      case OutputRound(items, visible, scope) =>
        OutputsAreSources(r, items, visible, scope);
        PassKeepsMade(s.outputs, OutputCandidates(r, items, visible, scope), scope, s.attempts, window, Sources(r));
    }
  }

  class AgentChatView {
    const rendering: Rendering
    /** Whether the window is there for the n-th editor creation. */
    const window: nat -> bool
    var items: seq<ChatItem>
    var diffEditors: map<string, Editor<DiffModel>>
    var diffStats: map<string, DiffStat>
    var diffEditorSources: map<string, nat>
    var outputEditors: map<string, Editor<Source>>
    var outputEditorSources: map<string, nat>
    var attempts: nat

    /** The parallel maps share one key set. */
    ghost predicate Aligned()
      reads this
    {
      && diffEditors.Keys == diffStats.Keys == diffEditorSources.Keys
      && outputEditors.Keys == outputEditorSources.Keys
    }

    /** Every cached editor and stat was built from content with the recorded fingerprint. */
    ghost predicate Valid()
      reads this
    {
      Aligned() && AllBuilt(rendering, Embeds())
    }

    ghost function Embeds(): EmbedState
      requires Aligned()
      reads this
    {
      EmbedState(DiffCache(), OutputCache(), attempts)
    }

    ghost function DiffCache(): Cache<(DiffModel, DiffStat)>
      requires Aligned()
      reads this
    {
      ZipDiffs(diffEditors, diffStats, diffEditorSources)
    }

    ghost function OutputCache(): Cache<Source>
      requires Aligned()
      reads this
    {
      ZipOutputs(outputEditors, outputEditorSources)
    }

    constructor (rendering: Rendering, window: nat -> bool)
      ensures Valid() && this.rendering == rendering && this.window == window
      ensures items == [] && Embeds() == NO_EMBEDS
    {
      this.rendering, this.window, items, attempts := rendering, window, [], 0;
      diffEditors, diffStats, diffEditorSources := map[], map[], map[];
      outputEditors, outputEditorSources := map[], map[];
    }

    /** Nothing is kept under `key` for a diff. */
    ghost predicate NoDiff(key: string)
      reads this
    {
      key !in diffEditors && key !in diffStats && key !in diffEditorSources
    }

    /** What is kept under `key` is what `was` held there, if that has the diff's fingerprint, else the diff's own. */
    ghost predicate DiffShown(was: Cache<(DiffModel, DiffStat)>, key: string, diff: DiffView, theme: Theme)
      reads this
    {
      var fingerprint := rendering.diffFingerprint(diff, theme);
      if rendering.diffModel(diff, theme).None? && !(key in was && was[key].fingerprint == fingerprint)
      then NoDiff(key)
      else
        && key in diffEditors && key in diffStats && key in diffEditorSources
        && diffEditorSources[key] == fingerprint
        && (diffEditors[key].model, diffStats[key])
             == (if key in was && was[key].fingerprint == fingerprint then was[key].payload
                 else rendering.diffModel(diff, theme).value)
        && (key in was && was[key].fingerprint == fingerprint ==> diffEditors[key].entity == was[key].entity)
    }

    /** Every file that a call on screen changed is shown under its own key, and nothing else is kept. */
    ghost predicate DiffsShown(was: Cache<(DiffModel, DiffStat)>, theme: Theme, visible: nat -> bool)
      reads this
    {
      && (forall ix: nat, di: nat | ix < |items| && items[ix].ToolCall? && visible(ix) && di < |items[ix].diffs| ::
            DiffShown(was, items[ix].id + "#" + Decimal(di), items[ix].diffs[di], theme))
      && (forall key | !NoDiff(key) ::
            exists ix: nat, di: nat ::
              ix < |items| && items[ix].ToolCall? && visible(ix) && di < |items[ix].diffs|
              && key == items[ix].id + "#" + Decimal(di))
    }

    ghost predicate NoOutput(key: string)
      reads this
    {
      key !in outputEditors && key !in outputEditorSources
    }

    ghost predicate SourceShown(was: Cache<Source>, key: string, source: Source)
      reads this
    {
      var fingerprint := rendering.outputFingerprint(source);
      && key in outputEditors && key in outputEditorSources
      && outputEditorSources[key] == fingerprint
      && (if key in was && was[key].fingerprint == fingerprint
          then outputEditors[key] == Editor(was[key].entity, was[key].payload)
          else outputEditors[key].model == source)
    }

    /** Raw and source text is shown as it is, a lone fence by its body and language, all else not at all. */
    ghost predicate BlockShown(was: Cache<Source>, key: string, block: Block)
      reads this
    {
      match block
      case RawText(text) => SourceShown(was, key, Source(text, None))
      case SourceText(text, language) => SourceShown(was, key, Source(text, language))
      case OtherBlock => NoOutput(key)
      case TextBlock(text, truncated) =>
        var fenced := SingleFencedBlock(text, truncated);
        if fenced.None? || fenced.value.1 == Some("mermaid") then NoOutput(key)
        else SourceShown(was, key, Source(fenced.value.0, fenced.value.1))
    }

    /** Every block of output on screen is shown under its own key, and nothing else is kept. */
    ghost predicate OutputsShown(was: Cache<Source>, visible: nat -> bool)
      reads this
    {
      && (forall ix: nat, bi: nat | ix < |items| && items[ix].ToolCall? && visible(ix) && bi < |items[ix].output| ::
            BlockShown(was, items[ix].id + "#" + Decimal(bi), items[ix].output[bi]))
      && (forall ix: nat, bi: nat | ix < |items| && items[ix].Compaction? && visible(ix) && bi < |items[ix].summary| ::
            BlockShown(was, items[ix].outputKey + "#" + Decimal(bi), items[ix].summary[bi]))
      && (forall key | !NoOutput(key) :: OutputOfSomeBlock(key, visible))
    }

    ghost predicate OutputOfSomeBlock(key: string, visible: nat -> bool)
      reads this
    {
      exists ix: nat, bi: nat ::
        && ix < |items| && visible(ix)
        && ((items[ix].ToolCall? && bi < |items[ix].output| && key == items[ix].id + "#" + Decimal(bi))
            || (items[ix].Compaction? && bi < |items[ix].summary| && key == items[ix].outputKey + "#" + Decimal(bi)))
    }

    /** The pass over the candidates, told of the maps and the items. */
    lemma PassShowsDiffs(was: Cache<(DiffModel, DiffStat)>, attemptsBefore: nat, theme: Theme, visible: nat -> bool)
      requires Aligned() && DistinctIds(items)
      requires Outcome(DiffCache(), attempts)
            == Pass(was, DiffCandidates(rendering, theme, items, visible, All), All, attemptsBefore, window)
      requires forall n: nat :: attemptsBefore <= n < attempts ==> window(n)
      ensures DiffsShown(was, theme, visible)
    {
      var of: ChatItem -> seq<Diffs> := item => ItemDiffs(rendering, theme, item);
      var cands := Visited(of, items, visible, All);
      DiffCandidatesDistinct(rendering, theme, items, visible);
      forall ix: nat, di: nat | ix < |items| && items[ix].ToolCall? && visible(ix) && di < |items[ix].diffs|
        ensures DiffShown(was, items[ix].id + "#" + Decimal(di), items[ix].diffs[di], theme)
      {
        var c := DiffOf(rendering, theme, items[ix].id, items[ix].diffs[di], di);
        assert of(items[ix])[di] == c;
        VisitedHolds(of, items, visible, ix, c);
        FullPassShows(was, cands, attemptsBefore, window, c);
        assert c.key in DiffCache() <==> c.key in diffEditors;
      }
      forall key | !NoDiff(key)
        ensures exists ix: nat, di: nat ::
                  ix < |items| && items[ix].ToolCall? && visible(ix) && di < |items[ix].diffs|
                  && key == items[ix].id + "#" + Decimal(di)
      {
        assert key in DiffCache();
        var c := FullPassKeysAreClaimed(was, cands, attemptsBefore, window, key);
        var ix := VisitedComesFrom(of, items, visible, c);
        var di :| 0 <= di < |of(items[ix])| && of(items[ix])[di] == c;
        assert key == items[ix].id + "#" + Decimal(di);
      }
    }

    /** Without collisions, the editor and the stat kept for a diff's fingerprint are that diff's. */
    lemma KeptDiffIsCurrent(key: string, diff: DiffView, theme: Theme)
      requires Valid() && key in diffEditorSources && diffEditorSources[key] == rendering.diffFingerprint(diff, theme)
      requires forall d: DiffView, t: Theme ::
                 rendering.diffFingerprint(d, t) == rendering.diffFingerprint(diff, theme) ==> d == diff && t == theme
      ensures rendering.diffModel(diff, theme) == Some((diffEditors[key].model, diffStats[key]))
    {
      assert key in DiffCache();
    }

    lemma KeptOutputIsCurrent(key: string, source: Source)
      requires Valid() && key in outputEditorSources && outputEditorSources[key] == rendering.outputFingerprint(source)
      requires forall other: Source :: rendering.outputFingerprint(other) == rendering.outputFingerprint(source)
                                       ==> other == source
      ensures outputEditors[key].model == source
    {
      assert key in OutputCache();
    }

    /** The state after a full pass over the outputs whose builds have succeeded. */
    ghost predicate AfterFullOutputPass(was: Cache<Source>, attemptsBefore: nat, visible: nat -> bool)
      reads this
    {
      && Aligned() && DistinctIds(items)
      && Outcome(OutputCache(), attempts)
           == Pass(was, OutputCandidates(rendering, items, visible, All), All, attemptsBefore, window)
      && forall n: nat :: attemptsBefore <= n < attempts ==> window(n)
    }

    lemma PassShowsBlock(was: Cache<Source>, attemptsBefore: nat, visible: nat -> bool, ix: nat, bi: nat)
      requires AfterFullOutputPass(was, attemptsBefore, visible)
      requires ix < |items| && ItemId(items[ix]).Some? && visible(ix) && bi < |BlocksOf(items[ix])|
      ensures BlockShown(was, EditorKey(ItemId(items[ix]).value, bi), BlocksOf(items[ix])[bi])
    {
      var id, block := ItemId(items[ix]).value, BlocksOf(items[ix])[bi];
      var source, cands := OutputEditorSource(block), OutputCandidates(rendering, items, visible, All);
      OutputCandidatesDistinct(rendering, items, visible);
      if source.Some? {
        var of: ChatItem -> seq<Outputs> := item => ItemOutputs(rendering, item);
        BlockOutputsHold(rendering, id, BlocksOf(items[ix]), bi);
        var c := OutputOf(rendering, id, source.value, bi);
        VisitedHolds(of, items, visible, ix, c);
        FullPassShows(was, cands, attemptsBefore, window, c);
        assert c.key in OutputCache();
      } else if EditorKey(id, bi) in OutputCache() {
        var c := FullPassKeysAreClaimed(was, cands, attemptsBefore, window, EditorKey(id, bi));
        var jx, bj := OutputClaims(rendering, items, visible, c);
        KeysDistinct(id, bi, ItemId(items[jx]).value, bj);
        assert false;
      }
    }

    lemma PassShowsOutputs(was: Cache<Source>, attemptsBefore: nat, visible: nat -> bool)
      requires AfterFullOutputPass(was, attemptsBefore, visible)
      ensures OutputsShown(was, visible)
    {
      forall ix: nat, bi: nat | ix < |items| && items[ix].ToolCall? && visible(ix) && bi < |items[ix].output|
        ensures BlockShown(was, items[ix].id + "#" + Decimal(bi), items[ix].output[bi])
      {
        PassShowsBlock(was, attemptsBefore, visible, ix, bi);
      }
      forall ix: nat, bi: nat | ix < |items| && items[ix].Compaction? && visible(ix) && bi < |items[ix].summary|
        ensures BlockShown(was, items[ix].outputKey + "#" + Decimal(bi), items[ix].summary[bi])
      {
        PassShowsBlock(was, attemptsBefore, visible, ix, bi);
      }
      OutputCandidatesDistinct(rendering, items, visible);
      forall key | !NoOutput(key) ensures OutputOfSomeBlock(key, visible) {
        assert key in OutputCache();
        var cands := OutputCandidates(rendering, items, visible, All);
        var c := FullPassKeysAreClaimed(was, cands, attemptsBefore, window, key);
        var ix, bi := OutputClaims(rendering, items, visible, c);
        assert key == ItemId(items[ix]).value + "#" + Decimal(bi);
      }
    }

    /** One call's diffs, added to what the pass has collected from the items before it. */
    method CollectItemDiffs(
          theme: Theme, item: ChatItem, ghost before: seq<Diffs>, pendingBefore: seq<Diffs>, liveBefore: set<string>)
      returns (pending: seq<Diffs>, live: set<string>)
      requires Aligned() && item.ToolCall?
      requires pendingBefore == Pending(DiffCache(), before) && liveBefore == Live(DiffCache(), before)
      ensures var seen := before + ItemDiffs(rendering, theme, item);
              pending == Pending(DiffCache(), seen) && live == Live(DiffCache(), seen)
    {
      ghost var cache, mine := DiffCache(), ItemDiffs(rendering, theme, item);
      pending, live := pendingBefore, liveBefore;
      assert before + mine[..0] == before;
      for di := 0 to |item.diffs|
        invariant pending == Pending(cache, before + mine[..di]) && live == Live(cache, before + mine[..di])
      {
        var c := DiffOf(rendering, theme, item.id, item.diffs[di], di);
        OneMore(cache, before, mine, di);
        if c.key in diffEditorSources && diffEditorSources[c.key] == c.fingerprint {
          live := live + {c.key};
          continue;
        }
        if c.payload == None {
          continue;
        }
        live := live + {c.key};
        pending := pending + [c];
      }
      assert mine[..|mine|] == mine;
    }

    method CollectDiffs(
          theme: Theme, visible: nat -> bool, scope: Scope) returns (pending: seq<Diffs>, live: set<string>)
      requires Aligned()
      ensures var cands := DiffCandidates(rendering, theme, items, visible, scope);
              pending == Pending(DiffCache(), cands) && live == Live(DiffCache(), cands)
    {
      pending, live := [], {};
      for ix := 0 to |items|
        invariant var seen := DiffCandidates(rendering, theme, items[..ix], visible, scope);
                  pending == Pending(DiffCache(), seen) && live == Live(DiffCache(), seen)
      {
        var item := items[ix];
        ghost var seen := DiffCandidates(rendering, theme, items[..ix], visible, scope);
        VisitOneMore(i => ItemDiffs(rendering, theme, i), items, visible, scope, ix);
        if item.ToolCall? && Covers(scope, item.id) && visible(ix) {
          pending, live := CollectItemDiffs(theme, item, seen, pending, live);
        } else {
          assert seen + [] == seen;
        }
      }
      assert items[..|items|] == items;
    }

    /** Evict the stale keys from all three maps. */
    method EvictDiffs(stale: set<string>)
      requires Aligned()
      modifies `diffEditors, `diffStats, `diffEditorSources
      ensures Aligned() && DiffCache() == old(DiffCache()) - stale
    {
      var rest := stale;
      while rest != {}
        invariant Aligned() && rest <= stale && DiffCache() == old(DiffCache()) - (stale - rest)
        decreases rest
      {
        var key :| key in rest;
        ZipDiffsWithout(diffEditors, diffStats, diffEditorSources, key);
        WithoutOneMore(old(DiffCache()), stale, rest, key);
        diffEditors := diffEditors - {key};
        diffStats := diffStats - {key};
        diffEditorSources := diffEditorSources - {key};
        rest := rest - {key};
      }
    }

    method BuildDiff(c: Diffs)
      requires Aligned() && c.payload.Some?
      modifies `diffEditors, `diffStats, `diffEditorSources, `attempts
      ensures Aligned() && DiffCache() == InstallOne(old(DiffCache()), c, old(attempts), window)
      ensures attempts == old(attempts) + 1
    {
      var (model, stat) := c.payload.value;
      ZipDiffsWith(diffEditors, diffStats, diffEditorSources, c.key, Editor(attempts, model), stat, c.fingerprint);
      if window(attempts) {
        diffStats := diffStats[c.key := stat];
        diffEditorSources := diffEditorSources[c.key := c.fingerprint];
        diffEditors := diffEditors[c.key := Editor(attempts, model)];
      }
      attempts := attempts + 1;
    }

    method BuildDiffs(pending: seq<Diffs>)
      requires Aligned() && forall i :: 0 <= i < |pending| ==> pending[i].payload.Some?
      modifies `diffEditors, `diffStats, `diffEditorSources, `attempts
      ensures Aligned() && DiffCache() == Install(old(DiffCache()), pending, old(attempts), window)
      ensures attempts == old(attempts) + |pending|
    {
      for i := 0 to |pending|
        invariant Aligned() && attempts == old(attempts) + i
        invariant DiffCache() == Install(old(DiffCache()), pending[..i], old(attempts), window)
      {
        InstallOneMore(old(DiffCache()), pending, i, old(attempts), window);
        BuildDiff(pending[i]);
      }
      assert pending[..|pending|] == pending;
    }

    method PassOverDiffs(theme: Theme, visible: nat -> bool, scope: Scope)
      requires Aligned()
      modifies `diffEditors, `diffStats, `diffEditorSources, `attempts
      ensures Aligned()
      ensures Outcome(DiffCache(), attempts) ==
                Pass(old(DiffCache()), DiffCandidates(rendering, theme, items, visible, scope),
                     scope, old(attempts), window)
    {
      var pending, live := CollectDiffs(theme, visible, scope);
      ghost var cands := DiffCandidates(rendering, theme, items, visible, scope);
      var stale := set key | key in diffEditors && OwnsKey(scope, key) && key !in live;
      assert stale == Stale(DiffCache(), live, scope);
      if pending == [] && stale == {} {
        return;
      }
      PendingHavePayloads(DiffCache(), cands);
      EvictDiffs(stale);
      BuildDiffs(pending);
    }

    /** `theme` is `None` until the theme global is installed. */
    method ReconcileDiffEditors(theme: Option<Theme>, visible: nat -> bool, scope: Scope)
      requires Valid()
      modifies `diffEditors, `diffStats, `diffEditorSources, `attempts
      ensures Valid()
      ensures Embeds() == Reconciled(rendering, window, old(Embeds()), DiffRound(theme, items, visible, scope))
      ensures theme.Some? && scope.All? && DistinctIds(items)
              && (forall n: nat :: old(attempts) <= n < attempts ==> window(n))
              ==> DiffsShown(old(DiffCache()), theme.value, visible)
    {
      RoundKeepsBuilt(rendering, window, Embeds(), DiffRound(theme, items, visible, scope));
      if theme == None {
        return;
      }
      ghost var was, before := DiffCache(), attempts;
      PassOverDiffs(theme.value, visible, scope);
      if scope.All? && DistinctIds(items) && forall n: nat :: before <= n < attempts ==> window(n) {
        PassShowsDiffs(was, before, theme.value, visible);
      }
    }

    method CollectBlockOutputs(id: string, output: seq<Block>,
                               ghost before: seq<Outputs>, pendingBefore: seq<Outputs>, liveBefore: set<string>)
      returns (pending: seq<Outputs>, live: set<string>)
      requires Aligned()
      requires pendingBefore == Pending(OutputCache(), before) && liveBefore == Live(OutputCache(), before)
      ensures var seen := before + BlockOutputs(rendering, id, output);
              pending == Pending(OutputCache(), seen) && live == Live(OutputCache(), seen)
    {
      ghost var cache := OutputCache();
      pending, live := pendingBefore, liveBefore;
      assert before + [] == before;
      for bi := 0 to |output|
        invariant var seen := before + BlockOutputs(rendering, id, output[..bi]);
                  pending == Pending(cache, seen) && live == Live(cache, seen)
      {
        assert output[..bi + 1][..bi] == output[..bi];
        ghost var mine := BlockOutputs(rendering, id, output[..bi]);
        var source := OutputEditorSource(output[bi]);
        if source == None {
          assert mine + [] == mine;
          continue;
        }
        var c := OutputOf(rendering, id, source.value, bi);
        AfterOne(cache, before, mine, c);
        live := live + {c.key};
        if c.key in outputEditorSources && outputEditorSources[c.key] == c.fingerprint {
          continue;
        }
        pending := pending + [c];
      }
      assert output[..|output|] == output;
    }

    method CollectOutputs(visible: nat -> bool, scope: Scope) returns (pending: seq<Outputs>, live: set<string>)
      requires Aligned()
      ensures var cands := OutputCandidates(rendering, items, visible, scope);
              pending == Pending(OutputCache(), cands) && live == Live(OutputCache(), cands)
    {
      pending, live := [], {};
      for ix := 0 to |items|
        invariant var seen := OutputCandidates(rendering, items[..ix], visible, scope);
                  pending == Pending(OutputCache(), seen) && live == Live(OutputCache(), seen)
      {
        var item := items[ix];
        ghost var seen := OutputCandidates(rendering, items[..ix], visible, scope);
        VisitOneMore(i => ItemOutputs(rendering, i), items, visible, scope, ix);
        var id := ItemId(item);
        if id.Some? && Covers(scope, id.value) && visible(ix) {
          var output := if item.ToolCall? then item.output else item.summary;
          pending, live := CollectBlockOutputs(id.value, output, seen, pending, live);
        } else {
          assert seen + [] == seen;
        }
      }
      assert items[..|items|] == items;
    }

    method EvictOutputs(stale: set<string>)
      requires Aligned()
      modifies `outputEditors, `outputEditorSources
      ensures Aligned() && OutputCache() == old(OutputCache()) - stale
    {
      var rest := stale;
      while rest != {}
        invariant Aligned() && rest <= stale && OutputCache() == old(OutputCache()) - (stale - rest)
        decreases rest
      {
        var key :| key in rest;
        ghost var before := OutputCache();
        outputEditors := outputEditors - {key};
        outputEditorSources := outputEditorSources - {key};
        assert OutputCache() == before - {key};
        WithoutOneMore(old(OutputCache()), stale, rest, key);
        rest := rest - {key};
      }
    }

    method BuildOutput(c: Outputs)
      requires Aligned() && c.payload.Some?
      modifies `outputEditors, `outputEditorSources, `attempts
      ensures Aligned() && OutputCache() == InstallOne(old(OutputCache()), c, old(attempts), window)
      ensures attempts == old(attempts) + 1
    {
      var editor := Editor(attempts, c.payload.value);
      ZipOutputsWith(outputEditors, outputEditorSources, c.key, editor, c.fingerprint);
      if window(attempts) {
        outputEditorSources := outputEditorSources[c.key := c.fingerprint];
        outputEditors := outputEditors[c.key := editor];
      }
      attempts := attempts + 1;
    }

    method BuildOutputs(pending: seq<Outputs>)
      requires Aligned() && forall i :: 0 <= i < |pending| ==> pending[i].payload.Some?
      modifies `outputEditors, `outputEditorSources, `attempts
      ensures Aligned() && OutputCache() == Install(old(OutputCache()), pending, old(attempts), window)
      ensures attempts == old(attempts) + |pending|
    {
      for i := 0 to |pending|
        invariant Aligned() && attempts == old(attempts) + i
        invariant OutputCache() == Install(old(OutputCache()), pending[..i], old(attempts), window)
      {
        InstallOneMore(old(OutputCache()), pending, i, old(attempts), window);
        BuildOutput(pending[i]);
      }
      assert pending[..|pending|] == pending;
    }

    method PassOverOutputs(visible: nat -> bool, scope: Scope)
      requires Aligned()
      modifies `outputEditors, `outputEditorSources, `attempts
      ensures Aligned()
      ensures Outcome(OutputCache(), attempts) ==
                Pass(old(OutputCache()), OutputCandidates(rendering, items, visible, scope),
                     scope, old(attempts), window)
    {
      var pending, live := CollectOutputs(visible, scope);
      ghost var cands := OutputCandidates(rendering, items, visible, scope);
      var stale := set key | key in outputEditors && OwnsKey(scope, key) && key !in live;
      assert stale == Stale(OutputCache(), live, scope);
      if pending == [] && stale == {} {
        return;
      }
      PendingHavePayloads(OutputCache(), cands);
      EvictOutputs(stale);
      BuildOutputs(pending);
    }

    method ReconcileOutputEditors(visible: nat -> bool, scope: Scope)
      requires Valid()
      modifies `outputEditors, `outputEditorSources, `attempts
      ensures Valid()
      ensures Embeds() == Reconciled(rendering, window, old(Embeds()), OutputRound(items, visible, scope))
      ensures scope.All? && DistinctIds(items) && (forall n: nat :: old(attempts) <= n < attempts ==> window(n))
              ==> OutputsShown(old(OutputCache()), visible)
    {
      RoundKeepsBuilt(rendering, window, Embeds(), OutputRound(items, visible, scope));
      ghost var was, before := OutputCache(), attempts;
      PassOverOutputs(visible, scope);
      if scope.All? && DistinctIds(items) && forall n: nat :: before <= n < attempts ==> window(n) {
        PassShowsOutputs(was, before, visible);
      }
    }
  }

  lemma DiffCandidatesDistinct(r: Rendering, theme: Theme, items: seq<ChatItem>, visible: nat -> bool)
    requires DistinctIds(items)
    ensures DistinctKeys(DiffCandidates(r, theme, items, visible, All))
  {
    DiffsKeyedByItem(r, theme);
    DiffsDistinctPerItem(r, theme);
    var of: ChatItem -> seq<Diffs> := item => ItemDiffs(r, theme, item);
    VisitedDistinct(of, items, visible);
  }

  lemma OutputCandidatesDistinct(r: Rendering, items: seq<ChatItem>, visible: nat -> bool)
    requires DistinctIds(items)
    ensures DistinctKeys(OutputCandidates(r, items, visible, All))
  {
    OutputsKeyedByItem(r);
    OutputsDistinctPerItem(r);
    var of: ChatItem -> seq<Outputs> := item => ItemOutputs(r, item);
    VisitedDistinct(of, items, visible);
  }

  function BlocksOf(item: ChatItem): seq<Block> {
    match item
    case ToolCall(_, _, output) => output
    case Compaction(_, summary) => summary
    case OtherItem => []
  }

  lemma {:induction false} BlockOutputsHold(r: Rendering, id: string, blocks: seq<Block>, bi: nat)
    requires bi < |blocks| && OutputEditorSource(blocks[bi]).Some?
    ensures OutputOf(r, id, OutputEditorSource(blocks[bi]).value, bi) in BlockOutputs(r, id, blocks)
  {
    var n := |blocks| - 1;
    if bi < n {
      BlockOutputsHold(r, id, blocks[..n], bi);
    }
  }

  /** The block a visited output comes from. */
  lemma OutputClaims(r: Rendering, items: seq<ChatItem>, visible: nat -> bool, c: Outputs)
    returns (ix: nat, bi: nat)
    requires c in OutputCandidates(r, items, visible, All)
    ensures ix < |items| && ItemId(items[ix]).Some? && visible(ix)
    ensures bi < |BlocksOf(items[ix])| && OutputEditorSource(BlocksOf(items[ix])[bi]).Some?
    ensures c == OutputOf(r, ItemId(items[ix]).value, OutputEditorSource(BlocksOf(items[ix])[bi]).value, bi)
  {
    var of: ChatItem -> seq<Outputs> := item => ItemOutputs(r, item);
    ix := VisitedComesFrom(of, items, visible, c);
    var outputs := BlockOutputs(r, ItemId(items[ix]).value, BlocksOf(items[ix]));
    var i :| 0 <= i < |outputs| && outputs[i] == c;
    bi := BlockOutputKeys(r, ItemId(items[ix]).value, BlocksOf(items[ix]), i);
  }

  lemma {:induction false} VisitedHolds<P>(
        of: ChatItem -> seq<Candidate<P>>, items: seq<ChatItem>, visible: nat -> bool, ix: nat, c: Candidate<P>)
    requires ix < |items| && IsVisited(items[ix], visible(ix), All) && c in of(items[ix])
    ensures c in Visited(of, items, visible, All)
  {
    var n := |items| - 1;
    if ix < n {
      VisitedHolds(of, items[..n], visible, ix, c);
    }
  }

  lemma {:induction false} VisitedComesFrom<P>(
        of: ChatItem -> seq<Candidate<P>>, items: seq<ChatItem>, visible: nat -> bool, c: Candidate<P>)
    returns (ix: nat)
    requires c in Visited(of, items, visible, All)
    ensures ix < |items| && IsVisited(items[ix], visible(ix), All) && c in of(items[ix])
  {
    var n := |items| - 1;
    if c in Visited(of, items[..n], visible, All) {
      ix := VisitedComesFrom(of, items[..n], visible, c);
    } else {
      ix := n;
    }
  }

  lemma AfterOne<P>(cache: Cache<P>, before: seq<Candidate<P>>, mine: seq<Candidate<P>>, c: Candidate<P>)
    ensures var seen := before + mine;
            && Pending(cache, before + (mine + [c])) == Pending(cache, seen) + (if IsPending(cache, c) then [c] else [])
            && Live(cache, before + (mine + [c]))
                 == Live(cache, seen) + if IsCached(cache, c) || c.payload.Some? then {c.key} else {}
  {
    var seen := before + mine;
    assert before + (mine + [c]) == seen + [c];
    assert (seen + [c])[..|seen|] == seen;
  }

  lemma OneMore<P>(cache: Cache<P>, before: seq<Candidate<P>>, mine: seq<Candidate<P>>, i: nat)
    requires i < |mine|
    ensures var seen, c := before + mine[..i], mine[i];
            && Pending(cache, before + mine[..i + 1])
                 == Pending(cache, seen) + (if IsPending(cache, c) then [c] else [])
            && Live(cache, before + mine[..i + 1])
                 == Live(cache, seen) + if IsCached(cache, c) || c.payload.Some? then {c.key} else {}
  {
    assert mine[..i + 1] == mine[..i] + [mine[i]];
    AfterOne(cache, before, mine[..i], mine[i]);
  }

  lemma VisitOneMore<P>(
        of: ChatItem -> seq<Candidate<P>>, items: seq<ChatItem>, visible: nat -> bool, scope: Scope, i: nat)
    requires i < |items|
    ensures Visited(of, items[..i + 1], visible, scope)
         == Visited(of, items[..i], visible, scope)
            + if IsVisited(items[i], visible(i), scope) then of(items[i]) else []
  {
    assert items[..i + 1][..i] == items[..i];
  }

  lemma PendingHavePayloads<P>(cache: Cache<P>, cands: seq<Candidate<P>>)
    ensures forall i :: 0 <= i < |Pending(cache, cands)| ==> Pending(cache, cands)[i].payload.Some?
  {
    forall i | 0 <= i < |Pending(cache, cands)| ensures Pending(cache, cands)[i].payload.Some? {
      PendingMeans(cache, cands, Pending(cache, cands)[i]);
    }
  }

  // The scoped pass, for one changed call.

  ghost predicate KeyedAs<P>(cands: seq<Candidate<P>>, id: Option<string>) {
    forall i :: 0 <= i < |cands| ==> id.Some? && KeyOwner(cands[i].key) == id
  }

  /** Every candidate an item yields is keyed by that item. */
  ghost predicate KeyedByItem<P>(of: ChatItem -> seq<Candidate<P>>) {
    forall item: ChatItem :: KeyedAs(of(item), ItemId(item))
  }

  lemma DiffsKeyedByItem(r: Rendering, theme: Theme)
    ensures KeyedByItem(item => ItemDiffs(r, theme, item))
  {
    forall item: ChatItem ensures KeyedAs(ItemDiffs(r, theme, item), ItemId(item)) {
      forall i | 0 <= i < |ItemDiffs(r, theme, item)|
        ensures ItemId(item).Some? && KeyOwner(ItemDiffs(r, theme, item)[i].key) == ItemId(item)
      {
        OwnsKeyIffSameTool(All, item.id, i);
      }
    }
  }

  lemma {:induction false} BlockOutputKeys(r: Rendering, id: string, blocks: seq<Block>, i: nat) returns (index: nat)
    requires i < |BlockOutputs(r, id, blocks)|
    ensures index < |blocks| && BlockOutputs(r, id, blocks)[i].key == EditorKey(id, index)
    ensures OutputEditorSource(blocks[index]).Some?
    ensures BlockOutputs(r, id, blocks)[i] == OutputOf(r, id, OutputEditorSource(blocks[index]).value, index)
  {
    var n := |blocks| - 1;
    if i < |BlockOutputs(r, id, blocks[..n])| {
      index := BlockOutputKeys(r, id, blocks[..n], i);
    } else {
      index := n;
    }
  }

  lemma OutputsKeyedByItem(r: Rendering)
    ensures KeyedByItem(item => ItemOutputs(r, item))
  {
    forall item: ChatItem ensures KeyedAs(ItemOutputs(r, item), ItemId(item)) {
      forall i | 0 <= i < |ItemOutputs(r, item)|
        ensures ItemId(item).Some? && KeyOwner(ItemOutputs(r, item)[i].key) == ItemId(item)
      {
        var id := ItemId(item).value;
        var index := BlockOutputKeys(r, id, if item.ToolCall? then item.output else item.summary, i);
        OwnsKeyIffSameTool(All, id, index);
      }
    }
  }

  lemma {:induction false} OwnedConcat<P>(a: seq<Candidate<P>>, b: seq<Candidate<P>>, scope: Scope)
    ensures Owned(a + b, scope) == Owned(a, scope) + Owned(b, scope)
  {
    if b == [] {
      assert a + b == a;
    } else {
      var n, all := |b| - 1, a + b;
      assert all[..|a| + n] == a + b[..n] && all[|a| + n] == b[n];
      OwnedConcat(a, b[..n], scope);
      AppendAssoc(Owned(a, scope), Owned(b[..n], scope), if OwnsKey(scope, b[n].key) then [b[n]] else []);
    }
  }

  lemma {:induction false} NoneOwned<P>(cands: seq<Candidate<P>>, scope: Scope)
    requires forall i :: 0 <= i < |cands| ==> !OwnsKey(scope, cands[i].key)
    ensures Owned(cands, scope) == []
  {
    if cands != [] {
      NoneOwned(cands[..|cands| - 1], scope);
    }
  }

  /** Visiting only the covered items is keeping only the owned candidates. */
  lemma {:induction false} VisitedIsOwned<P>(
        of: ChatItem -> seq<Candidate<P>>, items: seq<ChatItem>, visible: nat -> bool, scope: Scope)
    requires KeyedByItem(of) && scope.Tool?
    ensures Visited(of, items, visible, scope) == Owned(Visited(of, items, visible, All), scope)
  {
    if items != [] {
      var n := |items| - 1;
      var item, before := items[n], Visited(of, items[..n], visible, All);
      VisitedIsOwned(of, items[..n], visible, scope);
      var mine := if IsVisited(item, visible(n), All) then of(item) else [];
      OwnedConcat(before, mine, scope);
      if IsVisited(item, visible(n), scope) {
        AllOwned(mine, scope);
      } else {
        NoneOwned(mine, scope);
      }
    }
  }

  /** The items on screen that are not the scope's own call, in order. */
  function Others(items: seq<ChatItem>, visible: nat -> bool, scope: Scope): seq<ChatItem> {
    if items == [] then []
    else
      var n := |items| - 1;
      Others(items[..n], visible, scope)
      + if IsVisited(items[n], visible(n), All) && !IsVisited(items[n], visible(n), scope) then [items[n]] else []
  }

  lemma {:induction false} UnownedComeFromOthers<P>(
      of: ChatItem -> seq<Candidate<P>>, items: seq<ChatItem>, visible: nat -> bool, scope: Scope, c: Candidate<P>)
    requires KeyedByItem(of) && scope.Tool? && !OwnsKey(scope, c.key)
    ensures c in Visited(of, items, visible, All)
       <==> exists k :: 0 <= k < |Others(items, visible, scope)| && c in of(Others(items, visible, scope)[k])
  {
    if items != [] {
      var n := |items| - 1;
      var item := items[n];
      UnownedComeFromOthers(of, items[..n], visible, scope, c);
      var before, all := Others(items[..n], visible, scope), Others(items, visible, scope);
      if IsVisited(item, visible(n), All) && !IsVisited(item, visible(n), scope) {
        assert all[|before|] == item;
      }
      assert forall k :: 0 <= k < |before| ==> all[k] == before[k];
    }
  }

  /**
   * When the cache is exact for what was shown and only the call `scope` names has changed
   * since, the scoped pass does exactly what a full pass would.
   */
  lemma ScopedReconcileIsFull<P(!new)>(of: ChatItem -> seq<Candidate<P>>, cache: Cache<P>,
                                       was: seq<ChatItem>, wasVisible: nat -> bool,
                                       now: seq<ChatItem>, nowVisible: nat -> bool,
                                       scope: Scope, attempts: nat, window: nat -> bool)
    requires KeyedByItem(of) && scope.Tool?
    requires Exact(cache, Visited(of, was, wasVisible, All))
    requires Others(was, wasVisible, scope) == Others(now, nowVisible, scope)
    ensures Pass(cache, Visited(of, now, nowVisible, scope), scope, attempts, window)
         == Pass(cache, Visited(of, now, nowVisible, All), All, attempts, window)
  {
    var before, after := Visited(of, was, wasVisible, All), Visited(of, now, nowVisible, All);
    forall c: Candidate<P> | !OwnsKey(scope, c.key) ensures c in before <==> c in after {
      UnownedComeFromOthers(of, was, wasVisible, scope, c);
      UnownedComeFromOthers(of, now, nowVisible, scope, c);
    }
    ExactThenSettled(cache, before, after, scope);
    VisitedIsOwned(of, now, nowVisible, scope);
    ScopedIsFullIffSettled(cache, after, scope, attempts, window);
  }

  ghost predicate DistinctIds(items: seq<ChatItem>) {
    forall i, j :: 0 <= i < j < |items| && ItemId(items[i]).Some? ==> ItemId(items[i]) != ItemId(items[j])
  }

  /** No item yields one key twice. */
  ghost predicate DistinctPerItem<P>(of: ChatItem -> seq<Candidate<P>>) {
    forall item: ChatItem :: DistinctKeys(of(item))
  }

  lemma DiffsDistinctPerItem(r: Rendering, theme: Theme)
    ensures DistinctPerItem(item => ItemDiffs(r, theme, item))
  {
    forall item: ChatItem ensures DistinctKeys(ItemDiffs(r, theme, item)) {
      var ds := ItemDiffs(r, theme, item);
      forall i, j | 0 <= i < j < |ds| ensures ds[i].key != ds[j].key {
        if ds[i].key == ds[j].key {
          KeysDistinct(item.id, i, item.id, j);
        }
      }
    }
  }

  lemma {:induction false} BlockOutputsDistinct(r: Rendering, id: string, blocks: seq<Block>)
    ensures DistinctKeys(BlockOutputs(r, id, blocks))
  {
    if blocks != [] {
      var n := |blocks| - 1;
      var before := BlockOutputs(r, id, blocks[..n]);
      BlockOutputsDistinct(r, id, blocks[..n]);
      forall i | 0 <= i < |before| ensures before[i].key != EditorKey(id, n) {
        var index := BlockOutputKeys(r, id, blocks[..n], i);
        if EditorKey(id, index) == EditorKey(id, n) {
          KeysDistinct(id, index, id, n);
        }
      }
    }
  }

  lemma OutputsDistinctPerItem(r: Rendering)
    ensures DistinctPerItem(item => ItemOutputs(r, item))
  {
    forall item: ChatItem ensures DistinctKeys(ItemOutputs(r, item)) {
      if ItemId(item).Some? {
        BlockOutputsDistinct(r, ItemId(item).value, if item.ToolCall? then item.output else item.summary);
      }
    }
  }

  /** Which item a visited candidate came from. */
  lemma {:induction false} VisitedFrom<P>(
        of: ChatItem -> seq<Candidate<P>>, items: seq<ChatItem>, visible: nat -> bool, i: nat)
    returns (k: nat)
    requires KeyedByItem(of) && i < |Visited(of, items, visible, All)|
    ensures k < |items| && ItemId(items[k]).Some?
            && KeyOwner(Visited(of, items, visible, All)[i].key) == ItemId(items[k])
  {
    var n := |items| - 1;
    if i < |Visited(of, items[..n], visible, All)| {
      k := VisitedFrom(of, items[..n], visible, i);
    } else {
      k := n;
      assert KeyedAs(of(items[n]), ItemId(items[n]));
    }
  }

  lemma {:induction false} VisitedDistinct<P>(
        of: ChatItem -> seq<Candidate<P>>, items: seq<ChatItem>, visible: nat -> bool)
    requires KeyedByItem(of) && DistinctPerItem(of) && DistinctIds(items)
    ensures DistinctKeys(Visited(of, items, visible, All))
  {
    if items != [] {
      var n := |items| - 1;
      VisitedDistinct(of, items[..n], visible);
      var before, mine := Visited(of, items[..n], visible, All), of(items[n]);
      assert KeyedAs(mine, ItemId(items[n])) && DistinctKeys(mine);
      forall i, j | 0 <= i < |before| && 0 <= j < |mine| ensures before[i].key != mine[j].key {
        var k := VisitedFrom(of, items[..n], visible, i);
        assert items[..n][k] == items[k];
      }
    }
  }

  /**
   * The whole story for one kind of embed: a full pass over a conversation with distinct ids whose
   * builds succeed, then any change of the one call the scope names, then a scoped pass. The
   * scoped pass is the full pass, whatever its own builds do.
   */
  lemma ScopedAfterFullPass<P(!new)>(of: ChatItem -> seq<Candidate<P>>, cache: Cache<P>,
                                     was: seq<ChatItem>, wasVisible: nat -> bool,
                                     now: seq<ChatItem>, nowVisible: nat -> bool,
                                     scope: Scope, attempts: nat, window: nat -> bool, later: nat -> bool)
    requires KeyedByItem(of) && DistinctPerItem(of) && DistinctIds(was) && scope.Tool?
    requires BuildsSucceed(window, attempts, |Pending(cache, Visited(of, was, wasVisible, All))|)
    requires Others(was, wasVisible, scope) == Others(now, nowVisible, scope)
    ensures var full := Pass(cache, Visited(of, was, wasVisible, All), All, attempts, window);
            (Pass(full.cache, Visited(of, now, nowVisible, scope), scope, full.attempts, later)
             == Pass(full.cache, Visited(of, now, nowVisible, All), All, full.attempts, later))
  {
    var full := Pass(cache, Visited(of, was, wasVisible, All), All, attempts, window);
    VisitedDistinct(of, was, wasVisible);
    FullPassIsExact(cache, Visited(of, was, wasVisible, All), attempts, window);
    ScopedReconcileIsFull(of, full.cache, was, wasVisible, now, nowVisible, scope, full.attempts, later);
  }

  // A stream of changes, each followed by its scoped pass.

  /** What the conversation shows after a change of the call `id`. */
  datatype Change = Change(id: string, items: seq<ChatItem>, visible: nat -> bool)

  /** A pass after every change: scoped to the changed call, or full. */
  function AfterChanges<P>(
      of: ChatItem -> seq<Candidate<P>>, window: nat -> bool, s: Outcome<P>, changes: seq<Change>, scoped: bool)
    : Outcome<P>
    decreases |changes|
  {
    if changes == [] then s
    else
      var c := changes[0];
      var scope := if scoped then Tool(c.id) else All;
      var next := Pass(s.cache, Visited(of, c.items, c.visible, scope), scope, s.attempts, window);
      AfterChanges(of, window, next, changes[1..], scoped)
  }

  /** Each change is of its one call only, and leaves the ids distinct. */
  ghost predicate OneCallEach(was: seq<ChatItem>, wasVisible: nat -> bool, changes: seq<Change>)
    decreases |changes|
  {
    changes == [] ||
    var c := changes[0];
    && Others(was, wasVisible, Tool(c.id)) == Others(c.items, c.visible, Tool(c.id))
    && DistinctIds(c.items)
    && OneCallEach(c.items, c.visible, changes[1..])
  }

  /** Every build that the full passes ask for finds its window. */
  ghost predicate AllBuildsSucceed<P>(
      of: ChatItem -> seq<Candidate<P>>, window: nat -> bool, s: Outcome<P>, changes: seq<Change>)
    decreases |changes|
  {
    changes == [] ||
    var c := changes[0];
    var cands := Visited(of, c.items, c.visible, All);
    && BuildsSucceed(window, s.attempts, |Pending(s.cache, cands)|)
    && AllBuildsSucceed(of, window, Pass(s.cache, cands, All, s.attempts, window), changes[1..])
  }

  /** What is shown after the last change. */
  function LastShown<P>(
      of: ChatItem -> seq<Candidate<P>>, was: seq<ChatItem>, wasVisible: nat -> bool, changes: seq<Change>)
    : seq<Candidate<P>>
  {
    if changes == [] then Visited(of, was, wasVisible, All)
    else var c := changes[|changes| - 1]; Visited(of, c.items, c.visible, All)
  }

  /** One change of a stream: its scoped pass is the full one and leaves the cache exact for what is shown now. */
  lemma ChangeKeepsExact<P(!new)>(
      of: ChatItem -> seq<Candidate<P>>, was: seq<ChatItem>, wasVisible: nat -> bool,
      window: nat -> bool, s: Outcome<P>, c: Change)
    requires KeyedByItem(of) && DistinctPerItem(of)
    requires Exact(s.cache, Visited(of, was, wasVisible, All)) && DistinctIds(c.items)
    requires Others(was, wasVisible, Tool(c.id)) == Others(c.items, c.visible, Tool(c.id))
    requires BuildsSucceed(window, s.attempts, |Pending(s.cache, Visited(of, c.items, c.visible, All))|)
    ensures var full := Pass(s.cache, Visited(of, c.items, c.visible, All), All, s.attempts, window);
            && Pass(s.cache, Visited(of, c.items, c.visible, Tool(c.id)), Tool(c.id), s.attempts, window) == full
            && Exact(full.cache, Visited(of, c.items, c.visible, All))
  {
    ScopedReconcileIsFull(of, s.cache, was, wasVisible, c.items, c.visible, Tool(c.id), s.attempts, window);
    VisitedDistinct(of, c.items, c.visible);
    FullPassIsExact(s.cache, Visited(of, c.items, c.visible, All), s.attempts, window);
  }

  lemma AfterFirstChange<P>(
      of: ChatItem -> seq<Candidate<P>>, window: nat -> bool, s: Outcome<P>, changes: seq<Change>, scoped: bool)
    requires changes != []
    ensures var c := changes[0];
            var scope := if scoped then Tool(c.id) else All;
            var next := Pass(s.cache, Visited(of, c.items, c.visible, scope), scope, s.attempts, window);
            AfterChanges(of, window, s, changes, scoped) == AfterChanges(of, window, next, changes[1..], scoped)
  {
  }

  lemma LastOfRest<P>(
      of: ChatItem -> seq<Candidate<P>>, was: seq<ChatItem>, wasVisible: nat -> bool, changes: seq<Change>)
    requires changes != []
    ensures LastShown(of, was, wasVisible, changes)
         == LastShown(of, changes[0].items, changes[0].visible, changes[1..])
  {
  }

  /**
   * From an exact cache, any stream of one-call changes, each followed by its scoped pass, goes as
   * with a full pass after every change, and ends exact again.
   */
  lemma {:induction false} ScopedStreamIsFull<P(!new)>(
      of: ChatItem -> seq<Candidate<P>>, was: seq<ChatItem>, wasVisible: nat -> bool,
      window: nat -> bool, s: Outcome<P>, changes: seq<Change>)
    requires KeyedByItem(of) && DistinctPerItem(of)
    requires Exact(s.cache, Visited(of, was, wasVisible, All))
    requires OneCallEach(was, wasVisible, changes) && AllBuildsSucceed(of, window, s, changes)
    ensures AfterChanges(of, window, s, changes, true) == AfterChanges(of, window, s, changes, false)
    ensures Exact(AfterChanges(of, window, s, changes, true).cache, LastShown(of, was, wasVisible, changes))
    decreases |changes|
  {
    if changes != [] {
      var c := changes[0];
      var next := Pass(s.cache, Visited(of, c.items, c.visible, All), All, s.attempts, window);
      ChangeKeepsExact(of, was, wasVisible, window, s, c);
      ScopedStreamIsFull(of, c.items, c.visible, window, next, changes[1..]);
      AfterFirstChange(of, window, s, changes, true);
      AfterFirstChange(of, window, s, changes, false);
      LastOfRest(of, was, wasVisible, changes);
    }
  }

  /** The scoped pass of the diff reconciler, after a full one. */
  lemma ScopedDiffsAfterFullPass(r: Rendering, theme: Theme, cache: Cache<(DiffModel, DiffStat)>,
                                 was: seq<ChatItem>, wasVisible: nat -> bool,
                                 now: seq<ChatItem>, nowVisible: nat -> bool,
                                 scope: Scope, attempts: nat, window: nat -> bool, later: nat -> bool)
    requires DistinctIds(was) && scope.Tool?
    requires BuildsSucceed(window, attempts, |Pending(cache, DiffCandidates(r, theme, was, wasVisible, All))|)
    requires Others(was, wasVisible, scope) == Others(now, nowVisible, scope)
    ensures var full := Pass(cache, DiffCandidates(r, theme, was, wasVisible, All), All, attempts, window);
            (Pass(full.cache, DiffCandidates(r, theme, now, nowVisible, scope), scope, full.attempts, later)
             == Pass(full.cache, DiffCandidates(r, theme, now, nowVisible, All), All, full.attempts, later))
  {
    DiffsKeyedByItem(r, theme);
    DiffsDistinctPerItem(r, theme);
    var of: ChatItem -> seq<Diffs> := item => ItemDiffs(r, theme, item);
    ScopedAfterFullPass(of, cache, was, wasVisible, now, nowVisible, scope, attempts, window, later);
  }

  /** The scoped pass of the output reconciler, after a full one. */
  lemma ScopedOutputsAfterFullPass(r: Rendering, cache: Cache<Source>,
                                   was: seq<ChatItem>, wasVisible: nat -> bool,
                                   now: seq<ChatItem>, nowVisible: nat -> bool,
                                   scope: Scope, attempts: nat, window: nat -> bool, later: nat -> bool)
    requires DistinctIds(was) && scope.Tool?
    requires BuildsSucceed(window, attempts, |Pending(cache, OutputCandidates(r, was, wasVisible, All))|)
    requires Others(was, wasVisible, scope) == Others(now, nowVisible, scope)
    ensures var full := Pass(cache, OutputCandidates(r, was, wasVisible, All), All, attempts, window);
            (Pass(full.cache, OutputCandidates(r, now, nowVisible, scope), scope, full.attempts, later)
             == Pass(full.cache, OutputCandidates(r, now, nowVisible, All), All, full.attempts, later))
  {
    OutputsKeyedByItem(r);
    OutputsDistinctPerItem(r);
    var of: ChatItem -> seq<Outputs> := item => ItemOutputs(r, item);
    ScopedAfterFullPass(of, cache, was, wasVisible, now, nowVisible, scope, attempts, window, later);
  }

  /** Both reconcilers, whatever is streamed: nothing is assumed of the candidates. */
  lemma ScopedDiffStreamIsFull(
      r: Rendering, theme: Theme, was: seq<ChatItem>, wasVisible: nat -> bool,
      window: nat -> bool, s: Outcome<(DiffModel, DiffStat)>, changes: seq<Change>)
    requires var of: ChatItem -> seq<Diffs> := item => ItemDiffs(r, theme, item);
             Exact(s.cache, Visited(of, was, wasVisible, All)) && AllBuildsSucceed(of, window, s, changes)
    requires OneCallEach(was, wasVisible, changes)
    ensures var of: ChatItem -> seq<Diffs> := item => ItemDiffs(r, theme, item);
            && AfterChanges(of, window, s, changes, true) == AfterChanges(of, window, s, changes, false)
            && Exact(AfterChanges(of, window, s, changes, true).cache, LastShown(of, was, wasVisible, changes))
  {
    DiffsKeyedByItem(r, theme);
    DiffsDistinctPerItem(r, theme);
    var of: ChatItem -> seq<Diffs> := item => ItemDiffs(r, theme, item);
    ScopedStreamIsFull(of, was, wasVisible, window, s, changes);
  }

  lemma ScopedOutputStreamIsFull(
      r: Rendering, was: seq<ChatItem>, wasVisible: nat -> bool,
      window: nat -> bool, s: Outcome<Source>, changes: seq<Change>)
    requires var of: ChatItem -> seq<Outputs> := item => ItemOutputs(r, item);
             Exact(s.cache, Visited(of, was, wasVisible, All)) && AllBuildsSucceed(of, window, s, changes)
    requires OneCallEach(was, wasVisible, changes)
    ensures var of: ChatItem -> seq<Outputs> := item => ItemOutputs(r, item);
            && AfterChanges(of, window, s, changes, true) == AfterChanges(of, window, s, changes, false)
            && Exact(AfterChanges(of, window, s, changes, true).cache, LastShown(of, was, wasVisible, changes))
  {
    OutputsKeyedByItem(r);
    OutputsDistinctPerItem(r);
    var of: ChatItem -> seq<Outputs> := item => ItemOutputs(r, item);
    ScopedStreamIsFull(of, was, wasVisible, window, s, changes);
  }

  // Every reachable state of the view.

  function Rounds(r: Rendering, window: nat -> bool): (EmbedState, Round) -> EmbedState {
    (s: EmbedState, round: Round) => Reconciled(r, window, s, round)
  }

  function AfterRounds(r: Rendering, window: nat -> bool, rounds: seq<Round>): EmbedState {
    FoldWith(Rounds(r, window), NO_EMBEDS, rounds)
  }

  /**
   * In every reachable state, after any passes of both reconcilers in any order, whatever was
   * shown, under whatever themes and scopes, and however many builds failed, each cached editor
   * and stat was built from content with the recorded fingerprint.
   */
  lemma {:induction false} ReachableEditorsMatchFingerprints(r: Rendering, window: nat -> bool, rounds: seq<Round>)
    ensures AllBuilt(r, AfterRounds(r, window, rounds))
  {
    if rounds != [] {
      var n := |rounds| - 1;
      ReachableEditorsMatchFingerprints(r, window, rounds[..n]);
      RoundKeepsBuilt(r, window, AfterRounds(r, window, rounds[..n]), rounds[n]);
      FoldWithSnoc(Rounds(r, window), NO_EMBEDS, rounds[..n], rounds[n]);
      SplitLast(rounds);
    }
  }

  /** Without collisions, a cached diff fingerprint that matches content means the editor shows that content. */
  lemma MatchingDiffShowsContent(
      r: Rendering, window: nat -> bool, rounds: seq<Round>, key: string, diff: DiffView, theme: Theme)
    requires forall d: DiffView, t: Theme ::
               r.diffFingerprint(d, t) == r.diffFingerprint(diff, theme) ==> d == diff && t == theme
    requires var cache := AfterRounds(r, window, rounds).diffs;
             key in cache && cache[key].fingerprint == r.diffFingerprint(diff, theme)
    ensures Some(AfterRounds(r, window, rounds).diffs[key].payload) == r.diffModel(diff, theme)
  {
    ReachableEditorsMatchFingerprints(r, window, rounds);
  }

  /** The same of an output editor and its source. */
  lemma MatchingOutputShowsContent(r: Rendering, window: nat -> bool, rounds: seq<Round>, key: string, source: Source)
    requires forall other: Source :: r.outputFingerprint(other) == r.outputFingerprint(source) ==> other == source
    requires var cache := AfterRounds(r, window, rounds).outputs;
             key in cache && cache[key].fingerprint == r.outputFingerprint(source)
    ensures AfterRounds(r, window, rounds).outputs[key].payload == source
  {
    ReachableEditorsMatchFingerprints(r, window, rounds);
  }
}
