/**
 * The embed reconcilers of `reconcile.rs`: the cached editors kept in step with the
 * conversation's tool calls, by full and by scoped passes.
 */
module EmbedPass {
  import opened Text
  import opened Digits

  datatype Scope = All | Tool(id: string)

  predicate Covers(scope: Scope, toolId: string) { scope.All? || scope.id == toolId }

  /** Keys are `"{id}#{index}"`; the owner is what precedes the last `#`. */
  predicate OwnsKey(scope: Scope, key: string) { scope.All? || KeyOwner(key) == Some(scope.id) }

  function KeyOwner(key: string): Option<string> {
    var cut := LastIndexOf(key, '#');
    if cut < 0 then None else Some(key[..cut])
  }

  function EditorKey(toolId: string, index: nat): string { toolId + "#" + Decimal(index) }

  lemma KeyHasOneOwner(toolId: string, index: nat)
    ensures var key := EditorKey(toolId, index);
            LastIndexOf(key, '#') == |toolId| && key[..|toolId|] == toolId && key[|toolId| + 1..] == Decimal(index)
  {
    var key := EditorKey(toolId, index);
    DecimalReadsBack(index);
    assert key[|toolId|] == '#';
    assert forall k :: |toolId| < k < |key| ==> key[k] == Decimal(index)[k - |toolId| - 1];
  }

  /** Ownership is exactly the tool id: no other call's key is ever mistaken for this one's. */
  lemma OwnsKeyIffSameTool(scope: Scope, toolId: string, index: nat)
    ensures KeyOwner(EditorKey(toolId, index)) == Some(toolId)
    ensures OwnsKey(scope, EditorKey(toolId, index)) <==> Covers(scope, toolId)
  {
    KeyHasOneOwner(toolId, index);
  }

  lemma KeysDistinct(id1: string, i1: nat, id2: string, i2: nat)
    requires EditorKey(id1, i1) == EditorKey(id2, i2)
    ensures id1 == id2 && i1 == i2
  {
    KeyHasOneOwner(id1, i1);
    KeyHasOneOwner(id2, i2);
    DecimalInjective(i1, i2);
  }

  /**
   * One embed a pass visits: its key, the fingerprint of its content, and what an editor would be
   * built from, if anything.
   */
  datatype Candidate<P> = Candidate(key: string, fingerprint: nat, payload: Option<P>)

  /** One cached embed: the fingerprint recorded for it, the entity's identity, and what that was built from. */
  datatype Entry<P> = Entry(fingerprint: nat, entity: nat, payload: P)

  type Cache<P> = map<string, Entry<P>>

  predicate IsCached<P>(cache: Cache<P>, c: Candidate<P>) {
    c.key in cache && cache[c.key].fingerprint == c.fingerprint
  }

  predicate IsPending<P>(cache: Cache<P>, c: Candidate<P>) { !IsCached(cache, c) && c.payload.Some? }

  function Pending<P>(cache: Cache<P>, cands: seq<Candidate<P>>): seq<Candidate<P>> {
    if cands == [] then []
    else
      var n := |cands| - 1;
      Pending(cache, cands[..n]) + if IsPending(cache, cands[n]) then [cands[n]] else []
  }

  /** The keys a pass claims: unchanged ones and ones it will build. */
  function Live<P>(cache: Cache<P>, cands: seq<Candidate<P>>): set<string> {
    if cands == [] then {}
    else
      var n := |cands| - 1;
      var c := cands[n];
      Live(cache, cands[..n]) + if IsCached(cache, c) || c.payload.Some? then {c.key} else {}
  }

  function Stale<P>(cache: Cache<P>, live: set<string>, scope: Scope): set<string> {
    set key | key in cache && OwnsKey(scope, key) && key !in live
  }

  function InstallOne<P>(cache: Cache<P>, c: Candidate<P>, n: nat, window: nat -> bool): Cache<P> {
    if window(n) && c.payload.Some? then cache[c.key := Entry(c.fingerprint, n, c.payload.value)] else cache
  }

  /** Building the pending editors in order; `window(n)` says whether the `n`-th creation finds its window. */
  function Install<P>(cache: Cache<P>, pending: seq<Candidate<P>>, attempts: nat, window: nat -> bool): Cache<P> {
    if pending == [] then cache
    else
      var n := |pending| - 1;
      InstallOne(Install(cache, pending[..n], attempts, window), pending[n], attempts + n, window)
  }

  lemma InstallOneMore<P>(cache: Cache<P>, pending: seq<Candidate<P>>, i: nat, attempts: nat, window: nat -> bool)
    requires i < |pending|
    ensures Install(cache, pending[..i + 1], attempts, window)
         == InstallOne(Install(cache, pending[..i], attempts, window), pending[i], attempts + i, window)
  {
    assert pending[..i + 1][..i] == pending[..i];
  }

  datatype Outcome<P> = Outcome(cache: Cache<P>, attempts: nat)

  /** One reconcile pass: evict what is stale, build what is pending. */
  function Pass<P>(
        cache: Cache<P>, cands: seq<Candidate<P>>, scope: Scope, attempts: nat, window: nat -> bool): Outcome<P> {
    var pending := Pending(cache, cands);
    Outcome(Install(cache - Stale(cache, Live(cache, cands), scope), pending, attempts, window), attempts + |pending|)
  }

  // Membership facts.

  lemma {:induction false} LiveMeans<P>(cache: Cache<P>, cands: seq<Candidate<P>>, key: string)
    ensures key in Live(cache, cands) <==>
            exists c :: c in cands && c.key == key && (IsCached(cache, c) || c.payload.Some?)
  {
    if cands != [] {
      var n := |cands| - 1;
      LiveMeans(cache, cands[..n], key);
      assert forall c :: c in cands <==> c in cands[..n] || c == cands[n];
    }
  }

  lemma {:induction false} PendingMeans<P>(cache: Cache<P>, cands: seq<Candidate<P>>, c: Candidate<P>)
    ensures c in Pending(cache, cands) <==> c in cands && IsPending(cache, c)
  {
    if cands != [] {
      var n := |cands| - 1;
      PendingMeans(cache, cands[..n], c);
      assert c in cands <==> c in cands[..n] || c == cands[n];
    }
  }

  lemma {:induction false} InstallLeaves<P>(
        cache: Cache<P>, pending: seq<Candidate<P>>, attempts: nat, window: nat -> bool, key: string)
    requires forall c :: c in pending ==> c.key != key
    ensures var after := Install(cache, pending, attempts, window);
            (key in after <==> key in cache) && (key in cache ==> after[key] == cache[key])
  {
    if pending != [] {
      var n := |pending| - 1;
      assert pending[n] in pending;
      InstallLeaves(cache, pending[..n], attempts, window, key);
    }
  }

  // A scoped pass against a full one.

  function Owned<P>(cands: seq<Candidate<P>>, scope: Scope): seq<Candidate<P>> {
    if cands == [] then []
    else
      var n := |cands| - 1;
      Owned(cands[..n], scope) + if OwnsKey(scope, cands[n].key) then [cands[n]] else []
  }

  /** Nothing outside the scope is waiting to be built or evicted. */
  ghost predicate SettledOutside<P>(cache: Cache<P>, cands: seq<Candidate<P>>, scope: Scope) {
    && (forall c :: c in cands && !OwnsKey(scope, c.key) ==> !IsPending(cache, c))
    && (forall key :: key in cache && !OwnsKey(scope, key) ==> key in Live(cache, cands))
  }

  lemma {:induction false} PendingOfOwned<P>(cache: Cache<P>, cands: seq<Candidate<P>>, scope: Scope)
    ensures Pending(cache, Owned(cands, scope)) == Owned(Pending(cache, cands), scope)
  {
    if cands != [] {
      var n := |cands| - 1;
      PendingOfOwned(cache, cands[..n], scope);
      var c, owned, pending := cands[n], Owned(cands[..n], scope), Pending(cache, cands[..n]);
      if OwnsKey(scope, c.key) {
        assert (owned + [c])[..|owned|] == owned;
      } else {
        assert owned + [] == owned;
      }
      if IsPending(cache, c) {
        assert (pending + [c])[..|pending|] == pending;
      } else {
        assert pending + [] == pending;
      }
    }
  }

  lemma {:induction false} OwnedShorter<P>(cands: seq<Candidate<P>>, scope: Scope)
    ensures |Owned(cands, scope)| <= |cands|
    ensures |Owned(cands, scope)| == |cands| ==> forall i :: 0 <= i < |cands| ==> OwnsKey(scope, cands[i].key)
  {
    if cands != [] {
      OwnedShorter(cands[..|cands| - 1], scope);
    }
  }

  lemma {:induction false} AllOwned<P>(cands: seq<Candidate<P>>, scope: Scope)
    requires forall i :: 0 <= i < |cands| ==> OwnsKey(scope, cands[i].key)
    ensures Owned(cands, scope) == cands
  {
    if cands != [] {
      AllOwned(cands[..|cands| - 1], scope);
      SplitLast(cands);
    }
  }

  lemma {:induction false} OwnedMeans<P>(cands: seq<Candidate<P>>, scope: Scope, c: Candidate<P>)
    ensures c in Owned(cands, scope) <==> c in cands && OwnsKey(scope, c.key)
  {
    if cands != [] {
      var n := |cands| - 1;
      OwnedMeans(cands[..n], scope, c);
      assert c in cands <==> c in cands[..n] || c == cands[n];
    }
  }

  lemma LiveOfOwned<P>(cache: Cache<P>, cands: seq<Candidate<P>>, scope: Scope, key: string)
    requires OwnsKey(scope, key)
    ensures key in Live(cache, Owned(cands, scope)) <==> key in Live(cache, cands)
  {
    LiveMeans(cache, Owned(cands, scope), key);
    LiveMeans(cache, cands, key);
    if key in Live(cache, cands) {
      var c :| c in cands && c.key == key && (IsCached(cache, c) || c.payload.Some?);
      OwnedMeans(cands, scope, c);
    }
    if key in Live(cache, Owned(cands, scope)) {
      var c :| c in Owned(cands, scope) && c.key == key && (IsCached(cache, c) || c.payload.Some?);
      OwnedMeans(cands, scope, c);
    }
  }

  lemma SettledScopedStale<P>(cache: Cache<P>, cands: seq<Candidate<P>>, scope: Scope)
    requires SettledOutside(cache, cands, scope)
    ensures Stale(cache, Live(cache, Owned(cands, scope)), scope) == Stale(cache, Live(cache, cands), All)
  {
    forall key | key in cache && OwnsKey(scope, key)
      ensures key in Live(cache, Owned(cands, scope)) <==> key in Live(cache, cands)
    {
      LiveOfOwned(cache, cands, scope, key);
    }
  }

  /** Dropping the unowned candidates drops no creation exactly when none of them is pending. */
  lemma SettledScopedPending<P>(cache: Cache<P>, cands: seq<Candidate<P>>, scope: Scope)
    ensures var scoped, full := Pending(cache, Owned(cands, scope)), Pending(cache, cands);
            && ((forall c :: c in cands && !OwnsKey(scope, c.key) ==> !IsPending(cache, c)) ==> scoped == full)
            && (|scoped| == |full| ==> forall c :: c in cands && !OwnsKey(scope, c.key) ==> !IsPending(cache, c))
  {
    var full := Pending(cache, cands);
    PendingOfOwned(cache, cands, scope);
    OwnedShorter(full, scope);
    if forall c :: c in cands && !OwnsKey(scope, c.key) ==> !IsPending(cache, c) {
      forall i | 0 <= i < |full| ensures OwnsKey(scope, full[i].key) {
        PendingMeans(cache, cands, full[i]);
      }
      AllOwned(full, scope);
    }
    forall c | c in cands && IsPending(cache, c) ensures c in full {
      PendingMeans(cache, cands, c);
    }
  }

  /**
   * The scoped pass is the full pass exactly when everything outside its call is settled: then
   * both leave the same entities under the same keys and ask the window for the same creations;
   * otherwise they differ.
   */
  lemma ScopedIsFullIffSettled<P>(
        cache: Cache<P>, cands: seq<Candidate<P>>, scope: Scope, attempts: nat, window: nat -> bool)
    ensures Pass(cache, Owned(cands, scope), scope, attempts, window) == Pass(cache, cands, All, attempts, window)
            <==> SettledOutside(cache, cands, scope)
  {
    SettledScopedPending(cache, cands, scope);
    if SettledOutside(cache, cands, scope) {
      SettledScopedStale(cache, cands, scope);
    } else if |Pending(cache, Owned(cands, scope))| == |Pending(cache, cands)| {
      var key :| key in cache && !OwnsKey(scope, key) && key !in Live(cache, cands);
      UnsettledKeyDiffers(cache, cands, scope, attempts, window, key);
    }
  }

  lemma UnsettledKeyDiffers<P>(
        cache: Cache<P>, cands: seq<Candidate<P>>, scope: Scope, attempts: nat, window: nat -> bool, key: string)
    requires key in cache && !OwnsKey(scope, key) && key !in Live(cache, cands)
    ensures key in Pass(cache, Owned(cands, scope), scope, attempts, window).cache
    ensures key !in Pass(cache, cands, All, attempts, window).cache
  {
    ScopedPassLeavesOthers(cache, cands, scope, attempts, window, key);
    var pending := Pending(cache, cands);
    forall c | c in pending ensures c.key != key {
      PendingMeans(cache, cands, c);
      LiveMeans(cache, cands, key);
    }
    InstallLeaves(cache - Stale(cache, Live(cache, cands), All), pending, attempts, window, key);
  }

  /** A scoped pass never touches a key it does not own. */
  lemma ScopedPassLeavesOthers<P>(
        cache: Cache<P>, cands: seq<Candidate<P>>, scope: Scope, attempts: nat, window: nat -> bool, key: string)
    requires !OwnsKey(scope, key)
    ensures var after := Pass(cache, Owned(cands, scope), scope, attempts, window).cache;
            (key in after <==> key in cache) && (key in cache ==> after[key] == cache[key])
  {
    var mine := Owned(cands, scope);
    var pending := Pending(cache, mine);
    forall c | c in pending ensures c.key != key {
      PendingMeans(cache, mine, c);
      OwnedMeans(cands, scope, c);
    }
    InstallLeaves(cache - Stale(cache, Live(cache, mine), scope), pending, attempts, window, key);
  }

  // A full pass whose builds succeed.

  /** The cache shows exactly these candidates: none to build, none to evict. */
  ghost predicate Exact<P>(cache: Cache<P>, cands: seq<Candidate<P>>) {
    && (forall c :: c in cands ==> !IsPending(cache, c))
    && (forall key :: key in cache ==> key in Live(cache, cands))
  }

  ghost predicate DistinctKeys<P>(cands: seq<Candidate<P>>) {
    forall i, j :: 0 <= i < j < |cands| ==> cands[i].key != cands[j].key
  }

  predicate BuildsSucceed(window: nat -> bool, attempts: nat, n: nat) {
    forall i :: attempts <= i < attempts + n ==> window(i)
  }

  lemma {:induction false} InstallPuts<P>(
        cache: Cache<P>, pending: seq<Candidate<P>>, attempts: nat, window: nat -> bool, i: nat)
    requires i < |pending| && DistinctKeys(pending) && BuildsSucceed(window, attempts, |pending|)
    requires pending[i].payload.Some?
    ensures var after, c := Install(cache, pending, attempts, window), pending[i];
            c.key in after && after[c.key] == Entry(c.fingerprint, attempts + i, c.payload.value)
  {
    var n := |pending| - 1;
    if i < n {
      InstallPuts(cache, pending[..n], attempts, window, i);
    }
  }

  lemma {:induction false} PendingDistinct<P>(cache: Cache<P>, cands: seq<Candidate<P>>)
    requires DistinctKeys(cands)
    ensures DistinctKeys(Pending(cache, cands))
  {
    if cands != [] {
      var n := |cands| - 1;
      PendingDistinct(cache, cands[..n]);
      var before := Pending(cache, cands[..n]);
      forall i | 0 <= i < |before| ensures before[i].key != cands[n].key {
        PendingMeans(cache, cands[..n], before[i]);
      }
    }
  }

  /** What a full pass leaves under one candidate's key. */
  lemma FullPassCandidate<P>(
        cache: Cache<P>, cands: seq<Candidate<P>>, attempts: nat, window: nat -> bool, c: Candidate<P>)
    requires DistinctKeys(cands) && BuildsSucceed(window, attempts, |Pending(cache, cands)|) && c in cands
    ensures var after := Pass(cache, cands, All, attempts, window).cache;
            && (IsCached(cache, c) ==> c.key in after && after[c.key] == cache[c.key])
            && (IsPending(cache, c) ==>
                  c.key in after && after[c.key].fingerprint == c.fingerprint
                  && Some(after[c.key].payload) == c.payload)
  {
    var pending := Pending(cache, cands);
    var kept := cache - Stale(cache, Live(cache, cands), All);
    PendingDistinct(cache, cands);
    PendingMeans(cache, cands, c);
    if IsPending(cache, c) {
      var i :| 0 <= i < |pending| && pending[i] == c;
      InstallPuts(kept, pending, attempts, window, i);
    }
    if IsCached(cache, c) {
      LiveMeans(cache, cands, c.key);
      forall d | d in pending ensures d.key != c.key {
        PendingMeans(cache, cands, d);
        if d.key == c.key {
          SameKeySameCandidate(cands, c, d);
        }
      }
      InstallLeaves(kept, pending, attempts, window, c.key);
    }
  }

  lemma SameKeySameCandidate<P>(cands: seq<Candidate<P>>, c: Candidate<P>, d: Candidate<P>)
    requires DistinctKeys(cands) && c in cands && d in cands && c.key == d.key
    ensures c == d
  {
  }

  /**
   * A full pass whose builds succeed leaves exactly the claimed keys, each with its content's
   * fingerprint, so that the next full pass over the same content has nothing to do.
   */
  lemma FullPassIsExact<P>(cache: Cache<P>, cands: seq<Candidate<P>>, attempts: nat, window: nat -> bool)
    requires DistinctKeys(cands) && BuildsSucceed(window, attempts, |Pending(cache, cands)|)
    ensures var after := Pass(cache, cands, All, attempts, window).cache;
            && after.Keys == Live(cache, cands)
            && (forall c :: c in cands && (IsCached(cache, c) || c.payload.Some?) ==> IsCached(after, c))
            && Exact(after, cands)
  {
    var after := Pass(cache, cands, All, attempts, window).cache;
    forall c | c in cands && (IsCached(cache, c) || c.payload.Some?) ensures IsCached(after, c) {
      FullPassCandidate(cache, cands, attempts, window, c);
    }
    forall key ensures key in after <==> key in Live(cache, cands) {
      FullPassKey(cache, cands, attempts, window, key);
    }
    forall key | key in after ensures key in Live(after, cands) {
      LiveMeans(cache, cands, key);
      LiveMeans(after, cands, key);
    }
  }

  lemma FullPassKey<P>(cache: Cache<P>, cands: seq<Candidate<P>>, attempts: nat, window: nat -> bool, key: string)
    requires DistinctKeys(cands) && BuildsSucceed(window, attempts, |Pending(cache, cands)|)
    ensures key in Pass(cache, cands, All, attempts, window).cache <==> key in Live(cache, cands)
  {
    LiveMeans(cache, cands, key);
    if key in Live(cache, cands) {
      var c :| c in cands && c.key == key && (IsCached(cache, c) || c.payload.Some?);
      FullPassCandidate(cache, cands, attempts, window, c);
    } else {
      var pending := Pending(cache, cands);
      forall c | c in pending ensures c.key != key {
        PendingMeans(cache, cands, c);
      }
      InstallLeaves(cache - Stale(cache, Live(cache, cands), All), pending, attempts, window, key);
    }
  }

  /** What a pass shows for a candidate: the entry that matches it already, or what it offers, or nothing. */
  predicate ShowsCandidate<P(==)>(was: Cache<P>, now: Cache<P>, c: Candidate<P>) {
    if IsCached(was, c) then c.key in now && now[c.key] == was[c.key]
    else
      match c.payload
      case None => c.key !in now
      case Some(p) => c.key in now && now[c.key].fingerprint == c.fingerprint && now[c.key].payload == p
  }

  lemma FullPassShows<P>(
        cache: Cache<P>, cands: seq<Candidate<P>>, attempts: nat, window: nat -> bool, c: Candidate<P>)
    requires DistinctKeys(cands) && BuildsSucceed(window, attempts, |Pending(cache, cands)|) && c in cands
    ensures ShowsCandidate(cache, Pass(cache, cands, All, attempts, window).cache, c)
  {
    FullPassCandidate(cache, cands, attempts, window, c);
    if !IsCached(cache, c) && c.payload.None? {
      LiveMeans(cache, cands, c.key);
      FullPassKey(cache, cands, attempts, window, c.key);
    }
  }

  lemma FullPassKeysAreClaimed<P>(
        cache: Cache<P>, cands: seq<Candidate<P>>, attempts: nat, window: nat -> bool, key: string)
    returns (c: Candidate<P>)
    requires DistinctKeys(cands) && BuildsSucceed(window, attempts, |Pending(cache, cands)|)
    requires key in Pass(cache, cands, All, attempts, window).cache
    ensures c in cands && c.key == key
  {
    FullPassKey(cache, cands, attempts, window, key);
    LiveMeans(cache, cands, key);
    c :| c in cands && c.key == key;
  }

  /** An exact cache survives a full pass untouched: same entities, no creation asked for. */
  lemma ExactIsStable<P>(cache: Cache<P>, cands: seq<Candidate<P>>, attempts: nat, window: nat -> bool)
    requires Exact(cache, cands)
    ensures Pass(cache, cands, All, attempts, window) == Outcome(cache, attempts)
  {
    var pending := Pending(cache, cands);
    if pending != [] {
      PendingMeans(cache, cands, pending[0]);
    }
  }

  /**
   * If two lists differ only in candidates the scope owns, a cache exact for one is settled
   * outside the scope for the other.
   */
  lemma ExactThenSettled<P(!new)>(cache: Cache<P>, was: seq<Candidate<P>>, now: seq<Candidate<P>>, scope: Scope)
    requires Exact(cache, was)
    requires forall c: Candidate<P> :: !OwnsKey(scope, c.key) ==> (c in was <==> c in now)
    ensures SettledOutside(cache, now, scope)
  {
    forall key | key in cache && !OwnsKey(scope, key) ensures key in Live(cache, now) {
      LiveMeans(cache, was, key);
      LiveMeans(cache, now, key);
    }
  }

  /** An entry is new exactly where a creation found its window; without one nothing is built. */
  lemma {:induction false} InstalledOrKept<P>(
        cache: Cache<P>, pending: seq<Candidate<P>>, attempts: nat, window: nat -> bool, key: string)
    ensures var after := Install(cache, pending, attempts, window);
            && (key in cache ==> key in after)
            && (key in after ==>
                  (key in cache && after[key] == cache[key])
                  || (attempts <= after[key].entity < attempts + |pending| && window(after[key].entity)))
  {
    if pending != [] {
      InstalledOrKept(cache, pending[..|pending| - 1], attempts, window, key);
    }
  }

  /** A pass whose creations fail only evicts: whatever it could not rebuild stays as it was. */
  lemma {:induction false} NoWindowBuildsNothing<P>(
        cache: Cache<P>, pending: seq<Candidate<P>>, attempts: nat, window: nat -> bool)
    requires forall i :: attempts <= i < attempts + |pending| ==> !window(i)
    ensures Install(cache, pending, attempts, window) == cache
  {
    if pending != [] {
      NoWindowBuildsNothing(cache, pending[..|pending| - 1], attempts, window);
    }
  }

  /** Every entity a pass leaves was there before, or comes from one of its creations, in its window. */
  lemma EntitiesAreBuiltOrKept<P>(
        cache: Cache<P>, cands: seq<Candidate<P>>, scope: Scope, attempts: nat, window: nat -> bool, key: string)
    ensures var after := Pass(cache, cands, scope, attempts, window);
            && (key in after.cache ==>
                  (key in cache && after.cache[key] == cache[key])
                  || (attempts <= after.cache[key].entity < after.attempts && window(after.cache[key].entity)))
            && ((forall i :: attempts <= i < after.attempts ==> !window(i)) ==>
                  after.cache == cache - Stale(cache, Live(cache, cands), scope))
  {
    var kept, pending := cache - Stale(cache, Live(cache, cands), scope), Pending(cache, cands);
    InstalledOrKept(kept, pending, attempts, window, key);
    if forall i :: attempts <= i < attempts + |pending| ==> !window(i) {
      NoWindowBuildsNothing(kept, pending, attempts, window);
    }
  }

  // What every pass keeps.

  /** Every entry holds a fingerprint and what was built for it, as some candidate offered them. */
  ghost predicate AllMade<P>(cache: Cache<P>, made: iset<(nat, P)>) {
    forall key :: key in cache ==> (cache[key].fingerprint, cache[key].payload) in made
  }

  ghost predicate OffersMade<P>(cands: seq<Candidate<P>>, made: iset<(nat, P)>) {
    forall i :: 0 <= i < |cands| && cands[i].payload.Some? ==> (cands[i].fingerprint, cands[i].payload.value) in made
  }

  lemma {:induction false} InstallKeepsMade<P>(
      cache: Cache<P>, pending: seq<Candidate<P>>, attempts: nat, window: nat -> bool, made: iset<(nat, P)>)
    requires AllMade(cache, made) && OffersMade(pending, made)
    ensures AllMade(Install(cache, pending, attempts, window), made)
  {
    if pending != [] {
      InstallKeepsMade(cache, pending[..|pending| - 1], attempts, window, made);
    }
  }

  /**
   * No pass, whatever its scope and however many of its builds fail, ever pairs a fingerprint with
   * something not built for it.
   */
  lemma PassKeepsMade<P>(
        cache: Cache<P>, cands: seq<Candidate<P>>, scope: Scope, attempts: nat, window: nat -> bool,
        made: iset<(nat, P)>)
    requires AllMade(cache, made) && OffersMade(cands, made)
    ensures AllMade(Pass(cache, cands, scope, attempts, window).cache, made)
  {
    var pending := Pending(cache, cands);
    forall i | 0 <= i < |pending| && pending[i].payload.Some?
      ensures (pending[i].fingerprint, pending[i].payload.value) in made
    {
      PendingMeans(cache, cands, pending[i]);
    }
    InstallKeepsMade(cache - Stale(cache, Live(cache, cands), scope), pending, attempts, window, made);
  }
}
