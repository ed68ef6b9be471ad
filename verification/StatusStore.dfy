/** The last-writer-wins store of agent status files. */
module StatusStore {
  import opened Runs
  import opened Text

  datatype StatusKey = Terminal(id: string) | LegacySession(session: string)

  /** `rest` stands for the fields the store never looks at. */
  datatype StatusFile = StatusFile(sessionId: string, terminalId: Option<string>, timestamp: int, rest: string)

  function Identity(f: StatusFile): StatusKey {
    match f.terminalId
    case Some(id) => Terminal(id)
    case None => LegacySession(f.sessionId)
  }

  type Store = map<StatusKey, StatusFile>

  predicate Rejects(m: Store, f: StatusFile) {
    Identity(f) in m && m[Identity(f)].timestamp > f.timestamp
  }

  function Put(m: Store, f: StatusFile): Store { if Rejects(m, f) then m else m[Identity(f) := f] }

  function PutAll(m: Store, files: seq<StatusFile>): Store { FoldWith(Put, m, files) }

  function OfSession(m: Store, session: string): set<StatusKey> { set k | k in m && m[k].sessionId == session }

  /** The entry under `k` is the session's, and no other is. */
  ghost predicate IsOnlyOf(m: Store, session: string, k: StatusKey) {
    forall l :: (l in m && m[l].sessionId == session) <==> l == k
  }

  lemma OnlyIffAlone(m: Store, session: string)
    ensures forall k :: IsOnlyOf(m, session, k) <==> OfSession(m, session) == {k}
  {
    forall k ensures IsOnlyOf(m, session, k) <==> OfSession(m, session) == {k} {
      assert forall l :: l in OfSession(m, session) <==> l in m && m[l].sessionId == session;
      assert k in {k};
    }
  }

  /** Files share an entry exactly if they name one terminal or, naming none, one session. */
  lemma SameEntryIff(f: StatusFile, g: StatusFile)
    ensures Identity(f) == Identity(g)
            <==> f.terminalId == g.terminalId && (f.terminalId == None ==> f.sessionId == g.sessionId)
  {
    match (f.terminalId, g.terminalId) {
      case (Some(_), Some(_)) =>
      case (_, _) =>
    }
  }

  /** Every entry sits under its own identity. */
  predicate Keyed(m: Store) { forall k :: k in m ==> Identity(m[k]) == k }

  class ClaudeStatusStore {
    var byKey: Store

    ghost predicate Valid()
      reads this
    {
      Keyed(byKey)
    }

    constructor ()
      ensures Valid() && byKey == map[]
    {
      byKey := map[];
    }

    /** Takes a file unless what is held for its key is strictly newer; answers whether it did. */
    method Update(incoming: StatusFile) returns (accepted: bool)
      requires Valid()
      modifies this
      ensures Valid()
      ensures accepted <==> !Rejects(old(byKey), incoming)
      ensures byKey == Put(old(byKey), incoming)
    {
      var key := Identity(incoming);
      if key in byKey && byKey[key].timestamp > incoming.timestamp {
        return false;
      }
      byKey := byKey[key := incoming];
      accepted := true;
    }

    method LoadInitial(files: seq<StatusFile>)
      requires Valid()
      modifies this
      ensures Valid()
      ensures byKey == PutAll(old(byKey), files)
    {
      for i := 0 to |files|
        invariant Valid()
        invariant byKey == PutAll(old(byKey), files[..i])
      {
        var _ := Update(files[i]);
        FoldWithSnoc(Put, old(byKey), files[..i], files[i]);
        assert files[..i + 1] == files[..i] + [files[i]];
      }
      assert files[..|files|] == files;
    }

    method Remove(key: StatusKey) returns (removed: Option<StatusFile>)
      requires Valid()
      modifies this
      ensures Valid()
      ensures removed == if key in old(byKey) then Some(old(byKey)[key]) else None
      ensures byKey == old(byKey) - {key}
    {
      if key !in byKey {
        return None;
      }
      removed := Some(byKey[key]);
      byKey := byKey - {key};
    }

    /** The one snapshot of a session, if there is exactly one. */
    method UniqueSession(session: string) returns (found: Option<StatusFile>)
      ensures found.Some? <==> exists k :: IsOnlyOf(byKey, session, k)
      ensures found.Some? ==> exists k :: IsOnlyOf(byKey, session, k) && found.value == byKey[k]
    {
      var matches := OfSession(byKey, session);
      OnlyIffAlone(byKey, session);
      if matches == {} {
        return None;
      }
      var first :| first in matches;
      if matches - {first} == {} {
        assert matches == {first};
        found := Some(byKey[first]);
      } else {
        var second :| second in matches - {first};
        found := None;
        assert forall k :: matches == {k} ==> first in {k} && second in {k};
      }
    }

    /** Removes the one snapshot of a session, or changes nothing. */
    method RemoveUniqueSession(session: string) returns (removed: Option<StatusFile>)
      requires Valid()
      modifies this
      ensures Valid()
      ensures removed.None? ==> byKey == old(byKey) && forall k :: !IsOnlyOf(old(byKey), session, k)
      ensures removed.Some?
              ==> exists k :: (IsOnlyOf(old(byKey), session, k) && removed.value == old(byKey)[k]
                               && byKey == old(byKey) - {k})
    {
      var found := UniqueSession(session);
      if found.None? {
        return None;
      }
      removed := Remove(Identity(found.value));
    }
  }

  // Any run of updates.

  /** A file no other file for its key, and nothing the store began with, is newer than. */
  ghost predicate IsTop(m: Store, files: seq<StatusFile>, f: StatusFile) {
    f in files && !Rejects(m, f) && forall g :: g in files && Identity(g) == Identity(f) ==> g.timestamp <= f.timestamp
  }

  /** What a store that began as `m` may hold for `k` after the files came in. */
  ghost predicate Fits(m: Store, files: seq<StatusFile>, s: Store, k: StatusKey) {
    && (k in s <==> k in m || exists f :: f in files && Identity(f) == k)
    && (k in s ==> Identity(s[k]) == k)
    && (k in s ==> IsTop(m, files, s[k])
                   || (k in m && s[k] == m[k] && forall f :: f in files && Identity(f) == k ==> Rejects(m, f)))
  }

  lemma PutFits(m: Store, files: seq<StatusFile>, s: Store, f: StatusFile, k: StatusKey)
    requires Fits(m, files, s, k)
    ensures Fits(m, files + [f], Put(s, f), k)
  {
    if Identity(f) == k {
      assert f in files + [f];
    }
  }

  /**
   * After any run each key holds one of its newest files, or what was there already if that is
   * strictly newer than every file.
   */
  lemma {:induction false} HoldsTheNewest(m: Store, files: seq<StatusFile>, k: StatusKey)
    requires Keyed(m)
    ensures Fits(m, files, PutAll(m, files), k)
  {
    if files != [] {
      var n := |files| - 1;
      HoldsTheNewest(m, files[..n], k);
      PutFits(m, files[..n], PutAll(m, files[..n]), files[n], k);
      FoldWithSnoc(Put, m, files[..n], files[n]);
      SplitLast(files);
    }
  }

  /** The `i`-th file is the last delivered of the newest for its key. */
  ghost predicate IsLastNewest(m: Store, files: seq<StatusFile>, i: nat) {
    && i < |files| && !Rejects(m, files[i])
    && (forall j :: 0 <= j < |files| && Identity(files[j]) == Identity(files[i])
          ==> files[j].timestamp <= files[i].timestamp && (j > i ==> files[j].timestamp < files[i].timestamp))
  }

  lemma PutNewest(m: Store, files: seq<StatusFile>, f: StatusFile)
    requires Keyed(m) && IsLastNewest(m, files + [f], |files|)
    ensures Put(PutAll(m, files), f)[Identity(f)] == f
  {
    var k, s := Identity(f), PutAll(m, files);
    HoldsTheNewest(m, files, k);
    if k in s && s[k] in files {
      var j :| 0 <= j < |files| && files[j] == s[k];
      assert (files + [f])[j] == s[k];
    }
  }

  lemma ShorterStaysLastNewest(m: Store, files: seq<StatusFile>, f: StatusFile, i: nat)
    requires IsLastNewest(m, files + [f], i) && i < |files|
    ensures IsLastNewest(m, files, i) && (files + [f])[i] == files[i]
    ensures Identity(f) == Identity(files[i]) ==> f.timestamp < files[i].timestamp
  {
    assert (files + [f])[|files|] == f;
    assert forall j :: 0 <= j < |files| ==> (files + [f])[j] == files[j];
  }

  /** Of a key's newest files, the last delivered is the one held. */
  lemma {:induction false} HoldsTheLastDelivered(m: Store, files: seq<StatusFile>, i: nat)
    requires Keyed(m) && IsLastNewest(m, files, i)
    ensures Identity(files[i]) in PutAll(m, files) && PutAll(m, files)[Identity(files[i])] == files[i]
    decreases |files|
  {
    var n := |files| - 1;
    var before := files[..n];
    SplitLast(files);
    FoldWithSnoc(Put, m, before, files[n]);
    if i == n {
      PutNewest(m, before, files[n]);
    } else {
      ShorterStaysLastNewest(m, before, files[n], i);
      HoldsTheLastDelivered(m, before, i);
    }
  }

  /** A key with a file the store did not reject from the start has a last delivered newest one. */
  lemma {:induction false} LastNewestExists(m: Store, files: seq<StatusFile>, g: StatusFile) returns (i: nat)
    requires g in files && !Rejects(m, g)
    ensures IsLastNewest(m, files, i) && Identity(files[i]) == Identity(g)
  {
    var n := |files| - 1;
    var before, f := files[..n], files[n];
    assert files == before + [f];
    if h :| h in before && Identity(h) == Identity(g) && !Rejects(m, h) {
      i := LastNewestExists(m, before, h);
      if Identity(f) == Identity(g) && f.timestamp >= files[i].timestamp {
        i := n;
      }
    } else {
      i := n;
      assert forall j :: 0 <= j < n ==> files[j] == before[j] && files[j] in before;
    }
  }

  /** A key for which a file came in that is not older than what was there holds the last delivered of its newest. */
  lemma HoldsWhatCameIn(m: Store, files: seq<StatusFile>, g: StatusFile)
    requires Keyed(m) && g in files && !Rejects(m, g)
    ensures var s := PutAll(m, files);
            Identity(g) in s && exists i: nat :: IsLastNewest(m, files, i) && s[Identity(g)] == files[i]
  {
    var i := LastNewestExists(m, files, g);
    HoldsTheLastDelivered(m, files, i);
  }

  lemma RunStaysKeyed(m: Store, files: seq<StatusFile>)
    requires Keyed(m)
    ensures Keyed(PutAll(m, files))
  {
    forall k | k in PutAll(m, files) ensures Identity(PutAll(m, files)[k]) == k {
      HoldsTheNewest(m, files, k);
    }
  }

  /** No run forgets a key or turns its clock back. */
  lemma TimestampsNeverDecrease(m: Store, files: seq<StatusFile>, k: StatusKey)
    requires Keyed(m) && k in m
    ensures k in PutAll(m, files) && PutAll(m, files)[k].timestamp >= m[k].timestamp
  {
    HoldsTheNewest(m, files, k);
  }

  // Delivery order.

  ghost predicate SameFiles(a: seq<StatusFile>, b: seq<StatusFile>) { multiset(a) == multiset(b) }

  /** For every key the newest files are all the same. */
  ghost predicate NewestAgree(m: Store, files: seq<StatusFile>) {
    forall f, g :: IsTop(m, files, f) && IsTop(m, files, g) && Identity(f) == Identity(g) ==> f == g
  }

  lemma SameMembers(a: seq<StatusFile>, b: seq<StatusFile>, f: StatusFile)
    requires SameFiles(a, b)
    ensures f in a <==> f in b
  {
    assert f in a <==> f in multiset(a);
    assert f in b <==> f in multiset(b);
  }

  lemma SameTops(m: Store, a: seq<StatusFile>, b: seq<StatusFile>, f: StatusFile)
    requires SameFiles(a, b) && IsTop(m, a, f)
    ensures IsTop(m, b, f)
  {
    SameMembers(a, b, f);
    forall g | g in b ensures g in a { SameMembers(a, b, g); }
  }

  lemma SameEntry(m: Store, a: seq<StatusFile>, b: seq<StatusFile>, k: StatusKey)
    requires Keyed(m) && SameFiles(a, b) && NewestAgree(m, a)
    ensures k in PutAll(m, a) <==> k in PutAll(m, b)
    ensures k in PutAll(m, a) ==> PutAll(m, a)[k] == PutAll(m, b)[k]
  {
    var s, t := PutAll(m, a), PutAll(m, b);
    HoldsTheNewest(m, a, k);
    HoldsTheNewest(m, b, k);
    forall f ensures f in a <==> f in b { SameMembers(a, b, f); }
    if k in t && IsTop(m, b, t[k]) {
      SameTops(m, b, a, t[k]);
    }
  }

  /** The newest file of a key, delivered last, is what the key holds. */
  lemma LastNewestWins(m: Store, a: seq<StatusFile>, b: seq<StatusFile>, f: StatusFile)
    requires Keyed(m) && IsTop(m, a + [f] + b, f)
    ensures SameFiles(a + [f] + b, a + b + [f])
    ensures Identity(f) in PutAll(m, a + b + [f]) && PutAll(m, a + b + [f])[Identity(f)] == f
  {
    assert multiset(a + [f] + b) == multiset(a + b + [f]);
    SameTops(m, a + [f] + b, a + b + [f], f);
    HoldsTheNewest(m, a + b, Identity(f));
    FoldWithSnoc(Put, m, a + b, f);
  }

  lemma DeliveredLast(m: Store, files: seq<StatusFile>, f: StatusFile) returns (delivery: seq<StatusFile>)
    requires Keyed(m) && IsTop(m, files, f)
    ensures SameFiles(files, delivery)
    ensures Identity(f) in PutAll(m, delivery) && PutAll(m, delivery)[Identity(f)] == f
  {
    var i :| 0 <= i < |files| && files[i] == f;
    CutOut(files, i);
    LastNewestWins(m, files[..i], files[i + 1..], f);
    delivery := files[..i] + files[i + 1..] + [f];
  }

  lemma CutOut(files: seq<StatusFile>, i: nat)
    requires i < |files|
    ensures files == files[..i] + [files[i]] + files[i + 1..]
  {
  }

  ghost predicate OrderIsNoMatter(m: Store, files: seq<StatusFile>) {
    forall delivery :: SameFiles(files, delivery) ==> PutAll(m, delivery) == PutAll(m, files)
  }

  /** The store converges to the same contents in every order of delivery exactly when no key's newest files differ. */
  lemma ConvergesIffNewestAgree(m: Store, files: seq<StatusFile>)
    requires Keyed(m)
    ensures OrderIsNoMatter(m, files) <==> NewestAgree(m, files)
  {
    if NewestAgree(m, files) {
      forall delivery | SameFiles(files, delivery) ensures PutAll(m, delivery) == PutAll(m, files) {
        forall k ensures k in PutAll(m, files) <==> k in PutAll(m, delivery)
          ensures k in PutAll(m, files) ==> PutAll(m, files)[k] == PutAll(m, delivery)[k]
        {
          SameEntry(m, files, delivery, k);
        }
      }
    }
    if OrderIsNoMatter(m, files) {
      forall f, g | IsTop(m, files, f) && IsTop(m, files, g) && Identity(f) == Identity(g) ensures f == g {
        var fLast := DeliveredLast(m, files, f);
        var gLast := DeliveredLast(m, files, g);
        assert PutAll(m, fLast) == PutAll(m, files) == PutAll(m, gLast);
      }
    }
  }

  /** In particular when no two files of a key share a timestamp. */
  lemma DistinctTimestampsConverge(m: Store, files: seq<StatusFile>)
    requires Keyed(m)
    requires forall f, g :: f in files && g in files && Identity(f) == Identity(g) && f.timestamp == g.timestamp
               ==> f == g
    ensures OrderIsNoMatter(m, files)
  {
    ConvergesIffNewestAgree(m, files);
  }

  /** Two different files of one key and one timestamp leave whichever came last. */
  lemma TiesDoNotConverge(f: StatusFile, g: StatusFile)
    requires f != g && Identity(f) == Identity(g) && f.timestamp == g.timestamp
    ensures PutAll(map[], [f, g]) != PutAll(map[], [g, f])
  {
    LastOfTwo(f, g);
    LastOfTwo(g, f);
    assert PutAll(map[], [f, g])[Identity(f)] == g && PutAll(map[], [g, f])[Identity(f)] == f;
  }

  lemma LastOfTwo(f: StatusFile, g: StatusFile)
    requires Identity(f) == Identity(g) && f.timestamp == g.timestamp
    ensures PutAll(map[], [f, g]) == map[Identity(f) := g]
  {
    var empty: Store := map[];
    FoldWithOne(Put, empty, f);
    FoldWithSnoc(Put, empty, [f], g);
    assert [f] + [g] == [f, g];
    assert empty[Identity(f) := f][Identity(f) := g] == map[Identity(f) := g];
  }
}
