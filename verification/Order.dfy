/** The order Rust gives strings, and a set of strings listed in it. */
module Order {

  /** Lexicographic order by code point. */
  predicate Less(a: string, b: string) {
    b != "" && (a == "" || a[0] < b[0] || (a[0] == b[0] && Less(a[1..], b[1..])))
  }

  /** `n` is the first difference, and there `a` has ended or holds the smaller character. */
  predicate LessAt(a: string, b: string, n: nat) {
    n < |b| && n <= |a| && a[..n] == b[..n] && (n == |a| || a[n] < b[n])
  }

  lemma LessAtTail(a: string, b: string, n: nat)
    requires a != "" && b != "" && a[0] == b[0]
    ensures LessAt(a, b, n + 1) <==> LessAt(a[1..], b[1..], n)
    ensures !LessAt(a, b, 0)
  {
    if n + 1 <= |a| && n + 1 <= |b| {
      assert a[..n + 1] == [a[0]] + a[1..][..n] && b[..n + 1] == [b[0]] + b[1..][..n];
      assert a[..n + 1] == b[..n + 1] ==> a[1..][..n] == a[..n + 1][1..] == b[..n + 1][1..] == b[1..][..n];
    }
  }

  lemma SameHead(a: string, b: string, n: nat)
    requires 0 < n <= |a| && n <= |b| && a[..n] == b[..n]
    ensures a[0] == b[0]
  {
    assert a[..n][0] == b[..n][0];
  }

  lemma {:induction false} FirstDifferenceDecides(a: string, b: string, n: nat)
    requires LessAt(a, b, n)
    ensures Less(a, b)
    decreases n
  {
    if n > 0 {
      SameHead(a, b, n);
      LessAtTail(a, b, n - 1);
      FirstDifferenceDecides(a[1..], b[1..], n - 1);
    }
  }

  lemma {:induction false} LessHasFirstDifference(a: string, b: string) returns (n: nat)
    requires Less(a, b)
    ensures LessAt(a, b, n)
  {
    n := 0;
    if a != "" && a[0] == b[0] {
      n := LessHasFirstDifference(a[1..], b[1..]);
      LessAtTail(a, b, n);
      n := n + 1;
    }
  }

  lemma LessIffFirstDifference(a: string, b: string)
    ensures Less(a, b) <==> exists n: nat :: LessAt(a, b, n)
  {
    if Less(a, b) {
      var _ := LessHasFirstDifference(a, b);
    }
    if n: nat :| LessAt(a, b, n) {
      FirstDifferenceDecides(a, b, n);
    }
  }

  lemma {:induction false} LessIrreflexive(a: string)
    ensures !Less(a, a)
  {
    if a != "" { LessIrreflexive(a[1..]); }
  }

  lemma {:induction false} LessTransitive(a: string, b: string, c: string)
    requires Less(a, b) && Less(b, c)
    ensures Less(a, c)
  {
    if a != "" && a[0] == b[0] == c[0] { LessTransitive(a[1..], b[1..], c[1..]); }
  }

  lemma {:induction false} LessTotal(a: string, b: string)
    ensures a == b || Less(a, b) || Less(b, a)
  {
    if a != "" && b != "" && a[0] == b[0] {
      LessTotal(a[1..], b[1..]);
      assert a == [a[0]] + a[1..] && b == [b[0]] + b[1..];
    }
  }

  predicate Ascending(keys: seq<string>) { forall i, j :: 0 <= i < j < |keys| ==> Less(keys[i], keys[j]) }

  function Elements(keys: seq<string>): set<string> { set k | k in keys }

  /** Where `k` belongs in an ascending list. */
  function Position(k: string, keys: seq<string>): (n: nat)
    ensures n <= |keys|
    ensures forall i :: 0 <= i < n ==> Less(keys[i], k)
    ensures n < |keys| ==> !Less(keys[n], k)
  {
    if keys == [] || !Less(keys[0], k) then 0 else 1 + Position(k, keys[1..])
  }

  function Insert(k: string, keys: seq<string>): seq<string> {
    keys[..Position(k, keys)] + [k] + keys[Position(k, keys)..]
  }

  lemma InsertedIsAscending(keys: seq<string>, n: nat, k: string)
    requires Ascending(keys) && n <= |keys|
    requires forall i :: 0 <= i < n ==> Less(keys[i], k)
    requires forall i :: n <= i < |keys| ==> Less(k, keys[i])
    ensures Ascending(keys[..n] + [k] + keys[n..])
  {
    var r := keys[..n] + [k] + keys[n..];
    forall i, j | 0 <= i < j < |r| ensures Less(r[i], r[j]) {
      if i < n < j {
        assert r[i] == keys[i] && r[j] == keys[j - 1];
      }
    }
  }

  lemma InsertedElements(keys: seq<string>, n: nat, k: string)
    requires n <= |keys|
    ensures Elements(keys[..n] + [k] + keys[n..]) == Elements(keys) + {k}
  {
    assert keys == keys[..n] + keys[n..];
  }

  lemma InsertKeepsOrder(k: string, keys: seq<string>)
    requires Ascending(keys) && k !in keys
    ensures Ascending(Insert(k, keys)) && Elements(Insert(k, keys)) == Elements(keys) + {k}
  {
    var n := Position(k, keys);
    forall i | n <= i < |keys| ensures Less(k, keys[i]) {
      LessTotal(k, keys[n]);
      assert keys[n] in keys;
      if n < i { LessTransitive(k, keys[n], keys[i]); }
    }
    InsertedIsAscending(keys, n, k);
    InsertedElements(keys, n, k);
  }

  method SortKeys(s: set<string>) returns (keys: seq<string>)
    ensures Ascending(keys) && Elements(keys) == s
  {
    keys := [];
    var rest := s;
    while rest != {}
      invariant rest <= s && Ascending(keys) && Elements(keys) == s - rest
      decreases rest
    {
      var k :| k in rest;
      assert k !in Elements(keys);
      InsertKeepsOrder(k, keys);
      keys := Insert(k, keys);
      rest := rest - {k};
    }
  }

  /** A set has one ascending listing. */
  lemma {:induction false} AscendingUnique(a: seq<string>, b: seq<string>)
    requires Ascending(a) && Ascending(b) && Elements(a) == Elements(b)
    ensures a == b
  {
    if a == [] {
      assert forall i :: 0 <= i < |b| ==> b[i] in Elements(b);
    } else {
      assert a[0] in Elements(b);
      var j :| 0 <= j < |b| && b[j] == a[0];
      assert b[0] in Elements(a);
      var i :| 0 <= i < |a| && a[i] == b[0];
      HeadsAgree(a, b, i, j);
      TailElements(a);
      TailElements(b);
      AscendingUnique(a[1..], b[1..]);
    }
  }

  lemma HeadsAgree(a: seq<string>, b: seq<string>, i: nat, j: nat)
    requires Ascending(a) && Ascending(b) && i < |a| && j < |b| && b[j] == a[0] && a[i] == b[0]
    ensures a[0] == b[0]
  {
    if i > 0 && j > 0 {
      LessTransitive(a[0], a[i], b[j]);
      LessIrreflexive(a[0]);
    }
  }

  lemma TailElements(a: seq<string>)
    requires a != [] && Ascending(a)
    ensures Elements(a[1..]) == Elements(a) - {a[0]} && Ascending(a[1..])
  {
    LessIrreflexive(a[0]);
    assert a == [a[0]] + a[1..];
    forall i | 1 <= i < |a| ensures a[i] != a[0] {
      assert Less(a[0], a[i]);
    }
  }
}
