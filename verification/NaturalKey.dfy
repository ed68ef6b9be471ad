/** The natural order of question fields: numbers inside keys compare as numbers. */
module NaturalKey {
  import opened Digits
  import opened Order
  import opened StableSort
  import opened Text

  const U64_MAX: nat := 0xFFFF_FFFF_FFFF_FFFF

  type Part = (string, nat)

  /** `parse::<u64>().unwrap_or(u64::MAX)` of a run of digits. */
  function Saturated(digits: string): (n: nat)
    requires AllDigits(digits)
    ensures n <= U64_MAX && (n < U64_MAX ==> n == ValueOf(digits))
  {
    if ValueOf(digits) <= U64_MAX then ValueOf(digits) else U64_MAX
  }

  predicate NoDigits(s: string) { forall k :: 0 <= k < |s| ==> !IsDigit(s[k]) }

  /** How many digits, or how many characters that are not, `s` begins with. */
  function Run(s: string, digits: bool): (n: nat)
    ensures n <= |s|
    ensures forall k :: 0 <= k < n ==> (IsDigit(s[k]) <==> digits)
    ensures n < |s| ==> (IsDigit(s[n]) <==> !digits)
  {
    if s == "" || IsDigit(s[0]) != digits then 0 else 1 + Run(s[1..], digits)
  }

  lemma RunIs(a: string, b: string, digits: bool)
    requires forall k :: 0 <= k < |a| ==> (IsDigit(a[k]) <==> digits)
    requires b != "" ==> (IsDigit(b[0]) <==> !digits)
    ensures Run(a + b, digits) == |a|
  {
    assert forall k :: 0 <= k < |a| ==> (a + b)[k] == a[k];
    assert b != "" ==> (a + b)[|a|] == b[0];
  }

  /** A key as alternating text and number, from the left; a last part without a number counts as zero. */
  function Key(s: string): seq<Part>
    decreases |s|
  {
    var t := Run(s, false);
    var d := Run(s[t..], true);
    var part := (s[..t], Saturated(s[t..][..d]));
    var rest := s[t..][d..];
    if rest == "" then [part] else [part] + Key(rest)
  }

  /** One part, given its text and digits. */
  lemma KeyOf(text: string, digits: string, rest: string)
    requires NoDigits(text) && AllDigits(digits)
    requires rest != "" ==> !IsDigit(rest[0]) && digits != ""
    ensures Key(text + digits + rest)
         == [(text, Saturated(digits))] + if rest == "" then [] else Key(rest)
  {
    var s := text + digits + rest;
    AppendAssoc(text, digits, rest);
    RunIs(text, digits + rest, false);
    assert s[..|text|] == text && s[|text|..] == digits + rest;
    RunIs(digits, rest, true);
    assert (digits + rest)[..|digits|] == digits && (digits + rest)[|digits|..] == rest;
  }

  /** What is still to come, with a text and digits already read of its first part. */
  function Pending(text: string, digits: string, rest: string): seq<Part> { Key(text + digits + rest) }

  lemma ReadDigit(text: string, digits: string, key: string, i: nat)
    requires i < |key|
    ensures Pending(text, digits, key[i..]) == Pending(text, digits + [key[i]], key[i + 1..])
  {
    assert text + digits + key[i..] == text + (digits + [key[i]]) + key[i + 1..];
  }

  lemma ReadText(text: string, digits: string, key: string, i: nat)
    requires i < |key| && digits == ""
    ensures Pending(text, digits, key[i..]) == Pending(text + [key[i]], digits, key[i + 1..])
  {
    assert text + digits + key[i..] == (text + [key[i]]) + digits + key[i + 1..];
  }

  lemma ReadPart(text: string, digits: string, rest: string, none: string)
    requires NoDigits(text) && AllDigits(digits) && digits != "" && none == ""
    requires rest != "" && !IsDigit(rest[0])
    ensures Pending(text, digits, rest) == [(text, Saturated(digits))] + Pending(none, none, rest)
  {
    KeyOf(text, digits, rest);
    assert none + none + rest == rest;
  }

  lemma ReadToEnd(text: string, digits: string, rest: string)
    requires NoDigits(text) && AllDigits(digits) && rest == ""
    ensures Pending(text, digits, rest) == [(text, if digits == "" then 0 else Saturated(digits))]
  {
    KeyOf(text, digits, rest);
  }

  lemma NothingRead(none: string, key: string)
    requires none == ""
    ensures Pending(none, none, key[0..]) == Key(key)
  {
    assert none + none + key[0..] == key;
  }

  /** What reading one character makes of the parts so far and the text and digits of the next. */
  datatype Reading = Reading(parts: seq<Part>, text: string, digits: string) {
    predicate Valid() { NoDigits(text) && AllDigits(digits) }

    function Read(c: char): (r: Reading)
      requires Valid()
      ensures r.Valid()
    {
      if IsDigit(c) then Reading(parts, text, digits + [c])
      else if digits != "" then Reading(parts + [(text, Saturated(digits))], [c], [])
      else Reading(parts, text + [c], digits)
    }

    function Whole(rest: string): seq<Part> { parts + Pending(text, digits, rest) }
  }

  lemma ReadKeepsWhole(r: Reading, key: string, i: nat)
    requires i < |key| && r.Valid()
    ensures r.Read(key[i]).Whole(key[i + 1..]) == r.Whole(key[i..])
  {
    if IsDigit(key[i]) {
      ReadDigit(r.text, r.digits, key, i);
    } else if r.digits != "" {
      var none: string := [];
      ReadPart(r.text, r.digits, key[i..], none);
      AppendAssoc(r.parts, [(r.text, Saturated(r.digits))], Pending(none, none, key[i..]));
      ReadText(none, none, key, i);
      assert none + [key[i]] == [key[i]];
    } else {
      ReadText(r.text, r.digits, key, i);
    }
  }

  lemma {:induction false} ReadOn(r: Reading, key: string, i: nat) returns (last: Reading)
    requires i <= |key| && r.Valid()
    ensures last.Valid() && last == ReadAll(r, key[i..])
    ensures r.Whole(key[i..]) == last.parts + [(last.text, if last.digits == "" then 0 else Saturated(last.digits))]
    decreases |key| - i
  {
    if i == |key| {
      last := r;
      ReadToEnd(r.text, r.digits, key[i..]);
    } else {
      last := ReadOn(r.Read(key[i]), key, i + 1);
      ReadKeepsWhole(r, key, i);
      assert key[i..][1..] == key[i + 1..];
    }
  }

  function ReadAll(r: Reading, s: string): (last: Reading)
    requires r.Valid()
    ensures last.Valid()
    decreases |s|
  {
    if s == "" then r else ReadAll(r.Read(s[0]), s[1..])
  }

  lemma ReadsTheKey(key: string)
    ensures var last := ReadAll(Reading([], [], []), key);
            Key(key) == last.parts + [(last.text, if last.digits == "" then 0 else Saturated(last.digits))]
  {
    var none: string := [];
    NothingRead(none, key);
    var _ := ReadOn(Reading([], none, none), key, 0);
    assert key[0..] == key;
  }

  method KeyParts(key: string) returns (parts: seq<Part>)
    ensures parts == Key(key)
  {
    parts := [];
    var text: string, digits: string := [], [];
    for i := 0 to |key|
      invariant NoDigits(text) && AllDigits(digits)
      invariant ReadAll(Reading(parts, text, digits), key[i..]) == ReadAll(Reading([], [], []), key)
    {
      var c := key[i];
      assert key[i..][1..] == key[i + 1..];
      if IsDigit(c) {
        digits := digits + [c];
      } else {
        if digits != "" {
          parts := parts + [(text, Saturated(digits))];
          text, digits := [], [];
          assert text + [c] == [c];
        }
        text := text + [c];
      }
    }
    var tail := if digits == "" then 0 else Saturated(digits);
    parts := parts + [(text, tail)];
    ReadsTheKey(key);
  }

  // The order of keys.

  predicate PartLess(a: Part, b: Part) { Less(a.0, b.0) || (a.0 == b.0 && a.1 < b.1) }

  predicate KeyLess(a: seq<Part>, b: seq<Part>) {
    b != [] && (a == [] || PartLess(a[0], b[0]) || (a[0] == b[0] && KeyLess(a[1..], b[1..])))
  }

  lemma {:induction false} KeyLessIrreflexive(a: seq<Part>)
    ensures !KeyLess(a, a)
  {
    if a != [] {
      LessIrreflexive(a[0].0);
      KeyLessIrreflexive(a[1..]);
    }
  }

  lemma PartLessTransitive(a: Part, b: Part, c: Part)
    requires PartLess(a, b) && PartLess(b, c)
    ensures PartLess(a, c)
  {
    if Less(a.0, b.0) && Less(b.0, c.0) { LessTransitive(a.0, b.0, c.0); }
  }

  lemma {:induction false} KeyLessTransitive(a: seq<Part>, b: seq<Part>, c: seq<Part>)
    requires KeyLess(a, b) && KeyLess(b, c)
    ensures KeyLess(a, c)
  {
    if a != [] {
      if PartLess(a[0], b[0]) && PartLess(b[0], c[0]) {
        PartLessTransitive(a[0], b[0], c[0]);
      } else if a[0] == b[0] == c[0] && !PartLess(a[0], c[0]) {
        LessIrreflexive(a[0].0);
        KeyLessTransitive(a[1..], b[1..], c[1..]);
      }
    }
  }

  lemma {:induction false} KeyLessTotal(a: seq<Part>, b: seq<Part>)
    ensures a == b || KeyLess(a, b) || KeyLess(b, a)
  {
    if a != [] && b != [] {
      LessTotal(a[0].0, b[0].0);
      if a[0] == b[0] {
        KeyLessTotal(a[1..], b[1..]);
        assert a == [a[0]] + a[1..] && b == [b[0]] + b[1..];
      }
    }
  }

  lemma {:induction false} KeyLessAfter(common: seq<Part>, a: seq<Part>, b: seq<Part>)
    ensures KeyLess(common + a, common + b) <==> KeyLess(a, b)
  {
    if common == [] {
      assert common + a == a && common + b == b;
    } else {
      assert (common + a)[1..] == common[1..] + a && (common + b)[1..] == common[1..] + b;
      LessIrreflexive(common[0].0);
      KeyLessAfter(common[1..], a, b);
    }
  }

  // Numbers compare as numbers.

  /** Empty, or not ending in a digit: what a number can follow. */
  predicate EndsBeforeNumber(prefix: string) { prefix == "" || !IsDigit(prefix[|prefix| - 1]) }

  predicate IsNumeral(s: string) { s != "" && AllDigits(s) }

  /** Empty, or not beginning with a digit: what can follow a number. */
  predicate BeginsAfterNumber(suffix: string) { suffix == "" || !IsDigit(suffix[0]) }

  /** The parts before a number that follows `prefix`, and the text of its own part. */
  function Before(prefix: string): seq<Part> { Key(prefix)[..|Key(prefix)| - 1] }

  function TextBefore(prefix: string): string { Key(prefix)[|Key(prefix)| - 1].0 }

  function After(suffix: string): seq<Part> { if suffix == "" then [] else Key(suffix) }

  lemma FirstPart(prefix: string) returns (text: string, digits: string, rest: string)
    requires EndsBeforeNumber(prefix) && !NoDigits(prefix)
    ensures prefix == text + digits + rest && |rest| < |prefix|
    ensures NoDigits(text) && IsNumeral(digits) && rest != "" && !IsDigit(rest[0]) && EndsBeforeNumber(rest)
  {
    var t := Run(prefix, false);
    var d := Run(prefix[t..], true);
    text, digits, rest := prefix[..t], prefix[t..][..d], prefix[t..][d..];
    assert d > 0 && prefix[t..][d - 1] == prefix[t + d - 1] && |rest| == |prefix| - t - d;
    assert rest[|rest| - 1] == prefix[|prefix| - 1];
  }

  lemma KeyAfterNoDigits(prefix: string, numeral: string, suffix: string, none: string)
    requires NoDigits(prefix) && IsNumeral(numeral) && BeginsAfterNumber(suffix) && none == ""
    ensures Key(prefix + numeral + suffix) == [(prefix, Saturated(numeral))] + After(suffix)
    ensures Key(prefix) == [(prefix, 0)]
  {
    KeyOf(prefix, numeral, suffix);
    KeyOf(prefix, none, none);
    assert prefix + none + none == prefix;
  }

  lemma KeyAfterPart(text: string, digits: string, rest: string, more: string)
    requires NoDigits(text) && IsNumeral(digits) && rest != "" && !IsDigit(rest[0])
    ensures Key(text + digits + rest) == [(text, Saturated(digits))] + Key(rest)
    ensures Key(text + digits + rest + more) == [(text, Saturated(digits))] + Key(rest + more)
  {
    KeyOf(text, digits, rest);
    KeyOf(text, digits, rest + more);
    AppendAssoc(text + digits, rest, more);
  }

  lemma {:induction false} KeySplitsAtNumber(prefix: string, numeral: string, suffix: string)
    requires EndsBeforeNumber(prefix) && IsNumeral(numeral) && BeginsAfterNumber(suffix)
    ensures Key(prefix + (numeral + suffix))
         == Before(prefix) + ([(TextBefore(prefix), Saturated(numeral))] + After(suffix))
    decreases |prefix|
  {
    if NoDigits(prefix) {
      AppendAssoc(prefix, numeral, suffix);
      KeyAfterNoDigits(prefix, numeral, suffix, []);
    } else {
      var text, digits, rest := FirstPart(prefix);
      var part := (text, Saturated(digits));
      KeySplitsAtNumber(rest, numeral, suffix);
      KeyAfterPart(text, digits, rest, numeral + suffix);
      AppendAssoc([part], Before(rest), [(TextBefore(rest), Saturated(numeral))] + After(suffix));
      BeforeCons(part, Key(rest));
    }
  }

  lemma BeforeCons(part: Part, key: seq<Part>)
    requires key != []
    ensures ([part] + key)[..|key|] == [part] + key[..|key| - 1] && ([part] + key)[|key|] == key[|key| - 1]
  {
  }

  /** A key as the parts before its number, the number's own part, and the parts after. */
  ghost predicate HasNumber(key: seq<Part>, before: seq<Part>, text: string, n: nat, after: seq<Part>) {
    key == before + ([(text, n)] + after)
  }

  lemma KeyAtNumber(prefix: string, numeral: string, suffix: string)
    requires EndsBeforeNumber(prefix) && IsNumeral(numeral) && BeginsAfterNumber(suffix)
    ensures HasNumber(Key(prefix + numeral + suffix), Before(prefix), TextBefore(prefix),
                      Saturated(numeral), After(suffix))
  {
    KeySplitsAtNumber(prefix, numeral, suffix);
    AppendAssoc(prefix, numeral, suffix);
  }

  lemma NumberDecides(
      a: seq<Part>, b: seq<Part>, before: seq<Part>, text: string, m: nat, n: nat, u: seq<Part>, v: seq<Part>)
    requires HasNumber(a, before, text, m, u) && HasNumber(b, before, text, n, v)
    ensures m < n ==> KeyLess(a, b)
    ensures m > n || (m == n && u == v) ==> !KeyLess(a, b)
  {
    KeyLessAfter(before, [(text, m)] + u, [(text, n)] + v);
    LessIrreflexive(text);
    KeyLessIrreflexive(u);
  }

  /**
   * After one prefix, and whatever follows, the key with the smaller number comes first; a smaller
   * number counts as such up to the largest `u64`.
   */
  lemma NumbersInOrder(prefix: string, m: string, n: string, u: string, v: string)
    requires EndsBeforeNumber(prefix) && IsNumeral(m) && IsNumeral(n) && BeginsAfterNumber(u) && BeginsAfterNumber(v)
    requires ValueOf(m) < ValueOf(n) && ValueOf(m) < U64_MAX
    ensures KeyLess(Key(prefix + m + u), Key(prefix + n + v))
  {
    KeyAtNumber(prefix, m, u);
    KeyAtNumber(prefix, n, v);
    NumberDecides(
      Key(prefix + m + u), Key(prefix + n + v), Before(prefix), TextBefore(prefix),
      Saturated(m), Saturated(n), After(u), After(v));
  }

  /** Two keys that differ in one number are ordered exactly as that number, unless both overflow `u64`. */
  lemma NumericOrderIff(prefix: string, m: string, n: string, suffix: string)
    requires EndsBeforeNumber(prefix) && IsNumeral(m) && IsNumeral(n) && BeginsAfterNumber(suffix)
    ensures KeyLess(Key(prefix + m + suffix), Key(prefix + n + suffix))
         <==> ValueOf(m) < ValueOf(n) && ValueOf(m) < 0xFFFF_FFFF_FFFF_FFFF
  {
    KeyAtNumber(prefix, m, suffix);
    KeyAtNumber(prefix, n, suffix);
    NumberDecides(
      Key(prefix + m + suffix), Key(prefix + n + suffix), Before(prefix), TextBefore(prefix),
      Saturated(m), Saturated(n),
      After(suffix), After(suffix));
  }

  /** Keys that differ in the text after one number, or have no number, are ordered as their texts. */
  lemma TextsInOrder(prefix: string, numeral: string, u: string, v: string)
    requires EndsBeforeNumber(prefix) && IsNumeral(numeral) && NoDigits(u) && NoDigits(v)
    ensures KeyLess(Key(u), Key(v)) <==> Less(u, v)
    ensures KeyLess(Key(prefix + numeral + u), Key(prefix + numeral + v)) <==> Less(u, v)
  {
    KeyOfText(u, []);
    KeyOfText(v, []);
    KeyLessOfTexts(u, v);
    KeyAtNumber(prefix, numeral, u);
    KeyAtNumber(prefix, numeral, v);
    var part := (TextBefore(prefix), Saturated(numeral));
    KeyLessAfter(Before(prefix), [part] + After(u), [part] + After(v));
    KeyLessAfter([part], After(u), After(v));
  }

  lemma KeyOfText(text: string, none: string)
    requires NoDigits(text) && none == ""
    ensures Key(text) == [(text, 0)]
  {
    KeyOf(text, none, none);
    assert text + none + none == text;
  }

  lemma KeyLessOfTexts(u: string, v: string)
    ensures KeyLess([(u, 0)], [(v, 0)]) <==> Less(u, v)
  {
    LessIrreflexive(u);
    assert [(u, 0)][1..] == [] && [(v, 0)][1..] == [];
  }

  /** As numbers are printed: `question_2` before `question_10`. */
  lemma PrintedNumbersInOrder(prefix: string, m: nat, n: nat, u: string, v: string)
    requires EndsBeforeNumber(prefix) && BeginsAfterNumber(u) && BeginsAfterNumber(v) && m < n && m < U64_MAX
    ensures KeyLess(Key(prefix + Decimal(m) + u), Key(prefix + Decimal(n) + v))
  {
    DecimalReadsBack(m);
    DecimalReadsBack(n);
    NumbersInOrder(prefix, Decimal(m), Decimal(n), u, v);
  }

  // The order of fields.

  /** `rest` stands for what the order never looks at. */
  datatype Field = Field(key: string, rest: string)

  function KeyOfField(f: Field): seq<Part> { Key(f.key) }

  lemma KeysAreOrdered()
    ensures StrictTotalOrder(KeyLess)
  {
    forall a ensures !KeyLess(a, a) { KeyLessIrreflexive(a); }
    forall a, b, c | KeyLess(a, b) && KeyLess(b, c) ensures KeyLess(a, c) { KeyLessTransitive(a, b, c); }
    forall a, b ensures a == b || KeyLess(a, b) || KeyLess(b, a) { KeyLessTotal(a, b); }
  }

  /** `sort_by_key(natural_key)`: the standard library's sort is stable, and there is one stable order. */
  function Ordered(fields: seq<Field>): seq<Field> { Sorted(fields, KeyOfField, KeyLess) }

  /**
   * The fields of a form, reordered: the same fields, naturally ordered, equals in the order
   * given; and no other list is.
   */
  lemma OrderedIsTheStableSort(fields: seq<Field>, out: seq<Field>)
    ensures out == Ordered(fields)
            <==> InOrder(out, KeyOfField, KeyLess) && StableRearrangement(fields, out, KeyOfField)
  {
    KeysAreOrdered();
    SortedIsStable(fields, KeyOfField, KeyLess);
    if InOrder(out, KeyOfField, KeyLess) && StableRearrangement(fields, out, KeyOfField) {
      StableSortUnique(out, Ordered(fields), KeyOfField, KeyLess);
    }
  }

  /** A field with a smaller key comes out earlier. */
  lemma SmallerKeyFirst(fields: seq<Field>, i: nat, j: nat)
    requires i < |Ordered(fields)| && j < |Ordered(fields)|
    requires KeyLess(KeyOfField(Ordered(fields)[i]), KeyOfField(Ordered(fields)[j]))
    ensures i < j
  {
    KeysAreOrdered();
    SortedIsStable(fields, KeyOfField, KeyLess);
    if j < i { NeverBackwards(Ordered(fields), KeyOfField, KeyLess, j, i); }
  }

  /** Fields that differ only in a number come out in the order of their numbers. */
  lemma FormReadsInOrder(fields: seq<Field>, prefix: string, m: nat, n: nat, suffix: string, i: nat, j: nat)
    requires EndsBeforeNumber(prefix) && BeginsAfterNumber(suffix) && m < n && m < U64_MAX
    requires i < |Ordered(fields)| && j < |Ordered(fields)|
    requires Ordered(fields)[i].key == prefix + Decimal(m) + suffix
    requires Ordered(fields)[j].key == prefix + Decimal(n) + suffix
    ensures i < j
  {
    PrintedNumbersInOrder(prefix, m, n, suffix, suffix);
    SmallerKeyFirst(fields, i, j);
  }
}
