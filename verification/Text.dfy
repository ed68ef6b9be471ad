/** String helpers with the meaning Rust's `str` gives them. */
module Text {

  datatype Option<+T> = None | Some(value: T)

  lemma AppendAssoc<T>(a: seq<T>, b: seq<T>, c: seq<T>)
    ensures a + (b + c) == a + b + c
  {
  }

  lemma SplitLast<T>(s: seq<T>)
    requires s != []
    ensures s[..|s| - 1] + [s[|s| - 1]] == s
  {
  }

  /** The Unicode White_Space property, as `char::is_whitespace` tests it. */
  predicate IsWhitespace(c: char) {
    var u := c as int;
    || 0x9 <= u <= 0xD || u == 0x20 || u == 0x85 || u == 0xA0 || u == 0x1680
    || 0x2000 <= u <= 0x200A || u == 0x2028 || u == 0x2029 || u == 0x202F
    || u == 0x205F || u == 0x3000
  }

  /** The 25 white space characters of the Unicode Character Database, one by one. */
  lemma WhitespaceIs(c: char)
    ensures IsWhitespace(c)
       <==> c in ['\t', '\n', '\U{B}', '\U{C}', '\r', ' ', '\U{85}', '\U{A0}', '\U{1680}', '\U{2000}', '\U{2001}',
                  '\U{2002}', '\U{2003}', '\U{2004}', '\U{2005}', '\U{2006}', '\U{2007}', '\U{2008}', '\U{2009}',
                  '\U{200A}', '\U{2028}', '\U{2029}', '\U{202F}', '\U{205F}', '\U{3000}']
  {
  }

  /** The general category Cc, as `char::is_control` tests it. */
  predicate IsControl(c: char) {
    c as int <= 0x1F || 0x7F <= c as int <= 0x9F
  }

  predicate IsDigit(c: char) { '0' <= c <= '9' }

  /** Index of the first `c` in `s`, or `|s|` when there is none. */
  function IndexOf(s: string, c: char): (n: nat)
    ensures n <= |s|
    ensures forall k :: 0 <= k < n ==> s[k] != c
    ensures n < |s| ==> s[n] == c
  {
    if s == "" || s[0] == c then 0 else 1 + IndexOf(s[1..], c)
  }

  lemma IndexOfConcat(a: string, b: string, c: char)
    requires IndexOf(a, c) < |a|
    ensures IndexOf(a + b, c) == IndexOf(a, c)
  {
    var n, m := IndexOf(a, c), IndexOf(a + b, c);
    assert (a + b)[n] == c;
    assert m <= n && (a + b)[m] == a[m];
  }

  /** Index of the last `c` in `s`, or -1 when there is none. */
  function LastIndexOf(s: string, c: char): (n: int)
    ensures -1 <= n < |s|
    ensures forall k :: n < k < |s| ==> s[k] != c
    ensures n >= 0 ==> s[n] == c
  {
    if s == "" then -1
    else if s[|s| - 1] == c then |s| - 1
    else LastIndexOf(s[..|s| - 1], c)
  }

  function TrimStart(s: string): (r: string)
    ensures |r| <= |s|
  {
    if s != "" && IsWhitespace(s[0]) then TrimStart(s[1..]) else s
  }

  function TrimEnd(s: string): (r: string)
    ensures |r| <= |s|
  {
    if s != "" && IsWhitespace(s[|s| - 1]) then TrimEnd(s[..|s| - 1]) else s
  }

  lemma {:induction false} TrimStartMeans(s: string)
    ensures var r := TrimStart(s);
            && r == s[|s| - |r|..]
            && (forall k :: 0 <= k < |s| - |r| ==> IsWhitespace(s[k]))
            && (r != "" ==> !IsWhitespace(r[0]))
  {
    if s != "" && IsWhitespace(s[0]) {
      TrimStartMeans(s[1..]);
      assert forall k :: 1 <= k < |s| ==> s[k] == s[1..][k - 1];
    }
  }

  lemma {:induction false} TrimEndMeans(s: string)
    ensures var r := TrimEnd(s);
            && r == s[..|r|]
            && (forall k :: |r| <= k < |s| ==> IsWhitespace(s[k]))
            && (r != "" ==> !IsWhitespace(r[|r| - 1]))
  {
    if s != "" && IsWhitespace(s[|s| - 1]) {
      TrimEndMeans(s[..|s| - 1]);
      assert forall k :: 0 <= k < |s| - 1 ==> s[k] == s[..|s| - 1][k];
    }
  }

  function Trim(s: string): string { TrimEnd(TrimStart(s)) }

  predicate IsBlank(s: string) { s == "" || (IsWhitespace(s[0]) && IsBlank(s[1..])) }

  lemma {:induction false} BlankMeans(s: string)
    ensures IsBlank(s) <==> forall k :: 0 <= k < |s| ==> IsWhitespace(s[k])
  {
    if s != "" {
      BlankMeans(s[1..]);
      assert forall k :: 0 <= k < |s[1..]| ==> s[1..][k] == s[k + 1];
      assert (forall k :: 0 <= k < |s| ==> IsWhitespace(s[k])) <==>
             IsWhitespace(s[0]) && forall k :: 0 <= k < |s[1..]| ==> IsWhitespace(s[1..][k]) by {
        assert forall k :: 1 <= k < |s| ==> s[k] == s[1..][k - 1];
      }
    }
  }

  lemma Assoc5(a: string, b: string, c: string, d: string, e: string)
    ensures a + b + (c + d + e) == a + b + c + d + e
  {
  }

  /** `s.split('\n')`. */
  function Split(s: string): (parts: seq<string>)
    ensures |parts| >= 1
    decreases |s|
  {
    var n := IndexOf(s, '\n');
    if n == |s| then [s] else [s[..n]] + Split(s[n + 1..])
  }

  /** `parts.join("\n")`. */
  function Join(parts: seq<string>): string {
    if |parts| == 0 then "" else if |parts| == 1 then parts[0]
    else parts[0] + "\n" + Join(parts[1..])
  }

  lemma JoinCons(part: string, rest: seq<string>)
    requires rest != []
    ensures Join([part] + rest) == part + "\n" + Join(rest)
  {
    assert ([part] + rest)[1..] == rest;
  }

  lemma CutAt(s: string, n: nat)
    requires n < |s|
    ensures s == s[..n] + [s[n]] + s[n + 1..]
  {
  }

  lemma {:induction false} JoinOfSplit(s: string)
    ensures Join(Split(s)) == s
    decreases |s|
  {
    var n := IndexOf(s, '\n');
    if n < |s| {
      JoinOfSplit(s[n + 1..]);
      JoinCons(s[..n], Split(s[n + 1..]));
      CutAt(s, n);
    }
  }

  lemma {:induction false} SplitOfJoin(parts: seq<string>)
    requires |parts| >= 1 && forall p :: p in parts ==> '\n' !in p
    ensures Split(Join(parts)) == parts
  {
    var s := Join(parts);
    if |parts| > 1 {
      SplitOfJoin(parts[1..]);
      var n := IndexOf(s, '\n');
      assert s[|parts[0]|] == '\n';
      assert forall k :: 0 <= k < |parts[0]| ==> s[k] == parts[0][k] && parts[0][k] in parts[0];
      assert n == |parts[0]|;
      assert s[n + 1..] == Join(parts[1..]) && s[..n] == parts[0];
    } else {
      assert forall k :: 0 <= k < |s| ==> s[k] in s;
    }
  }

  lemma {:induction false} JoinConcat(a: seq<string>, b: seq<string>)
    requires a != [] && b != []
    ensures Join(a + b) == Join(a) + "\n" + Join(b)
  {
    if |a| == 1 {
      assert (a + b)[1..] == b;
    } else {
      assert (a + b)[1..] == a[1..] + b;
      JoinConcat(a[1..], b);
      assert a[0] + "\n" + (Join(a[1..]) + "\n" + Join(b)) == (a[0] + "\n" + Join(a[1..])) + "\n" + Join(b);
    }
  }

  /** Drop one trailing carriage return. */
  function StripCr(s: string): string {
    if s != "" && s[|s| - 1] == '\r' then s[..|s| - 1] else s
  }

  /** `s.lines()`: a terminated line loses its `\n` or `\r\n`; an unterminated last line is kept as it is. */
  function Lines(s: string): (lines: seq<string>)
    decreases |s|
  {
    if s == "" then [] else
    var n := IndexOf(s, '\n');
    if n == |s| then [s] else [StripCr(s[..n])] + Lines(s[n + 1..])
  }

  lemma LinesOfFirst(a: string, b: string)
    requires IndexOf(a, '\n') < |a|
    ensures var n := IndexOf(a, '\n');
            Lines(a + b) == [StripCr(a[..n])] + Lines(a[n + 1..] + b)
  {
    var n := IndexOf(a, '\n');
    IndexOfConcat(a, b, '\n');
    assert (a + b)[..n] == a[..n] && (a + b)[n + 1..] == a[n + 1..] + b;
  }

  /** A text cut right after a newline has the lines of its two pieces, one after the other. */
  lemma {:induction false} LinesOfConcat(a: string, b: string)
    requires a == "" || a[|a| - 1] == '\n'
    ensures Lines(a + b) == Lines(a) + Lines(b)
    decreases |a|
  {
    if a == "" {
      assert a + b == b;
    } else {
      var n := IndexOf(a, '\n');
      assert n < |a|;
      LinesOfFirst(a, b);
      LinesOfConcat(a[n + 1..], b);
      AppendAssoc([StripCr(a[..n])], Lines(a[n + 1..]), Lines(b));
    }
  }
}
