/**
 * Code-fence and line-number unwrapping: `output_highlight.rs`, and its mirrored
 * classifier in `output_editor.rs`.
 */
module Fences {
  import opened Text

  const MIN_FENCE_TICKS: nat := 3
  const ARROW: char := '\U{2192}'

  function BacktickRun(line: string): (n: nat)
    ensures n <= |line|
    ensures forall k :: 0 <= k < n ==> line[k] == '`'
    ensures n < |line| ==> line[n] != '`'
  {
    if line == "" || line[0] != '`' then 0 else 1 + BacktickRun(line[1..])
  }

  predicate IsClosingFence(line: string, openTicks: nat) {
    var run := BacktickRun(line);
    run >= openTicks && run == |TrimEnd(line)|
  }

  /** A body line whose own run reaches the opener's makes the block ambiguous. */
  predicate ReachesFence(body: string, ticks: nat) { AnyReaches(Lines(body), ticks) }

  predicate AnyReaches(lines: seq<string>, ticks: nat) {
    lines != [] && (BacktickRun(lines[0]) >= ticks || AnyReaches(lines[1..], ticks))
  }

  /** The body between the opener and the closer, or all of `rest` when truncation waives the closer. */
  function FenceBody(rest: string, ticks: nat, truncated: bool): Option<string> {
    var cut := LastIndexOf(rest, '\n');
    var body :=
      if cut >= 0 && IsClosingFence(rest[cut + 1..], ticks) then Some(rest[..cut])
      else if truncated then Some(rest)
      else None;
    if body.Some? && !ReachesFence(body.value, ticks) then body else None
  }

  function UnwrapFence(text: string, truncated: bool): Option<string> {
    var cut := IndexOf(text, '\n');
    if cut == |text| then None
    else
      match BareOpen(text[..cut])
      case None => None
      case Some(ticks) => FenceBody(text[cut + 1..], ticks, truncated)
  }

  /** The run of a line that is nothing but an opening fence. */
  function BareOpen(line: string): Option<nat> {
    var ticks := BacktickRun(line);
    if ticks < MIN_FENCE_TICKS || ticks != |TrimEnd(line)| then None else Some(ticks)
  }

  /** `line.split_whitespace().next()`. */
  function FirstWord(line: string): Option<string> {
    var s := TrimStart(line);
    if s == "" then None else Some(WordPrefix(s))
  }

  function WordPrefix(s: string): string {
    if s == "" || IsWhitespace(s[0]) then "" else [s[0]] + WordPrefix(s[1..])
  }

  function FenceOpen(line: string): Option<(nat, Option<string>)> {
    var ticks := BacktickRun(line);
    if ticks < MIN_FENCE_TICKS then None else Some((ticks, FirstWord(line[ticks..])))
  }

  function SingleFencedBlock(text: string, truncated: bool): Option<(string, Option<string>)> {
    var cut := IndexOf(text, '\n');
    if cut == |text| then None
    else
      match FenceOpen(text[..cut])
      case None => None
      case Some((ticks, tag)) =>
        match FenceBody(text[cut + 1..], ticks, truncated)
        case None => None
        case Some(body) => Some((body, tag))
  }

  // The two classifiers agree.

  lemma TrimmedToRun(line: string)
    requires BacktickRun(line) == |TrimEnd(line)|
    ensures IsBlank(line[BacktickRun(line)..])
  {
    var rest := line[BacktickRun(line)..];
    BlankMeans(rest);
    TrimEndMeans(line);
  }

  lemma BlankPrefix(s: string, t: string)
    requires IsBlank(s) && t <= s
    ensures IsBlank(t)
  {
    BlankMeans(s);
    BlankMeans(t);
    assert forall k :: 0 <= k < |t| ==> t[k] == s[k];
  }

  lemma {:induction false} TrimsBlankEnd(text: string, end: string)
    requires IsBlank(end) && (text == "" || !IsWhitespace(text[|text| - 1]))
    ensures TrimEnd(text + end) == text
  {
    if end == "" {
      assert text + end == text;
    } else {
      var n := |end| - 1;
      BlankMeans(end);
      BlankPrefix(end, end[..n]);
      TrimsBlankEnd(text, end[..n]);
      assert (text + end)[..|text| + n] == text + end[..n];
    }
  }

  lemma BlankAfterRun(line: string)
    requires IsBlank(line[BacktickRun(line)..])
    ensures BacktickRun(line) == |TrimEnd(line)|
  {
    var n := BacktickRun(line);
    var run, rest := line[..n], line[n..];
    assert line == run + rest && |run| == n;
    assert n > 0 ==> run[n - 1] == '`';
    TrimsBlankEnd(run, rest);
  }

  lemma BareOpenerHasNoTag(line: string)
    ensures FirstWord(line[BacktickRun(line)..]) == None <==> BacktickRun(line) == |TrimEnd(line)|
  {
    var rest := line[BacktickRun(line)..];
    if IsBlank(rest) {
      BlankAfterRun(line);
    }
    if BacktickRun(line) == |TrimEnd(line)| {
      TrimmedToRun(line);
    }
    TrimStartMeans(rest);
    BlankMeans(rest);
    var s := TrimStart(rest);
    assert s != "" ==> s[0] == rest[|rest| - |s|];
  }

  lemma BareOpenIsUntagged(line: string)
    ensures BareOpen(line) == match FenceOpen(line) { case Some((ticks, None)) => Some(ticks) case _ => None }
  {
    BareOpenerHasNoTag(line);
  }

  /**
   * One text, two readers: the body is unwrapped exactly when the classifier sees the same body
   * and no language tag.
   */
  lemma ClassifiersAgree(text: string, truncated: bool, body: string)
    ensures UnwrapFence(text, truncated) == Some(body) <==> SingleFencedBlock(text, truncated) == Some((body, None))
  {
    BareOpenIsUntagged(text[..IndexOf(text, '\n')]);
  }

  /** A line that opens a bare fence of `ticks` backticks. */
  predicate IsBareOpener(line: string, ticks: nat) {
    '\n' !in line && ticks >= MIN_FENCE_TICKS && BacktickRun(line) == ticks == |TrimEnd(line)|
  }

  predicate IsFenced(text: string, open: string, body: string, close: string) {
    && text == open + "\n" + body + "\n" + close
    && IsBareOpener(open, BacktickRun(open))
    && '\n' !in close && IsClosingFence(close, BacktickRun(open))
    && !ReachesFence(body, BacktickRun(open))
  }

  lemma UnwrapOfOpener(open: string, rest: string, truncated: bool)
    requires IsBareOpener(open, BacktickRun(open))
    ensures UnwrapFence(open + "\n" + rest, truncated) == FenceBody(rest, BacktickRun(open), truncated)
  {
    IndexAfter(open, rest);
  }

  lemma FenceBodyOfCloser(body: string, close: string, ticks: nat, truncated: bool)
    requires '\n' !in close && IsClosingFence(close, ticks) && !ReachesFence(body, ticks)
    ensures FenceBody(body + "\n" + close, ticks, truncated) == Some(body)
  {
    LastIndexBefore(body, close);
  }

  lemma FencedUnwraps(text: string, open: string, body: string, close: string, truncated: bool)
    requires IsFenced(text, open, body, close)
    ensures UnwrapFence(text, truncated) == Some(body)
  {
    var rest := body + "\n" + close;
    Assoc5(open, "\n", body, "\n", close);
    UnwrapOfOpener(open, rest, truncated);
    FenceBodyOfCloser(body, close, BacktickRun(open), truncated);
  }

  lemma IndexAfter(open: string, rest: string)
    requires '\n' !in open
    ensures var text := open + "\n" + rest;
            IndexOf(text, '\n') == |open| && text[..|open|] == open && text[|open| + 1..] == rest
  {
    var text := open + "\n" + rest;
    assert text[|open|] == '\n';
    assert forall k :: 0 <= k < |open| ==> text[k] == open[k] && open[k] in open;
  }

  lemma LastIndexBefore(body: string, close: string)
    requires '\n' !in close
    ensures var rest := body + "\n" + close;
            LastIndexOf(rest, '\n') == |body| && rest[..|body|] == body && rest[|body| + 1..] == close
  {
    var rest := body + "\n" + close;
    assert rest[|body|] == '\n';
    assert forall k :: |body| < k < |rest| ==> rest[k] == close[k - |body| - 1] && rest[k] in close;
  }

  lemma OpenerOfUnwrapped(text: string, truncated: bool) returns (open: string, rest: string)
    requires UnwrapFence(text, truncated).Some?
    ensures text == open + "\n" + rest && IsBareOpener(open, BacktickRun(open))
    ensures UnwrapFence(text, truncated) == FenceBody(rest, BacktickRun(open), truncated)
  {
    var cut := IndexOf(text, '\n');
    open, rest := text[..cut], text[cut + 1..];
    CutAt(text, cut);
  }

  lemma CloserOfBody(rest: string, ticks: nat, body: string) returns (close: string)
    requires FenceBody(rest, ticks, false) == Some(body)
    ensures rest == body + "\n" + close && '\n' !in close && IsClosingFence(close, ticks) && !ReachesFence(body, ticks)
  {
    var cut := LastIndexOf(rest, '\n');
    close := rest[cut + 1..];
    CutAt(rest, cut);
  }

  /**
   * An untruncated text unwraps to `body` exactly when it is one bare opener, `body`, and one
   * closer, joined by newlines.
   */
  lemma UnwrapsIffFenced(text: string, body: string)
    ensures UnwrapFence(text, false) == Some(body) <==> exists open, close :: IsFenced(text, open, body, close)
  {
    if UnwrapFence(text, false) == Some(body) {
      var open, rest := OpenerOfUnwrapped(text, false);
      var close := CloserOfBody(rest, BacktickRun(open), body);
      Assoc5(open, "\n", body, "\n", close);
      assert IsFenced(text, open, body, close);
    }
    if open, close :| IsFenced(text, open, body, close) {
      FencedUnwraps(text, open, body, close, false);
    }
  }

  // The same in characters.

  function Ticks(n: nat): string { seq(n, _ => '`') }

  lemma RunIsTicks(line: string, n: nat)
    ensures BacktickRun(line) == n <==> n <= |line| && line[..n] == Ticks(n) && (n < |line| ==> line[n] != '`')
    ensures BacktickRun(line) >= n <==> Ticks(n) <= line
  {
    var run := BacktickRun(line);
    assert line[..run] == Ticks(run);
    if Ticks(n) <= line {
      assert forall k :: 0 <= k < n ==> line[k] == Ticks(n)[k];
    }
    if n <= run {
      assert line[..n] == Ticks(n);
    }
  }

  /** A run of `n` backticks and nothing after it but white space. */
  predicate IsTicksOnly(line: string, n: nat) {
    Ticks(n) <= line && forall k :: n <= k < |line| ==> IsWhitespace(line[k])
  }

  lemma TicksOnlyIs(line: string, n: nat)
    ensures IsTicksOnly(line, n) <==> BacktickRun(line) == n == |TrimEnd(line)|
  {
    RunIsTicks(line, n);
    TrimEndMeans(line);
    if IsTicksOnly(line, n) {
      assert n < |line| ==> IsWhitespace(line[n]);
      BlankMeans(line[n..]);
      BlankAfterRun(line);
    }
  }

  lemma {:induction false} ReachesMeans(lines: seq<string>, n: nat)
    ensures AnyReaches(lines, n) <==> exists k :: 0 <= k < |lines| && Ticks(n) <= lines[k]
  {
    if lines != [] {
      RunIsTicks(lines[0], n);
      ReachesMeans(lines[1..], n);
      assert forall k :: 0 <= k < |lines[1..]| ==> lines[1..][k] == lines[k + 1];
    }
  }

  /** One fenced block and nothing else: at least three backticks, the body, at least as many again. */
  ghost predicate IsOneBlock(text: string, open: string, n: nat, body: string, close: string, m: nat) {
    && text == open + "\n" + body + "\n" + close && '\n' !in open && '\n' !in close
    && n >= 3 && IsTicksOnly(open, n)
    && m >= n && IsTicksOnly(close, m)
    && forall k :: 0 <= k < |Lines(body)| ==> !(Ticks(n) <= Lines(body)[k])
  }

  lemma FencedIsOneBlock(text: string, open: string, body: string, close: string)
    ensures IsFenced(text, open, body, close)
       <==> IsOneBlock(text, open, BacktickRun(open), body, close, BacktickRun(close))
  {
    TicksOnlyIs(open, BacktickRun(open));
    TicksOnlyIs(close, BacktickRun(close));
    ReachesMeans(Lines(body), BacktickRun(open));
  }

  /** `UnwrapsIffFenced`, in characters. */
  lemma UnwrapsIffOneBlock(text: string, body: string)
    ensures UnwrapFence(text, false) == Some(body)
       <==> exists open, n, close, m :: IsOneBlock(text, open, n, body, close, m)
  {
    UnwrapsIffFenced(text, body);
    if open, close :| IsFenced(text, open, body, close) {
      FencedIsOneBlock(text, open, body, close);
    }
    if open, n, close, m :| IsOneBlock(text, open, n, body, close, m) {
      TicksOnlyIs(open, n);
      TicksOnlyIs(close, m);
      FencedIsOneBlock(text, open, body, close);
    }
  }

  /**
   * A block with an info string is read by its first word: that is the tag, `mermaid` for one, and
   * the body comes out as it stands.
   */
  lemma TaggedBlock(n: nat, before: string, tag: string, after: string, body: string, close: string, m: nat)
    requires n >= 3 && IsBlank(before) && '\n' !in before + tag + after
    requires tag != "" && forall k :: 0 <= k < |tag| ==> !IsWhitespace(tag[k])
    requires before == "" ==> tag[0] != '`'
    requires after != "" ==> IsWhitespace(after[0])
    requires m >= n && IsTicksOnly(close, m) && '\n' !in close
    requires forall k :: 0 <= k < |Lines(body)| ==> !(Ticks(n) <= Lines(body)[k])
    ensures var open := Ticks(n) + (before + tag + after);
            SingleFencedBlock(open + "\n" + (body + "\n" + close), false) == Some((body, Some(tag)))
  {
    var open := Ticks(n) + (before + tag + after);
    TaggedOpener(n, before, tag, after);
    IndexAfter(open, body + "\n" + close);
    TicksOnlyIs(close, m);
    ReachesMeans(Lines(body), n);
    FenceBodyOfCloser(body, close, n, false);
  }

  lemma TaggedOpener(n: nat, before: string, tag: string, after: string)
    requires n >= 3 && IsBlank(before) && '\n' !in before + tag + after
    requires tag != "" && forall k :: 0 <= k < |tag| ==> !IsWhitespace(tag[k])
    requires before == "" ==> tag[0] != '`'
    requires after != "" ==> IsWhitespace(after[0])
    ensures var open := Ticks(n) + (before + tag + after);
            '\n' !in open && FenceOpen(open) == Some((n, Some(tag)))
  {
    var info := before + tag + after;
    var open := Ticks(n) + info;
    BlankMeans(before);
    assert info[0] == if before == "" then tag[0] else before[0];
    assert open[..n] == Ticks(n) && open[n..] == info && open[n] == info[0];
    RunIsTicks(open, n);
    FirstWordIs(before, tag, after);
  }

  lemma {:induction false} FirstWordIs(before: string, tag: string, after: string)
    requires IsBlank(before) && tag != "" && forall k :: 0 <= k < |tag| ==> !IsWhitespace(tag[k])
    requires after != "" ==> IsWhitespace(after[0])
    ensures FirstWord(before + tag + after) == Some(tag)
  {
    var s := before + tag + after;
    if before == "" {
      assert s == tag + after && s[0] == tag[0];
      WordPrefixIs(tag, after);
    } else {
      FirstWordIs(before[1..], tag, after);
      assert s[1..] == before[1..] + tag + after;
    }
  }

  lemma {:induction false} WordPrefixIs(tag: string, after: string)
    requires forall k :: 0 <= k < |tag| ==> !IsWhitespace(tag[k])
    requires after != "" ==> IsWhitespace(after[0])
    ensures WordPrefix(tag + after) == tag
  {
    if tag == "" {
      assert tag + after == after;
    } else {
      assert (tag + after)[1..] == tag[1..] + after;
      WordPrefixIs(tag[1..], after);
    }
  }

  // Line numbers.

  function SpaceRun(line: string): (n: nat)
    ensures n <= |line|
    ensures forall k :: 0 <= k < n ==> line[k] == ' '
    ensures n < |line| ==> line[n] != ' '
  {
    if line == "" || line[0] != ' ' then 0 else 1 + SpaceRun(line[1..])
  }

  function DigitRun(line: string): (n: nat)
    ensures n <= |line|
    ensures forall k :: 0 <= k < n ==> IsDigit(line[k])
    ensures n < |line| ==> !IsDigit(line[n])
  {
    if line == "" || !IsDigit(line[0]) then 0 else 1 + DigitRun(line[1..])
  }

  /** Spaces, at least one digit, then a tab or an arrow. */
  predicate IsGutter(p: string) {
    var s := SpaceRun(p);
    var d := DigitRun(p[s..]);
    d > 0 && |p| == s + d + 1 && (p[s + d] == '\t' || p[s + d] == ARROW)
  }

  /** `s` spaces, then digits up to `d`, then a tab or the arrow, and no more. */
  predicate IsSpelledGutter(p: string, s: nat, d: nat) {
    && s < d && |p| == d + 1
    && (forall k :: 0 <= k < s ==> p[k] == ' ') && (forall k :: s <= k < d ==> '0' <= p[k] <= '9')
    && (p[d] == '\t' || p[d] == '\U{2192}')
  }

  lemma GutterIsSpelled(p: string)
    ensures IsGutter(p) <==> exists s, d :: IsSpelledGutter(p, s, d)
  {
    if IsGutter(p) {
      var s, d := GutterSpells(p);
      assert IsSpelledGutter(p, s, d);
    }
    if s, d :| IsSpelledGutter(p, s, d) {
      SpacesThenDigitsIs(p, s, d);
    }
  }

  lemma GutterSpells(p: string) returns (s: nat, d: nat)
    requires IsGutter(p)
    ensures IsSpelledGutter(p, s, d)
  {
    s := SpaceRun(p);
    var digits := p[s..];
    d := s + DigitRun(digits);
    assert forall k :: s <= k < d ==> p[k] == digits[k - s] && IsDigit(digits[k - s]);
  }

  lemma SpacesThenDigitsIs(p: string, s: nat, d: nat)
    requires IsSpelledGutter(p, s, d)
    ensures SpaceRun(p) == s && DigitRun(p[s..]) == d - s
  {
    var digits := p[s..];
    assert p[s] != ' ';
    assert forall k :: 0 <= k < d - s ==> digits[k] == p[s + k];
    assert digits[d - s] == p[d] && !IsDigit(p[d]);
  }

  /** The gutter a line starts with is unique, so its length is a function of the line. */
  ghost predicate HasGutter(line: string, n: nat) { n <= |line| && IsGutter(line[..n]) }

  function GutterLen(line: string): Option<nat> {
    var s := SpaceRun(line);
    var d := DigitRun(line[s..]);
    if d > 0 && s + d < |line| && (line[s + d] == '\t' || line[s + d] == ARROW) then Some(s + d + 1) else None
  }

  lemma DigitRunOfPrefix(t: string, m: nat)
    requires m < |t| && DigitRun(t[..m + 1]) == m
    ensures DigitRun(t) == m
  {
    var u := t[..m + 1];
    assert forall k :: 0 <= k <= m ==> t[k] == u[k];
  }

  lemma SpaceRunOfPrefix(t: string, m: nat)
    requires m < |t| && SpaceRun(t[..m + 1]) == m
    ensures SpaceRun(t) == m
  {
    var u := t[..m + 1];
    assert forall k :: 0 <= k <= m ==> t[k] == u[k];
  }

  lemma GutterOfPrefix(line: string, n: nat)
    requires HasGutter(line, n)
    ensures GutterLen(line) == Some(n)
  {
    var p := line[..n];
    var s := SpaceRun(p);
    var t, u := line[s..], p[s..];
    var d := DigitRun(u);
    SpaceRunOfCut(line, n, s);
    assert u == t[..d + 1];
    DigitRunOfPrefix(t, d);
  }

  lemma SpaceRunOfCut(line: string, n: nat, s: nat)
    requires n <= |line| && SpaceRun(line[..n]) == s < n
    ensures SpaceRun(line) == s
  {
    assert line[..n][..s + 1] == line[..s + 1];
    SpaceRunShorter(line[..n], s);
    SpaceRunOfPrefix(line, s);
  }

  lemma SpaceRunShorter(p: string, s: nat)
    requires SpaceRun(p) == s < |p|
    ensures SpaceRun(p[..s + 1]) == s
  {
    var u := p[..s + 1];
    assert forall k :: 0 <= k <= s ==> u[k] == p[k];
  }

  lemma DigitRunShorter(t: string, d: nat)
    requires DigitRun(t) == d < |t|
    ensures DigitRun(t[..d + 1]) == d
  {
    var u := t[..d + 1];
    assert forall k :: 0 <= k <= d ==> u[k] == t[k];
  }

  lemma GutterLenIsTheGutter(line: string, n: nat)
    ensures GutterLen(line) == Some(n) <==> HasGutter(line, n)
  {
    if HasGutter(line, n) {
      GutterOfPrefix(line, n);
    }
    if GutterLen(line) == Some(n) {
      CutAtGutter(line, n);
    }
  }

  lemma CutAtGutter(line: string, n: nat)
    requires GutterLen(line) == Some(n)
    ensures HasGutter(line, n)
  {
    var s := SpaceRun(line);
    var p, t := line[..n], line[s..];
    var d := DigitRun(t);
    assert p[..s + 1] == line[..s + 1];
    SpaceRunShorter(line, s);
    SpaceRunOfPrefix(p, s);
    assert p[s..] == t[..d + 1];
    DigitRunShorter(t, d);
  }

  method LineNumberPrefixLen(line: string) returns (n: Option<nat>)
    ensures n == GutterLen(line)
  {
    var i := 0;
    while i < |line| && line[i] == ' '
      invariant 0 <= i <= SpaceRun(line)
    {
      i := i + 1;
    }
    var digitsStart := i;
    var digits := line[digitsStart..];
    while i < |line| && IsDigit(line[i])
      invariant digitsStart <= i <= digitsStart + DigitRun(digits)
    {
      assert line[i] == digits[i - digitsStart];
      i := i + 1;
    }
    assert i < |line| ==> line[i] == digits[i - digitsStart];
    if i == digitsStart {
      return None;
    }
    if i < |line| && line[i] == '\t' {
      return Some(i + 1);
    }
    if i < |line| && line[i] == ARROW {
      return Some(i + 1);
    }
    return None;
  }

  function StripLine(line: string): string {
    match GutterLen(line)
    case Some(n) => if n <= |line| then line[n..] else line
    case None => line
  }

  function StripLines(lines: seq<string>): seq<string> {
    seq(|lines|, k requires 0 <= k < |lines| => StripLine(lines[k]))
  }

  /** Every non-blank line is numbered, and at least one is. */
  predicate IsNumbered(lines: seq<string>) {
    && (forall k :: 0 <= k < |lines| && !IsBlank(lines[k]) ==> GutterLen(lines[k]).Some?)
    && (exists k :: 0 <= k < |lines| && !IsBlank(lines[k]))
  }

  function Stripped(body: string): string {
    if IsNumbered(Split(body)) then Join(StripLines(Split(body))) else body
  }

  method StripLineNumbers(body: string) returns (r: string)
    ensures r == Stripped(body)
  {
    var lines := Split(body);
    var anyNumbered := false;
    for i := 0 to |lines|
      invariant forall k :: 0 <= k < i && !IsBlank(lines[k]) ==> GutterLen(lines[k]).Some?
      invariant anyNumbered <==> exists k :: 0 <= k < i && !IsBlank(lines[k])
    {
      if IsBlank(lines[i]) {
        continue;
      }
      var n := LineNumberPrefixLen(lines[i]);
      if n.None? {
        return body;
      }
      anyNumbered := true;
    }
    if !anyNumbered {
      return body;
    }
    r := Join(StripLines(lines));
  }

  function Normalized(text: string, truncated: bool): string {
    var body := UnwrapFence(text, truncated);
    Stripped(if body.Some? then body.value else text)
  }

  method NormalizeSourceOutput(text: string, truncated: bool) returns (r: string)
    ensures r == Normalized(text, truncated)
  {
    var body := UnwrapFence(text, truncated);
    r := StripLineNumbers(if body.Some? then body.value else text);
  }

  // What the wrapping did, undone.

  /** `cat -n`: each line of a file behind its own gutter. */
  ghost predicate IsNumbering(gutters: seq<string>, lines: seq<string>) {
    && |gutters| == |lines| >= 1
    && (forall k :: 0 <= k < |lines| ==> IsGutter(gutters[k]) && '\n' !in lines[k])
  }

  function Numbered(gutters: seq<string>, lines: seq<string>): seq<string>
    requires |gutters| == |lines|
  {
    seq(|lines|, k requires 0 <= k < |lines| => gutters[k] + lines[k])
  }

  lemma GutterHoldsADigit(g: string) returns (k: nat)
    requires IsGutter(g)
    ensures k < |g| && IsDigit(g[k])
    ensures forall i :: 0 <= i < |g| ==> g[i] != '\n'
    ensures g[0] != '`'
  {
    var s := SpaceRun(g);
    var t := g[s..];
    k := s;
    assert g[s] == t[0];
    forall i | 0 <= i < |g| ensures g[i] != '\n' {
      if s <= i < |g| - 1 {
        assert g[i] == t[i - s];
      }
    }
  }

  lemma GutterFacts(g: string, line: string)
    requires IsGutter(g)
    ensures GutterLen(g + line) == Some(|g|) && StripLine(g + line) == line
    ensures !IsBlank(g + line) && BacktickRun(g + line) == 0
  {
    var s := g + line;
    assert s[..|g|] == g && s[|g|..] == line;
    GutterLenIsTheGutter(s, |g|);
    var k := GutterHoldsADigit(g);
    BlankMeans(s);
    assert s[k] == g[k] && s[0] == g[0];
  }

  lemma AllStripped(parts: seq<string>, lines: seq<string>)
    requires |parts| == |lines| >= 1
    requires forall k :: 0 <= k < |parts| ==> GutterLen(parts[k]).Some? && !IsBlank(parts[k]) && '\n' !in parts[k]
    requires forall k :: 0 <= k < |parts| ==> StripLine(parts[k]) == lines[k]
    ensures Split(Join(parts)) == parts && Stripped(Join(parts)) == Join(lines)
  {
    SplitOfJoin(parts);
    assert StripLines(parts) == lines;
    assert !IsBlank(parts[0]);
  }

  lemma NumberedFacts(gutters: seq<string>, lines: seq<string>)
    requires IsNumbering(gutters, lines)
    ensures var body := Join(Numbered(gutters, lines));
            && Split(body) == Numbered(gutters, lines)
            && Stripped(body) == Join(lines)
            && (forall k :: 0 <= k < |lines| ==> BacktickRun(Numbered(gutters, lines)[k]) == 0)
  {
    var ns := Numbered(gutters, lines);
    forall k | 0 <= k < |lines|
      ensures GutterLen(ns[k]).Some? && StripLine(ns[k]) == lines[k] && !IsBlank(ns[k])
      ensures BacktickRun(ns[k]) == 0 && '\n' !in ns[k]
    {
      GutterFacts(gutters[k], lines[k]);
      var _ := GutterHoldsADigit(gutters[k]);
    }
    AllStripped(ns, lines);
  }

  /** `Lines` only drops a carriage return or an empty last piece, so it sees no more backticks than `Split`. */
  lemma {:induction false} LinesRunLikeSplit(s: string, ticks: nat)
    requires ticks >= 1 && forall k :: 0 <= k < |Split(s)| ==> BacktickRun(Split(s)[k]) < ticks
    ensures !ReachesFence(s, ticks)
    decreases |s|
  {
    var n := IndexOf(s, '\n');
    var parts := Split(s);
    if n < |s| {
      var rest := Split(s[n + 1..]);
      assert forall k :: 0 <= k < |rest| ==> rest[k] == parts[k + 1];
      LinesRunLikeSplit(s[n + 1..], ticks);
      assert parts[0] == s[..n];
      StripCrKeepsRun(s[..n]);
      assert Lines(s)[1..] == Lines(s[n + 1..]);
    } else if s != "" {
      assert parts[0] == s && Lines(s) == [s];
      assert [s][1..] == [];
      assert !AnyReaches([s][1..], ticks);
    }
  }

  lemma StripCrKeepsRun(line: string)
    ensures BacktickRun(StripCr(line)) == BacktickRun(line)
  {
    var a, b := BacktickRun(StripCr(line)), BacktickRun(line);
    var t := StripCr(line);
    assert forall k :: 0 <= k < |t| ==> t[k] == line[k];
    assert a <= b && b <= a;
  }

  /**
   * The fence and the gutter come off exactly, whatever the file holds: each of its
   * lines behind a gutter, then a bare fence around the whole.
   */
  lemma FencedNumberedRoundTrip(gutters: seq<string>, lines: seq<string>, open: string, close: string, truncated: bool)
    requires IsNumbering(gutters, lines)
    requires IsBareOpener(open, BacktickRun(open))
    requires '\n' !in close && IsClosingFence(close, BacktickRun(open))
    ensures Normalized(open + "\n" + Join(Numbered(gutters, lines)) + "\n" + close, truncated) == Join(lines)
  {
    var body := Join(Numbered(gutters, lines));
    NumberedFacts(gutters, lines);
    LinesRunLikeSplit(body, BacktickRun(open));
    FencedUnwraps(open + "\n" + body + "\n" + close, open, body, close, truncated);
  }

  lemma NotFenced(text: string, truncated: bool)
    requires BacktickRun(Split(text)[0]) == 0
    ensures UnwrapFence(text, truncated) == None
  {
  }

  /** The same without a fence. */
  lemma NumberedRoundTrip(gutters: seq<string>, lines: seq<string>, truncated: bool)
    requires IsNumbering(gutters, lines)
    ensures Normalized(Join(Numbered(gutters, lines)), truncated) == Join(lines)
  {
    NumberedFacts(gutters, lines);
    NotFenced(Join(Numbered(gutters, lines)), truncated);
  }

  /** What is left of a numbered line cut after some of its bytes. */
  function StripCut(gutter: string, cut: string): string {
    if |cut| >= |gutter| then cut[|gutter|..] else cut
  }

  lemma SpacesOfCut(gutter: string, cut: string)
    requires cut <= gutter
    ensures SpaceRun(cut) == if |cut| < SpaceRun(gutter) then |cut| else SpaceRun(gutter)
  {
    var a, b := SpaceRun(cut), SpaceRun(gutter);
    assert forall k :: 0 <= k < |cut| ==> cut[k] == gutter[k];
    assert a <= b;
  }

  lemma DigitsOfCut(gutter: string, cut: string)
    requires IsGutter(gutter) && cut <= gutter && SpaceRun(gutter) < |cut| < |gutter|
    ensures var u := cut[SpaceRun(gutter)..]; DigitRun(u) == |u|
  {
    var s := SpaceRun(gutter);
    var t, u := gutter[s..], cut[s..];
    assert forall k :: 0 <= k < |u| ==> u[k] == t[k] && IsDigit(t[k]);
  }

  lemma NoGutterYet(gutter: string, cut: string)
    requires IsGutter(gutter) && cut <= gutter && |cut| < |gutter|
    ensures GutterLen(cut) == None
  {
    SpacesOfCut(gutter, cut);
    if |cut| > SpaceRun(gutter) { DigitsOfCut(gutter, cut); }
  }

  lemma SpacesThenDigits(gutter: string, cut: string)
    requires IsGutter(gutter) && cut <= gutter && |cut| < |gutter|
    ensures GutterLen(cut) == None && BacktickRun(cut) == 0 && '\n' !in cut
  {
    NoGutterYet(gutter, cut);
    var _ := GutterHoldsADigit(gutter);
    assert forall k :: 0 <= k < |cut| ==> cut[k] == gutter[k];
  }

  lemma CutLineFacts(gutter: string, line: string, cut: string)
    requires IsGutter(gutter) && '\n' !in line && cut <= gutter + line
    ensures '\n' !in cut && BacktickRun(cut) == 0
    ensures |cut| >= |gutter| ==> GutterLen(cut) == Some(|gutter|) && !IsBlank(cut)
    ensures |cut| < |gutter| ==> GutterLen(cut) == None
    ensures |cut| >= |gutter| || IsBlank(cut) ==> StripLine(cut) == StripCut(gutter, cut)
  {
    if |cut| >= |gutter| {
      assert cut == gutter + cut[|gutter|..] && cut[|gutter|..] <= line;
      GutterFacts(gutter, cut[|gutter|..]);
      var _ := GutterHoldsADigit(gutter);
    } else {
      assert cut <= gutter;
      SpacesThenDigits(gutter, cut);
    }
  }

  /** `rsplit_once('\n')`'s right-hand side, or all of `s`. */
  function LastLine(s: string): string { s[LastIndexOf(s, '\n') + 1..] }

  lemma LastLineAfter(before: string, rest: string)
    ensures LastLine(before + "\n" + rest) == LastLine(rest)
  {
    var s, n, m := before + "\n" + rest, LastIndexOf(rest, '\n'), |before| + 1;
    assert s[m - 1] == '\n' && s[m..] == rest;
    assert forall k :: m <= k < |s| ==> s[k] == rest[k - m];
    assert n >= 0 ==> s[m + n] == '\n';
    assert LastIndexOf(s, '\n') == m + n;
    assert s[m + n + 1..] == rest[n + 1..];
  }

  lemma {:induction false} LastLineOfJoin(lines: seq<string>)
    requires lines != [] && '\n' !in lines[|lines| - 1]
    ensures LastLine(Join(lines)) == lines[|lines| - 1]
  {
    if |lines| == 1 {
      assert forall k :: 0 <= k < |lines[0]| ==> lines[0][k] in lines[0];
      assert lines[0][0..] == lines[0];
    } else {
      LastLineAfter(lines[0], Join(lines[1..]));
      LastLineOfJoin(lines[1..]);
    }
  }

  lemma TruncatedUnwraps(open: string, lines: seq<string>)
    requires IsBareOpener(open, BacktickRun(open)) && lines != []
    requires forall k :: 0 <= k < |lines| ==> '\n' !in lines[k] && BacktickRun(lines[k]) < BacktickRun(open)
    ensures UnwrapFence(open + "\n" + Join(lines), true) == Some(Join(lines))
  {
    var body := Join(lines);
    UnwrapOfOpener(open, body, true);
    LastLineOfJoin(lines);
    assert !IsClosingFence(lines[|lines| - 1], BacktickRun(open));
    assert !ReachesFence(body, BacktickRun(open)) by {
      SplitOfJoin(lines);
      LinesRunLikeSplit(body, BacktickRun(open));
    }
  }

  /** The lines a wrapped read has behind its opener: the numbered file, then the closer. */
  function ReadLines(gutters: seq<string>, lines: seq<string>, close: string): seq<string>
    requires |gutters| == |lines|
  {
    Numbered(gutters, lines) + [close]
  }

  /** A read cut after some characters of its `m`-th line. */
  function CutLines(gutters: seq<string>, lines: seq<string>, m: nat, kept: string): seq<string>
    requires |gutters| == |lines| && m <= |lines|
  {
    Numbered(gutters[..m], lines[..m]) + [kept]
  }

  /** Cutting lines joined by newlines anywhere cuts one of them. */
  lemma {:induction false} CutInOneLine(parts: seq<string>, text: string) returns (m: nat, kept: string)
    requires parts != [] && text <= Join(parts)
    ensures m < |parts| && kept <= parts[m] && text == Join(parts[..m] + [kept])
  {
    if |parts| == 1 || |text| <= |parts[0]| {
      m, kept := 0, text;
      assert text == Join(parts)[..|text|];
      assert parts[..0] + [text] == [text];
    } else {
      var n := |parts[0]| + 1;
      assert Join(parts) == parts[0] + "\n" + Join(parts[1..]);
      assert text == Join(parts)[..|text|] && text[..n] == parts[0] + "\n" && text[n..] <= Join(parts[1..]);
      m, kept := CutInOneLine(parts[1..], text[n..]);
      JoinCons(parts[0], parts[1..][..m] + [kept]);
      assert parts[..m + 1] + [kept] == [parts[0]] + (parts[1..][..m] + [kept]);
      m := m + 1;
    }
  }

  /** Every way to cut a wrapped read behind its opener's line. */
  lemma EveryCutIsInALine(gutters: seq<string>, lines: seq<string>, close: string, text: string)
    returns (m: nat, kept: string)
    requires |gutters| == |lines| && text <= Join(ReadLines(gutters, lines, close))
    ensures m <= |lines| && kept <= ReadLines(gutters, lines, close)[m]
            && text == Join(CutLines(gutters, lines, m, kept))
  {
    m, kept := CutInOneLine(ReadLines(gutters, lines, close), text);
    assert ReadLines(gutters, lines, close)[..m] == Numbered(gutters[..m], lines[..m]);
  }

  lemma BacktickRunOfPrefix(close: string, kept: string)
    requires kept <= close
    ensures BacktickRun(kept) == if |kept| <= BacktickRun(close) then |kept| else BacktickRun(close)
  {
    assert forall k :: 0 <= k < |kept| ==> kept[k] == close[k];
  }

  lemma CloserPrefixCloses(close: string, kept: string, ticks: nat)
    requires IsClosingFence(close, ticks) && kept <= close && |kept| >= ticks
    ensures IsClosingFence(kept, ticks)
  {
    var n, run := BacktickRun(close), BacktickRun(kept);
    TrimmedToRun(close);
    BacktickRunOfPrefix(close, kept);
    if |kept| > n {
      BlankPrefix(close[n..], kept[n..]);
    }
    BlankAfterRun(kept);
  }

  lemma CloserStub(close: string, kept: string, ticks: nat)
    requires IsClosingFence(close, ticks) && kept <= close && |kept| < ticks
    ensures GutterLen(kept) == None && (IsBlank(kept) <==> kept == "")
  {
    BacktickRunOfPrefix(close, kept);
    assert kept != "" ==> kept[0] == '`';
  }

  lemma CloserPrefixIsNotBlank(close: string, kept: string, ticks: nat)
    requires IsClosingFence(close, ticks) && kept <= close && kept != "" && ticks > 0
    ensures !IsBlank(kept)
  {
    BacktickRunOfPrefix(close, kept);
    assert kept[0] == '`';
  }

  /** The cut keeps so little of its last line that the line no longer reads as what it was. */
  predicate KeepsNumbers(gutters: seq<string>, m: nat, kept: string, ticks: nat) {
    !IsBlank(kept) && |kept| < if m < |gutters| then |gutters[m]| else ticks
  }

  /** The cut leaves enough of the closer. */
  predicate KeepsCloser(gutters: seq<string>, m: nat, kept: string) { m == |gutters| && kept != "" }

  lemma CutPartFacts(gutters: seq<string>, lines: seq<string>, close: string, ticks: nat, m: nat, kept: string)
    requires IsNumbering(gutters, lines) && '\n' !in close && ticks > 0 && IsClosingFence(close, ticks)
    requires m <= |lines| && kept <= ReadLines(gutters, lines, close)[m]
    requires KeepsNumbers(gutters, m, kept, ticks) || !KeepsCloser(gutters, m, kept)
    ensures '\n' !in kept && BacktickRun(kept) < ticks
    ensures KeepsNumbers(gutters, m, kept, ticks) ==> GutterLen(kept) == None
    ensures IsBlank(kept) ==> StripLine(kept) == kept
    ensures !KeepsNumbers(gutters, m, kept, ticks)
            ==> (IsBlank(kept) || GutterLen(kept).Some?)
                && StripLine(kept) == if m < |lines| then StripCut(gutters[m], kept) else kept
  {
    if m < |lines| {
      CutLineFacts(gutters[m], lines[m], kept);
    } else {
      if |kept| < ticks {
        CloserStub(close, kept, ticks);
      } else {
        CloserPrefixIsNotBlank(close, kept, ticks);
      }
      assert forall k :: 0 <= k < |kept| ==> kept[k] == close[k] && close[k] in close;
    }
  }

  lemma NumberedPartFacts(gutters: seq<string>, lines: seq<string>, k: nat)
    requires IsNumbering(gutters, lines) && k < |lines|
    ensures var part := gutters[k] + lines[k];
            '\n' !in part && BacktickRun(part) == 0 && GutterLen(part).Some?
            && StripLine(part) == lines[k] && !IsBlank(part)
  {
    GutterFacts(gutters[k], lines[k]);
    var _ := GutterHoldsADigit(gutters[k]);
  }

  lemma StripAllButLast(parts: seq<string>, lines: seq<string>, last: string)
    requires |parts| == |lines| + 1
    requires forall k :: 0 <= k < |lines| ==> StripLine(parts[k]) == lines[k]
    requires StripLine(parts[|lines|]) == last
    ensures StripLines(parts) == lines + [last]
  {
  }

  lemma LastDecides(parts: seq<string>)
    requires parts != []
    requires forall k :: 0 <= k < |parts| - 1 ==> GutterLen(parts[k]).Some? && !IsBlank(parts[k])
    ensures var last := parts[|parts| - 1];
            IsNumbered(parts) <==> if IsBlank(last) then |parts| > 1 else GutterLen(last).Some?
  {
    if |parts| > 1 {
      assert !IsBlank(parts[0]);
    }
  }

  lemma CutPartsFacts(gutters: seq<string>, lines: seq<string>, close: string, ticks: nat, m: nat, kept: string, k: nat)
    requires IsNumbering(gutters, lines) && '\n' !in close && ticks > 0 && IsClosingFence(close, ticks)
    requires m <= |lines| && kept <= ReadLines(gutters, lines, close)[m] && k <= m
    requires KeepsNumbers(gutters, m, kept, ticks) || !KeepsCloser(gutters, m, kept)
    ensures var part := CutLines(gutters, lines, m, kept)[k];
            && '\n' !in part && BacktickRun(part) < ticks
            && (k < m ==> GutterLen(part).Some? && StripLine(part) == lines[k] && !IsBlank(part))
  {
    if k < m {
      NumberedPartFacts(gutters, lines, k);
    } else {
      CutPartFacts(gutters, lines, close, ticks, m, kept);
    }
  }

  /** Stripping numbered lines and one more: everything goes by whether that one is numbered or blank. */
  lemma LastLineDecides(parts: seq<string>, lines: seq<string>, last: string)
    requires |parts| == |lines| + 1 && forall k :: 0 <= k < |parts| ==> '\n' !in parts[k]
    requires forall k :: 0 <= k < |lines| ==>
               GutterLen(parts[k]).Some? && StripLine(parts[k]) == lines[k] && !IsBlank(parts[k])
    requires StripLine(parts[|lines|]) == last && (IsBlank(parts[|lines|]) ==> last == parts[|lines|])
    ensures Stripped(Join(parts))
         == if IsBlank(parts[|lines|]) || GutterLen(parts[|lines|]).Some? then Join(lines + [last]) else Join(parts)
  {
    SplitOfJoin(parts);
    LastDecides(parts);
    StripAllButLast(parts, lines, last);
    if |lines| == 0 {
      assert parts == [parts[0]] && lines + [last] == [last];
    }
  }

  lemma CutIsStripped(gutters: seq<string>, lines: seq<string>, close: string, ticks: nat, m: nat, kept: string)
    requires IsNumbering(gutters, lines) && '\n' !in close && ticks > 0 && IsClosingFence(close, ticks)
    requires m <= |lines| && kept <= ReadLines(gutters, lines, close)[m]
    requires KeepsNumbers(gutters, m, kept, ticks) || !KeepsCloser(gutters, m, kept)
    ensures Stripped(Join(CutLines(gutters, lines, m, kept)))
         == if KeepsNumbers(gutters, m, kept, ticks) then Join(CutLines(gutters, lines, m, kept))
            else Join(lines[..m] + [if m < |lines| then StripCut(gutters[m], kept) else kept])
  {
    var parts := CutLines(gutters, lines, m, kept);
    forall k | 0 <= k < |parts|
      ensures '\n' !in parts[k]
      ensures k < m ==> GutterLen(parts[k]).Some? && StripLine(parts[k]) == lines[..m][k] && !IsBlank(parts[k])
    {
      CutPartsFacts(gutters, lines, close, ticks, m, kept, k);
    }
    CutPartFacts(gutters, lines, close, ticks, m, kept);
    LastLineDecides(parts, lines[..m], StripLine(kept));
  }

  /**
   * A read that the output cap has cut anywhere behind its opener's line. Its gutters come off,
   * with or without the closer, unless the cut falls inside a line number or leaves a stub of the
   * closer shorter than the opener's run: then the last line reads as an unnumbered one and every
   * number stays. A cut right before the closer leaves one newline too many.
   */
  lemma TruncatedRead(open: string, gutters: seq<string>, lines: seq<string>, close: string, m: nat, kept: string)
    requires IsBareOpener(open, BacktickRun(open)) && IsNumbering(gutters, lines)
    requires '\n' !in close && IsClosingFence(close, BacktickRun(open))
    requires m <= |lines| && kept <= ReadLines(gutters, lines, close)[m]
    ensures var body := Join(CutLines(gutters, lines, m, kept));
            Normalized(open + "\n" + body, true) ==
              if KeepsNumbers(gutters, m, kept, BacktickRun(open)) then body
              else if KeepsCloser(gutters, m, kept) then Join(lines)
              else Join(lines[..m] + [if m < |lines| then StripCut(gutters[m], kept) else ""])
  {
    var ticks := BacktickRun(open);
    if !KeepsNumbers(gutters, m, kept, ticks) && KeepsCloser(gutters, m, kept) {
      CutKeepsCloser(open, gutters, lines, close, kept);
    } else {
      var parts := CutLines(gutters, lines, m, kept);
      CutIsStripped(gutters, lines, close, ticks, m, kept);
      forall k | 0 <= k < |parts| ensures '\n' !in parts[k] && BacktickRun(parts[k]) < ticks {
        CutPartsFacts(gutters, lines, close, ticks, m, kept, k);
      }
      TruncatedUnwraps(open, parts);
    }
  }

  lemma CutKeepsCloser(open: string, gutters: seq<string>, lines: seq<string>, close: string, kept: string)
    requires IsBareOpener(open, BacktickRun(open)) && IsNumbering(gutters, lines)
    requires '\n' !in close && IsClosingFence(close, BacktickRun(open)) && kept <= close
    requires kept != "" && !KeepsNumbers(gutters, |lines|, kept, BacktickRun(open))
    ensures Normalized(open + "\n" + Join(CutLines(gutters, lines, |lines|, kept)), true) == Join(lines)
  {
    CloserPrefixIsNotBlank(close, kept, BacktickRun(open));
    CloserPrefixCloses(close, kept, BacktickRun(open));
    assert forall k :: 0 <= k < |kept| ==> kept[k] == close[k] && close[k] in close;
    assert gutters[..|lines|] == gutters && lines[..|lines|] == lines;
    JoinConcat(Numbered(gutters, lines), [kept]);
    FencedNumberedRoundTrip(gutters, lines, open, kept, true);
    FenceAssoc(open, Join(Numbered(gutters, lines)), kept);
  }

  lemma FenceAssoc(open: string, body: string, close: string)
    ensures open + "\n" + (body + "\n" + close) == open + "\n" + body + "\n" + close
  {
  }

  lemma StripLineShrinks(line: string)
    ensures |StripLine(line)| <= |line|
    ensures GutterLen(line).Some? ==> |StripLine(line)| < |line|
  {
  }

  /**
   * Stripping is all or nothing: it drops a gutter somewhere when every non-blank line has one,
   * and otherwise keeps every byte.
   */
  lemma StrippedIffNumbered(body: string)
    ensures Stripped(body) == body <==> !IsNumbered(Split(body))
  {
    var lines := Split(body);
    if IsNumbered(lines) {
      var k :| 0 <= k < |lines| && !IsBlank(lines[k]);
      JoinOfSplit(body);
      forall i | 0 <= i < |lines| ensures |StripLines(lines)[i]| <= |lines[i]| {
        StripLineShrinks(lines[i]);
      }
      StripLineShrinks(lines[k]);
      JoinShrinks(StripLines(lines), lines, k);
    }
  }

  lemma {:induction false} JoinShrinks(a: seq<string>, b: seq<string>, k: int)
    requires |a| == |b| && forall i :: 0 <= i < |a| ==> |a[i]| <= |b[i]|
    requires k < |a| && (0 <= k ==> |a[k]| < |b[k]|)
    ensures |Join(a)| <= |Join(b)| && (0 <= k ==> |Join(a)| < |Join(b)|)
  {
    if |a| > 1 {
      JoinShrinks(a[1..], b[1..], k - 1);
    }
  }
}
