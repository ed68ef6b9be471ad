/** The closed mermaid fences of a text that is still streaming in. */
module Mermaid {
  import opened Text

  predicate IsOpener(line: string) { Trim(line) == "```mermaid" }

  predicate IsCloser(line: string) { Trim(line) == "```" }

  type Test = string -> bool

  /** How a fence opens and closes. */
  datatype Rules = Rules(opens: Test, closes: Test)

  function MermaidRules(): Rules { Rules(IsOpener, IsCloser) }

  function NextLine(lines: seq<string>, at: nat, test: Test): (i: nat)
    requires at <= |lines|
    ensures at <= i <= |lines|
    decreases |lines| - at
  {
    if at == |lines| || test(lines[at]) then at else NextLine(lines, at + 1, test)
  }

  /** The next line is the first that passes the test, or the end. */
  lemma {:induction false} NextLineIs(lines: seq<string>, at: nat, i: nat, test: Test)
    requires at <= i <= |lines|
    ensures NextLine(lines, at, test) == i
            <==> (forall k :: at <= k < i ==> !test(lines[k])) && (i == |lines| || test(lines[i]))
    decreases i - at
  {
    if at < i && !test(lines[at]) {
      NextLineIs(lines, at + 1, i, test);
    }
  }

  /** The first opener from `at` on and the first closer after it, if both are there. */
  function FirstClosed(lines: seq<string>, at: nat, rules: Rules): (fence: Option<(nat, nat)>)
    requires at <= |lines|
    ensures fence.Some? ==> at <= fence.value.0 < fence.value.1 < |lines|
  {
    var i := NextLine(lines, at, rules.opens);
    if i == |lines| then None
    else
      var j := NextLine(lines, i + 1, rules.closes);
      if j == |lines| then None else Some((i, j))
  }

  /** The closed fences from `at` on, each search going on after the closer before. */
  function Fences(lines: seq<string>, at: nat, rules: Rules): seq<(nat, nat)>
    requires at <= |lines|
    decreases |lines| - at
  {
    match FirstClosed(lines, at, rules)
    case None => []
    case Some(f) => [f] + Fences(lines, f.1 + 1, rules)
  }

  /** Whether the lines end inside a fence. */
  predicate EndsOpen(lines: seq<string>, at: nat, rules: Rules)
    requires at <= |lines|
    decreases |lines| - at
  {
    match FirstClosed(lines, at, rules)
    case None => NextLine(lines, at, rules.opens) < |lines|
    case Some(f) => EndsOpen(lines, f.1 + 1, rules)
  }

  function Body(lines: seq<string>, fence: (nat, nat)): string {
    if fence.0 < fence.1 <= |lines| then Join(lines[fence.0 + 1..fence.1]) else ""
  }

  function Bodies(lines: seq<string>, fences: seq<(nat, nat)>): seq<string> {
    seq(|fences|, k requires 0 <= k < |fences| => Body(lines, fences[k]))
  }

  function SourcesFrom(lines: seq<string>, at: nat, rules: Rules): seq<string>
    requires at <= |lines|
  {
    Bodies(lines, Fences(lines, at, rules))
  }

  function LineSources(lines: seq<string>): seq<string> { SourcesFrom(lines, 0, MermaidRules()) }

  /** The lines between each opener and its closer, verbatim. */
  function Sources(text: string): seq<string> { LineSources(Lines(text)) }

  lemma FirstClosedMeans(lines: seq<string>, at: nat, rules: Rules)
    requires at <= |lines| && FirstClosed(lines, at, rules).Some?
    ensures var f := FirstClosed(lines, at, rules).value;
            && rules.opens(lines[f.0]) && (forall n :: at <= n < f.0 ==> !rules.opens(lines[n]))
            && rules.closes(lines[f.1]) && (forall n :: f.0 < n < f.1 ==> !rules.closes(lines[n]))
  {
    var f := FirstClosed(lines, at, rules).value;
    NextLineIs(lines, at, f.0, rules.opens);
    NextLineIs(lines, f.0 + 1, f.1, rules.closes);
  }

  /** Fences follow one another, each from the first opener there is to the first closer after it. */
  lemma {:induction false} FencesMean(lines: seq<string>, at: nat, rules: Rules, k: nat)
    requires at <= |lines| && k < |Fences(lines, at, rules)|
    ensures var fences := Fences(lines, at, rules);
            var f, from := fences[k], if k == 0 then at else fences[k - 1].1 + 1;
            && from <= f.0 < f.1 < |lines|
            && rules.opens(lines[f.0]) && (forall n :: from <= n < f.0 ==> !rules.opens(lines[n]))
            && rules.closes(lines[f.1]) && (forall n :: f.0 < n < f.1 ==> !rules.closes(lines[n]))
    decreases |lines| - at
  {
    FirstClosedMeans(lines, at, rules);
    if k > 0 {
      FencesMean(lines, FirstClosed(lines, at, rules).value.1 + 1, rules, k - 1);
    }
  }

  /** After the last fence no opener is ever closed: an unterminated fence contributes nothing. */
  lemma {:induction false} LastFenceIsLast(lines: seq<string>, at: nat, rules: Rules)
    requires at <= |lines|
    ensures var fences := Fences(lines, at, rules);
            var from := if fences == [] then at else fences[|fences| - 1].1 + 1;
            from <= |lines| && FirstClosed(lines, from, rules).None?
    decreases |lines| - at
  {
    var first := FirstClosed(lines, at, rules);
    if first.Some? {
      LastFenceIsLast(lines, first.value.1 + 1, rules);
    }
  }

  /** From line `from` on, the first that is trimmed to "```mermaid" and the first after it trimmed to "```". */
  predicate IsDiagram(lines: seq<string>, from: nat, f: (nat, nat)) {
    && from <= f.0 < f.1 < |lines|
    && Trim(lines[f.0]) == "```mermaid" && (forall n :: from <= n < f.0 ==> Trim(lines[n]) != "```mermaid")
    && Trim(lines[f.1]) == "```" && (forall n :: f.0 < n < f.1 ==> Trim(lines[n]) != "```")
  }

  /** Where the search goes on after the first `k`. */
  function From(at: seq<(nat, nat)>, k: nat): nat
    requires k <= |at|
  {
    if k == 0 then 0 else at[k - 1].1 + 1
  }

  /** The same of any rules. */
  predicate IsFence(lines: seq<string>, from: nat, f: (nat, nat), rules: Rules) {
    && from <= f.0 < f.1 < |lines|
    && rules.opens(lines[f.0]) && (forall n :: from <= n < f.0 ==> !rules.opens(lines[n]))
    && rules.closes(lines[f.1]) && (forall n :: f.0 < n < f.1 ==> !rules.closes(lines[n]))
  }

  lemma FirstClosedIs(lines: seq<string>, from: nat, f: (nat, nat), rules: Rules)
    requires IsFence(lines, from, f, rules)
    ensures FirstClosed(lines, from, rules) == Some(f)
  {
    NextLineIs(lines, from, f.0, rules.opens);
    NextLineIs(lines, f.0 + 1, f.1, rules.closes);
  }

  lemma DiagramIsFence(lines: seq<string>, from: nat, f: (nat, nat))
    ensures IsDiagram(lines, from, f) <==> IsFence(lines, from, f, MermaidRules())
  {
  }

  lemma FencesAre(lines: seq<string>, rules: Rules, at: seq<(nat, nat)>)
    requires at == Fences(lines, 0, rules)
    ensures forall k :: 0 <= k < |at| ==> IsFence(lines, From(at, k), at[k], rules)
    ensures forall f :: !IsFence(lines, From(at, |at|), f, rules)
  {
    forall k | 0 <= k < |at| ensures IsFence(lines, From(at, k), at[k], rules) {
      FencesMean(lines, 0, rules, k);
    }
    LastFenceIsLast(lines, 0, rules);
    forall f: (nat, nat) ensures IsFence(lines, From(at, |at|), f, rules)
                                 ==> FirstClosed(lines, From(at, |at|), rules) == Some(f)
    {
      if IsFence(lines, From(at, |at|), f, rules) { FirstClosedIs(lines, From(at, |at|), f, rules); }
    }
  }

  lemma DiagramsAre(lines: seq<string>, at: seq<(nat, nat)>)
    requires at == Fences(lines, 0, MermaidRules())
    ensures forall k :: 0 <= k < |at| ==> IsDiagram(lines, From(at, k), at[k])
    ensures forall f :: !IsDiagram(lines, From(at, |at|), f)
  {
    FencesAre(lines, MermaidRules(), at);
    forall k | 0 <= k < |at| ensures IsDiagram(lines, From(at, k), at[k]) {
      DiagramIsFence(lines, From(at, k), at[k]);
    }
    forall f ensures !IsDiagram(lines, From(at, |at|), f) {
      DiagramIsFence(lines, From(at, |at|), f);
    }
  }

  lemma BodyAt(lines: seq<string>, fences: seq<(nat, nat)>, k: nat)
    requires k < |fences| && fences[k].0 < fences[k].1 < |lines|
    ensures Bodies(lines, fences)[k] == Join(lines[fences[k].0 + 1..fences[k].1])
  {
  }

  /**
   * The sources of a text, each the lines inside a diagram found after the one before; and after
   * the last there is none.
   */
  lemma SourcesMean(text: string) returns (at: seq<(nat, nat)>)
    ensures var lines, sources := Lines(text), Sources(text);
            && |at| == |sources|
            && (forall k :: 0 <= k < |at| ==> IsDiagram(lines, From(at, k), at[k]))
            && (forall k :: 0 <= k < |at| ==> sources[k] == Join(lines[at[k].0 + 1..at[k].1]))
            && (forall f :: !IsDiagram(lines, From(at, |at|), f))
  {
    var lines := Lines(text);
    at := Fences(lines, 0, MermaidRules());
    DiagramsAre(lines, at);
    forall k | 0 <= k < |at| ensures Sources(text)[k] == Join(lines[at[k].0 + 1..at[k].1]) {
      BodyAt(lines, at, k);
    }
  }

  lemma SkipLine(lines: seq<string>, at: nat, rules: Rules)
    requires at < |lines| && !rules.opens(lines[at])
    ensures SourcesFrom(lines, at, rules) == SourcesFrom(lines, at + 1, rules)
  {
    assert FirstClosed(lines, at, rules) == FirstClosed(lines, at + 1, rules);
  }

  lemma TakeFence(lines: seq<string>, i: nat, rules: Rules)
    requires i < |lines| && rules.opens(lines[i])
    ensures var j := NextLine(lines, i + 1, rules.closes);
            SourcesFrom(lines, i, rules)
              == if j == |lines| then [] else [Join(lines[i + 1..j])] + SourcesFrom(lines, j + 1, rules)
  {
    var j := NextLine(lines, i + 1, rules.closes);
    assert NextLine(lines, i, rules.opens) == i;
    if j < |lines| {
      assert FirstClosed(lines, i, rules) == Some((i, j));
      BodiesCons(lines, (i, j), Fences(lines, j + 1, rules));
    }
  }

  lemma BodiesCons(lines: seq<string>, f: (nat, nat), rest: seq<(nat, nat)>)
    ensures Bodies(lines, [f] + rest) == [Body(lines, f)] + Bodies(lines, rest)
  {
  }

  lemma NothingFromEnd(lines: seq<string>, rules: Rules)
    ensures SourcesFrom(lines, |lines|, rules) == []
  {
  }

  /** Collect up to the next closer; without one the fence is still streaming. */
  method CollectBody(lines: seq<string>, start: nat, rules: Rules) returns (body: seq<string>, closed: bool, next: nat)
    requires start <= |lines|
    ensures start <= next <= |lines| && (closed ==> start < next)
    ensures var j := NextLine(lines, start, rules.closes);
            && body == lines[start..j]
            && (closed <==> j < |lines|)
            && next == if closed then j + 1 else j
  {
    body, closed, next := [], false, start;
    while next < |lines|
      invariant start <= next <= |lines|
      invariant !closed && body == lines[start..next]
      invariant forall k :: start <= k < next ==> !rules.closes(lines[k])
    {
      var inner := lines[next];
      next := next + 1;
      if rules.closes(inner) {
        closed := true;
        break;
      }
      body := body + [inner];
    }
    NextLineIs(lines, start, if closed then next - 1 else next, rules.closes);
  }

  lemma TakeBody(sources: seq<string>, lines: seq<string>, opener: nat, rules: Rules, closed: bool, next: nat)
    requires opener < |lines| && rules.opens(lines[opener])
    requires var j := NextLine(lines, opener + 1, rules.closes);
             (closed <==> j < |lines|) && next == if closed then j + 1 else j
    ensures var j := NextLine(lines, opener + 1, rules.closes);
            sources + SourcesFrom(lines, opener, rules)
              == (if closed then sources + [Join(lines[opener + 1..j])] else sources) + SourcesFrom(lines, next, rules)
  {
    var j := NextLine(lines, opener + 1, rules.closes);
    TakeFence(lines, opener, rules);
    if closed {
      AppendAssoc(sources, [Join(lines[opener + 1..j])], SourcesFrom(lines, next, rules));
    } else {
      NothingFromEnd(lines, rules);
    }
  }

  method ClosedFences(lines: seq<string>, rules: Rules) returns (sources: seq<string>)
    ensures sources == SourcesFrom(lines, 0, rules)
  {
    sources := [];
    var next := 0;
    while next < |lines|
      invariant next <= |lines|
      invariant sources + SourcesFrom(lines, next, rules) == SourcesFrom(lines, 0, rules)
    {
      ghost var opener := next;
      var line := lines[next];
      next := next + 1;
      if !rules.opens(line) {
        SkipLine(lines, opener, rules);
        continue;
      }
      var body, closed;
      body, closed, next := CollectBody(lines, next, rules);
      TakeBody(sources, lines, opener, rules, closed, next);
      if closed {
        sources := sources + [Join(body)];
      }
    }
    NothingFromEnd(lines, rules);
  }

  method MermaidSources(text: string) returns (sources: seq<string>)
    ensures sources == Sources(text)
  {
    sources := ClosedFences(Lines(text), MermaidRules());
  }

  // Streaming.

  lemma {:induction false} NextInPrefix(a: seq<string>, b: seq<string>, at: nat, test: Test)
    requires at <= |a|
    ensures NextLine(a, at, test) < |a| ==> NextLine(a + b, at, test) == NextLine(a, at, test)
    ensures NextLine(a, at, test) == |a| ==> NextLine(a + b, at, test) == NextLine(a + b, |a|, test)
    decreases |a| - at
  {
    if at < |a| && !test(a[at]) {
      NextInPrefix(a, b, at + 1, test);
    }
  }

  lemma FirstClosedInPrefix(a: seq<string>, b: seq<string>, at: nat, rules: Rules)
    requires at <= |a| && FirstClosed(a, at, rules).Some?
    ensures FirstClosed(a + b, at, rules) == FirstClosed(a, at, rules)
  {
    NextInPrefix(a, b, at, rules.opens);
    NextInPrefix(a, b, NextLine(a, at, rules.opens) + 1, rules.closes);
  }

  lemma FirstClosedByOneMore(a: seq<string>, line: string, at: nat, rules: Rules)
    requires at <= |a| && FirstClosed(a, at, rules).None?
    ensures FirstClosed(a + [line], at, rules)
         == if NextLine(a, at, rules.opens) < |a| && rules.closes(line)
            then Some((NextLine(a, at, rules.opens), |a|)) else None
  {
    NextInPrefix(a, [line], at, rules.opens);
    if NextLine(a, at, rules.opens) < |a| {
      NextInPrefix(a, [line], NextLine(a, at, rules.opens) + 1, rules.closes);
    }
  }

  lemma {:induction false} FencesOfPrefix(a: seq<string>, b: seq<string>, at: nat, rules: Rules)
    requires at <= |a|
    ensures Fences(a, at, rules) <= Fences(a + b, at, rules)
    decreases |a| - at
  {
    var first := FirstClosed(a, at, rules);
    if first.Some? {
      FirstClosedInPrefix(a, b, at, rules);
      FencesOfPrefix(a, b, first.value.1 + 1, rules);
    }
  }

  /** One more line closes a fence exactly if one is open and the line is a closer. */
  lemma {:induction false} FencesOfOneMore(a: seq<string>, line: string, at: nat, rules: Rules)
    requires at <= |a|
    ensures !(EndsOpen(a, at, rules) && rules.closes(line)) ==> Fences(a + [line], at, rules) == Fences(a, at, rules)
    ensures EndsOpen(a, at, rules) && rules.closes(line)
            ==> |Fences(a + [line], at, rules)| == |Fences(a, at, rules)| + 1
    decreases |a| - at
  {
    var first := FirstClosed(a, at, rules);
    if first.Some? {
      FirstClosedInPrefix(a, [line], at, rules);
      FencesOfOneMore(a, line, first.value.1 + 1, rules);
    } else {
      FirstClosedByOneMore(a, line, at, rules);
      assert Fences(a + [line], |a| + 1, rules) == [];
    }
  }

  lemma BodiesOfPrefix(a: seq<string>, b: seq<string>, fences: seq<(nat, nat)>)
    requires forall f :: f in fences ==> f.0 < f.1 < |a|
    ensures Bodies(a + b, fences) == Bodies(a, fences)
  {
    forall k | 0 <= k < |fences| ensures Body(a + b, fences[k]) == Body(a, fences[k]) {
      var f := fences[k];
      assert f in fences;
      assert (a + b)[f.0 + 1..f.1] == a[f.0 + 1..f.1];
    }
  }

  lemma BodiesStay(a: seq<string>, b: seq<string>)
    ensures Bodies(a + b, Fences(a, 0, MermaidRules())) == LineSources(a)
  {
    var fences := Fences(a, 0, MermaidRules());
    forall f | f in fences ensures f.0 < f.1 < |a| {
      var k :| 0 <= k < |fences| && fences[k] == f;
      FencesMean(a, 0, MermaidRules(), k);
    }
    BodiesOfPrefix(a, b, fences);
  }

  lemma BodiesOfMore(lines: seq<string>, a: seq<(nat, nat)>, b: seq<(nat, nat)>)
    requires a <= b
    ensures Bodies(lines, a) <= Bodies(lines, b)
  {
  }

  lemma MoreLinesKeep(a: seq<string>, b: seq<string>)
    ensures LineSources(a) <= LineSources(a + b)
  {
    var rules := MermaidRules();
    FencesOfPrefix(a, b, 0, rules);
    BodiesStay(a, b);
    BodiesOfMore(a + b, Fences(a, 0, rules), Fences(a + b, 0, rules));
  }

  /** One more line adds a diagram exactly if it closes an open fence, and otherwise changes nothing. */
  lemma OneMoreLine(a: seq<string>, line: string)
    ensures if EndsOpen(a, 0, MermaidRules()) && IsCloser(line)
            then |LineSources(a + [line])| == |LineSources(a)| + 1
            else LineSources(a + [line]) == LineSources(a)
  {
    FencesOfOneMore(a, line, 0, MermaidRules());
    BodiesStay(a, [line]);
  }

  /** Text arriving line by line never retracts a diagram. */
  lemma StreamingKeepsDiagrams(a: string, b: string)
    requires a == "" || a[|a| - 1] == '\n'
    ensures Sources(a) <= Sources(a + b)
  {
    LinesOfConcat(a, b);
    MoreLinesKeep(Lines(a), Lines(b));
  }

  // Text arriving in pieces cut anywhere.

  function Head(text: string): string { text[..LastIndexOf(text, '\n') + 1] }

  function Tail(text: string): string { text[LastIndexOf(text, '\n') + 1..] }

  /** The text breaks off in a line that, so far, closes a fence. */
  predicate BreaksOffInCloser(text: string) {
    EndsOpen(Lines(Head(text)), 0, MermaidRules()) && IsCloser(Tail(text))
  }

  lemma OneLine(s: string)
    requires s != "" && '\n' !in s
    ensures Lines(s) == [s]
  {
    assert forall k :: 0 <= k < |s| ==> s[k] in s;
  }

  lemma HeadAndTail(text: string)
    ensures Head(text) + Tail(text) == text && '\n' !in Tail(text)
    ensures Head(text) == "" || Head(text)[|Head(text)| - 1] == '\n'
  {
    assert forall k :: 0 <= k < |Tail(text)| ==> Tail(text)[k] == text[LastIndexOf(text, '\n') + 1 + k];
  }

  lemma CutAtLastLine(text: string)
    ensures Lines(text) == if Tail(text) == "" then Lines(Head(text)) else Lines(Head(text)) + [Tail(text)]
  {
    HeadAndTail(text);
    LinesOfConcat(Head(text), Tail(text));
    if Tail(text) != "" { OneLine(Tail(text)); }
  }

  lemma NoCloserEndsInLetter(s: string)
    ensures !IsCloser(s + ['x'])
  {
    var t := s + ['x'];
    TrimStartMeans(t);
    assert t[|s|] == 'x' && !IsWhitespace('x');
    assert TrimStart(t)[|TrimStart(t)| - 1] == 'x';
    assert Trim(t) == TrimStart(t);
  }

  lemma CloserRetracted(text: string)
    requires BreaksOffInCloser(text)
    ensures |Sources(text + ['x'])| < |Sources(text)|
  {
    var head, tail := Head(text), Tail(text);
    HeadAndTail(text);
    CutAtLastLine(text);
    assert Trim("") == "";
    AppendAssoc(head, tail, ['x']);
    LinesOfConcat(head, tail + ['x']);
    OneLine(tail + ['x']);
    NoCloserEndsInLetter(tail);
    OneMoreLine(Lines(head), tail);
    OneMoreLine(Lines(head), tail + ['x']);
  }

  /**
   * Whatever comes next, nothing is retracted: exactly when the text does not break off inside a
   * line that closes a fence so far.
   */
  lemma NothingRetractedIff(text: string)
    ensures (forall more :: Sources(text) <= Sources(text + more)) <==> !BreaksOffInCloser(text)
  {
    if BreaksOffInCloser(text) {
      CloserRetracted(text);
    } else {
      var head, tail := Head(text), Tail(text);
      HeadAndTail(text);
      CutAtLastLine(text);
      OneMoreLine(Lines(head), tail);
      forall more ensures Sources(text) <= Sources(text + more) {
        StreamingKeepsDiagrams(head, tail + more);
        AppendAssoc(head, tail, more);
      }
    }
  }
}
