/**
 * The bounded walks that turn a prompt into one line: `session_prompt_preview`
 * (`activity.rs`) and `normalize_prompt_title` (`agent_chat_helpers.rs`).
 */
module TextWalks {
  import opened Text

  const PREVIEW_MAX: nat := 240
  const TITLE_MAX: nat := 72
  const TITLE_HEAD: nat := 69
  const ELLIPSIS: char := '\U{2026}'

  // The unbounded specification: the words, joined by one space.

  function WordEnd(s: string): (n: nat)
    ensures n <= |s|
    ensures s != "" && !IsWhitespace(s[0]) ==> n > 0
  {
    if s == "" || IsWhitespace(s[0]) then 0 else 1 + WordEnd(s[1..])
  }

  /** `s.split_whitespace()`. */
  function Words(s: string): seq<string>
    decreases |s|
  {
    if s == "" then []
    else if IsWhitespace(s[0]) then Words(s[1..])
    else [s[..WordEnd(s)]] + Words(s[WordEnd(s)..])
  }

  function JoinWords(words: seq<string>): string {
    if words == [] then "" else if |words| == 1 then words[0] else words[0] + " " + JoinWords(words[1..])
  }

  function Collapse(s: string): string { JoinWords(Words(s)) }

  // Prompt preview.

  /** `s` up to and including its `n`-th non-space character. */
  function CutAfter(s: string, n: nat): string {
    if n == 0 || s == "" then ""
    else [s[0]] + CutAfter(s[1..], if s[0] == ' ' then n else n - 1)
  }

  function Preview(raw: string): Option<string> {
    var out := CutAfter(Collapse(raw), PREVIEW_MAX);
    if out == "" then None else Some(out)
  }

  /** What the walk still appends, given whether it has written anything and owes a space. */
  function Walk(rest: string, started: bool, pending: bool): string {
    if rest == "" then ""
    else if IsWhitespace(rest[0]) then Walk(rest[1..], started, true)
    else
      var word := [rest[0]] + Walk(rest[1..], true, false);
      if pending && started then [' '] + word else word
  }

  /** The text after a word has begun: its remaining letters, then the other words. */
  function Continued(rest: string): string {
    if rest == "" || !IsWhitespace(rest[0]) then Collapse(rest)
    else if Words(rest) == [] then "" else [' '] + Collapse(rest)
  }

  lemma OneLetterWord(s: string)
    requires s != "" && !IsWhitespace(s[0]) && WordEnd(s[1..]) == 0
    ensures Collapse(s) == [s[0]] + Continued(s[1..])
  {
    var t := s[1..];
    assert s[..1] == [s[0]];
    assert Words(s) == [[s[0]]] + Words(t);
    JoinFirst([s[0]], Words(t));
  }

  lemma WordsStep(s: string)
    requires s != "" && !IsWhitespace(s[0])
    ensures var n := WordEnd(s); n > 0 && Words(s) == [s[..n]] + Words(s[n..])
  {
  }

  lemma LongerWordJoins(c: char, word: string, rest: seq<string>)
    ensures JoinWords([[c] + word] + rest) == [c] + JoinWords([word] + rest)
  {
    JoinFirst([c] + word, rest);
    JoinFirst(word, rest);
    AppendAssoc([c], word, " " + JoinWords(rest));
    AppendAssoc([c] + word, " ", JoinWords(rest));
    AppendAssoc(word, " ", JoinWords(rest));
  }

  lemma LongerWord(s: string)
    requires s != "" && !IsWhitespace(s[0]) && WordEnd(s[1..]) > 0
    ensures Collapse(s) == [s[0]] + Collapse(s[1..])
  {
    var t := s[1..];
    var n := WordEnd(t);
    assert t != "" && !IsWhitespace(t[0]);
    WordsStep(s);
    WordsStep(t);
    assert WordEnd(s) == n + 1 && s[n + 1..] == t[n..] && s[..n + 1] == [s[0]] + t[..n];
    LongerWordJoins(s[0], t[..n], Words(t[n..]));
  }

  lemma CollapseStep(s: string)
    requires s != "" && !IsWhitespace(s[0])
    ensures Collapse(s) == [s[0]] + Continued(s[1..])
    ensures Words(s) != []
  {
    if WordEnd(s[1..]) == 0 {
      OneLetterWord(s);
    } else {
      LongerWord(s);
    }
  }

  lemma JoinFirst(word: string, rest: seq<string>)
    ensures JoinWords([word] + rest) == if rest == [] then word else word + " " + JoinWords(rest)
  {
    assert ([word] + rest)[1..] == rest;
  }

  lemma {:induction false} WalkIsCollapse(rest: string, pending: bool)
    ensures Walk(rest, false, pending) == Collapse(rest)
    ensures Walk(rest, true, pending)
         == if pending && Words(rest) != [] then [' '] + Collapse(rest) else Continued(rest)
  {
    if rest != "" {
      if IsWhitespace(rest[0]) {
        WalkIsCollapse(rest[1..], true);
      } else {
        WalkIsCollapse(rest[1..], false);
        CollapseStep(rest);
      }
    }
  }

  lemma CutAfterStep(c: char, s: string, n: nat)
    requires n > 0
    ensures CutAfter([c] + s, n) == [c] + CutAfter(s, if c == ' ' then n else n - 1)
  {
    assert ([c] + s)[1..] == s;
  }

  lemma CutWalkStep(ch: char, rest: string, out: string, pending: bool, n: nat)
    requires n > 0 && !IsWhitespace(ch)
    ensures var tail := Walk(rest, true, false);
            out + CutAfter(if pending && out != "" then [' '] + ([ch] + tail) else [ch] + tail, n)
              == (if pending && out != "" then out + [' '] else out) + [ch] + CutAfter(tail, n - 1)
  {
    var tail := Walk(rest, true, false);
    CutAfterStep(ch, tail, n);
    if pending && out != "" {
      CutAfterStep(' ', [ch] + tail, n);
    }
  }

  method SessionPromptPreview(raw: string) returns (r: Option<string>)
    ensures r == Preview(raw)
  {
    var out := "";
    var pendingSpace := false;
    var chars: nat := 0;
    WalkIsCollapse(raw, false);
    ghost var whole := CutAfter(Collapse(raw), PREVIEW_MAX);
    var i := 0;
    while i < |raw|
      invariant 0 <= i <= |raw| && chars < PREVIEW_MAX
      invariant whole == out + CutAfter(Walk(raw[i..], out != "", pendingSpace), PREVIEW_MAX - chars)
    {
      var ch := raw[i];
      assert raw[i..][1..] == raw[i + 1..];
      i := i + 1;
      if IsWhitespace(ch) {
        pendingSpace := true;
        continue;
      }
      CutWalkStep(ch, raw[i..], out, pendingSpace, PREVIEW_MAX - chars);
      if pendingSpace && out != "" {
        out := out + [' '];
      }
      pendingSpace := false;
      out := out + [ch];
      chars := chars + 1;
      if chars >= PREVIEW_MAX {
        break;
      }
    }
    assert whole == out;
    r := if out != "" then Some(out) else None;
  }

  lemma {:induction false} WalkBlank(rest: string, started: bool, pending: bool)
    ensures Walk(rest, started, pending) == "" <==> IsBlank(rest)
  {
    if rest != "" {
      WalkBlank(rest[1..], started, true);
    }
  }

  /** There is no preview exactly when the prompt is all whitespace. */
  lemma NoPreviewIffBlank(raw: string)
    ensures Preview(raw) == None <==> IsBlank(raw)
  {
    WalkIsCollapse(raw, false);
    WalkBlank(raw, false, false);
  }

  lemma {:induction false} WalkOfCut(rest: string, started: bool, pending: bool, n: nat)
    ensures var t := CutAfter(Walk(rest, started, pending), n);
            Walk(t, started, false) == t && CutAfter(t, n) == t
  {
    if n > 0 && rest != "" {
      if IsWhitespace(rest[0]) {
        WalkOfCut(rest[1..], started, true, n);
      } else {
        var tail := Walk(rest[1..], true, false);
        var t := [rest[0]] + CutAfter(tail, n - 1);
        WalkOfCut(rest[1..], true, false, n - 1);
        CutAfterStep(rest[0], tail, n);
        CutAfterStep(rest[0], CutAfter(tail, n - 1), n);
        assert t[1..] == CutAfter(tail, n - 1);
        if pending && started {
          CutAfterStep(' ', [rest[0]] + tail, n);
          CutAfterStep(' ', t, n);
          assert ([' '] + t)[1..] == t;
        }
      }
    }
  }

  /** Characters of `s` other than the space. */
  function Glyphs(s: string): nat {
    if s == "" then 0 else (if s[0] == ' ' then 0 else 1) + Glyphs(s[1..])
  }

  lemma {:induction false} CutAfterKeeps(s: string, n: nat)
    ensures var r := CutAfter(s, n);
            && r <= s && Glyphs(r) == (if Glyphs(s) < n then Glyphs(s) else n)
            && (n > Glyphs(s) ==> r == s)
            && (r != "" && r != s ==> r[|r| - 1] != ' ')
  {
    if n > 0 && s != "" {
      var m := if s[0] == ' ' then n else n - 1;
      CutAfterKeeps(s[1..], m);
      var tail := CutAfter(s[1..], m);
      assert ([s[0]] + tail)[1..] == tail;
      assert s == [s[0]] + s[1..];
      if m > 0 && s[1..] != "" {
        SomethingKept(s[1..], m);
      }
    }
  }

  lemma SomethingKept(s: string, n: nat)
    requires n > 0 && s != ""
    ensures CutAfter(s, n) != ""
  {
  }

  /**
   * The preview is the prompt on one line, up to its 240th character that is not a space: all of
   * it if it has no more, and otherwise it ends in that character.
   */
  lemma PreviewIs(raw: string)
    requires Preview(raw).Some?
    ensures var out := Preview(raw).value;
            && out != "" && out <= Collapse(raw)
            && Glyphs(out) == (if Glyphs(Collapse(raw)) < 240 then Glyphs(Collapse(raw)) else 240)
            && (Glyphs(Collapse(raw)) < 240 ==> out == Collapse(raw))
            && (out != Collapse(raw) ==> out[|out| - 1] != ' ')
  {
    CutAfterKeeps(Collapse(raw), PREVIEW_MAX);
  }

  /** Previewing a preview changes nothing. */
  lemma PreviewIdempotent(raw: string)
    requires Preview(raw).Some?
    ensures Preview(Preview(raw).value) == Preview(raw)
  {
    var out := Preview(raw).value;
    WalkIsCollapse(raw, false);
    WalkIsCollapse(out, false);
    WalkOfCut(raw, false, false, PREVIEW_MAX);
  }

  // Prompt title.

  function Title(text: string): string {
    var line := Collapse(text);
    if |line| <= TITLE_MAX then line else TrimEnd(line[..TITLE_HEAD]) + [ELLIPSIS]
  }

  lemma {:induction false} WordsAreNotEmpty(s: string)
    ensures forall w :: w in Words(s) ==> w != ""
    decreases |s|
  {
    if s != "" {
      if IsWhitespace(s[0]) {
        WordsAreNotEmpty(s[1..]);
      } else {
        WordsAreNotEmpty(s[WordEnd(s)..]);
      }
    }
  }

  /** What joining leaves to append after the first `i` words. */
  function JoinRest(words: seq<string>, i: nat): string
    requires i <= |words|
  {
    if i == 0 then JoinWords(words)
    else if i == |words| then "" else " " + JoinWords(words[i..])
  }

  lemma JoinRestStep(words: seq<string>, i: nat)
    requires i < |words|
    ensures var rest := words[i] + JoinRest(words, i + 1);
            JoinRest(words, i) == if i > 0 then [' '] + rest else rest
  {
    JoinFirst(words[i], words[i + 1..]);
    assert [words[i]] + words[i + 1..] == words[i..];
    assert words[0..] == words;
    if i + 1 < |words| {
      AppendAssoc(words[i], " ", JoinWords(words[i + 1..]));
    }
    assert i + 1 == |words| ==> words[i] + "" == words[i];
  }

  lemma Push(head: string, c: char, rest: string)
    ensures head + ([c] + rest) == head + [c] + rest
  {
  }

  lemma PushFromWord(head: string, word: string, j: nat, after: string)
    requires j < |word|
    ensures head + (word[j..] + after) == head + [word[j]] + (word[j + 1..] + after)
  {
  }

  lemma HeadIsPrefix(head: string, tail: string, line: string)
    requires line == head + tail && |head| == TITLE_MAX + 1
    ensures |line| > TITLE_MAX && line[..TITLE_HEAD] == head[..TITLE_HEAD]
  {
  }

  method NormalizePromptTitle(text: string) returns (r: string)
    ensures r == Title(text)
  {
    var decisive := TITLE_MAX + 1;
    var head := "";
    var glyphs: nat := 0;
    var words := Words(text);
    ghost var line, tail := Collapse(text), Collapse(text);
    WordsAreNotEmpty(text);
    label walk:
    for i := 0 to |words|
      invariant glyphs == |head| < decisive && (glyphs > 0 <==> i > 0)
      invariant line == head + tail && tail == JoinRest(words, i)
    {
      JoinRestStep(words, i);
      var word := words[i];
      assert word in words;
      ghost var after := JoinRest(words, i + 1);
      if glyphs > 0 {
        Push(head, ' ', word + after);
        head := head + [' '];
        glyphs := glyphs + 1;
        tail := word + after;
        if glyphs == decisive {
          break walk;
        }
      }
      assert word[0..] == word;
      for j := 0 to |word|
        invariant glyphs == |head| < decisive && (j > 0 ==> glyphs > 0)
        invariant line == head + tail && tail == word[j..] + after
      {
        PushFromWord(head, word, j, after);
        head := head + [word[j]];
        glyphs := glyphs + 1;
        tail := word[j + 1..] + after;
        if glyphs == decisive {
          break walk;
        }
      }
      assert tail == after;
    }
    if glyphs < decisive {
      return head;
    }
    HeadIsPrefix(head, tail, line);
    var kept := head[..TITLE_HEAD];
    r := TrimEnd(kept) + [ELLIPSIS];
  }

  /**
   * A title is the prompt on one line if that has at most 72 glyphs, and otherwise an ellipsis
   * after as much of its first 69 as does not end in a space; it is empty exactly for a blank one.
   */
  lemma TitleFits(text: string)
    ensures |Title(text)| <= 72
    ensures |Collapse(text)| <= 72 ==> Title(text) == Collapse(text)
    ensures |Collapse(text)| > 72 ==>
              exists n: nat ::
                && n <= 69 && Title(text) == Collapse(text)[..n] + ['\U{2026}']
                && (forall k :: n <= k < 69 ==> IsWhitespace(Collapse(text)[k]))
                && (n > 0 ==> !IsWhitespace(Collapse(text)[n - 1]))
    ensures Title(text) == "" <==> IsBlank(text)
  {
    var line := Collapse(text);
    WalkIsCollapse(text, false);
    WalkBlank(text, false, false);
    if |line| > TITLE_MAX {
      var head := line[..TITLE_HEAD];
      TrimEndMeans(head);
      var n := |TrimEnd(head)|;
      assert line[..n] == head[..n] && forall k :: n <= k < TITLE_HEAD ==> line[k] == head[k];
    }
  }
}
