/** The ids a flattened transcript gives subagents and their tool calls, and the parent link it stamps on them. */
module FlatIds {
  import opened Json
  import opened Text

  type Meta = map<string, Value>

  const DARUDA_META_KEY := "daruda"
  const PARENT_TOOL_ID_META_KEY := "parentToolId"
  const MARK := ":tool:"

  function ParentToolId(session: string): string { "subagent:" + session }

  function ChildToolId(session: string, id: string): string { "subagent:" + session + MARK + id }

  function WithParentToolId(meta: Option<Meta>, parent: string): Meta {
    (if meta.Some? then meta.value else map[])[DARUDA_META_KEY := Object(map[PARENT_TOOL_ID_META_KEY := Str(parent)])]
  }

  /** `parent_tool_id` of the default adapter: daruda's own namespace wins over Claude's. */
  function ReadParent(meta: Option<Meta>): Option<string> {
    if meta.None? then None
    else
      var own :=
        if DARUDA_META_KEY in meta.value
        then AsStr(Get(meta.value[DARUDA_META_KEY], PARENT_TOOL_ID_META_KEY))
        else None;
      if own.Some? then own
      else if "claudeCode" in meta.value then AsStr(Get(meta.value["claudeCode"], "parentToolUseId"))
      else None
  }

  /** The stamp reads back, whatever else the agent put there, and everything else it put there stays. */
  lemma StampReadsBack(meta: Option<Meta>, parent: string)
    ensures ReadParent(Some(WithParentToolId(meta, parent))) == Some(parent)
    ensures WithParentToolId(meta, parent) - {DARUDA_META_KEY}
         == (if meta.Some? then meta.value else map[]) - {DARUDA_META_KEY}
  {
  }

  // When ids collide.

  predicate OccursAt(s: string, i: nat, pattern: string) { i + |pattern| <= |s| && s[i..i + |pattern|] == pattern }

  ghost predicate Occurs(s: string, pattern: string) { exists i: nat :: OccursAt(s, i, pattern) }

  /** A session id in which no tool call id can be taken to begin, not even across its end. */
  ghost predicate Clean(session: string) { !Occurs(session + ":", MARK) }

  lemma OccursIffSplits(s: string, pattern: string)
    ensures Occurs(s, pattern) <==> exists u, v :: s == u + pattern + v
  {
    if Occurs(s, pattern) {
      var i: nat :| OccursAt(s, i, pattern);
      assert s == s[..i] + pattern + s[i + |pattern|..];
    }
    if u, v :| s == u + pattern + v {
      assert OccursAt(s, |u|, pattern);
    }
  }

  lemma SamePrefix(a: string, x: string, b: string, y: string)
    requires |a| <= |b| && a + x == b + y
    ensures b == a + x[..|b| - |a|] && x == x[..|b| - |a|] + y
  {
    var w, d := a + x, |b| - |a|;
    assert w[..|b|] == b && w[|b|..] == y && w[|a|..] == x;
    assert w[|b|..] == x[d..] && w[..|b|] == a + x[..d];
  }

  /**
   * Two readings of one string as session, mark and id differ only if the longer session holds a
   * mark or breaks one.
   */
  lemma LongerSessionIsUnclean(s: string, t: string, u: string, v: string)
    requires s + MARK + t == u + MARK + v && |s| < |u|
    ensures !Clean(u)
  {
    var w, n := u + MARK + v, |s|;
    assert forall k :: 0 <= k < 6 ==> w[n + k] == MARK[k] by { assert w == s + MARK + t; }
    assert w[|u|] == ':' && (|u| < n + 6 ==> w[n + (|u| - n)] == MARK[|u| - n]);
    assert n + 6 <= |u| + 1;
    assert (u + ":")[n..n + 6] == MARK;
    assert OccursAt(u + ":", n, MARK);
  }

  lemma AsTail(session: string, id: string)
    ensures ChildToolId(session, id) == "subagent:" + (session + MARK + id)
  {
  }

  lemma TailsAgree(s: string, t: string, u: string, v: string)
    requires ChildToolId(s, t) == ChildToolId(u, v)
    ensures s + MARK + t == u + MARK + v
  {
    AsTail(s, t);
    AsTail(u, v);
    SamePrefix("subagent:", s + MARK + t, "subagent:", u + MARK + v);
  }

  /** Among clean sessions, a flattened tool call id names one session and one id in it. */
  lemma ChildToolIdInjective(s: string, t: string, u: string, v: string)
    requires Clean(s) && Clean(u) && ChildToolId(s, t) == ChildToolId(u, v)
    ensures s == u && t == v
  {
    TailsAgree(s, t, u, v);
    if |s| < |u| {
      LongerSessionIsUnclean(s, t, u, v);
    } else if |u| < |s| {
      LongerSessionIsUnclean(u, v, s, t);
    } else {
      AppendAssoc(s, MARK, t);
      AppendAssoc(u, MARK, v);
      SamePrefix(s, MARK + t, u, MARK + v);
      SamePrefix(MARK, t, MARK, v);
    }
  }

  /** An unclean session shares a tool call id with a shorter one. */
  lemma UncleanCollides(s: string, t: string) returns (u: string, v: string)
    requires !Clean(s)
    ensures |u| < |s| && ChildToolId(s, t) == ChildToolId(u, v)
  {
    OccursIffSplits(s + ":", MARK);
    var rest: string;
    u, rest :| s + ":" == u + MARK + rest;
    v := (rest + "tool:" + t);
    calc {
      s + MARK + t;
      { assert MARK == ":" + "tool:"; }
      (s + ":") + "tool:" + t;
      (u + MARK + rest) + "tool:" + t;
      u + MARK + v;
    }
    AsTail(s, t);
    AsTail(u, v);
  }

  /** A session is clean exactly when none of its tool call ids could also be that of a shorter session. */
  lemma CleanIffApartFromShorter(s: string)
    ensures Clean(s) <==> forall t, u, v :: |u| < |s| ==> ChildToolId(s, t) != ChildToolId(u, v)
  {
    if Clean(s) {
      forall t, u, v | |u| < |s| ensures ChildToolId(s, t) != ChildToolId(u, v) {
        if ChildToolId(s, t) == ChildToolId(u, v) {
          TailsAgree(s, t, u, v);
          LongerSessionIsUnclean(u, v, s, t);
        }
      }
    } else {
      var u, v := UncleanCollides(s, "");
    }
  }

  /** A subagent's own id is also some child tool call's id exactly when its session id holds the mark. */
  lemma ParentIdIsChildIdIff(c: string)
    ensures (exists s, t :: ParentToolId(c) == ChildToolId(s, t)) <==> Occurs(c, MARK)
  {
    OccursIffSplits(c, MARK);
    if s, t :| ParentToolId(c) == ChildToolId(s, t) {
      AsTail(s, t);
      SamePrefix("subagent:", c, "subagent:", s + MARK + t);
      assert c == s + MARK + t;
    }
    if u, v :| c == u + MARK + v {
      AsTail(u, v);
      assert ParentToolId(c) == ChildToolId(u, v);
    }
  }

  lemma CleanHoldsNoMark(c: string)
    requires Clean(c)
    ensures !Occurs(c, MARK)
  {
    if i: nat :| OccursAt(c, i, MARK) {
      assert (c + ":")[i..i + 6] == c[i..i + 6];
      assert OccursAt(c + ":", i, MARK);
    }
  }

  lemma ParentToolIdInjective(c: string, d: string)
    requires ParentToolId(c) == ParentToolId(d)
    ensures c == d
  {
    SamePrefix("subagent:", c, "subagent:", d);
  }
}
