/** What folding a whole log means: each field of the tally, read off the records without the fold. */
module ActivityFold {
  import opened Text
  import opened Json
  import opened ActivityLog
  import opened ActivityRecords
  import opened Runs

  function Fold(format: Format, clock: Clock, t: Tally, rs: seq<Value>): Tally {
    FoldWith((s, r) => Step(format, clock, s, r), t, rs)
  }

  lemma FoldOne(format: Format, clock: Clock, t: Tally, r: Value)
    ensures Fold(format, clock, t, [r]) == Step(format, clock, t, r)
  {
    FoldWithOne((s, r) => Step(format, clock, s, r), t, r);
  }

  lemma FoldConcat(format: Format, clock: Clock, t: Tally, a: seq<Value>, b: seq<Value>)
    ensures Fold(format, clock, t, a + b) == Fold(format, clock, Fold(format, clock, t, a), b)
  {
    FoldWithConcat((s, r) => Step(format, clock, s, r), t, a, b);
  }

  // The reference reading of a list of records.

  function FirstOf<T>(rs: seq<Value>, pick: Value -> Option<T>): Option<T> {
    if rs == [] then None else Or(pick(rs[0]), FirstOf(rs[1..], pick))
  }

  function LastOf<T>(rs: seq<Value>, pick: Value -> Option<T>): Option<T> {
    if rs == [] then None else Or(LastOf(rs[1..], pick), pick(rs[0]))
  }

  ghost predicate IsMaximum(m: Option<int>, rs: seq<Value>, pick: Value -> Option<int>) {
    match m
    case None => forall k :: 0 <= k < |rs| ==> pick(rs[k]) == None
    case Some(top) =>
      && (exists k :: 0 <= k < |rs| && pick(rs[k]) == Some(top))
      && (forall k :: 0 <= k < |rs| && pick(rs[k]).Some? ==> pick(rs[k]).value <= top)
  }

  /** Records that are a turn on `date`. */
  function Turns(format: Format, clock: Clock, rs: seq<Value>, date: string): nat {
    if rs == [] then 0
    else (if IsTurn(format, clock, rs[0], date) then 1 else 0) + Turns(format, clock, rs[1..], date)
  }

  /** Tokens the records of `date` report. */
  function Tokens(format: Format, clock: Clock, rs: seq<Value>, date: string): nat {
    if rs == [] then 0 else TokensIn(format, clock, rs[0], date) + Tokens(format, clock, rs[1..], date)
  }

  lemma {:induction false} FirstOfSnoc<T>(rs: seq<Value>, r: Value, pick: Value -> Option<T>)
    ensures FirstOf(rs + [r], pick) == Or(FirstOf(rs, pick), pick(r))
  {
    if rs == [] {
      assert rs + [r] == [r];
      assert FirstOf([r][1..], pick) == None;
    } else {
      assert (rs + [r])[1..] == rs[1..] + [r];
      FirstOfSnoc(rs[1..], r, pick);
    }
  }

  lemma {:induction false} LastOfSnoc<T>(rs: seq<Value>, r: Value, pick: Value -> Option<T>)
    ensures LastOf(rs + [r], pick) == Or(pick(r), LastOf(rs, pick))
  {
    if rs == [] {
      assert rs + [r] == [r];
      assert LastOf([r][1..], pick) == None;
    } else {
      assert (rs + [r])[1..] == rs[1..] + [r];
      LastOfSnoc(rs[1..], r, pick);
    }
  }

  lemma {:induction false} CountsSnoc(format: Format, clock: Clock, rs: seq<Value>, r: Value, date: string)
    ensures Turns(format, clock, rs + [r], date)
              == Turns(format, clock, rs, date) + if IsTurn(format, clock, r, date) then 1 else 0
    ensures Tokens(format, clock, rs + [r], date)
              == Tokens(format, clock, rs, date) + TokensIn(format, clock, r, date)
  {
    if rs == [] {
      assert rs + [r] == [r] && [r][1..] == [];
    } else {
      assert (rs + [r])[1..] == rs[1..] + [r];
      CountsSnoc(format, clock, rs[1..], r, date);
    }
  }

  /** No record is both a turn and a carrier of tokens. */
  lemma TurnsCarryNoTokens(format: Format, clock: Clock, r: Value)
    ensures TurnDate(format, clock, r).Some?
            ==> TokenDelta(format, r) == 0 && TurnDate(format, clock, r) == DateOf(clock, r)
  {
  }

  lemma StepDay(format: Format, clock: Clock, t: Tally, r: Value, date: string)
    ensures DayOf(Step(format, clock, t, r), date) == DayCounts(
              DayOf(t, date).turns + if IsTurn(format, clock, r, date) then 1 else 0,
              DayOf(t, date).tokens + TokensIn(format, clock, r, date))
    ensures date in Step(format, clock, t, r).days
            <==> date in t.days || IsTurn(format, clock, r, date) || TokensIn(format, clock, r, date) > 0
  {
    TurnDateIs(format, clock, r, date);
    TokenDeltaIs(format, clock, r, date);
    TurnsCarryNoTokens(format, clock, r);
  }

  lemma SnocSplits(rs: seq<Value>) returns (init: seq<Value>, r: Value)
    requires rs != []
    ensures rs == init + [r] && init == rs[..|rs| - 1] && r == rs[|rs| - 1]
  {
    init, r := rs[..|rs| - 1], rs[|rs| - 1];
  }

  /** A day's turns and tokens are the sums over the records of that day; a day is listed only when it has some. */
  lemma {:induction false} DaysMeaning(format: Format, clock: Clock, rs: seq<Value>, date: string)
    ensures var t := Fold(format, clock, EMPTY, rs);
            && DayOf(t, date) == DayCounts(Turns(format, clock, rs, date), Tokens(format, clock, rs, date))
            && (date in t.days <==> Turns(format, clock, rs, date) + Tokens(format, clock, rs, date) > 0)
    decreases |rs|
  {
    if rs != [] {
      var init, r := SnocSplits(rs);
      DaysMeaning(format, clock, init, date);
      CountsSnoc(format, clock, init, r, date);
      StepDay(format, clock, Fold(format, clock, EMPTY, init), r, date);
    }
  }

  /** The title is the last custom title if there is one, else the last generated one. */
  lemma {:induction false} TitleMeaning(format: Format, clock: Clock, rs: seq<Value>)
    ensures var t, custom := Fold(format, clock, EMPTY, rs), LastOf(rs, r => CustomTitle(format, r));
            && t.title == (if custom.Some? then custom else LastOf(rs, r => AiTitle(format, r)))
            && t.titleIsCustom == custom.Some?
    decreases |rs|
  {
    if rs != [] {
      var init, r := SnocSplits(rs);
      TitleMeaning(format, clock, init);
      LastOfSnoc(init, r, r => CustomTitle(format, r));
      LastOfSnoc(init, r, r => AiTitle(format, r));
      assert CustomTitle(format, r).Some? ==> AiTitle(format, r).None?;
    }
  }

  /** Session id and directory are the first ones seen; prompt preview and branch the last. */
  lemma {:induction false} SessionMeaning(format: Format, clock: Clock, rs: seq<Value>)
    ensures var t := Fold(format, clock, EMPTY, rs);
            && t.sessionId == FirstOf(rs, r => SessionIdOf(format, clock, r))
            && t.cwd == FirstOf(rs, r => CwdOf(format, clock, r))
            && t.promptPreview == LastOf(rs, r => PromptOf(format, clock, r))
            && t.gitBranch == LastOf(rs, r => BranchOf(format, clock, r))
    decreases |rs|
  {
    if rs != [] {
      var init, r := SnocSplits(rs);
      SessionMeaning(format, clock, init);
      FirstOfSnoc(init, r, r => SessionIdOf(format, clock, r));
      FirstOfSnoc(init, r, r => CwdOf(format, clock, r));
      LastOfSnoc(init, r, r => PromptOf(format, clock, r));
      LastOfSnoc(init, r, r => BranchOf(format, clock, r));
    }
  }

  lemma MaximumSnoc(m: Option<int>, rs: seq<Value>, r: Value, pick: Value -> Option<int>)
    requires IsMaximum(m, rs, pick)
    ensures IsMaximum(Latest(pick(r), m), rs + [r], pick)
  {
    var all, top := rs + [r], Latest(pick(r), m);
    assert all[|rs|] == r;
    if top.Some? {
      if pick(r) == top {
        assert pick(all[|rs|]) == top;
      } else {
        var k :| 0 <= k < |rs| && pick(rs[k]) == top;
        assert pick(all[k]) == top;
      }
    }
  }

  /** Last activity is the maximum timestamp, whatever order the records come in. */
  lemma {:induction false} ActivityMeaning(format: Format, clock: Clock, rs: seq<Value>)
    ensures IsMaximum(Fold(format, clock, EMPTY, rs).lastActiveMs, rs, r => ActiveMs(format, clock, r))
    decreases |rs|
  {
    if rs != [] {
      var init, r := SnocSplits(rs);
      ActivityMeaning(format, clock, init);
      MaximumSnoc(Fold(format, clock, EMPTY, init).lastActiveMs, init, r, r => ActiveMs(format, clock, r));
    }
  }
}
