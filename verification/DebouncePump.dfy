/**
 * Burst debouncing as a protocol of three actors: a producer of signals, the debounce thread, and
 * the pump that drains its output and applies. Each step of an actor is atomic, an actor with
 * nothing to do stays where it is, and the actors interleave in any order.
 */
module DebouncePump {
  import opened Runs

  datatype Actor = Producer | Debouncer | Pump

  datatype Mark = Signal | Output | Applied

  datatype DebounceAt = Receiving | Sleeping | Draining | Sending

  datatype PumpAt = Waiting | Emptying | Applying

  /** Both channels carry only units, so a count is a queue; `log` is history. */
  datatype State = State(raw: nat, debounce: DebounceAt, out: nat, pump: PumpAt, log: seq<Mark>)

  const START := State(0, Receiving, 0, Waiting, [])

  function Produced(s: State): State { s.(raw := s.raw + 1, log := s.log + [Signal]) }

  function Debounced(s: State): State {
    match s.debounce
    case Receiving => if s.raw == 0 then s else s.(raw := s.raw - 1, debounce := Sleeping)
    case Sleeping => s.(debounce := Draining)
    case Draining => if s.raw == 0 then s.(debounce := Sending) else s.(raw := s.raw - 1)
    case Sending => s.(debounce := Receiving, out := s.out + 1, log := s.log + [Output])
  }

  function Pumped(s: State): State {
    match s.pump
    case Waiting => if s.out == 0 then s else s.(out := s.out - 1, pump := Emptying)
    case Emptying => if s.out == 0 then s.(pump := Applying) else s.(out := s.out - 1)
    case Applying => s.(pump := Waiting, log := s.log + [Applied])
  }

  function Step(s: State, a: Actor): State {
    match a
    case Producer => Produced(s)
    case Debouncer => Debounced(s)
    case Pump => Pumped(s)
  }

  function Run(s: State, actors: seq<Actor>): State { FoldWith(Step, s, actors) }

  // Nothing is lost.

  function Count(log: seq<Mark>, m: Mark): nat {
    if log == [] then 0 else Count(log[..|log| - 1], m) + if log[|log| - 1] == m then 1 else 0
  }

  lemma {:induction false} CountsMarks(log: seq<Mark>, m: Mark)
    ensures Count(log, m) == multiset(log)[m]
  {
    if log != [] {
      var n := |log| - 1;
      CountsMarks(log[..n], m);
      assert log == log[..n] + [log[n]];
    }
  }

  /** A signal came after the last apply. */
  predicate Stale(log: seq<Mark>) {
    log != [] && (log[|log| - 1] == Signal || (log[|log| - 1] == Output && Stale(log[..|log| - 1])))
  }

  predicate InFlight(s: State) { s.raw > 0 || s.out > 0 || !s.debounce.Receiving? || !s.pump.Waiting? }

  predicate Sound(s: State) {
    && (Stale(s.log) ==> InFlight(s))
    && Count(s.log, Output) + s.raw + (if s.debounce.Receiving? then 0 else 1) <= Count(s.log, Signal)
    && Count(s.log, Applied) + s.out + (if s.pump.Waiting? then 0 else 1) <= Count(s.log, Output)
  }

  lemma Logged(log: seq<Mark>, m: Mark, n: Mark)
    ensures Count(log + [m], n) == Count(log, n) + if m == n then 1 else 0
    ensures Stale(log + [m]) <==> m == Signal || (m == Output && Stale(log))
  {
    assert (log + [m])[..|log|] == log;
  }

  lemma LoggedAll(log: seq<Mark>, m: Mark)
    ensures Count(log + [m], Signal) == Count(log, Signal) + if m == Signal then 1 else 0
    ensures Count(log + [m], Output) == Count(log, Output) + if m == Output then 1 else 0
    ensures Count(log + [m], Applied) == Count(log, Applied) + if m == Applied then 1 else 0
    ensures Stale(log + [m]) <==> m == Signal || (m == Output && Stale(log))
  {
    Logged(log, m, Signal);
    Logged(log, m, Output);
    Logged(log, m, Applied);
  }

  lemma ProducedIsSound(s: State)
    requires Sound(s)
    ensures Sound(Produced(s))
  {
    LoggedAll(s.log, Signal);
  }

  lemma DebouncedIsSound(s: State)
    requires Sound(s)
    ensures Sound(Debounced(s))
  {
    LoggedAll(s.log, Output);
  }

  lemma PumpedIsSound(s: State)
    requires Sound(s)
    ensures Sound(Pumped(s))
  {
    LoggedAll(s.log, Applied);
  }

  lemma StepKeepsSound(s: State, a: Actor)
    requires Sound(s)
    ensures Sound(Step(s, a))
  {
    match a {
      case Producer => ProducedIsSound(s);
      case Debouncer => DebouncedIsSound(s);
      case Pump => PumpedIsSound(s);
    }
  }

  lemma {:induction false} RunIsSound(s: State, actors: seq<Actor>)
    requires Sound(s)
    ensures Sound(Run(s, actors))
  {
    if actors != [] {
      var n := |actors| - 1;
      RunIsSound(s, actors[..n]);
      StepKeepsSound(Run(s, actors[..n]), actors[n]);
    }
  }

  ghost predicate Served(log: seq<Mark>) {
    forall i :: 0 <= i < |log| && log[i] == Signal ==> exists j :: i < j < |log| && log[j] == Applied
  }

  lemma {:induction false} ServedIffNotStale(log: seq<Mark>)
    ensures Served(log) <==> !Stale(log)
  {
    if log != [] {
      var n := |log| - 1;
      ServedIffNotStale(log[..n]);
      if log[n] == Output {
        if Served(log[..n]) {
          forall i | 0 <= i < |log| && log[i] == Signal ensures exists j :: i < j < |log| && log[j] == Applied {
            assert log[..n][i] == Signal;
            var j :| i < j < n && log[..n][j] == Applied;
            assert log[j] == Applied;
          }
        }
        if Served(log) {
          forall i | 0 <= i < n && log[..n][i] == Signal ensures exists j :: i < j < n && log[..n][j] == Applied {
            assert log[i] == Signal;
            var j :| i < j < |log| && log[j] == Applied;
            assert log[..n][j] == Applied;
          }
        }
      }
    }
  }

  /**
   * Over every interleaving: once both queues are empty and both loops idle, every signal has been
   * followed by an apply; and outputs never outnumber signals, nor applies outputs.
   */
  lemma NoLostReload(actors: seq<Actor>)
    ensures var s := Run(START, actors);
            && (!InFlight(s) ==> Served(s.log))
            && Count(s.log, Applied) <= Count(s.log, Output) <= Count(s.log, Signal)
  {
    RunIsSound(START, actors);
    ServedIffNotStale(Run(START, actors).log);
  }

  // And everything settles.

  /** Steps of the two loops that are still to be taken before both are idle. */
  function Work(s: State): nat {
    8 * s.raw + 4 * s.out
    + (match s.debounce case Receiving => 0 case Sleeping => 7 case Draining => 6 case Sending => 5)
    + (match s.pump case Waiting => 0 case Emptying => 2 case Applying => 1)
  }

  predicate CanStep(s: State, a: Actor) {
    match a
    case Producer => true
    case Debouncer => s.raw > 0 || !s.debounce.Receiving?
    case Pump => s.out > 0 || !s.pump.Waiting?
  }

  lemma WorkIsDone(s: State, a: Actor)
    requires a != Producer
    ensures Work(s) == 0 <==> !InFlight(s)
    ensures if CanStep(s, a) then Work(Step(s, a)) < Work(s) else Step(s, a) == s
  {
  }

  /** What one loop has to do, the other's steps leave for it. */
  lemma StaysAble(s: State, a: Actor, b: Actor)
    requires a != Producer && b != Producer && a != b && CanStep(s, a)
    ensures CanStep(Step(s, b), a)
  {
  }

  predicate LoopsOnly(actors: seq<Actor>) { forall k :: 0 <= k < |actors| ==> actors[k] != Producer }

  lemma {:induction false} WorkNeverGrows(s: State, actors: seq<Actor>)
    requires LoopsOnly(actors)
    ensures Work(Run(s, actors)) <= Work(s)
  {
    if actors != [] {
      var n := |actors| - 1;
      WorkNeverGrows(s, actors[..n]);
      WorkIsDone(Run(s, actors[..n]), actors[n]);
    }
  }

  lemma {:induction false} StillAble(s: State, actors: seq<Actor>, a: Actor)
    requires LoopsOnly(actors) && a != Producer && CanStep(s, a) && a !in actors
    ensures CanStep(Run(s, actors), a)
  {
    if actors != [] {
      var n := |actors| - 1;
      assert actors[n] in actors;
      assert forall k :: 0 <= k < n ==> actors[..n][k] in actors;
      StillAble(s, actors[..n], a);
      StaysAble(Run(s, actors[..n]), a, actors[n]);
    }
  }

  /** Turns of both loops with no new signal, each getting at least one. */
  predicate IsRound(actors: seq<Actor>) { LoopsOnly(actors) && Debouncer in actors && Pump in actors }

  lemma {:induction false} FirstTurn(actors: seq<Actor>, a: Actor) returns (k: nat)
    requires a in actors
    ensures k < |actors| && actors[k] == a && a !in actors[..k]
  {
    k := 0;
    while actors[k] != a
      invariant k < |actors| && a !in actors[..k] && a in actors[k..]
      decreases |actors| - k
    {
      k := k + 1;
    }
  }

  /** The first turn of a loop that has something to do gets it done. */
  lemma TurnWorks(s: State, before: seq<Actor>, a: Actor, after: seq<Actor>)
    requires LoopsOnly(before) && LoopsOnly(after) && a != Producer && a !in before && CanStep(s, a)
    ensures Work(Run(s, before + [a] + after)) < Work(s)
  {
    var v := Run(s, before);
    StillAble(s, before, a);
    WorkNeverGrows(s, before);
    WorkIsDone(v, a);
    FoldWithSnoc(Step, s, before, a);
    WorkNeverGrows(Step(v, a), after);
    FoldWithConcat(Step, s, before + [a], after);
  }

  lemma CutAtTurn(actors: seq<Actor>, k: nat)
    requires k < |actors| && LoopsOnly(actors)
    ensures LoopsOnly(actors[..k]) && LoopsOnly(actors[k + 1..])
            && actors == actors[..k] + [actors[k]] + actors[k + 1..]
  {
  }

  lemma RoundWorks(s: State, actors: seq<Actor>)
    requires IsRound(actors)
    ensures Work(s) > 0 ==> Work(Run(s, actors)) < Work(s)
  {
    if Work(s) > 0 {
      WorkIsDone(s, Pump);
      var a := if CanStep(s, Debouncer) then Debouncer else Pump;
      var k := FirstTurn(actors, a);
      CutAtTurn(actors, k);
      TurnWorks(s, actors[..k], a, actors[k + 1..]);
    }
  }

  function Flat(rounds: seq<seq<Actor>>): seq<Actor> {
    if rounds == [] then [] else Flat(rounds[..|rounds| - 1]) + rounds[|rounds| - 1]
  }

  lemma {:induction false} RoundsWork(s: State, rounds: seq<seq<Actor>>)
    requires forall k :: 0 <= k < |rounds| ==> IsRound(rounds[k])
    ensures Work(Run(s, Flat(rounds))) <= if Work(s) > |rounds| then Work(s) - |rounds| else 0
  {
    if rounds != [] {
      var n := |rounds| - 1;
      RoundsWork(s, rounds[..n]);
      RoundWorks(Run(s, Flat(rounds[..n])), rounds[n]);
      WorkNeverGrows(Run(s, Flat(rounds[..n])), rounds[n]);
      FoldWithConcat(Step, s, Flat(rounds[..n]), rounds[n]);
    }
  }

  /** After any run, once signals stop and both loops keep getting turns, every signal is followed by an apply. */
  lemma EverySignalIsServed(actors: seq<Actor>, rounds: seq<seq<Actor>>)
    requires forall k :: 0 <= k < |rounds| ==> IsRound(rounds[k])
    requires |rounds| >= Work(Run(START, actors))
    ensures !InFlight(Run(START, actors + Flat(rounds))) && Served(Run(START, actors + Flat(rounds)).log)
  {
    FoldWithConcat(Step, START, actors, Flat(rounds));
    RoundsWork(Run(START, actors), rounds);
    WorkIsDone(Run(START, actors + Flat(rounds)), Pump);
    NoLostReload(actors + Flat(rounds));
  }

  // Bursts collapse.

  function Turns(actors: seq<Actor>, a: Actor): nat {
    if actors == [] then 0
    else Turns(actors[..|actors| - 1], a) + if actors[|actors| - 1] == a then 1 else 0
  }

  predicate DebouncerIdle(s: State) { s.raw == 0 && s.debounce.Receiving? }

  predicate PumpIdle(s: State) { s.out == 0 && s.pump.Waiting? }

  /** Turns the debounce thread takes until it sends, with no new signal. */
  function UntilOutput(s: State): nat {
    match s.debounce case Receiving => s.raw + 3 case Sleeping => s.raw + 3 case Draining => s.raw + 2 case Sending => 1
  }

  /** Turns the pump takes until it applies, with no new output. */
  function UntilApply(s: State): nat {
    match s.pump case Waiting => s.out + 2 case Emptying => s.out + 2 case Applying => 1
  }

  /** An output is owed for the signals so far, and what is queued is part of the burst. */
  predicate OutputDue(s: State) {
    match s.debounce case Receiving => s.raw > 0 case Sleeping => true case Draining => true case Sending => s.raw == 0
  }

  predicate ApplyDue(s: State) {
    match s.pump case Waiting => s.out > 0 case Emptying => true case Applying => s.out == 0
  }

  /** After `turns` turns on one burst, `due` turns long, that found `was` outputs sent. */
  predicate OutputPhase(s: State, was: nat, due: nat, turns: nat) {
    if turns < due then OutputDue(s) && Count(s.log, Output) == was && UntilOutput(s) == due - turns
    else DebouncerIdle(s) && Count(s.log, Output) == was + 1
  }

  predicate ApplyPhase(s: State, was: nat, due: nat, turns: nat) {
    if turns < due then ApplyDue(s) && Count(s.log, Applied) == was && UntilApply(s) == due - turns
    else PumpIdle(s) && Count(s.log, Applied) == was + 1
  }

  lemma DebouncedPhase(s: State, was: nat, due: nat, turns: nat)
    requires OutputPhase(s, was, due, turns)
    ensures OutputPhase(Debounced(s), was, due, turns + 1)
  {
    LoggedAll(s.log, Output);
  }

  /** A step of the pump leaves the debounce thread's side as it is. */
  lemma PumpedApplies(s: State)
    ensures var t := Pumped(s);
            && t.raw == s.raw && t.debounce == s.debounce && Count(t.log, Output) == Count(s.log, Output)
            && Count(t.log, Signal) == Count(s.log, Signal)
  {
    LoggedAll(s.log, Applied);
  }

  lemma PumpedKeepsOutputPhase(s: State, was: nat, due: nat, turns: nat)
    requires OutputPhase(s, was, due, turns)
    ensures OutputPhase(Pumped(s), was, due, turns)
  {
    PumpedApplies(s);
  }

  lemma {:induction false} OutputPhases(s: State, was: nat, due: nat, actors: seq<Actor>)
    requires OutputPhase(s, was, due, 0) && LoopsOnly(actors)
    ensures OutputPhase(Run(s, actors), was, due, Turns(actors, Debouncer))
  {
    if actors != [] {
      var n := |actors| - 1;
      OutputPhases(s, was, due, actors[..n]);
      if actors[n] == Debouncer {
        DebouncedPhase(Run(s, actors[..n]), was, due, Turns(actors[..n], Debouncer));
      } else {
        PumpedKeepsOutputPhase(Run(s, actors[..n]), was, due, Turns(actors[..n], Debouncer));
      }
    }
  }

  lemma PumpedPhase(s: State, was: nat, due: nat, turns: nat)
    requires ApplyPhase(s, was, due, turns)
    ensures ApplyPhase(Pumped(s), was, due, turns + 1)
  {
    LoggedAll(s.log, Applied);
  }

  lemma ProducedKeepsApplyPhase(s: State, was: nat, due: nat, turns: nat)
    requires ApplyPhase(s, was, due, turns)
    ensures ApplyPhase(Produced(s), was, due, turns)
  {
    LoggedAll(s.log, Signal);
  }

  /** A step of the debounce thread either sends an output or leaves the pump's side as it is. */
  lemma DebouncedOutputs(s: State)
    ensures var t := Debounced(s);
            && t.pump == s.pump && Count(t.log, Applied) == Count(s.log, Applied)
            && Count(t.log, Signal) == Count(s.log, Signal)
            && t.out - s.out == Count(t.log, Output) - Count(s.log, Output) >= 0
  {
    LoggedAll(s.log, Output);
  }

  lemma StepOutputs(s: State, a: Actor)
    ensures Count(Step(s, a).log, Output) >= Count(s.log, Output)
    ensures a != Debouncer ==> Count(Step(s, a).log, Output) == Count(s.log, Output)
  {
    DebouncedOutputs(s);
    LoggedAll(s.log, Signal);
    LoggedAll(s.log, Applied);
  }

  lemma {:induction false} OutputsNeverUndone(s: State, actors: seq<Actor>)
    ensures Count(Run(s, actors).log, Output) >= Count(s.log, Output)
  {
    if actors != [] {
      var n := |actors| - 1;
      OutputsNeverUndone(s, actors[..n]);
      StepOutputs(Run(s, actors[..n]), actors[n]);
    }
  }

  lemma {:induction false} ApplyPhases(s: State, was: nat, due: nat, actors: seq<Actor>)
    requires ApplyPhase(s, was, due, 0) && Count(Run(s, actors).log, Output) == Count(s.log, Output)
    ensures ApplyPhase(Run(s, actors), was, due, Turns(actors, Pump))
  {
    if actors != [] {
      var n := |actors| - 1;
      var w := Run(s, actors[..n]);
      OutputsNeverUndone(s, actors[..n]);
      StepOutputs(w, actors[n]);
      ApplyPhases(s, was, due, actors[..n]);
      match actors[n] {
        case Producer => ProducedKeepsApplyPhase(w, was, due, Turns(actors[..n], Pump));
        case Debouncer => DebouncedOutputs(w);
        case Pump => PumpedPhase(w, was, due, Turns(actors[..n], Pump));
      }
    }
  }

  lemma {:induction false} SignalsQueue(s: State, n: nat)
    ensures var t := Run(s, Repeat(Producer, n));
            t.raw == s.raw + n && t.debounce == s.debounce && Count(t.log, Output) == Count(s.log, Output)
  {
    if n == 0 {
      assert Repeat(Producer, n) == [];
    } else {
      SignalsQueue(s, n - 1);
      assert Repeat(Producer, n) == Repeat(Producer, n - 1) + [Producer];
      FoldWithSnoc(Step, s, Repeat(Producer, n - 1), Producer);
      LoggedAll(Run(s, Repeat(Producer, n - 1)).log, Signal);
    }
  }

  /**
   * A burst of any length is one output: `n` signals that reach an idle debounce thread, and then
   * any turns of the loops, give exactly one once it has had `n + 3` of them, and none before.
   */
  lemma BurstIsOneOutput(s: State, n: nat, actors: seq<Actor>)
    requires DebouncerIdle(s) && n > 0 && LoopsOnly(actors)
    ensures var t := Run(s, Repeat(Producer, n) + actors);
            && Count(t.log, Output) == Count(s.log, Output) + (if Turns(actors, Debouncer) >= n + 3 then 1 else 0)
            && (Turns(actors, Debouncer) >= n + 3 ==> DebouncerIdle(t))
  {
    FoldWithConcat(Step, s, Repeat(Producer, n), actors);
    SignalsQueue(s, n);
    OutputPhases(Run(s, Repeat(Producer, n)), Count(s.log, Output), n + 3, actors);
  }

  /**
   * Any number of outputs queued for an idle pump are answered by one apply, once it has had two
   * turns more than that, and by none before, whatever else happens but new outputs.
   */
  lemma OutputsAreOneApply(s: State, actors: seq<Actor>)
    requires s.pump.Waiting? && s.out > 0 && Count(Run(s, actors).log, Output) == Count(s.log, Output)
    ensures var t := Run(s, actors);
            && Count(t.log, Applied) == Count(s.log, Applied) + (if Turns(actors, Pump) >= s.out + 2 then 1 else 0)
            && (Turns(actors, Pump) >= s.out + 2 ==> PumpIdle(t))
  {
    ApplyPhases(s, Count(s.log, Applied), s.out + 2, actors);
  }

  /** Over any run, both drains end only when their queue is empty. */
  lemma DrainsEndEmpty(actors: seq<Actor>, k: nat)
    requires k < |actors|
    ensures var s, t := Run(START, actors[..k]), Run(START, actors[..k + 1]);
            && (s.debounce.Draining? && !t.debounce.Draining? ==> s.raw == 0)
            && (s.pump.Emptying? && !t.pump.Emptying? ==> s.out == 0)
  {
    assert actors[..k + 1] == actors[..k] + [actors[k]];
    FoldWithSnoc(Step, START, actors[..k], actors[k]);
  }

  /** The debounce thread has been idle, or owes the output for every signal so far, or has sent one. */
  predicate Burst(s: State, outputs: nat, signals: nat) {
    Count(s.log, Output) > outputs
    || (Count(s.log, Output) == outputs
        && if Count(s.log, Signal) == signals then DebouncerIdle(s)
           else s.debounce.Sending? || OutputDue(s))
  }

  lemma ProducedKeepsBurst(s: State, outputs: nat, signals: nat)
    requires Burst(s, outputs, signals) && Count(s.log, Signal) >= signals
    ensures Burst(Produced(s), outputs, signals) && Count(Produced(s).log, Signal) >= signals
  {
    LoggedAll(s.log, Signal);
  }

  lemma DebouncedKeepsBurst(s: State, outputs: nat, signals: nat)
    requires Burst(s, outputs, signals) && Count(s.log, Signal) >= signals
    ensures Burst(Debounced(s), outputs, signals) && Count(Debounced(s).log, Signal) >= signals
  {
    DebouncedOutputs(s);
  }

  lemma PumpedKeepsBurst(s: State, outputs: nat, signals: nat)
    requires Burst(s, outputs, signals) && Count(s.log, Signal) >= signals
    ensures Burst(Pumped(s), outputs, signals) && Count(Pumped(s).log, Signal) >= signals
  {
    PumpedApplies(s);
  }

  lemma StepKeepsBurst(s: State, a: Actor, outputs: nat, signals: nat)
    requires Burst(s, outputs, signals) && Count(s.log, Signal) >= signals
    ensures Burst(Step(s, a), outputs, signals) && Count(Step(s, a).log, Signal) >= signals
  {
    match a {
      case Producer => ProducedKeepsBurst(s, outputs, signals);
      case Debouncer => DebouncedKeepsBurst(s, outputs, signals);
      case Pump => PumpedKeepsBurst(s, outputs, signals);
    }
  }

  lemma {:induction false} RunKeepsBurst(s: State, actors: seq<Actor>)
    requires DebouncerIdle(s)
    ensures Burst(Run(s, actors), Count(s.log, Output), Count(s.log, Signal))
    ensures Count(Run(s, actors).log, Signal) >= Count(s.log, Signal)
  {
    if actors != [] {
      var n := |actors| - 1;
      RunKeepsBurst(s, actors[..n]);
      StepKeepsBurst(Run(s, actors[..n]), actors[n], Count(s.log, Output), Count(s.log, Signal));
    }
  }

  lemma {:induction false} SignalsNeverUndone(s: State, actors: seq<Actor>)
    ensures Count(Run(s, actors).log, Signal) == Count(s.log, Signal) + Turns(actors, Producer)
  {
    if actors != [] {
      var n := |actors| - 1;
      var w := Run(s, actors[..n]);
      SignalsNeverUndone(s, actors[..n]);
      DebouncedOutputs(w);
      LoggedAll(w.log, Signal);
      LoggedAll(w.log, Applied);
    }
  }

  /**
   * However signals and turns interleave: all signals that reach an idle debounce thread before
   * its drain ends are one output, sent exactly when it has had the turns that were left.
   */
  lemma SignalsBeforeDrainEndAreOneOutput(s: State, before: seq<Actor>, after: seq<Actor>)
    requires DebouncerIdle(s) && Turns(before, Producer) > 0 && LoopsOnly(after)
    requires !Run(s, before).debounce.Sending? && Count(Run(s, before).log, Output) == Count(s.log, Output)
    ensures var t := Run(s, before + after);
            && Count(t.log, Output) - Count(s.log, Output)
                 == (if Turns(after, Debouncer) >= UntilOutput(Run(s, before)) then 1 else 0)
            && (DebouncerIdle(t) ==> Count(t.log, Output) == Count(s.log, Output) + 1)
  {
    var w := Run(s, before);
    RunKeepsBurst(s, before);
    SignalsNeverUndone(s, before);
    FoldWithConcat(Step, s, before, after);
    OutputPhases(w, Count(s.log, Output), UntilOutput(w), after);
  }

  /** What an idle pump makes of at most one output. */
  predicate OneOutput(s: State, outputs: nat, applies: nat) {
    var sent := Count(s.log, Output);
    && sent >= outputs
    && (sent == outputs ==> PumpIdle(s) && Count(s.log, Applied) == applies)
    && (sent == outputs + 1 ==>
          if ApplyDue(s) then s.pump.Waiting? ==> s.out == 1 else PumpIdle(s))
    && (sent == outputs + 1 ==> Count(s.log, Applied) == applies + if ApplyDue(s) then 0 else 1)
    && (sent == outputs + 1 && !s.pump.Waiting? ==> s.out == 0)
  }

  lemma StepKeepsOneOutput(s: State, a: Actor, outputs: nat, applies: nat)
    requires OneOutput(s, outputs, applies)
    ensures OneOutput(Step(s, a), outputs, applies)
  {
    DebouncedOutputs(s);
    LoggedAll(s.log, Signal);
    LoggedAll(s.log, Applied);
  }

  lemma {:induction false} RunKeepsOneOutput(s: State, actors: seq<Actor>)
    requires PumpIdle(s)
    ensures OneOutput(Run(s, actors), Count(s.log, Output), Count(s.log, Applied))
  {
    if actors != [] {
      var n := |actors| - 1;
      RunKeepsOneOutput(s, actors[..n]);
      StepKeepsOneOutput(Run(s, actors[..n]), actors[n], Count(s.log, Output), Count(s.log, Applied));
    }
  }

  /**
   * End to end: a burst that starts when everything is idle, and whose last signal comes before
   * the drain ends, is applied exactly once by the time everything is idle again.
   */
  lemma BurstAppliesOnce(s: State, before: seq<Actor>, after: seq<Actor>)
    requires !InFlight(s) && Turns(before, Producer) > 0 && LoopsOnly(after)
    requires !Run(s, before).debounce.Sending? && Count(Run(s, before).log, Output) == Count(s.log, Output)
    ensures var t := Run(s, before + after);
            && Count(t.log, Applied) <= Count(s.log, Applied) + 1
            && (!InFlight(t) ==> Count(t.log, Applied) == Count(s.log, Applied) + 1)
  {
    SignalsBeforeDrainEndAreOneOutput(s, before, after);
    RunKeepsOneOutput(s, before + after);
  }
}
