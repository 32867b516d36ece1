/**
  The dial races of common/dialer.

  Several racers dial at the same time and hand their result to the dialling call
  over an unbuffered channel; a fallback timer launches the second group of racers.
  A run is a sequence of events, so "every interleaving" is "every sequence of enabled
  events". The receive on the unbuffered channel is one event: it needs a racer with
  a result and a main loop that is still waiting.
*/
module ParallelDial {

  import opened Lists

  /** The three loops: interfaces with a timer, interfaces all at once, and address families. */
  datatype Variant = InterfaceRace | FastFallback | NetworkRace

  /** Racers `0 .. primaries` are primary, the next `fallbacks` ones are fallback. */
  datatype Config = Config(variant: Variant, primaries: nat, fallbacks: nat) {
    function Racers(): nat { primaries + fallbacks }

    /** The family race always has one racer per family; the others take what was selected. */
    predicate Valid() { variant.NetworkRace? ==> primaries == 1 && fallbacks == 1 }

    predicate HasTimer() { !variant.FastFallback? && fallbacks > 0 }
  }

  datatype Racer = Idle | Dialing | HasConn | HasErr | Done

  /** `Fired` means that the tick waits in the channel; `Drained` that the loop took it. */
  datatype Timer = NoTimer | Armed(immediate: bool) | Fired | Drained

  /** `errors` is the slice of the interface races, `primary` and `fallback` the two
      result variables of the family race. */
  datatype MainLoop =
    | Waiting(errors: seq<nat>, primary: Option<nat>, fallback: Option<nat>)
    | ReturnedConn(racer: nat, isPrimary: bool)
    | ReturnedErr(errors: seq<nat>)

  /** `conns`, `failed`, `received` and `closed` record what happened: connections made,
      dials that failed, errors the loop took, and connection closes in order. A connection
      is named by the racer that made it. */
  datatype State = State(
    racers: seq<Racer>, timer: Timer, main: MainLoop,
    conns: set<nat>, failed: set<nat>, received: set<nat>, closed: seq<nat>)

  /** `stopWins` says what `Stop` reports for a timer whose tick was not yet taken. */
  datatype Event =
    | DialOk(i: nat)
    | DialFail(i: nat)
    | TimerFires
    | LaunchFallbacks
    | Receive(i: nat, stopWins: bool)
    | Abandon(i: nat)

  function Init(c: Config): State {
    State(seq(c.Racers(), i => if i < c.primaries || c.variant.FastFallback? then Dialing else Idle),
          if c.HasTimer() then Armed(false) else NoTimer,
          if c.Racers() == 0 then ReturnedErr([]) else Waiting([], None, None),
          {}, {}, {}, [])
  }

  predicate Enabled(c: Config, s: State, e: Event) {
    match e
    case DialOk(i) => i < |s.racers| && s.racers[i].Dialing?
    case DialFail(i) => i < |s.racers| && s.racers[i].Dialing?
    case TimerFires => s.timer.Armed? && s.main.Waiting?
    case LaunchFallbacks => s.timer.Fired? && s.main.Waiting?
    case Receive(i, _) => s.main.Waiting? && i < |s.racers| && (s.racers[i].HasConn? || s.racers[i].HasErr?)
    case Abandon(i) => !s.main.Waiting? && i < |s.racers| && (s.racers[i].HasConn? || s.racers[i].HasErr?)
  }

  /** `fallbackTimer.Stop()` followed, when it reports true, by `Reset(0)`. */
  function StopAndReset(t: Timer, stopWins: bool): Timer {
    match t
    case Armed(_) => Armed(true)
    case Fired => if stopWins then Armed(true) else Fired
    case _ => t
  }

  function Apply(c: Config, s: State, e: Event): State
    requires Enabled(c, s, e)
  {
    match e
    case DialOk(i) => s.(racers := s.racers[i := HasConn], conns := s.conns + {i})
    case DialFail(i) => s.(racers := s.racers[i := HasErr], failed := s.failed + {i})
    case TimerFires => s.(timer := Fired)
    case LaunchFallbacks =>
      s.(timer := Drained,
         racers := seq(|s.racers|, i requires 0 <= i < |s.racers| => if i < c.primaries then s.racers[i] else Dialing))
    case Receive(i, stopWins) =>
      var t := s.(racers := s.racers[i := Done]);
      if s.racers[i].HasConn? then t.(main := ReturnedConn(i, i < c.primaries))
      else
        var main := TakeError(c, s.main, i);
        t.(main := main,
           received := s.received + {i},
           timer := if main.Waiting? && i < c.primaries then StopAndReset(s.timer, stopWins) else s.timer)
    case Abandon(i) =>
      s.(racers := s.racers[i := Done], closed := if s.racers[i].HasConn? then s.closed + [i] else s.closed)
  }

  /** What the loop does with an error: record it, and give up when nothing is left. */
  function TakeError(c: Config, m: MainLoop, i: nat): MainLoop
    requires m.Waiting?
  {
    if c.variant.NetworkRace? then
      var n := if i < c.primaries then m.(primary := Some(i)) else m.(fallback := Some(i));
      if n.primary.Some? && n.fallback.Some? then ReturnedErr([n.primary.value]) else n
    else
      var errors := m.errors + [i];
      if |errors| == c.Racers() then ReturnedErr(errors) else m.(errors := errors)
  }

  predicate CanRun(c: Config, s: State, es: seq<Event>)
    decreases |es|
  {
    es == [] || (Enabled(c, s, es[0]) && CanRun(c, Apply(c, s, es[0]), es[1..]))
  }

  function After(c: Config, s: State, es: seq<Event>): State
    requires CanRun(c, s, es)
    decreases |es|
  {
    if es == [] then s else After(c, Apply(c, s, es[0]), es[1..])
  }

  // ---------------------------------------------------------------- invariant

  /** The connection the call returned, as a set of at most one racer. */
  function Returned(m: MainLoop): set<nat> {
    if m.ReturnedConn? then {m.racer} else {}
  }

  /** What racer `i` has in hand agrees with the records kept about it. */
  predicate RacerOk(c: Config, s: State, i: nat)
    requires i < |s.racers|
  {
    match s.racers[i]
    case Idle => i >= c.primaries && i !in s.conns && i !in s.failed && (s.timer.Armed? || s.timer.Fired?)
    case Dialing => i !in s.conns && i !in s.failed
    case HasConn => i in s.conns && i !in s.failed && i !in s.closed && i !in Returned(s.main)
    case HasErr => i in s.failed && i !in s.conns && i !in s.received
    case Done =>
      if i in s.conns then i !in s.failed && (i in s.closed <==> i !in Returned(s.main))
      else i in s.failed && (s.main.Waiting? ==> i in s.received)
  }

  /** The loop's own records name exactly the racers whose error it took, each once, and it has
      given up exactly when these are all of them. */
  ghost predicate BookOk(c: Config, m: MainLoop, received: set<nat>) {
    match m
    case Waiting(errors, primary, fallback) =>
      && received < Indices(c)
      && (if c.variant.NetworkRace? then
            && (primary == if 0 in received then Some(0) else None)
            && (fallback == if 1 in received then Some(1) else None)
          else NoDuplicates(errors) && Elements(errors) == received)
    case ReturnedErr(errors) =>
      && received == Indices(c)
      && if c.variant.NetworkRace? then errors == [0] else NoDuplicates(errors) && Elements(errors) == received
    case ReturnedConn(_, _) => true
  }

  /** The loop has taken the error of a primary racer. */
  predicate PrimaryFailed(c: Config, s: State) {
    exists i :: i in s.received && i < c.primaries
  }

  ghost predicate MainOk(c: Config, s: State) {
    && BookOk(c, s.main, s.received)
    && match s.main
       case Waiting(_, _, _) =>
         s.closed == [] && (s.timer.Armed? ==> (s.timer.immediate <==> PrimaryFailed(c, s)))
       case ReturnedConn(k, isPrimary) =>
         k < |s.racers| && k in s.conns && s.racers[k].Done? && (isPrimary <==> k < c.primaries)
       case ReturnedErr(_) => true
  }

  function Indices(c: Config): set<nat> {
    Below(c.Racers())
  }

  /** Records about different things agree, and no fallback is out before the timer's tick. */
  ghost predicate RecordsOk(c: Config, s: State) {
    && |s.racers| == c.Racers()
    && (s.timer.NoTimer? <==> !c.HasTimer())
    && s.conns <= Indices(c) && s.failed <= Indices(c)
    && s.received <= s.failed
    && (forall i :: i in s.closed ==> i in s.conns && s.racers[i].Done?)
    && NoDuplicates(s.closed)
    && (c.HasTimer() && !s.timer.Drained? ==> forall i :: c.primaries <= i < |s.racers| ==> s.racers[i].Idle?)
  }

  ghost predicate Inv(c: Config, s: State) {
    && c.Valid()
    && RecordsOk(c, s)
    && (forall i :: 0 <= i < |s.racers| ==> RacerOk(c, s, i))
    && MainOk(c, s)
  }

  lemma InitInv(c: Config)
    requires c.Valid()
    ensures Inv(c, Init(c))
  {
    assert c.Racers() > 0 ==> 0 in Indices(c);
  }


  // ---------------------------------------------------------------- every step keeps it

  lemma DialStep(c: Config, s: State, e: Event)
    requires Inv(c, s) && Enabled(c, s, e) && (e.DialOk? || e.DialFail?)
    ensures Inv(c, Apply(c, s, e))
  {
    var s' := Apply(c, s, e);
    forall j | 0 <= j < |s'.racers| ensures RacerOk(c, s', j) {
      assert RacerOk(c, s, j);
    }
    assert RacerOk(c, s, e.i);
  }

  lemma TimerStep(c: Config, s: State, e: Event)
    requires Inv(c, s) && Enabled(c, s, e) && (e.TimerFires? || e.LaunchFallbacks?)
    ensures Inv(c, Apply(c, s, e))
  {
    var s' := Apply(c, s, e);
    forall j | 0 <= j < |s'.racers| ensures RacerOk(c, s', j) {
      assert RacerOk(c, s, j);
    }
  }

  lemma AbandonStep(c: Config, s: State, i: nat)
    requires Inv(c, s) && Enabled(c, s, Abandon(i))
    ensures Inv(c, Apply(c, s, Abandon(i)))
  {
    var s' := Apply(c, s, Abandon(i));
    assert RacerOk(c, s, i);
    forall j | 0 <= j < |s'.racers| ensures RacerOk(c, s', j) {
      assert RacerOk(c, s, j);
    }
    if s.racers[i].HasConn? {
      AppendUnique(s.closed, i);
    }
  }

  lemma ReceiveConnStep(c: Config, s: State, i: nat, stopWins: bool)
    requires Inv(c, s) && Enabled(c, s, Receive(i, stopWins)) && s.racers[i].HasConn?
    ensures Inv(c, Apply(c, s, Receive(i, stopWins)))
  {
    var s' := Apply(c, s, Receive(i, stopWins));
    assert RacerOk(c, s, i);
    forall j | 0 <= j < |s'.racers| ensures RacerOk(c, s', j) {
      assert RacerOk(c, s, j);
    }
  }

  lemma TakeNetworkError(c: Config, m: MainLoop, received: set<nat>, i: nat)
    requires c.Valid() && c.variant.NetworkRace? && m.Waiting? && BookOk(c, m, received) && i < 2 && i !in received
    ensures BookOk(c, TakeError(c, m, i), received + {i})
  {
    assert Indices(c) == {0, 1};
  }

  lemma TakeInterfaceError(c: Config, m: MainLoop, received: set<nat>, i: nat)
    requires !c.variant.NetworkRace? && m.Waiting? && BookOk(c, m, received) && i < c.Racers() && i !in received
    ensures BookOk(c, TakeError(c, m, i), received + {i})
  {
    assert i !in Elements(m.errors);
    AppendUnique(m.errors, i);
    ElementCount(m.errors + [i]);
    SubsetCount(received + {i}, Indices(c));
  }

  /** Taking the error of racer `i` keeps the records right: the loop gives up neither early nor late. */
  lemma TakeErrorStep(c: Config, m: MainLoop, received: set<nat>, i: nat)
    requires c.Valid() && m.Waiting? && BookOk(c, m, received) && i < c.Racers() && i !in received
    ensures BookOk(c, TakeError(c, m, i), received + {i}) && !TakeError(c, m, i).ReturnedConn?
  {
    if c.variant.NetworkRace? {
      TakeNetworkError(c, m, received, i);
    } else {
      TakeInterfaceError(c, m, received, i);
    }
  }

  lemma ReceiveErrRacer(c: Config, s: State, i: nat, stopWins: bool, j: nat)
    requires Enabled(c, s, Receive(i, stopWins)) && s.racers[i].HasErr?
    requires j < |s.racers| && RacerOk(c, s, i) && RacerOk(c, s, j)
    ensures RacerOk(c, Apply(c, s, Receive(i, stopWins)), j)
  {
    assert !TakeError(c, s.main, i).ReturnedConn?;
  }

  lemma ReceiveErrRecords(c: Config, s: State, i: nat, stopWins: bool)
    requires RecordsOk(c, s) && Enabled(c, s, Receive(i, stopWins)) && s.racers[i].HasErr? && RacerOk(c, s, i)
    ensures RecordsOk(c, Apply(c, s, Receive(i, stopWins)))
  {
    var s' := Apply(c, s, Receive(i, stopWins));
    assert s'.racers == s.racers[i := Done] && s'.received == s.received + {i};
    assert s'.closed == s.closed && s'.conns == s.conns && s'.failed == s.failed;
    assert s'.timer == s.timer || s'.timer == StopAndReset(s.timer, stopWins);
  }

  lemma ReceiveErrMain(c: Config, s: State, i: nat, stopWins: bool)
    requires Inv(c, s) && Enabled(c, s, Receive(i, stopWins)) && s.racers[i].HasErr?
    ensures MainOk(c, Apply(c, s, Receive(i, stopWins)))
  {
    assert RacerOk(c, s, i);
    TakeErrorStep(c, s.main, s.received, i);
  }

  lemma ReceiveErrStep(c: Config, s: State, i: nat, stopWins: bool)
    requires Inv(c, s) && Enabled(c, s, Receive(i, stopWins)) && s.racers[i].HasErr?
    ensures Inv(c, Apply(c, s, Receive(i, stopWins)))
  {
    ReceiveErrRecords(c, s, i, stopWins);
    ReceiveErrMain(c, s, i, stopWins);
    forall j | 0 <= j < |s.racers| ensures RacerOk(c, Apply(c, s, Receive(i, stopWins)), j) {
      ReceiveErrRacer(c, s, i, stopWins, j);
    }
  }

  lemma StepInv(c: Config, s: State, e: Event)
    requires Inv(c, s) && Enabled(c, s, e)
    ensures Inv(c, Apply(c, s, e))
  {
    match e
    case DialOk(_) => DialStep(c, s, e);
    case DialFail(_) => DialStep(c, s, e);
    case TimerFires => TimerStep(c, s, e);
    case LaunchFallbacks => TimerStep(c, s, e);
    case Abandon(i) => AbandonStep(c, s, i);
    case Receive(i, w) =>
      if s.racers[i].HasConn? { ReceiveConnStep(c, s, i, w); } else { ReceiveErrStep(c, s, i, w); }
  }

  lemma {:induction false} RunInv(c: Config, s: State, es: seq<Event>)
    requires Inv(c, s) && CanRun(c, s, es)
    ensures Inv(c, After(c, s, es))
    decreases |es|
  {
    if es == [] {
    } else {
      StepInv(c, s, es[0]);
      RunInv(c, Apply(c, s, es[0]), es[1..]);
    }
  }

  // ---------------------------------------------------------------- theorems

  /** Connections a racer still holds. */
  function Held(s: State): set<nat> {
    set i | 0 <= i < |s.racers| && s.racers[i].HasConn?
  }

  /** Every connection made is held by its racer, closed once, or the one that was returned, and
      only one of these. */
  ghost predicate Accounted(s: State) {
    && s.conns == Held(s) + Elements(s.closed) + Returned(s.main)
    && Held(s) !! Elements(s.closed)
    && Held(s) !! Returned(s.main)
    && Elements(s.closed) !! Returned(s.main)
    && NoDuplicates(s.closed)
    && (s.main.Waiting? ==> s.closed == [])
  }

  /** In every interleaving no connection is lost or closed twice. */
  lemma ConnectionsAreConserved(c: Config, es: seq<Event>)
    requires c.Valid() && CanRun(c, Init(c), es)
    ensures Accounted(After(c, Init(c), es))
  {
    InitInv(c);
    RunInv(c, Init(c), es);
    InvAccounts(c, After(c, Init(c), es));
  }

  lemma InvAccounts(c: Config, s: State)
    requires Inv(c, s)
    ensures Accounted(s)
  {
    forall i | i in s.conns || i in Held(s) || i in Elements(s.closed) || i in Returned(s.main)
      ensures OneFate(s, i)
    {
      HasOneFate(c, s, i);
    }
  }

  /** Connection `i` is held, closed or returned, exactly one of these, if it was made at all. */
  predicate OneFate(s: State, i: nat) {
    && (i in s.conns <==> i in Held(s) || i in s.closed || i in Returned(s.main))
    && !(i in Held(s) && i in s.closed) && !(i in Held(s) && i in Returned(s.main))
    && !(i in s.closed && i in Returned(s.main))
  }

  lemma HasOneFate(c: Config, s: State, i: nat)
    requires Inv(c, s) && i < |s.racers|
    ensures OneFate(s, i)
  {
    assert RacerOk(c, s, i);
  }

  /** Nothing can happen any more. */
  ghost predicate Quiescent(c: Config, s: State) {
    forall e :: !Enabled(c, s, e)
  }

  /** While the loop waits, a racer is still out or the timer will fire or has fired. */
  lemma NeverStuck(c: Config, es: seq<Event>)
    requires c.Valid() && CanRun(c, Init(c), es) && After(c, Init(c), es).main.Waiting?
    ensures
      var s := After(c, Init(c), es);
      && (s.timer.Armed? || s.timer.Fired?
          || exists i :: 0 <= i < |s.racers| && (s.racers[i].Dialing? || s.racers[i].HasConn? || s.racers[i].HasErr?))
      && !Quiescent(c, s)
  {
    InitInv(c);
    RunInv(c, Init(c), es);
    var s := After(c, Init(c), es);
    assert !(Indices(c) <= s.received);
    var i :| i in Indices(c) && i !in s.received;
    assert RacerOk(c, s, i);
    if s.timer.Armed? {
      assert Enabled(c, s, TimerFires);
    } else if s.timer.Fired? {
      assert Enabled(c, s, LaunchFallbacks);
    } else if s.racers[i].Dialing? {
      assert Enabled(c, s, DialOk(i));
    } else {
      assert Enabled(c, s, Receive(i, true));
    }
  }

  /** A dial can end either way at any time, also when the call has returned. */
  lemma DialsEndEitherWay(c: Config, s: State, i: nat)
    requires i < |s.racers| && s.racers[i].Dialing?
    ensures LeadsTo(c, s, DialOk(i), s.(racers := s.racers[i := HasConn], conns := s.conns + {i}))
    ensures LeadsTo(c, s, DialFail(i), s.(racers := s.racers[i := HasErr], failed := s.failed + {i}))
  {
  }

  /** Whatever the other racers do, a connection that is there is returned if the call waits, and closed if it
      has returned. */
  lemma ConnectionIsTakenAtOnce(c: Config, s: State, i: nat, stopWins: bool)
    requires i < |s.racers| && s.racers[i].HasConn?
    ensures s.main.Waiting? ==>
              LeadsTo(c, s, Receive(i, stopWins), s.(racers := s.racers[i := Done], main := ReturnedConn(i, i < c.primaries)))
    ensures !s.main.Waiting? ==> LeadsTo(c, s, Abandon(i), s.(racers := s.racers[i := Done], closed := s.closed + [i]))
  {
  }

  /** In every reachable state in which the call waits, an error that is there is taken, and the call gives up
      if and only if it was the last one. */
  lemma ErrorIsTakenAtOnce(c: Config, es: seq<Event>, i: nat, stopWins: bool)
    requires c.Valid() && CanRun(c, Init(c), es)
    requires
      var s := After(c, Init(c), es);
      s.main.Waiting? && i < |s.racers| && s.racers[i].HasErr?
    ensures
      var s := After(c, Init(c), es);
      && Enabled(c, s, Receive(i, stopWins))
      && var t := Apply(c, s, Receive(i, stopWins));
         && t.received == s.received + {i} && t.racers == s.racers[i := Done] && !t.main.ReturnedConn?
         && (t.main.ReturnedErr? <==> s.received + {i} == Indices(c))
         && (if !c.variant.NetworkRace? then t.main.errors == s.main.errors + [i]
             else t.main.Waiting? ==> t.main == if i == 0 then s.main.(primary := Some(0)) else s.main.(fallback := Some(1)))
  {
    InitInv(c);
    RunInv(c, Init(c), es);
    var s := After(c, Init(c), es);
    assert RacerOk(c, s, i);
    TakeErrorStep(c, s.main, s.received, i);
  }

  /** The event can happen and leads to `t`. */
  predicate LeadsTo(c: Config, s: State, e: Event, t: State) {
    Enabled(c, s, e) && Apply(c, s, e) == t
  }

  /** A connection that is there while the call waits makes a run that returns it, in every reachable state. */
  lemma WaitingCallReturnsAConnection(c: Config, es: seq<Event>, i: nat)
    requires c.Valid() && CanRun(c, Init(c), es)
    requires
      var s := After(c, Init(c), es);
      s.main.Waiting? && i < |s.racers| && s.racers[i].HasConn?
    ensures
      var s := After(c, Init(c), es);
      CanRun(c, s, [Receive(i, true)]) && After(c, s, [Receive(i, true)]).main == ReturnedConn(i, i < c.primaries)
  {
    var s := After(c, Init(c), es);
    ConnectionIsTakenAtOnce(c, s, i, true);
    assert [Receive(i, true)][1..] == [];
    assert CanRun(c, Apply(c, s, Receive(i, true)), []);
  }

  /** While the call waits, an armed timer can fire, and its tick launches all fallbacks and nobody else;
      nothing but the tick and a dial's own end changes what a racer does. */
  lemma TimerLaunchesTheFallbacks(c: Config, es: seq<Event>)
    requires c.Valid() && CanRun(c, Init(c), es) && After(c, Init(c), es).main.Waiting?
    ensures
      var s := After(c, Init(c), es);
      && (s.timer.Armed? ==> LeadsTo(c, s, TimerFires, s.(timer := Fired)))
      && (s.timer.Fired? ==>
            && Enabled(c, s, LaunchFallbacks)
            && var t := Apply(c, s, LaunchFallbacks);
               t == s.(timer := Drained, racers := t.racers) && |t.racers| == |s.racers|
               && forall i :: 0 <= i < |s.racers| ==> t.racers[i] == if i < c.primaries then s.racers[i] else Dialing)
  {
  }

  /** When a run has come to rest the call has returned: on success every connection but the
      returned one is closed exactly once, on failure all of them are. */
  lemma EveryConnectionIsReturnedOrClosed(c: Config, es: seq<Event>)
    requires c.Valid() && CanRun(c, Init(c), es) && Quiescent(c, After(c, Init(c), es))
    ensures
      var s := After(c, Init(c), es);
      && !s.main.Waiting?
      && NoDuplicates(s.closed)
      && (s.main.ReturnedConn? ==>
            s.main.racer in s.conns && s.main.racer !in s.closed && Elements(s.closed) == s.conns - {s.main.racer})
      && (s.main.ReturnedErr? ==> s.conns == {} && s.closed == [])
  {
    if After(c, Init(c), es).main.Waiting? {
      NeverStuck(c, es);
    }
    ConnectionsAreConserved(c, es);
    InitInv(c);
    RunInv(c, Init(c), es);
    var s := After(c, Init(c), es);
    if i :| i in Held(s) {
      assert Enabled(c, s, Abandon(i));
    }
    if s.main.ReturnedErr? {
      GivesUpLast(c, es);
      assert Elements(s.closed) == {};
      ElementCount(s.closed);
    }
  }

  /** The call reports failure only after every primary and every fallback dial has failed;
      the interface races report each of the errors once, the family race the primary one. */
  lemma GivesUpLast(c: Config, es: seq<Event>)
    requires c.Valid() && CanRun(c, Init(c), es) && After(c, Init(c), es).main.ReturnedErr?
    ensures
      var s := After(c, Init(c), es);
      && s.failed == Indices(c) && s.conns == {}
      && (if c.variant.NetworkRace? then s.main.errors == [0]
          else NoDuplicates(s.main.errors) && Elements(s.main.errors) == Indices(c))
  {
    InitInv(c);
    RunInv(c, Init(c), es);
    var s := After(c, Init(c), es);
    assert s.failed == Indices(c);
    forall i | i in Indices(c) ensures i !in s.conns {
      assert RacerOk(c, s, i);
    }
  }

  /** While the call waits, a timer that still runs has its full delay before a primary error was taken, and no
      delay from then on. */
  lemma PrimaryFailurePullsTheTimer(c: Config, es: seq<Event>)
    requires c.Valid() && CanRun(c, Init(c), es)
    ensures
      var s := After(c, Init(c), es);
      s.main.Waiting? && s.timer.Armed? ==> (s.timer == Armed(true) <==> exists i :: i in s.received && i < c.primaries)
  {
    InitInv(c);
    RunInv(c, Init(c), es);
  }

  function CountLaunches(es: seq<Event>): nat {
    if es == [] then 0 else (if es[0].LaunchFallbacks? then 1 else 0) + CountLaunches(es[1..])
  }

  /** The fallback racers of a timed race are launched at most once in a whole run,
      and none of them dials before that. */
  lemma FallbacksLaunchOnce(c: Config, es: seq<Event>)
    requires c.Valid() && CanRun(c, Init(c), es)
    ensures CountLaunches(es) <= 1
    ensures
      c.HasTimer() && CountLaunches(es) == 0 ==>
        var s := After(c, Init(c), es);
        forall i :: c.primaries <= i < |s.racers| ==> s.racers[i].Idle?
  {
    InitInv(c);
    LaunchesFrom(c, Init(c), es);
    RunInv(c, Init(c), es);
  }

  lemma {:induction false} LaunchesFrom(c: Config, s: State, es: seq<Event>)
    requires CanRun(c, s, es)
    ensures s.timer.Drained? || s.timer.NoTimer? ==> CountLaunches(es) == 0 && After(c, s, es).timer == s.timer
    ensures CountLaunches(es) <= 1
    ensures CountLaunches(es) == 0 && !s.timer.Drained? ==> !After(c, s, es).timer.Drained?
    decreases |es|
  {
    if es == [] {
    } else {
      LaunchesFrom(c, Apply(c, s, es[0]), es[1..]);
    }
  }

  // ---------------------------------------------------------------- every run ends

  function Weight(r: Racer): nat {
    match r
    case Idle => 4
    case Dialing => 3
    case HasConn => 2
    case HasErr => 2
    case Done => 0
  }

  function TimerWeight(t: Timer): nat {
    match t
    case Armed(_) => 2
    case Fired => 1
    case _ => 0
  }

  function TotalWeight(rs: seq<Racer>): nat {
    if rs == [] then 0 else Weight(rs[0]) + TotalWeight(rs[1..])
  }

  function Measure(s: State): nat {
    TotalWeight(s.racers) + TimerWeight(s.timer)
  }

  lemma {:induction false} WeightOfUpdate(rs: seq<Racer>, i: nat, r: Racer)
    requires i < |rs|
    ensures TotalWeight(rs[i := r]) == TotalWeight(rs) - Weight(rs[i]) + Weight(r)
  {
    if i == 0 {
      assert rs[0 := r][1..] == rs[1..];
    } else {
      WeightOfUpdate(rs[1..], i - 1, r);
      assert rs[i := r][1..] == rs[1..][i - 1 := r];
    }
  }

  lemma {:induction false} WeightMonotone(a: seq<Racer>, b: seq<Racer>)
    requires |a| == |b| && forall i :: 0 <= i < |a| ==> Weight(a[i]) <= Weight(b[i])
    ensures TotalWeight(a) <= TotalWeight(b)
  {
    if a == [] {
    } else {
      WeightMonotone(a[1..], b[1..]);
    }
  }

  lemma StepShrinks(c: Config, s: State, e: Event)
    requires RecordsOk(c, s) && Enabled(c, s, e)
    ensures Measure(Apply(c, s, e)) < Measure(s)
  {
    var s' := Apply(c, s, e);
    match e
    case DialOk(i) => WeightOfUpdate(s.racers, i, HasConn);
    case DialFail(i) => WeightOfUpdate(s.racers, i, HasErr);
    case TimerFires =>
    case LaunchFallbacks => WeightMonotone(s'.racers, s.racers);
    case Receive(i, w) =>
      WeightOfUpdate(s.racers, i, Done);
      assert s'.timer == s.timer || s'.timer == StopAndReset(s.timer, w);
    case Abandon(i) => WeightOfUpdate(s.racers, i, Done);
  }

  lemma {:induction false} WeightBound(rs: seq<Racer>)
    ensures TotalWeight(rs) <= 4 * |rs|
  {
    if rs == [] {
    } else {
      WeightBound(rs[1..]);
    }
  }

  /** Given that every dial comes back, no run is longer than four events a racer and two
      for the timer: with `NeverStuck`, every race ends. */
  lemma EveryRunEnds(c: Config, es: seq<Event>)
    requires c.Valid() && CanRun(c, Init(c), es)
    ensures |es| <= 4 * c.Racers() + 2
  {
    InitInv(c);
    RunShrinks(c, Init(c), es);
    WeightBound(Init(c).racers);
  }

  lemma {:induction false} RunShrinks(c: Config, s: State, es: seq<Event>)
    requires Inv(c, s) && CanRun(c, s, es)
    ensures |es| <= Measure(s)
    decreases |es|
  {
    if es == [] {
    } else {
      StepInv(c, s, es[0]);
      StepShrinks(c, s, es[0]);
      RunShrinks(c, Apply(c, s, es[0]), es[1..]);
    }
  }
}
