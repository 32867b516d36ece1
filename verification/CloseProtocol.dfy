/**
  The close protocol of a relayed connection (route/conn.go): two copy directions share one
  atomic `done` flag, and the close callback is guarded by its swap.

  A packet connection calls back from the direction that swaps first, a stream from one that
  swaps later. Before the copies of a stream start, each direction may run an early
  handshake; one that fails swaps the flag too, and the copies start all the same.
*/
module CloseProtocol {
  import opened Lists

  datatype Kind = Packet | Stream

  datatype Direction = Upload | Download

  /** `early` is a call from a failed handshake, before the copies. */
  datatype Caller = Early(direction: Direction) | Copy(direction: Direction)

  datatype Side = Copying | Calling | Finished

  datatype Phase = HandshakeUp | HandshakeDown | Running

  /** `failures` counts failed handshakes, `swaps` lists the directions in the order in which their
      copies swapped, `calls` the callbacks made; `closed` says that both connections were closed. */
  datatype State = State(
    phase: Phase, up: Side, down: Side, done: bool, failures: nat,
    swaps: seq<Direction>, calls: seq<Caller>, closed: bool)

  /** `failed` marks the exit of a stream copy with an error, while it writes cached payload, copies or closes
      the other side for writing. */
  datatype Event =
    | Handshake(fails: bool)
    | Swap(direction: Direction, failed: bool)
    | Call(direction: Direction)

  function Init(k: Kind): State {
    State(if k.Packet? then Running else HandshakeUp, Copying, Copying, false, 0, [], [], false)
  }

  function SideOf(s: State, d: Direction): Side {
    if d.Upload? then s.up else s.down
  }

  function WithSide(s: State, d: Direction, x: Side): State {
    if d.Upload? then s.(up := x) else s.(down := x)
  }

  predicate Enabled(k: Kind, s: State, e: Event) {
    match e
    case Handshake(_) => !s.phase.Running?
    case Swap(d, _) => s.phase.Running? && SideOf(s, d).Copying?
    case Call(d) => s.phase.Running? && SideOf(s, d).Calling?
  }

  function Apply(k: Kind, s: State, e: Event): State
    requires Enabled(k, s, e)
  {
    match e
    case Handshake(fails) =>
      var d := if s.phase.HandshakeUp? then Upload else Download;
      var t := s.(phase := if s.phase.HandshakeUp? then HandshakeDown else Running);
      if !fails then t
      else t.(done := true, failures := s.failures + 1, closed := true,
              calls := if s.done then s.calls + [Early(d)] else s.calls)
    case Swap(d, failed) =>
      var calls := if k.Packet? then !s.done else s.done;
      var closes := k.Packet? || failed || s.done;
      WithSide(s.(done := true, swaps := s.swaps + [d], closed := s.closed || closes), d, if calls then Calling else Finished)
    case Call(d) => WithSide(s.(calls := s.calls + [Copy(d)]), d, Finished)
  }

  predicate CanRun(k: Kind, s: State, es: seq<Event>)
    decreases |es|
  {
    es == [] || (Enabled(k, s, es[0]) && CanRun(k, Apply(k, s, es[0]), es[1..]))
  }

  function After(k: Kind, s: State, es: seq<Event>): State
    requires CanRun(k, s, es)
    decreases |es|
  {
    if es == [] then s else After(k, Apply(k, s, es[0]), es[1..])
  }

  /** Callbacks due: decided by a swap, not yet made. */
  function Pending(s: State): nat {
    (if s.up.Calling? then 1 else 0) + (if s.down.Calling? then 1 else 0)
  }

  /** How many callbacks the swaps so far ask for. */
  function Due(k: Kind, s: State): nat {
    if k.Packet? then (if |s.swaps| > 0 then 1 else 0)
    else if s.failures + |s.swaps| > 0 then s.failures + |s.swaps| - 1 else 0
  }

  predicate Inv(k: Kind, s: State) {
    && (k.Packet? ==> s.phase.Running? && s.failures == 0)
    && (s.phase.HandshakeUp? ==> s.failures == 0) && (s.phase.HandshakeDown? ==> s.failures <= 1) && s.failures <= 2
    && (!s.phase.Running? ==> s.swaps == [])
    && (s.done <==> s.failures + |s.swaps| > 0)
    && NoDuplicates(s.swaps)
    && (forall d :: d in s.swaps <==> !SideOf(s, d).Copying?)
    && |s.calls| + Pending(s) == Due(k, s)
    && (k.Packet? ==> forall d :: SideOf(s, d).Calling? || Copy(d) in s.calls ==> s.swaps != [] && s.swaps[0] == d)
    && (s.failures == 0 ==> forall d :: Early(d) !in s.calls)
    && (k.Stream? && s.failures == 0 ==>
          forall d :: SideOf(s, d).Calling? || Copy(d) in s.calls ==> |s.swaps| == 2 && s.swaps[1] == d)
    && (k.Packet? && s.swaps != [] ==> s.closed)
    && (k.Stream? && (|s.swaps| == 2 || s.failures > 0) ==> s.closed)
  }

  /** There are two directions. */
  lemma TwoDirections(s: seq<Direction>)
    requires NoDuplicates(s)
    ensures |s| <= 2
    ensures |s| == 2 <==> Upload in s && Download in s
    ensures |s| == 0 <==> Upload !in s && Download !in s
  {
    ElementCount(s);
    forall d | d in s ensures d in {Upload, Download} {
      match d case Upload => case Download =>
    }
    SubsetCount(Elements(s), {Upload, Download});
    if |s| == 0 {
    } else {
      assert s[0] in s;
    }
  }

  lemma HandshakeInv(k: Kind, s: State, fails: bool)
    requires Inv(k, s) && Enabled(k, s, Handshake(fails))
    ensures Inv(k, Apply(k, s, Handshake(fails)))
  {
    assert s.up.Copying? && s.down.Copying? by {
      assert Upload !in s.swaps && Download !in s.swaps;
    }
  }

  lemma SwapInv(k: Kind, s: State, d: Direction, failed: bool)
    requires Inv(k, s) && Enabled(k, s, Swap(d, failed))
    ensures Inv(k, Apply(k, s, Swap(d, failed)))
  {
    TwoDirections(s.swaps);
    assert d !in s.swaps;
    AppendUnique(s.swaps, d);
    TwoDirections(s.swaps + [d]);
  }

  lemma CallInv(k: Kind, s: State, d: Direction)
    requires Inv(k, s) && Enabled(k, s, Call(d))
    ensures Inv(k, Apply(k, s, Call(d)))
  {
  }

  lemma StepInv(k: Kind, s: State, e: Event)
    requires Inv(k, s) && Enabled(k, s, e)
    ensures Inv(k, Apply(k, s, e))
  {
    match e
    case Handshake(fails) => HandshakeInv(k, s, fails);
    case Swap(d, failed) => SwapInv(k, s, d, failed);
    case Call(d) => CallInv(k, s, d);
  }

  lemma {:induction false} RunInv(k: Kind, s: State, es: seq<Event>)
    requires Inv(k, s) && CanRun(k, s, es)
    ensures Inv(k, After(k, s, es))
    decreases |es|
  {
    if es == [] {
    } else {
      StepInv(k, s, es[0]);
      RunInv(k, Apply(k, s, es[0]), es[1..]);
    }
  }

  /** Both copies have come to an end. */
  predicate Ended(s: State) {
    s.phase.Running? && s.up.Finished? && s.down.Finished?
  }

  /** A packet connection calls back exactly once, from the direction that finished first, and never
      more than once on the way; in the end both connections are closed. */
  lemma PacketCallsBackOnce(es: seq<Event>)
    requires CanRun(Packet, Init(Packet), es)
    ensures
      var s := After(Packet, Init(Packet), es);
      && |s.calls| <= 1
      && (Ended(s) ==> |s.swaps| == 2 && s.calls == [Copy(s.swaps[0])] && s.closed)
  {
    assert Inv(Packet, Init(Packet));
    RunInv(Packet, Init(Packet), es);
    var s := After(Packet, Init(Packet), es);
    TwoDirections(s.swaps);
    if Ended(s) {
      FirstCall(Packet, s);
    }
  }

  lemma FirstCall(k: Kind, s: State)
    requires Inv(k, s) && Ended(s) && |s.calls| == 1 && s.failures == 0
    ensures |s.swaps| == 2 && s.calls == [Copy(s.swaps[if k.Packet? then 0 else 1])]
  {
    TwoDirections(s.swaps);
    var c := s.calls[0];
    assert c in s.calls;
    assert c.Early? ==> Early(c.direction) !in s.calls;
    assert Copy(c.direction) in s.calls;
  }

  /** How many early handshakes of a run failed. */
  function FailedHandshakes(es: seq<Event>): nat {
    if es == [] then 0 else (if es[0] == Handshake(true) then 1 else 0) + FailedHandshakes(es[1..])
  }

  lemma {:induction false} FailuresAreCounted(k: Kind, s: State, es: seq<Event>)
    requires CanRun(k, s, es)
    ensures After(k, s, es).failures == s.failures + FailedHandshakes(es)
    decreases |es|
  {
    if es == [] {
    } else {
      FailuresAreCounted(k, Apply(k, s, es[0]), es[1..]);
    }
  }

  /** A stream has called back once, and once more for every early handshake that failed, when both
      copies have ended: exactly once if and only if no handshake failed, and then from the direction
      that finished last. */
  lemma StreamCallsBack(es: seq<Event>)
    requires CanRun(Stream, Init(Stream), es)
    ensures
      var s := After(Stream, Init(Stream), es);
      Ended(s) ==>
        && |s.swaps| == 2 && |s.calls| == 1 + FailedHandshakes(es) && s.closed
        && (|s.calls| == 1 <==> FailedHandshakes(es) == 0)
        && (FailedHandshakes(es) == 0 ==> s.calls == [Copy(s.swaps[1])])
  {
    assert Inv(Stream, Init(Stream));
    RunInv(Stream, Init(Stream), es);
    FailuresAreCounted(Stream, Init(Stream), es);
    var s := After(Stream, Init(Stream), es);
    TwoDirections(s.swaps);
    if Ended(s) && s.failures == 0 {
      FirstCall(Stream, s);
    }
  }

  /** A stream whose upload handshake fails and whose copies then end calls back twice. */
  lemma FailedHandshakeCallsBackTwice()
    ensures
      var es := [Handshake(true), Handshake(false), Swap(Upload, false), Call(Upload), Swap(Download, false), Call(Download)];
      CanRun(Stream, Init(Stream), es) && After(Stream, Init(Stream), es).calls == [Copy(Upload), Copy(Download)]
  {
    var s1 := Apply(Stream, Init(Stream), Handshake(true));
    var s2 := Apply(Stream, s1, Handshake(false));
    var s3 := Apply(Stream, s2, Swap(Upload, false));
    var s4 := Apply(Stream, s3, Call(Upload));
    var s5 := Apply(Stream, s4, Swap(Download, false));
    var s6 := Apply(Stream, s5, Call(Download));
    var e6: seq<Event> := [];
    assert CanRun(Stream, s6, e6) && After(Stream, s6, e6) == s6;
    var e5 := Prepend(Stream, s5, Call(Download), e6);
    var e4 := Prepend(Stream, s4, Swap(Download, false), e5);
    var e3 := Prepend(Stream, s3, Call(Upload), e4);
    var e2 := Prepend(Stream, s2, Swap(Upload, false), e3);
    var e1 := Prepend(Stream, s1, Handshake(false), e2);
    var e0 := Prepend(Stream, Init(Stream), Handshake(true), e1);
    assert e0 == [Handshake(true), Handshake(false), Swap(Upload, false), Call(Upload), Swap(Download, false), Call(Download)];
  }

  lemma Prepend(k: Kind, s: State, e: Event, es: seq<Event>) returns (r: seq<Event>)
    requires Enabled(k, s, e) && CanRun(k, Apply(k, s, e), es)
    ensures r == [e] + es && CanRun(k, s, r) && After(k, s, r) == After(k, Apply(k, s, e), es)
  {
    r := [e] + es;
    assert r[1..] == es;
  }

  /** Some early handshake or some copy of the run failed. */
  predicate AnyFailure(es: seq<Event>) {
    es != [] && (es[0] == Handshake(true) || (es[0].Swap? && es[0].failed) || AnyFailure(es[1..]))
  }

  lemma {:induction false} ClosedFrom(s: State, es: seq<Event>)
    requires Inv(Stream, s) && CanRun(Stream, s, es)
    ensures After(Stream, s, es).closed <==> s.closed || AnyFailure(es) || |After(Stream, s, es).swaps| == 2
    decreases |es|
  {
    if es == [] {
      TwoDirections(s.swaps);
    } else {
      StepInv(Stream, s, es[0]);
      var t := Apply(Stream, s, es[0]);
      TwoDirections(s.swaps);
      TwoDirections(t.swaps);
      ClosedFrom(t, es[1..]);
      SwapsStay(Stream, t, es[1..]);
    }
  }

  lemma {:induction false} SwapsStay(k: Kind, s: State, es: seq<Event>)
    requires Inv(k, s) && CanRun(k, s, es)
    ensures s.swaps <= After(k, s, es).swaps && |After(k, s, es).swaps| <= 2
    decreases |es|
  {
    TwoDirections(s.swaps);
    if es == [] {
    } else {
      StepInv(k, s, es[0]);
      SwapsStay(k, Apply(k, s, es[0]), es[1..]);
    }
  }

  /** A stream is closed in both directions exactly when something failed or both copies have ended: one
      direction that ends well leaves the other one open. */
  lemma StreamClosedExactlyWhen(es: seq<Event>)
    requires CanRun(Stream, Init(Stream), es)
    ensures
      var s := After(Stream, Init(Stream), es);
      s.closed <==> AnyFailure(es) || |s.swaps| == 2
  {
    assert Inv(Stream, Init(Stream));
    ClosedFrom(Init(Stream), es);
  }

  /** A packet connection is closed exactly when a direction has ended. */
  lemma {:induction false} PacketClosedExactlyWhen(s: State, es: seq<Event>)
    requires Inv(Packet, s) && CanRun(Packet, s, es) && (s.closed <==> s.swaps != [])
    ensures After(Packet, s, es).closed <==> After(Packet, s, es).swaps != []
    decreases |es|
  {
    if es == [] {
    } else {
      StepInv(Packet, s, es[0]);
      PacketClosedExactlyWhen(Apply(Packet, s, es[0]), es[1..]);
    }
  }

  /** Neither direction is held up by the other: a copy can end either way while the other one copies on, a
      callback that is due can be made, and a handshake can end either way. */
  lemma NobodyIsHeldUp(k: Kind, s: State, d: Direction, fails: bool)
    ensures !s.phase.Running? ==> Enabled(k, s, Handshake(fails))
    ensures s.phase.Running? && SideOf(s, d).Copying? ==>
              Enabled(k, s, Swap(d, fails)) && Apply(k, s, Swap(d, fails)).swaps == s.swaps + [d]
    ensures s.phase.Running? && SideOf(s, d).Calling? ==>
              Enabled(k, s, Call(d)) && Apply(k, s, Call(d)).calls == s.calls + [Copy(d)]
  {
  }

  /** The upload handshake comes first and finds nobody done, so only a failed download handshake can call back
      before the copies. */
  lemma {:induction false} EarlyCallIsTheDownload(s: State, es: seq<Event>)
    requires CanRun(Stream, s, es) && Early(Upload) !in s.calls && (s.phase.HandshakeUp? ==> !s.done)
    ensures Early(Upload) !in After(Stream, s, es).calls
    decreases |es|
  {
    if es == [] {
    } else {
      EarlyCallIsTheDownload(Apply(Stream, s, es[0]), es[1..]);
    }
  }

  /** It does so exactly when both handshakes failed. */
  lemma BothHandshakes(up: bool, down: bool)
    ensures
      var s := Apply(Stream, Init(Stream), Handshake(up));
      var t := Apply(Stream, s, Handshake(down));
      t.phase == Running && t.calls == if up && down then [Early(Download)] else []
  {
  }
}
