/**
  The staged start of a box (box.go, adapter/lifecycle.go and the four managers).

  A manager keeps its components, the stage it was last started with, and here also, for
  each component, the list of stages it was told to start with. `preset` components were
  registered before the start; a fallback component is created during the second stage.
*/
module Lifecycle {
  import opened Lists
  import StartOrder

  const INITIALIZE := 0
  const START := 1
  const POST_START := 2
  const STARTED := 3

  const STAGES: seq<nat> := [0, 1, 2, 3]

  datatype Manager = Manager(started: bool, stage: nat, components: seq<StartOrder.Component>, logs: seq<seq<nat>>, preset: nat)

  /** Whether a default component is there, missing, or to be created. */
  datatype Default = Present | Missing | Create(fallback: StartOrder.Component) | CreateFails {
    predicate Settles() { Present? || Create? }
  }

  datatype Outcome = Ok | Failed | AlreadyStarted | NilDereference

  /** What a box starts: services without components of their own, and the four managers. */
  datatype Service =
    | LogFactory | Internal | Network | DnsRouter | Connection | Router | Services
    | Outbounds | Transports | Inbounds | Endpoints

  datatype Call = Call(service: Service, stage: nat)

  /** The order in which a box starts everything. */
  function Planned(n: nat): Call
    requires n < 41
  {
    match n
    case 0 => Call(LogFactory, START)
    case 1 => Call(Internal, INITIALIZE)
    case 2 => Call(Network, INITIALIZE)
    case 3 => Call(Transports, INITIALIZE)
    case 4 => Call(DnsRouter, INITIALIZE)
    case 5 => Call(Connection, INITIALIZE)
    case 6 => Call(Router, INITIALIZE)
    case 7 => Call(Outbounds, INITIALIZE)
    case 8 => Call(Inbounds, INITIALIZE)
    case 9 => Call(Endpoints, INITIALIZE)
    case 10 => Call(Services, INITIALIZE)
    case 11 => Call(Outbounds, START)
    case 12 => Call(Transports, START)
    case 13 => Call(DnsRouter, START)
    case 14 => Call(Network, START)
    case 15 => Call(Connection, START)
    case 16 => Call(Router, START)
    case 17 => Call(Internal, START)
    case 18 => Call(Inbounds, START)
    case 19 => Call(Endpoints, START)
    case 20 => Call(Services, START)
    case 21 => Call(Outbounds, POST_START)
    case 22 => Call(Network, POST_START)
    case 23 => Call(Transports, POST_START)
    case 24 => Call(DnsRouter, POST_START)
    case 25 => Call(Connection, POST_START)
    case 26 => Call(Router, POST_START)
    case 27 => Call(Inbounds, POST_START)
    case 28 => Call(Endpoints, POST_START)
    case 29 => Call(Services, POST_START)
    case 30 => Call(Internal, POST_START)
    case 31 => Call(Network, STARTED)
    case 32 => Call(Transports, STARTED)
    case 33 => Call(DnsRouter, STARTED)
    case 34 => Call(Connection, STARTED)
    case 35 => Call(Router, STARTED)
    case 36 => Call(Outbounds, STARTED)
    case 37 => Call(Inbounds, STARTED)
    case 38 => Call(Endpoints, STARTED)
    case 39 => Call(Services, STARTED)
    case _ => Call(Internal, STARTED)
  }

  function Later(base: seq<Call>, calls: seq<Call>, i: nat): Call
    requires |base| + i < |calls|
  {
    calls[|base| + i]
  }

  /** Behind the calls `base`, exactly the first `n` of the plan were made, in order. */
  predicate MadeCalls(base: seq<Call>, calls: seq<Call>, n: nat) {
    && n <= 41 && |calls| == |base| + n && base <= calls
    && forall i {:trigger Later(base, calls, i)} :: 0 <= i < n ==> Later(base, calls, i) == Planned(i)
  }

  /** Between `lo` and `hi` of them. */
  ghost predicate MadeBetween(base: seq<Call>, calls: seq<Call>, lo: nat, hi: nat) {
    exists n :: lo <= n <= hi && MadeCalls(base, calls, n)
  }

  /** From the calls `before`, an initial piece of `plan` was made, all of it if `ok`. */
  predicate Follows(before: seq<Call>, after: seq<Call>, plan: seq<Call>, ok: bool) {
    before <= after && after <= before + plan && (ok ==> after == before + plan)
  }

  lemma FollowsThePlan(base: seq<Call>, before: seq<Call>, after: seq<Call>, plan: seq<Call>, k: nat, ok: bool)
    requires MadeCalls(base, before, k) && k + |plan| <= 41 && Follows(before, after, plan, ok)
    requires forall i :: 0 <= i < |plan| ==> plan[i] == Planned(k + i)
    ensures MadeBetween(base, after, k, k + |plan|) && (ok ==> MadeCalls(base, after, k + |plan|))
  {
    var n := |after| - |base|;
    forall i | 0 <= i < n ensures Later(base, after, i) == Planned(i) {
      if i < k {
        assert Later(base, after, i) == Later(base, before, i);
      } else {
        assert after[|base| + i] == (before + plan)[|base| + i];
      }
    }
    assert MadeCalls(base, after, n);
  }

  function RestPlan(stage: nat): seq<Call> {
    [Call(Inbounds, stage), Call(Endpoints, stage), Call(Services, stage)]
  }

  function DnsPlan(stage: nat): seq<Call> {
    [Call(Network, stage), Call(Transports, stage), Call(DnsRouter, stage), Call(Connection, stage), Call(Router, stage)]
  }

  function OthersPlan(): seq<Call> {
    [Call(DnsRouter, START), Call(Network, START), Call(Connection, START), Call(Router, START)]
  }

  /** Where these stand in the plan. */
  lemma PlansStandWhere(i: nat)
    ensures i < 3 ==> RestPlan(INITIALIZE)[i] == Planned(8 + i) && RestPlan(POST_START)[i] == Planned(27 + i) && RestPlan(STARTED)[i] == Planned(37 + i)
    ensures i < 5 ==> DnsPlan(INITIALIZE)[i] == Planned(2 + i) && DnsPlan(POST_START)[i] == Planned(22 + i) && DnsPlan(STARTED)[i] == Planned(31 + i)
    ensures i < 4 ==> OthersPlan()[i] == Planned(13 + i)
  {
  }

  predicate InPlan(plan: seq<Call>, k: nat) {
    || (plan == RestPlan(INITIALIZE) && k == 8) || (plan == RestPlan(POST_START) && k == 27) || (plan == RestPlan(STARTED) && k == 37)
    || (plan == DnsPlan(INITIALIZE) && k == 2) || (plan == DnsPlan(POST_START) && k == 22) || (plan == DnsPlan(STARTED) && k == 31)
    || (plan == OthersPlan() && k == 13)
  }

  lemma PlanAt(base: seq<Call>, before: seq<Call>, after: seq<Call>, plan: seq<Call>, k: nat, ok: bool)
    requires MadeCalls(base, before, k) && InPlan(plan, k) && Follows(before, after, plan, ok)
    ensures k + |plan| <= 41 && MadeBetween(base, after, k, k + |plan|) && (ok ==> MadeCalls(base, after, k + |plan|))
  {
    forall i | 0 <= i < |plan| ensures plan[i] == Planned(k + i) {
      PlansStandWhere(i);
    }
    FollowsThePlan(base, before, after, plan, k, ok);
  }

  lemma NextCall(base: seq<Call>, calls: seq<Call>, n: nat)
    requires n < 41 && MadeCalls(base, calls, n)
    ensures MadeCalls(base, calls + [Planned(n)], n + 1)
  {
    var more := calls + [Planned(n)];
    forall i | 0 <= i < n + 1 ensures Later(base, more, i) == Planned(i) {
      assert i < n ==> Later(base, more, i) == Later(base, calls, i);
    }
  }

  /** What a component has been told when its manager has gone through the first `n` stages. */
  function Expected(isPreset: bool, n: nat): seq<nat>
    requires n <= 4 && (isPreset || n >= 1)
  {
    if isPreset then STAGES[..n] else STAGES[1..n]
  }

  /** All components have been told exactly the first `n` stages. */
  ghost predicate AtLevel(m: Manager, n: nat)
    requires n <= 4
  {
    && |m.logs| == |m.components| && m.preset <= |m.logs|
    && (n == 0 ==> m.preset == |m.logs|)
    && forall i :: 0 <= i < |m.logs| ==> m.logs[i] == Expected(i < m.preset || n == 0, n)
  }

  /** A registered component was told an initial piece of the four stages, each once and in order;
      a fallback component an initial piece of the last three. */
  ghost predicate Prefixes(m: Manager) {
    && |m.logs| == |m.components| && m.preset <= |m.logs|
    && forall i :: 0 <= i < |m.logs| ==> m.logs[i] <= if i < m.preset then STAGES else STAGES[1..]
  }

  lemma LevelIsPrefix(m: Manager, n: nat)
    requires n <= 4 && AtLevel(m, n)
    ensures Prefixes(m)
  {
  }

  /** The guard in front of every manager's start. */
  predicate CanBegin(m: Manager, stage: nat) {
    !(m.started && m.stage >= stage)
  }

  /** Level `n`, last started with stage `s`, or not yet started when `s` is -1. */
  ghost predicate Is(m: Manager, n: nat, s: int)
    requires n <= 4
  {
    AtLevel(m, n) && m.started == (s >= 0) && (s >= 0 ==> m.stage == s)
  }

  /** Nothing that was registered is dropped. */
  ghost predicate Extends(a: Manager, b: Manager) {
    b.preset == a.preset && a.components <= b.components
  }

  function Begin(m: Manager, stage: nat): Manager {
    m.(started := true, stage := stage)
  }

  /** Told a stage, at the given positions. */
  ghost predicate Told(before: seq<seq<nat>>, after: seq<seq<nat>>, stage: nat, who: set<nat>) {
    |after| == |before|
    && forall i :: 0 <= i < |before| ==> after[i] == if i in who then before[i] + [stage] else before[i]
  }

  /** Telling some components the next stage keeps the order of stages; telling all of them
      brings the manager to the next level. */
  lemma TellNext(m: Manager, n: nat, logs: seq<seq<nat>>)
    requires n < 4 && AtLevel(m, n) && |logs| == |m.logs|
    requires forall i :: 0 <= i < |logs| ==> logs[i] == m.logs[i] || logs[i] == m.logs[i] + [n]
    ensures Prefixes(m.(logs := logs))
    ensures (forall i :: 0 <= i < |logs| ==> logs[i] == m.logs[i] + [n]) ==> AtLevel(m.(logs := logs), n + 1)
  {
    assert STAGES[..n] + [n] == STAGES[..n + 1] <= STAGES;
    assert n >= 1 ==> STAGES[1..n] + [n] == STAGES[1..n + 1] <= STAGES[1..];
  }

  ghost predicate NoneFails(cs: seq<StartOrder.Component>, stage: nat, fails: (nat, nat) -> bool) {
    forall i :: 0 <= i < |cs| ==> !fails(i, stage)
  }

  /** The components up to and including the first that fails, number `k`, have been told the stage, or all if
      none does; the others have not. */
  ghost predicate ToldUpTo(m: Manager, stage: nat, fails: (nat, nat) -> bool, k: nat, logs: seq<seq<nat>>) {
    && k <= |m.logs| && |logs| == |m.logs|
    && (forall j :: 0 <= j < k ==> !fails(j, stage)) && (k < |m.logs| ==> fails(k, stage))
    && forall j :: 0 <= j < |logs| ==> logs[j] == if j <= k then m.logs[j] + [stage] else m.logs[j]
  }

  /** `LegacyStart` on each component until one fails. */
  method StartEach(m: Manager, stage: nat, fails: (nat, nat) -> bool) returns (ok: bool, out: Manager)
    requires stage < 4 && AtLevel(m, stage)
    ensures out == m.(logs := out.logs)
    ensures ok <==> NoneFails(m.components, stage, fails)
    ensures ok ==> AtLevel(out, stage + 1)
    ensures exists k :: ToldUpTo(m, stage, fails, k, out.logs) && (ok <==> k == |m.logs|)
    ensures Prefixes(out)
  {
    var logs := m.logs;
    for i := 0 to |m.logs|
      invariant |logs| == |m.logs|
      invariant forall j :: 0 <= j < i ==> !fails(j, stage)
      invariant forall j :: 0 <= j < |logs| ==> logs[j] == if j < i then m.logs[j] + [stage] else m.logs[j]
    {
      logs := logs[i := logs[i] + [stage]];
      if fails(i, stage) {
        TellNext(m, stage, logs);
        assert ToldUpTo(m, stage, fails, i, logs);
        ok, out := false, m.(logs := logs);
        return;
      }
    }
    TellNext(m, stage, logs);
    assert ToldUpTo(m, stage, fails, |m.logs|, logs);
    ok, out := true, m.(logs := logs);
  }

  /** Start in the order the scheduler picked. */
  method Tell(logs0: seq<seq<nat>>, picks: seq<nat>) returns (logs: seq<seq<nat>>)
    requires NoDuplicates(picks) && forall k :: 0 <= k < |picks| ==> picks[k] < |logs0|
    ensures Told(logs0, logs, START, Elements(picks))
  {
    logs := logs0;
    for k := 0 to |picks|
      invariant Told(logs0, logs, START, Elements(picks[..k]))
    {
      assert picks[..k + 1] == picks[..k] + [picks[k]];
      assert picks[k] !in picks[..k];
      logs := logs[picks[k] := logs[picks[k]] + [START]];
    }
    assert picks[..|picks|] == picks;
  }

  /** The tag map of a manager; a later component shadows an earlier one. */
  function Registry(cs: seq<StartOrder.Component>): (r: map<string, StartOrder.Component>)
    ensures StartOrder.RegistryOk(cs, r)
  {
    if cs == [] then map[]
    else
      var n := |cs| - 1;
      assert forall c :: c in cs[..n] ==> c in cs;
      Registry(cs[..n])[cs[n].tag := cs[n]]
  }

  /** The components after the default was settled. */
  function Settled(cs: seq<StartOrder.Component>, d: Default): seq<StartOrder.Component> {
    if d.Create? then cs + [d.fallback] else cs
  }

  /** A missing default ends the start; a fallback is registered before anything is started. */
  method SettleDefault(m: Manager, d: Default) returns (ok: bool, out: Manager)
    requires AtLevel(m, 1)
    ensures AtLevel(out, 1) && out == m.(components := out.components, logs := out.logs)
    ensures ok <==> d.Settles()
    ensures out.components == Settled(m.components, d)
  {
    match d
    case Present => ok, out := true, m;
    case Create(c) => ok, out := true, m.(components := m.components + [c], logs := m.logs + [[]]);
    case _ => ok, out := false, m;
  }

  /** The piece of a common log that belongs to one manager. */
  lemma ToldPart(m: Manager, before: seq<seq<nat>>, after: seq<seq<nat>>, part: seq<seq<nat>>, from: nat, who: set<nat>)
    requires AtLevel(m, 1) && Told(before, after, START, who) && from + |m.logs| <= |before| && |part| == |m.logs|
    requires forall i :: 0 <= i < |part| ==> before[from + i] == m.logs[i] && part[i] == after[from + i]
    ensures Prefixes(m.(logs := part)) && ((forall i :: 0 <= i < |after| ==> i in who) ==> AtLevel(m.(logs := part), 2))
  {
    forall i | 0 <= i < |part| ensures part[i] == if from + i in who then m.logs[i] + [START] else m.logs[i] {
      assert part[i] == after[from + i];
    }
    TellNext(m, START, part);
  }

  ghost predicate DistinctTags(list: seq<StartOrder.Component>) {
    NoDuplicates(StartOrder.TagList(list))
  }

  /** There is an order, no two components share a tag and none fails to start. */
  ghost predicate StartsAll(list: seq<StartOrder.Component>, fails: (nat, nat) -> bool) {
    StartOrder.HasOrder(list) && DistinctTags(list) && NoneFails(list, START, fails)
  }

  /** There is an order, but two components share a tag, and none of those that are started fails;
      one that is never started does not count. */
  ghost predicate StartsIntoNil(list: seq<StartOrder.Component>, fails: (nat, nat) -> bool) {
    && StartOrder.HasOrder(list) && !DistinctTags(list)
    && forall p :: p in StartOrder.Schedule(list, {}) ==> !fails(p, START)
  }

  /** Start a list in dependency order: which positions were started, and how it ended. */
  method StartListed(list: seq<StartOrder.Component>, registry: map<string, StartOrder.Component>, fails: (nat, nat) -> bool)
    returns (r: Outcome, picks: seq<nat>)
    requires StartOrder.RegistryOk(list, registry)
    ensures NoDuplicates(picks) && forall k :: 0 <= k < |picks| ==> picks[k] < |list|
    ensures picks <= StartOrder.Schedule(list, {}) && (r.NilDereference? ==> picks == StartOrder.Schedule(list, {}))
    ensures r.Ok? ==> forall i :: 0 <= i < |list| ==> i in picks
    ensures r.Ok? || r.Failed? || r.NilDereference?
    ensures r.Ok? <==> StartsAll(list, fails)
    ensures r.NilDereference? <==> StartsIntoNil(list, fails)
  {
    var failing := (i: nat) => fails(i, START);
    var result;
    result, picks := StartOrder.StartAll(list, registry, failing);
    StartOrder.PicksAreAll(list, picks);
    assert StartOrder.NoneFails(StartOrder.Schedule(list, {}), failing) <==>
           forall p :: p in StartOrder.Schedule(list, {}) ==> !fails(p, START);
    r := if result.AllStarted? then Ok else if result.NilDereference? then NilDereference else Failed;
  }

  /** Exactly an initial piece of the schedule was told to start, all of it if `whole`. */
  ghost predicate ToldBySchedule(before: seq<seq<nat>>, after: seq<seq<nat>>, list: seq<StartOrder.Component>, whole: bool) {
    var schedule := StartOrder.Schedule(list, {});
    exists n :: 0 <= n <= |schedule| && Told(before, after, START, Elements(schedule[..n])) && (whole ==> n == |schedule|)
  }

  lemma PieceTold(before: seq<seq<nat>>, after: seq<seq<nat>>, list: seq<StartOrder.Component>, picks: seq<nat>, whole: bool)
    requires picks <= StartOrder.Schedule(list, {}) && (whole ==> picks == StartOrder.Schedule(list, {}))
    requires Told(before, after, START, Elements(picks))
    ensures ToldBySchedule(before, after, list, whole)
  {
    assert picks == StartOrder.Schedule(list, {})[..|picks|];
  }

  /** What became of two managers whose components were started together. */
  ghost predicate BothTold(m: Manager, other: Manager, mLogs: seq<seq<nat>>, otherLogs: seq<seq<nat>>, all: bool) {
    && Prefixes(m.(logs := mLogs)) && Prefixes(other.(logs := otherLogs))
    && (all ==> AtLevel(m.(logs := mLogs), 2) && AtLevel(other.(logs := otherLogs), 2))
  }

  lemma BothParts(m: Manager, other: Manager, logs: seq<seq<nat>>, who: set<nat>, all: bool)
    requires AtLevel(m, 1) && AtLevel(other, 1) && Told(m.logs + other.logs, logs, START, who)
    requires all ==> forall i :: 0 <= i < |logs| ==> i in who
    ensures BothTold(m, other, logs[..|m.logs|], logs[|m.logs|..], all)
  {
    FirstPart(m, other.logs, logs, who);
    SecondPart(m.logs, other, logs, who);
  }

  /** Start two managers' components in one dependency order; `registry` is the tag map of the first. */
  method StartTogether(m: Manager, other: Manager, registry: map<string, StartOrder.Component>, fails: (nat, nat) -> bool)
    returns (r: Outcome, logs: seq<seq<nat>>)
    requires AtLevel(m, 1) && AtLevel(other, 1) && StartOrder.RegistryOk(m.components, registry)
    ensures r.Ok? || r.Failed? || r.NilDereference?
    ensures ToldBySchedule(m.logs + other.logs, logs, m.components + other.components, r.NilDereference?)
    ensures |m.logs| <= |logs| && BothTold(m, other, logs[..|m.logs|], logs[|m.logs|..], r.Ok?)
    ensures
      var list := m.components + other.components;
      (r.Ok? <==> StartsAll(list, fails)) && (r.NilDereference? <==> StartsIntoNil(list, fails))
  {
    RegistryOfSome(m.components, other.components, registry);
    var picks;
    r, logs, picks := TellListed(m.components + other.components, registry, m.logs + other.logs, fails);
    BothParts(m, other, logs, Elements(picks), r.Ok?);
  }

  lemma RegistryOfSome(a: seq<StartOrder.Component>, b: seq<StartOrder.Component>, registry: map<string, StartOrder.Component>)
    requires StartOrder.RegistryOk(a, registry)
    ensures StartOrder.RegistryOk(a + b, registry)
  {
    assert forall c :: c in a ==> c in a + b;
  }

  /** Start a list and tell what was started. */
  method TellListed(list: seq<StartOrder.Component>, registry: map<string, StartOrder.Component>, before: seq<seq<nat>>, fails: (nat, nat) -> bool)
    returns (r: Outcome, after: seq<seq<nat>>, picks: seq<nat>)
    requires StartOrder.RegistryOk(list, registry) && |before| == |list|
    ensures Told(before, after, START, Elements(picks)) && ToldBySchedule(before, after, list, r.NilDereference?)
    ensures r.Ok? ==> forall i :: 0 <= i < |after| ==> i in Elements(picks)
    ensures r.Ok? || r.Failed? || r.NilDereference?
    ensures (r.Ok? <==> StartsAll(list, fails)) && (r.NilDereference? <==> StartsIntoNil(list, fails))
  {
    r, picks := StartListed(list, registry, fails);
    after := Tell(before, picks);
    PieceTold(before, after, list, picks, r.NilDereference?);
  }

  lemma FirstPart(m: Manager, rest: seq<seq<nat>>, logs: seq<seq<nat>>, who: set<nat>)
    requires AtLevel(m, 1) && Told(m.logs + rest, logs, START, who)
    ensures
      var part := logs[..|m.logs|];
      Prefixes(m.(logs := part)) && ((forall i :: 0 <= i < |logs| ==> i in who) ==> AtLevel(m.(logs := part), 2))
  {
    ToldPart(m, m.logs + rest, logs, logs[..|m.logs|], 0, who);
  }

  lemma SecondPart(first: seq<seq<nat>>, m: Manager, logs: seq<seq<nat>>, who: set<nat>)
    requires AtLevel(m, 1) && Told(first + m.logs, logs, START, who)
    ensures
      var part := logs[|first|..];
      Prefixes(m.(logs := part)) && ((forall i :: 0 <= i < |logs| ==> i in who) ==> AtLevel(m.(logs := part), 2))
  {
    var part, both := logs[|first|..], first + m.logs;
    forall i | 0 <= i < |part| ensures both[|first| + i] == m.logs[i] && part[i] == logs[|first| + i] {
    }
    ToldPart(m, both, logs, part, |first|, who);
  }

  /** The second stage of a manager and the components it starts along (the endpoints, for the
      outbound manager): settle the default, then start in dependency order. */
  method StartOrdered(m: Manager, other: Manager, d: Default, fails: (nat, nat) -> bool) returns (r: Outcome, out: Manager, also: Manager)
    requires AtLevel(m, 1) && AtLevel(other, 1)
    ensures out == m.(components := Settled(m.components, d), logs := out.logs)
    ensures also == other.(logs := also.logs)
    ensures r.Ok? || r.Failed? || r.NilDereference?
    ensures r.Ok? ==> AtLevel(out, 2) && AtLevel(also, 2)
    ensures Prefixes(out) && Prefixes(also)
    ensures
      var list := Settled(m.components, d) + other.components;
      && (r.Ok? <==> d.Settles() && StartsAll(list, fails))
      && (r.NilDereference? <==> d.Settles() && StartsIntoNil(list, fails))
  {
    var ok;
    ok, out := SettleDefault(m, d);
    also := other;
    if !ok {
      LevelIsPrefix(out, 1);
      LevelIsPrefix(other, 1);
      return Failed, out, also;
    }
    var logs;
    r, logs := StartTogether(out, other, Registry(out.components), fails);
    out, also := out.(logs := logs[..|out.logs|]), other.(logs := logs[|out.logs|..]);
  }

  /** A manager before any start. */
  function New(cs: seq<StartOrder.Component>): (m: Manager)
    ensures Is(m, 0, -1)
  {
    Manager(false, 0, cs, seq(|cs|, _ => []), |cs|)
  }

  class Box {
    var outbound: Manager
    var endpoint: Manager
    var inbound: Manager
    var transport: Manager
    var calls: seq<Call>

    constructor (outbounds: seq<StartOrder.Component>, endpoints: seq<StartOrder.Component>,
                 inbounds: seq<StartOrder.Component>, transports: seq<StartOrder.Component>)
      ensures Fresh() && AllPrefixes()
      ensures outbound.components == outbounds && endpoint.components == endpoints
      ensures inbound.components == inbounds && transport.components == transports && calls == []
    {
      calls := [];
      outbound, endpoint, inbound, transport := New(outbounds), New(endpoints), New(inbounds), New(transports);
    }

    ghost predicate AllPrefixes()
      reads this
    {
      Prefixes(outbound) && Prefixes(endpoint) && Prefixes(inbound) && Prefixes(transport)
    }

    /** All managers are at level `n`, last started with stage `n - 1`. */
    ghost predicate AllAt(n: nat)
      requires n <= 4
      reads this
    {
      Is(outbound, n, n - 1) && Is(endpoint, n, n - 1) && Is(inbound, n, n - 1) && Is(transport, n, n - 1)
    }

    /** Nothing has been started yet. */
    ghost predicate Fresh()
      reads this
    {
      AllAt(0)
    }

    /** The state between the two halves of the second stage. */
    ghost predicate HalfStarted()
      reads this
    {
      Is(outbound, 2, 1) && Is(endpoint, 2, 0) && Is(inbound, 1, 0) && Is(transport, 2, 1)
    }

    /** No component that was registered is dropped. */
    twostate predicate NothingDropped()
      reads this
    {
      && Extends(old(outbound), outbound) && Extends(old(endpoint), endpoint)
      && Extends(old(inbound), inbound) && Extends(old(transport), transport)
    }

    /** The fallbacks have joined. */
    twostate predicate SettledComponents(w: World)
      reads this
    {
      && outbound.components == Settled(old(outbound).components, w.outboundDefault)
      && transport.components == Settled(old(transport).components, w.transportDefault)
      && inbound.components == old(inbound).components && endpoint.components == old(endpoint).components
    }

    twostate predicate SameComponents()
      reads this
    {
      && outbound.components == old(outbound).components && endpoint.components == old(endpoint).components
      && inbound.components == old(inbound).components && transport.components == old(transport).components
    }

    method StartOutbound(stage: nat, d: Default, fails: (nat, nat) -> bool) returns (r: Outcome)
      requires stage < 4 && (CanBegin(outbound, stage) ==> AtLevel(outbound, stage)) && (CanBegin(outbound, stage) && stage == START ==> AtLevel(endpoint, 1))
      requires AllPrefixes()
      modifies this`calls, this`outbound, this`endpoint
      ensures calls == old(calls) + [Call(Outbounds, stage)]
      ensures NothingDropped()
      ensures stage != START ==> SameComponents() && endpoint == old(endpoint)
      ensures r.Ok? && stage == START ==> outbound.components == Settled(old(outbound).components, d)
      ensures endpoint == old(endpoint).(logs := endpoint.logs)
      ensures AllPrefixes()
      ensures r.AlreadyStarted? <==> !CanBegin(old(outbound), stage)
      ensures !r.AlreadyStarted? ==> outbound.started && outbound.stage == stage
      ensures r.Ok? ==> AtLevel(outbound, stage + 1) && (stage == START ==> AtLevel(endpoint, 2))
      ensures CanBegin(old(outbound), stage) && stage != START ==> (r.Ok? <==> NoneFails(old(outbound).components, stage, fails)) && !r.NilDereference?
      ensures CanBegin(old(outbound), stage) && stage == START ==>
                var list := Settled(old(outbound).components, d) + old(endpoint).components;
                && (r.Ok? <==> d.Settles() && StartsAll(list, fails))
                && (r.NilDereference? <==> d.Settles() && StartsIntoNil(list, fails))
    {
      calls := calls + [Call(Outbounds, stage)];
      if outbound.started && outbound.stage >= stage {
        return AlreadyStarted;
      }
      outbound := Begin(outbound, stage);
      if stage == START {
        var also;
        r, outbound, also := StartOrdered(outbound, endpoint, d, fails);
        endpoint := also;
      } else {
        var ok;
        ok, outbound := StartEach(outbound, stage, fails);
        r := if ok then Ok else Failed;
      }
    }

    method StartTransport(stage: nat, d: Default, fails: (nat, nat) -> bool) returns (r: Outcome)
      requires stage < 4 && (CanBegin(transport, stage) ==> AtLevel(transport, stage)) && AllPrefixes()
      modifies this`calls, this`transport
      ensures calls == old(calls) + [Call(Transports, stage)]
      ensures NothingDropped()
      ensures stage != START ==> SameComponents()
      ensures r.Ok? && stage == START ==> transport.components == Settled(old(transport).components, d)
      ensures AllPrefixes()
      ensures r.AlreadyStarted? <==> !CanBegin(old(transport), stage)
      ensures !r.AlreadyStarted? ==> transport.started && transport.stage == stage
      ensures r.Ok? ==> AtLevel(transport, stage + 1)
      ensures CanBegin(old(transport), stage) && stage != START ==> (r.Ok? <==> NoneFails(old(transport).components, stage, fails)) && !r.NilDereference?
      ensures CanBegin(old(transport), stage) && stage == START ==>
                var list := Settled(old(transport).components, d);
                && (r.Ok? <==> d.Settles() && StartsAll(list, fails))
                && (r.NilDereference? <==> d.Settles() && StartsIntoNil(list, fails))
    {
      calls := calls + [Call(Transports, stage)];
      if transport.started && transport.stage >= stage {
        return AlreadyStarted;
      }
      transport := Begin(transport, stage);
      if stage == START {
        var none := Manager(false, 0, [], [], 0);
        assert Settled(transport.components, d) + none.components == Settled(transport.components, d);
        r, transport, none := StartOrdered(transport, none, d, fails);
      } else {
        var ok;
        ok, transport := StartEach(transport, stage, fails);
        r := if ok then Ok else Failed;
      }
    }

    method StartInbound(stage: nat, fails: (nat, nat) -> bool) returns (r: Outcome)
      requires stage < 4 && (CanBegin(inbound, stage) ==> AtLevel(inbound, stage)) && AllPrefixes()
      modifies this`calls, this`inbound
      ensures calls == old(calls) + [Call(Inbounds, stage)]
      ensures NothingDropped() && SameComponents()
      ensures AllPrefixes() && !r.NilDereference?
      ensures r.AlreadyStarted? <==> !CanBegin(old(inbound), stage)
      ensures !r.AlreadyStarted? ==> inbound.started && inbound.stage == stage
      ensures r.Ok? <==> CanBegin(old(inbound), stage) && NoneFails(old(inbound).components, stage, fails)
      ensures r.Ok? ==> AtLevel(inbound, stage + 1)
    {
      calls := calls + [Call(Inbounds, stage)];
      if inbound.started && inbound.stage >= stage {
        return AlreadyStarted;
      }
      var ok;
      ok, inbound := StartEach(Begin(inbound, stage), stage, fails);
      r := if ok then Ok else Failed;
    }

    /** Endpoints are started by the outbound manager in the second stage. */
    method StartEndpoint(stage: nat, fails: (nat, nat) -> bool) returns (r: Outcome)
      requires stage < 4 && (CanBegin(endpoint, stage) ==> AtLevel(endpoint, if stage == START then 2 else stage)) && AllPrefixes()
      modifies this`calls, this`endpoint
      ensures calls == old(calls) + [Call(Endpoints, stage)]
      ensures NothingDropped() && SameComponents()
      ensures AllPrefixes() && !r.NilDereference?
      ensures r.AlreadyStarted? <==> !CanBegin(old(endpoint), stage)
      ensures !r.AlreadyStarted? ==> endpoint.started && endpoint.stage == stage
      ensures r.Ok? <==> CanBegin(old(endpoint), stage) && (stage == START || NoneFails(old(endpoint).components, stage, fails))
      ensures r.Ok? ==> AtLevel(endpoint, stage + 1)
    {
      calls := calls + [Call(Endpoints, stage)];
      if endpoint.started && endpoint.stage >= stage {
        return AlreadyStarted;
      }
      endpoint := Begin(endpoint, stage);
      if stage == START {
        return Ok;
      }
      var ok;
      ok, endpoint := StartEach(endpoint, stage, fails);
      r := if ok then Ok else Failed;
    }

    method StartService(service: Service, stage: nat, w: World) returns (ok: bool)
      modifies this`calls
      ensures ok == w.ok(service, stage) && calls == old(calls) + [Call(service, stage)]
    {
      calls := calls + [Call(service, stage)];
      ok := w.ok(service, stage);
    }

    /** What comes last in every stage but the second: inbounds, endpoints, services. */
    method StartRest(stage: nat, w: World) returns (r: Outcome)
      requires AllPrefixes() && stage < 4 && stage != START && Is(inbound, stage, stage - 1) && Is(endpoint, stage, stage - 1)
      modifies this`calls, this`inbound, this`endpoint
      ensures Follows(old(calls), calls, RestPlan(stage), r.Ok?)
      ensures NothingDropped() && SameComponents() && AllPrefixes() && (r.Ok? || r.Failed?)
      ensures r.Ok? ==> Is(inbound, stage + 1, stage) && Is(endpoint, stage + 1, stage)
      ensures r.Ok? <==> w.ok(Services, stage) && old(NoneFails(inbound.components, stage, w.inboundFails) && NoneFails(endpoint.components, stage, w.endpointFails))
    {
      r := StartInbound(stage, w.inboundFails);
      if !r.Ok? { return; }
      r := StartEndpoint(stage, w.endpointFails);
      if !r.Ok? { return; }
      var ok := StartService(Services, stage, w);
      r := if ok then Ok else Failed;
    }

    /** What comes together in every stage but the second: network, DNS transports, the DNS router, the connection
        manager and the router. */
    method StartDns(stage: nat, w: World) returns (r: Outcome)
      requires AllPrefixes() && stage < 4 && stage != START && (CanBegin(transport, stage) ==> AtLevel(transport, stage))
      modifies this`calls, this`transport
      ensures Follows(old(calls), calls, DnsPlan(stage), r.Ok?)
      ensures NothingDropped() && SameComponents() && AllPrefixes()
      ensures r.Ok? ==> Is(transport, stage + 1, stage)
      ensures CanBegin(old(transport), stage) ==>
                && (r.Ok? || r.Failed?)
                && (r.Ok? <==> w.ok(Network, stage) && w.ok(DnsRouter, stage) && w.ok(Connection, stage) && w.ok(Router, stage)
                               && old(NoneFails(transport.components, stage, w.transportFails)))
      ensures !CanBegin(old(transport), stage) ==> r == if w.ok(Network, stage) then AlreadyStarted else Failed
    {
      var ok := StartService(Network, stage, w);
      if !ok { return Failed; }
      r := StartTransport(stage, w.transportDefault, w.transportFails);
      if !r.Ok? { return; }
      ok := StartService(DnsRouter, stage, w);
      if !ok { return Failed; }
      ok := StartService(Connection, stage, w);
      if !ok { return Failed; }
      ok := StartService(Router, stage, w);
      r := if ok then Ok else Failed;
    }

    /** Nothing fails at a stage, for the components that are there. */
    ghost predicate Passes(stage: nat, w: World)
      reads this
    {
      PassesWith(outbound.components, transport.components, inbound.components, endpoint.components, stage, w)
    }

    /** `adapter.Start(StartStateInitialize, ...)`. */
    method InitializeAll(w: World, ghost base: seq<Call>) returns (r: Outcome)
      requires AllPrefixes() && (Fresh() || transport.started)
      requires MadeCalls(base, calls, 2)
      modifies this
      ensures MadeBetween(base, calls, 2, 11) && (r.Ok? ==> MadeCalls(base, calls, 11))
      ensures NothingDropped() && SameComponents() && AllPrefixes() && !r.NilDereference?
      ensures old(Fresh()) ==> (r.Ok? <==> old(Passes(INITIALIZE, w)))
      ensures old(Fresh()) && r.Ok? ==> AllAt(1)
      ensures r.AlreadyStarted? ==> old(transport.started)
      ensures old(transport.started) ==> r == if w.ok(Network, INITIALIZE) then AlreadyStarted else Failed
    {
      ghost var before := calls;
      r := StartDns(INITIALIZE, w);
      PlanAt(base, before, calls, DnsPlan(INITIALIZE), 2, r.Ok?);
      if !r.Ok? { return; }
      NextCall(base, calls, 7);
      r := StartOutbound(INITIALIZE, w.outboundDefault, w.outboundFails);
      if !r.Ok? { return; }
      before := calls;
      r := StartRest(INITIALIZE, w);
      PlanAt(base, before, calls, RestPlan(INITIALIZE), 8, r.Ok?);
    }

    /** What the outbound manager and the transport manager start at the second stage. */
    ghost function OutboundList(w: World): seq<StartOrder.Component>
      reads this
    {
      Settled(outbound.components, w.outboundDefault) + endpoint.components
    }

    ghost function TransportList(w: World): seq<StartOrder.Component>
      reads this
    {
      Settled(transport.components, w.transportDefault)
    }

    /** All goes well through the first stage. */
    ghost predicate Initializes(w: World)
      reads this
    {
      w.ok(LogFactory, START) && w.ok(Internal, INITIALIZE) && Passes(INITIALIZE, w)
    }

    /** All goes well up to a list with an order in which two components share a tag. */
    ghost predicate MeetsSharedTag(w: World)
      reads this
    {
      Initializes(w) && FirstHalfMeetsSharedTag(w)
    }

    ghost predicate FirstHalfMeetsSharedTag(w: World)
      reads this
    {
      && w.outboundDefault.Settles()
      && (|| StartsIntoNil(OutboundList(w), w.outboundFails)
          || (&& StartsAll(OutboundList(w), w.outboundFails)
              && w.transportDefault.Settles() && StartsIntoNil(TransportList(w), w.transportFails)))
    }

    /** All goes well in the first half of the second stage. */
    ghost predicate FirstHalfSucceeds(w: World)
      reads this
    {
      && w.outboundDefault.Settles() && StartsAll(OutboundList(w), w.outboundFails)
      && w.transportDefault.Settles() && StartsAll(TransportList(w), w.transportFails)
      && w.ok(DnsRouter, START) && w.ok(Network, START) && w.ok(Connection, START) && w.ok(Router, START)
    }

    /** All goes well from there on, given the components at the time. */
    ghost predicate RestSucceeds(w: World, outbounds: seq<StartOrder.Component>, transports: seq<StartOrder.Component>)
      reads this
    {
      && w.ok(Internal, START) && NoneFails(inbound.components, START, w.inboundFails) && w.ok(Services, START)
      && PassesWith(outbounds, transports, inbound.components, endpoint.components, POST_START, w) && w.ok(Internal, POST_START)
      && PassesWith(outbounds, transports, inbound.components, endpoint.components, STARTED, w) && w.ok(Internal, STARTED)
    }

    /** All goes well to the end. */
    ghost predicate Succeeds(w: World)
      reads this
    {
      && Initializes(w) && FirstHalfSucceeds(w)
      && RestSucceeds(w, Settled(outbound.components, w.outboundDefault), TransportList(w))
    }

    /** Everything up to the first half of the second stage. */
    method PreStart(w: World, ghost base: seq<Call>) returns (r: Outcome)
      requires AllPrefixes() && (Fresh() || transport.started)
      requires MadeCalls(base, calls, 0)
      modifies this
      ensures MadeBetween(base, calls, 0, 17) && (r.Ok? ==> MadeCalls(base, calls, 17))
      ensures NothingDropped() && AllPrefixes()
      ensures old(Fresh()) && r.Ok? ==> HalfStarted()
      ensures r.AlreadyStarted? ==> old(transport.started)
      ensures old(transport.started) ==>
                r == if w.ok(LogFactory, START) && w.ok(Internal, INITIALIZE) && w.ok(Network, INITIALIZE) then AlreadyStarted else Failed
      ensures old(Fresh()) ==> (r.NilDereference? <==> old(MeetsSharedTag(w)))
      ensures old(Fresh()) ==> (r.Ok? <==> old(Initializes(w) && FirstHalfSucceeds(w)))
      ensures old(Fresh()) && r.Ok? ==> SettledComponents(w)
    {
      NextCall(base, calls, 0);
      var ok := StartService(LogFactory, START, w);
      if !ok { return Failed; }
      NextCall(base, calls, 1);
      ok := StartService(Internal, INITIALIZE, w);
      if !ok { return Failed; }
      r := InitializeAll(w, base);
      if !r.Ok? { return; }
      r := StartFirstHalf(w, base);
    }

    /** What follows outbounds and transports in the first half of the second stage. */
    method StartOthers(w: World) returns (ok: bool)
      modifies this`calls
      ensures ok <==> w.ok(DnsRouter, START) && w.ok(Network, START) && w.ok(Connection, START) && w.ok(Router, START)
      ensures Follows(old(calls), calls, OthersPlan(), ok)
    {
      ok := StartService(DnsRouter, START, w);
      if !ok { return; }
      ok := StartService(Network, START, w);
      if !ok { return; }
      ok := StartService(Connection, START, w);
      if !ok { return; }
      ok := StartService(Router, START, w);
    }

    method StartFirstHalf(w: World, ghost base: seq<Call>) returns (r: Outcome)
      requires AllPrefixes() && AllAt(1)
      requires MadeCalls(base, calls, 11)
      modifies this
      ensures MadeBetween(base, calls, 11, 17) && (r.Ok? ==> MadeCalls(base, calls, 17))
      ensures NothingDropped() && AllPrefixes() && !r.AlreadyStarted?
      ensures r.Ok? ==> HalfStarted()
      ensures r.NilDereference? <==> old(FirstHalfMeetsSharedTag(w))
      ensures r.Ok? <==> old(FirstHalfSucceeds(w))
      ensures r.Ok? ==> SettledComponents(w)
    {
      NextCall(base, calls, 11);
      r := StartOutbound(START, w.outboundDefault, w.outboundFails);
      if !r.Ok? { return; }
      NextCall(base, calls, 12);
      r := StartTransport(START, w.transportDefault, w.transportFails);
      if !r.Ok? { return; }
      ghost var before := calls;
      var ok := StartOthers(w);
      PlanAt(base, before, calls, OthersPlan(), 13, ok);
      r := if ok then Ok else Failed;
    }

    method PostStartAll(w: World, ghost base: seq<Call>) returns (r: Outcome)
      requires AllPrefixes() && AllAt(2)
      requires MadeCalls(base, calls, 21)
      modifies this
      ensures MadeBetween(base, calls, 21, 30) && (r.Ok? ==> MadeCalls(base, calls, 30))
      ensures NothingDropped() && AllPrefixes() && (r.Ok? || r.Failed?)
      ensures r.Ok? ==> AllAt(3)
      ensures SameComponents() && (r.Ok? <==> old(Passes(POST_START, w)))
    {
      NextCall(base, calls, 21);
      r := StartOutbound(POST_START, w.outboundDefault, w.outboundFails);
      if !r.Ok? { return; }
      r := PostStartOthers(w, base);
    }

    /** All but the outbounds. */
    method PostStartOthers(w: World, ghost base: seq<Call>) returns (r: Outcome)
      requires AllPrefixes() && Is(transport, 2, 1) && Is(inbound, 2, 1) && Is(endpoint, 2, 1)
      requires MadeCalls(base, calls, 22)
      modifies this`calls, this`transport, this`inbound, this`endpoint
      ensures MadeBetween(base, calls, 22, 30) && (r.Ok? ==> MadeCalls(base, calls, 30))
      ensures NothingDropped() && SameComponents() && AllPrefixes() && (r.Ok? || r.Failed?)
      ensures r.Ok? ==> Is(transport, 3, 2) && Is(inbound, 3, 2) && Is(endpoint, 3, 2)
      ensures r.Ok? <==> old(PassesWith([], transport.components, inbound.components, endpoint.components, POST_START, w))
    {
      ghost var before := calls;
      r := StartDns(POST_START, w);
      PlanAt(base, before, calls, DnsPlan(POST_START), 22, r.Ok?);
      if !r.Ok? { return; }
      before := calls;
      r := StartRest(POST_START, w);
      PlanAt(base, before, calls, RestPlan(POST_START), 27, r.Ok?);
    }

    method FinishAll(w: World, ghost base: seq<Call>) returns (r: Outcome)
      requires AllPrefixes() && AllAt(3)
      requires MadeCalls(base, calls, 31)
      modifies this
      ensures MadeBetween(base, calls, 31, 40) && (r.Ok? ==> MadeCalls(base, calls, 40))
      ensures NothingDropped() && AllPrefixes() && (r.Ok? || r.Failed?)
      ensures r.Ok? ==> AllAt(4)
      ensures SameComponents() && (r.Ok? <==> old(Passes(STARTED, w)))
    {
      ghost var before := calls;
      r := StartDns(STARTED, w);
      PlanAt(base, before, calls, DnsPlan(STARTED), 31, r.Ok?);
      if !r.Ok? { return; }
      NextCall(base, calls, 36);
      r := StartOutbound(STARTED, w.outboundDefault, w.outboundFails);
      if !r.Ok? { return; }
      before := calls;
      r := StartRest(STARTED, w);
      PlanAt(base, before, calls, RestPlan(STARTED), 37, r.Ok?);
    }

    /** The second half of the second stage. */
    method StartSecondHalf(w: World, ghost base: seq<Call>) returns (r: Outcome)
      requires AllPrefixes() && HalfStarted()
      requires MadeCalls(base, calls, 17)
      modifies this
      ensures MadeBetween(base, calls, 17, 21) && (r.Ok? ==> MadeCalls(base, calls, 21))
      ensures NothingDropped() && AllPrefixes() && (r.Ok? || r.Failed?)
      ensures r.Ok? ==> AllAt(2)
      ensures SameComponents()
      ensures r.Ok? <==> w.ok(Internal, START) && old(NoneFails(inbound.components, START, w.inboundFails)) && w.ok(Services, START)
    {
      NextCall(base, calls, 17);
      var ok := StartService(Internal, START, w);
      if !ok { return Failed; }
      NextCall(base, calls, 18);
      r := StartInbound(START, w.inboundFails);
      if !r.Ok? { return; }
      NextCall(base, calls, 19);
      r := StartEndpoint(START, w.endpointFails);
      if !r.Ok? { return; }
      NextCall(base, calls, 20);
      ok := StartService(Services, START, w);
      r := if ok then Ok else Failed;
    }

    /** The whole start. From a fresh box no manager finds itself already started, and whatever
        fails, every component has been told an initial piece of the stages; on success all of
        them, and success and the nil dereference each have their exact condition. The calls made are
        the beginning of the plan, and all of it on success. A box
        that was pre-started panics instead, because the first stages run again. */
    method Start(w: World) returns (r: Outcome)
      requires AllPrefixes() && (Fresh() || transport.started)
      modifies this
      ensures MadeBetween(old(calls), calls, 0, 41) && (r.Ok? ==> MadeCalls(old(calls), calls, 41))
      ensures NothingDropped() && AllPrefixes()
      ensures old(Fresh()) ==> !r.AlreadyStarted?
      ensures r.Ok? ==> AllAt(4)
      ensures old(Fresh()) ==> (r.Ok? <==> old(Succeeds(w))) && (r.NilDereference? <==> old(MeetsSharedTag(w)))
      ensures old(transport.started) ==>
                r == if w.ok(LogFactory, START) && w.ok(Internal, INITIALIZE) && w.ok(Network, INITIALIZE) then AlreadyStarted else Failed
    {
      ghost var base := calls;
      r := PreStart(w, base);
      if !r.Ok? { return; }
      r := StartAfter(w, base);
    }

    /** All that follows the first half of the second stage. */
    method StartAfter(w: World, ghost base: seq<Call>) returns (r: Outcome)
      requires AllPrefixes() && HalfStarted()
      requires MadeCalls(base, calls, 17)
      modifies this
      ensures MadeBetween(base, calls, 17, 41) && (r.Ok? ==> MadeCalls(base, calls, 41))
      ensures NothingDropped() && AllPrefixes() && (r.Ok? || r.Failed?)
      ensures r.Ok? ==> AllAt(4)
      ensures r.Ok? <==> old(RestSucceeds(w, outbound.components, transport.components))
    {
      r := StartSecondHalf(w, base);
      if !r.Ok? { return; }
      r := PostStartAll(w, base);
      if !r.Ok? { return; }
      NextCall(base, calls, 30);
      var ok := StartService(Internal, POST_START, w);
      if !ok { return Failed; }
      r := FinishAll(w, base);
      if !r.Ok? { return; }
      NextCall(base, calls, 40);
      ok := StartService(Internal, STARTED, w);
      r := if ok then Ok else Failed;
    }
  }

  /** A configuration that meets it: no outbound and an endpoint with the tag of the fallback outbound,
      whether or not that endpoint, which is never started, would fail to start. */
  method FallbackMeetsEndpoint(endpointFails: bool) returns (r: Outcome)
    ensures r.NilDereference?
  {
    var direct := StartOrder.Component("direct", []);
    var box := new Box([], [direct], [], []);
    var never := (_: nat, _: nat) => false;
    var second := (i: nat, stage: nat) => endpointFails && i == 1 && stage == START;
    var w := World(Create(direct), Present, second, never, never, never, (_: Service, _: nat) => true);
    SharedDirect(direct, second);
    assert box.OutboundList(w) == [direct, direct];
    r := box.Start(w);
  }

  lemma SharedDirect(c: StartOrder.Component, fails: (nat, nat) -> bool)
    requires c.dependencies == [] && !fails(0, START)
    ensures StartsIntoNil([c, c], fails)
  {
    var list := [c, c];
    assert c in list && StartOrder.StartsAt(list, [c.tag], 0);
    var tags := StartOrder.TagList(list);
    assert tags == [c.tag, c.tag] && tags[0] == tags[1];
    assert StartOrder.Tags(list) == {c.tag};
    assert StartOrder.CompleteOrder(list, [c.tag]);
    StartOrder.ShadowedIsNeverStarted(list, 0, 1);
    forall p | p in StartOrder.Schedule(list, {}) ensures !fails(p, START) {
      StartOrder.SchedulePicks(list, {}, p);
    }
  }

  /** Nothing fails at a stage: no component, and none of the services around them. */
  ghost predicate PassesWith(
    outbounds: seq<StartOrder.Component>, transports: seq<StartOrder.Component>, inbounds: seq<StartOrder.Component>,
    endpoints: seq<StartOrder.Component>, stage: nat, w: World)
  {
    && w.ok(Network, stage) && w.ok(DnsRouter, stage) && w.ok(Connection, stage) && w.ok(Router, stage) && w.ok(Services, stage)
    && NoneFails(outbounds, stage, w.outboundFails) && NoneFails(transports, stage, w.transportFails)
    && NoneFails(inbounds, stage, w.inboundFails) && NoneFails(endpoints, stage, w.endpointFails)
  }

  /** What the outside decides: defaults, which component fails at which stage, and which of the
      other services succeed. At the second stage `outboundFails` speaks of the list that the outbound
      manager then starts, its outbounds followed by the endpoints. */
  datatype World = World(
    outboundDefault: Default, transportDefault: Default,
    outboundFails: (nat, nat) -> bool, endpointFails: (nat, nat) -> bool,
    inboundFails: (nat, nat) -> bool, transportFails: (nat, nat) -> bool,
    ok: (Service, nat) -> bool)
}
