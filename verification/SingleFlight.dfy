/**
  The per-question lock in front of the DNS cache (dns/client.go, `Exchange`).

  Any number of tasks run `Exchange` at the same time. The first task to ask a question
  registers a channel under it (`LoadOrStore`); the others wait on that channel. When the
  first task is done it deletes the channel from the map and then closes it, in two steps.
  A task is known by its index, a channel by the task that created it.
*/
module SingleFlight {
  import opened Lists

  datatype Ask = Ask(question: string, transport: string)

  /** One ask per task, and whether the cache is kept apart per transport. */
  datatype Config = Config(tasks: seq<Ask>, independent: bool)

  type Key = (string, Option<string>)

  datatype Role = Leader | Follower(leader: nat)

  datatype Task =
    | Entering
    | Waiting(leader: nat)
    | Loading(role: Role)
    | Asking(role: Role)
    | Deleting
    | Closing
    | Finished

  /** `cache` maps a key to the task whose answer it holds. `stored`, `lost` and `hits` record
      which tasks stored an answer, whose answers the store has since dropped, and which tasks
      were served from the cache; `deletes` and `closes` list the two clean-up steps. */
  datatype State = State(
    tasks: seq<Task>, channels: map<string, nat>, closed: set<nat>, cache: map<Key, nat>,
    stored: set<nat>, lost: set<nat>, hits: set<nat>, deletes: seq<nat>, closes: seq<nat>)

  datatype Event =
    | Register(i: nat)
    | Wake(i: nat)
    | Load(i: nat)
    | Fetch(i: nat, store: bool)
    | Delete(i: nat)
    | Close(i: nat)
    | Drop(key: Key)

  function KeyOf(c: Config, i: nat): Key
    requires i < |c.tasks|
  {
    (c.tasks[i].question, if c.independent then Some(c.tasks[i].transport) else None)
  }

  function Init(c: Config): State {
    State(seq(|c.tasks|, i => Entering), map[], {}, map[], {}, {}, {}, [], [])
  }

  predicate Enabled(c: Config, s: State, e: Event)
    requires |s.tasks| == |c.tasks|
  {
    match e
    case Register(i) => i < |s.tasks| && s.tasks[i].Entering?
    case Wake(i) => i < |s.tasks| && s.tasks[i].Waiting? && s.tasks[i].leader in s.closed
    case Load(i) => i < |s.tasks| && s.tasks[i].Loading?
    case Fetch(i, _) => i < |s.tasks| && s.tasks[i].Asking?
    case Delete(i) => i < |s.tasks| && s.tasks[i].Deleting?
    case Close(i) => i < |s.tasks| && s.tasks[i].Closing?
    case Drop(key) => key in s.cache
  }

  function Leave(r: Role): Task {
    if r.Leader? then Deleting else Finished
  }

  function Apply(c: Config, s: State, e: Event): (t: State)
    requires |s.tasks| == |c.tasks| && Enabled(c, s, e)
    ensures |t.tasks| == |c.tasks|
  {
    match e
    case Register(i) =>
      var q := c.tasks[i].question;
      if q in s.channels then s.(tasks := s.tasks[i := Waiting(s.channels[q])])
      else s.(tasks := s.tasks[i := Loading(Leader)], channels := s.channels[q := i])
    case Wake(i) => s.(tasks := s.tasks[i := Loading(Follower(s.tasks[i].leader))])
    case Load(i) =>
      if KeyOf(c, i) in s.cache then s.(tasks := s.tasks[i := Leave(s.tasks[i].role)], hits := s.hits + {i})
      else s.(tasks := s.tasks[i := Asking(s.tasks[i].role)])
    case Fetch(i, store) =>
      var t := s.(tasks := s.tasks[i := Leave(s.tasks[i].role)]);
      if store then t.(cache := s.cache[KeyOf(c, i) := i], stored := s.stored + {i}) else t
    case Delete(i) =>
      s.(tasks := s.tasks[i := Closing], channels := s.channels - {c.tasks[i].question}, deletes := s.deletes + [i])
    case Close(i) =>
      s.(tasks := s.tasks[i := Finished], closed := s.closed + {i}, closes := s.closes + [i])
    case Drop(key) =>
      s.(cache := s.cache - {key}, lost := s.lost + (set i | i in s.stored && i < |c.tasks| && KeyOf(c, i) == key))
  }

  predicate CanRun(c: Config, s: State, es: seq<Event>)
    requires |s.tasks| == |c.tasks|
    decreases |es|
  {
    es == [] || (Enabled(c, s, es[0]) && CanRun(c, Apply(c, s, es[0]), es[1..]))
  }

  function After(c: Config, s: State, es: seq<Event>): (t: State)
    requires |s.tasks| == |c.tasks| && CanRun(c, s, es)
    ensures |t.tasks| == |c.tasks|
    decreases |es|
  {
    if es == [] then s else After(c, Apply(c, s, es[0]), es[1..])
  }

  // ---------------------------------------------------------------- invariant

  /** The task registered the channel and has not yet deleted it. */
  predicate Leads(t: Task) {
    match t
    case Loading(r) => r.Leader?
    case Asking(r) => r.Leader?
    case Deleting => true
    case _ => false
  }

  ghost predicate TaskOk(c: Config, s: State, i: nat)
    requires |s.tasks| == |c.tasks| && i < |s.tasks|
  {
    var t := s.tasks[i];
    && (Leads(t) <==> c.tasks[i].question in s.channels && s.channels[c.tasks[i].question] == i)
    && (i in s.deletes <==> t.Closing? || i in s.closed)
    && (i in s.closed ==> t.Finished?)
    && (t.Waiting? ==> WaitsOn(c, s, i, t.leader))
    && (t.Loading? && t.role.Follower? ==> Settled(c, s, i, t.role.leader))
    && (t.Asking? && t.role.Follower? ==> Settled(c, s, i, t.role.leader))
    && (t.Asking? && t.role.Follower? ==> MissedAnswerIsLost(c, s, i, t.role.leader))
    && (i in s.stored ==> t.Deleting? || t.Closing? || t.Finished?)
  }

  /** The creator of the channel asks the same question, and has not yet closed it or has. */
  predicate WaitsOn(c: Config, s: State, i: nat, l: nat)
    requires |s.tasks| == |c.tasks| && i < |s.tasks|
  {
    l < |s.tasks| && c.tasks[l].question == c.tasks[i].question
    && (Leads(s.tasks[l]) || s.tasks[l].Closing? || l in s.closed)
  }

  /** What the leader stored under the key of the task is no longer there. */
  predicate MissedAnswerIsLost(c: Config, s: State, i: nat, l: nat)
    requires |s.tasks| == |c.tasks| && i < |s.tasks|
  {
    l in s.stored && l < |s.tasks| && KeyOf(c, l) == KeyOf(c, i) ==> l in s.lost
  }

  predicate Settled(c: Config, s: State, i: nat, l: nat)
    requires |s.tasks| == |c.tasks| && i < |s.tasks|
  {
    l < |s.tasks| && c.tasks[l].question == c.tasks[i].question && l in s.closed
  }

  ghost predicate Inv(c: Config, s: State) {
    && |s.tasks| == |c.tasks|
    && (forall i :: 0 <= i < |s.tasks| ==> TaskOk(c, s, i))
    && (forall q :: q in s.channels ==> s.channels[q] < |s.tasks| && c.tasks[s.channels[q]].question == q)
    && (forall i :: i in s.stored ==> i < |s.tasks| && (i in s.lost || KeyOf(c, i) in s.cache))
    && (forall k :: k in s.cache ==> s.cache[k] in s.stored && s.cache[k] !in s.lost && s.cache[k] < |s.tasks| && KeyOf(c, s.cache[k]) == k)
    && s.lost <= s.stored
    && (forall i :: i in s.deletes ==> i < |s.tasks|)
    && NoDuplicates(s.deletes)
    && NoDuplicates(s.closes) && Elements(s.closes) == s.closed
    && (forall i :: i in s.closed ==> i < |s.tasks|)
  }

  lemma InitInv(c: Config)
    ensures Inv(c, Init(c))
  {
  }

  lemma StepRegister(c: Config, s: State, i: nat)
    requires Inv(c, s) && Enabled(c, s, Register(i))
    ensures Inv(c, Apply(c, s, Register(i)))
  {
    var t := Apply(c, s, Register(i));
    assert TaskOk(c, s, i);
    var q := c.tasks[i].question;
    if q in s.channels { assert TaskOk(c, s, s.channels[q]); }
    forall j | 0 <= j < |t.tasks| ensures TaskOk(c, t, j) {
      assert TaskOk(c, s, j);
    }
  }

  lemma StepWake(c: Config, s: State, e: Event)
    requires Inv(c, s) && Enabled(c, s, e) && e.Wake?
    ensures Inv(c, Apply(c, s, e))
  {
    var t := Apply(c, s, e);
    assert TaskOk(c, s, e.i);
    forall j | 0 <= j < |t.tasks| ensures TaskOk(c, t, j) {
      assert TaskOk(c, s, j);
    }
  }

  lemma StepLoad(c: Config, s: State, e: Event)
    requires Inv(c, s) && Enabled(c, s, e) && e.Load?
    ensures Inv(c, Apply(c, s, e))
  {
    var t := Apply(c, s, e);
    assert TaskOk(c, s, e.i);
    forall j | 0 <= j < |t.tasks| ensures TaskOk(c, t, j) {
      assert TaskOk(c, s, j);
    }
  }

  lemma StepFetch(c: Config, s: State, e: Event)
    requires Inv(c, s) && Enabled(c, s, e) && e.Fetch?
    ensures Inv(c, Apply(c, s, e))
  {
    var t := Apply(c, s, e);
    assert TaskOk(c, s, e.i);
    forall j | 0 <= j < |t.tasks| ensures TaskOk(c, t, j) {
      assert TaskOk(c, s, j);
    }
  }

  lemma StepDelete(c: Config, s: State, i: nat)
    requires Inv(c, s) && Enabled(c, s, Delete(i))
    ensures Inv(c, Apply(c, s, Delete(i)))
  {
    var t := Apply(c, s, Delete(i));
    assert TaskOk(c, s, i);
    AppendUnique(s.deletes, i);
    forall j | 0 <= j < |t.tasks| ensures TaskOk(c, t, j) {
      assert TaskOk(c, s, j);
    }
  }

  lemma StepClose(c: Config, s: State, i: nat)
    requires Inv(c, s) && Enabled(c, s, Close(i))
    ensures Inv(c, Apply(c, s, Close(i)))
  {
    var t := Apply(c, s, Close(i));
    assert TaskOk(c, s, i);
    assert i !in Elements(s.closes);
    AppendUnique(s.closes, i);
    forall j | 0 <= j < |t.tasks| ensures TaskOk(c, t, j) {
      assert TaskOk(c, s, j);
    }
  }

  lemma StepDrop(c: Config, s: State, key: Key)
    requires Inv(c, s) && Enabled(c, s, Drop(key))
    ensures Inv(c, Apply(c, s, Drop(key)))
  {
    var t := Apply(c, s, Drop(key));
    forall j | 0 <= j < |t.tasks| ensures TaskOk(c, t, j) {
      assert TaskOk(c, s, j);
    }
  }

  lemma StepInv(c: Config, s: State, e: Event)
    requires Inv(c, s) && Enabled(c, s, e)
    ensures Inv(c, Apply(c, s, e))
  {
    match e
    case Register(i) => StepRegister(c, s, i);
    case Delete(i) => StepDelete(c, s, i);
    case Close(i) => StepClose(c, s, i);
    case Drop(key) => StepDrop(c, s, key);
    case Wake(_) => StepWake(c, s, e);
    case Load(_) => StepLoad(c, s, e);
    case Fetch(_, _) => StepFetch(c, s, e);
  }

  lemma {:induction false} RunInv(c: Config, s: State, es: seq<Event>)
    requires Inv(c, s) && CanRun(c, s, es)
    ensures Inv(c, After(c, s, es))
    decreases |es|
  {
    if es == [] {
    } else {
      StepInv(c, s, es[0]);
      RunInv(c, Apply(c, s, es[0]), es[1..]);
    }
  }

  // ---------------------------------------------------------------- theorems

  /** At most one task leads a question at a time, and it is the one whose channel is
      registered; each channel is deleted and closed at most once, by its creator, and the
      channel that a deletion removes is the one its task created. */
  lemma OneLeaderPerQuestion(c: Config, es: seq<Event>)
    requires CanRun(c, Init(c), es)
    ensures
      var s := After(c, Init(c), es);
      && (forall i, j |
            0 <= i < |s.tasks| && 0 <= j < |s.tasks| && Leads(s.tasks[i]) && Leads(s.tasks[j])
            && c.tasks[i].question == c.tasks[j].question :: i == j)
      && (forall i: nat :: Enabled(c, s, Delete(i)) ==>
            c.tasks[i].question in s.channels && s.channels[c.tasks[i].question] == i)
      && NoDuplicates(s.deletes) && NoDuplicates(s.closes)
      && (forall i :: i in s.closes ==> i in s.deletes)
  {
    InitInv(c);
    RunInv(c, Init(c), es);
    var s := After(c, Init(c), es);
    forall i, j | 0 <= i < |s.tasks| && 0 <= j < |s.tasks| && Leads(s.tasks[i]) && Leads(s.tasks[j])
                  && c.tasks[i].question == c.tasks[j].question
      ensures i == j
    {
      assert TaskOk(c, s, i) && TaskOk(c, s, j);
    }
    forall i: nat | Enabled(c, s, Delete(i))
      ensures c.tasks[i].question in s.channels && s.channels[c.tasks[i].question] == i
    {
      assert TaskOk(c, s, i);
    }
    forall i | i in s.closes ensures i in s.deletes {
      assert i in Elements(s.closes);
      assert TaskOk(c, s, i);
    }
  }

  /** A task that has waited loads only after the creator of its channel is done, asks the same
      question, and, if that creator stored an answer that the cache has not dropped since, is
      served from the cache; with the independent cache the two must use the same transport. */
  lemma WaiterSeesTheAnswer(c: Config, es: seq<Event>, w: nat)
    requires CanRun(c, Init(c), es)
    requires
      var s := After(c, Init(c), es);
      w < |s.tasks| && s.tasks[w].Loading? && s.tasks[w].role.Follower?
    ensures
      var s := After(c, Init(c), es);
      var l := s.tasks[w].role.leader;
      && l < |s.tasks| && s.tasks[l].Finished? && l in s.closed && c.tasks[l].question == c.tasks[w].question
      && (l in s.stored && l !in s.lost && (c.independent ==> c.tasks[l].transport == c.tasks[w].transport) ==>
            Apply(c, s, Load(w)).tasks[w].Finished? && w in Apply(c, s, Load(w)).hits)
  {
    InitInv(c);
    RunInv(c, Init(c), es);
    var s := After(c, Init(c), es);
    assert TaskOk(c, s, w);
    assert TaskOk(c, s, s.tasks[w].role.leader);
  }

  /** A task that has waited asks the transport itself only if what its leader stored was dropped, or is kept
      under another transport. */
  lemma WaiterAsksOnlyForWhatIsLost(c: Config, es: seq<Event>, w: nat)
    requires CanRun(c, Init(c), es)
    requires
      var s := After(c, Init(c), es);
      w < |s.tasks| && s.tasks[w].Asking? && s.tasks[w].role.Follower?
    ensures
      var s := After(c, Init(c), es);
      var l := s.tasks[w].role.leader;
      && l < |s.tasks| && l in s.closed && c.tasks[l].question == c.tasks[w].question
      && (l in s.stored && (c.independent ==> c.tasks[l].transport == c.tasks[w].transport) ==> l in s.lost)
  {
    InitInv(c);
    RunInv(c, Init(c), es);
    assert TaskOk(c, After(c, Init(c), es), w);
  }

  /** Event `k` of the run is a load of task `i` at which nothing was there to serve it. */
  ghost predicate MissedAt(c: Config, s: State, es: seq<Event>, i: nat, k: nat)
    requires |s.tasks| == |c.tasks| && i < |c.tasks| && CanRun(c, s, es) && k < |es|
  {
    PrefixRuns(c, s, es, k);
    es[k] == Load(i) && forall j :: !Serves(c, After(c, s, es[..k]), j, i)
  }

  lemma {:induction false} PrefixRuns(c: Config, s: State, es: seq<Event>, k: nat)
    requires |s.tasks| == |c.tasks| && CanRun(c, s, es) && k <= |es|
    ensures CanRun(c, s, es[..k])
    ensures k < |es| ==> Enabled(c, After(c, s, es[..k]), es[k])
    ensures k < |es| ==> CanRun(c, s, es[..k + 1]) && After(c, s, es[..k + 1]) == Apply(c, After(c, s, es[..k]), es[k])
    decreases |es|
  {
    if k == 0 {
      if es != [] {
        assert es[..1][1..] == [] && es[..1][0] == es[0];
        assert CanRun(c, Apply(c, s, es[0]), []);
      }
    } else {
      assert es[..k][1..] == es[1..][..k - 1];
      PrefixRuns(c, Apply(c, s, es[0]), es[1..], k - 1);
      if k < |es| {
        assert es[..k + 1][1..] == es[1..][..k];
      }
    }
  }

  /** Nobody asks a transport without having looked: a task that asks has loaded before and found nothing,
      leader and follower alike. */
  lemma {:induction false} AsksOnlyAfterAMiss(c: Config, es: seq<Event>, n: nat, i: nat)
    requires CanRun(c, Init(c), es) && n <= |es| && i < |c.tasks|
    requires CanRun(c, Init(c), es[..n]) && After(c, Init(c), es[..n]).tasks[i].Asking?
    ensures exists k :: 0 <= k < n && MissedAt(c, Init(c), es, i, k)
    decreases n
  {
    if n == 0 {
      assert false;
    } else {
      PrefixRuns(c, Init(c), es, n - 1);
      var s, e := After(c, Init(c), es[..n - 1]), es[n - 1];
      assert es[..n - 1 + 1] == es[..n];
      if s.tasks[i].Asking? {
        AsksOnlyAfterAMiss(c, es, n - 1, i);
      } else {
        assert e == Load(i) && KeyOf(c, i) !in s.cache;
        InitInv(c);
        RunInv(c, Init(c), es[..n - 1]);
        assert MissedAt(c, Init(c), es, i, n - 1);
      }
    }
  }

  /** Task `j` stored an answer that a load by task `i` would find, and the store still has it. */
  predicate Serves(c: Config, s: State, j: nat, i: nat)
    requires i < |c.tasks|
  {
    j < |c.tasks| && j in s.stored && j !in s.lost && KeyOf(c, j) == KeyOf(c, i)
  }

  /** Exactly when a load is served: some task stored an answer under the same key, which with the
      independent cache means on the same transport, and the cache has not dropped it since. Whom the
      task waited for does not matter. */
  lemma ServedExactlyWhen(c: Config, es: seq<Event>, i: nat)
    requires CanRun(c, Init(c), es)
    requires
      var s := After(c, Init(c), es);
      i < |s.tasks| && s.tasks[i].Loading?
    ensures
      var s := After(c, Init(c), es);
      var t := Apply(c, s, Load(i));
      && (i in t.hits || t.tasks[i].Asking?)
      && (!t.tasks[i].Asking? <==> exists j :: Serves(c, s, j, i))
  {
    InitInv(c);
    RunInv(c, Init(c), es);
    var s := After(c, Init(c), es);
    var k := KeyOf(c, i);
    if k in s.cache {
      assert Serves(c, s, s.cache[k], i);
    }
  }

  /** With the independent cache a waiter on another transport can wake up to a miss. */
  lemma IndependentWaiterMisses()
    ensures
      var c := Config([Ask("q", "a"), Ask("q", "b")], true);
      exists es :: CanRun(c, Init(c), es) &&
        var s := After(c, Init(c), es);
        0 in s.stored && 0 !in s.lost && s.tasks[1] == Asking(Follower(0))
  {
    var c := Config([Ask("q", "a"), Ask("q", "b")], true);
    var s0 := Init(c);
    var s1 := Apply(c, s0, Register(0));
    var s2 := Apply(c, s1, Register(1));
    var s3 := Apply(c, s2, Load(0));
    var s4 := Apply(c, s3, Fetch(0, true));
    var s5 := Apply(c, s4, Delete(0));
    var s6 := Apply(c, s5, Close(0));
    var s7 := Apply(c, s6, Wake(1));
    var s8 := Apply(c, s7, Load(1));
    var e8: seq<Event> := [];
    assert CanRun(c, s8, e8) && After(c, s8, e8) == s8;
    var e7 := Prepend(c, s7, Load(1), e8);
    var e6 := Prepend(c, s6, Wake(1), e7);
    var e5 := Prepend(c, s5, Close(0), e6);
    var e4 := Prepend(c, s4, Delete(0), e5);
    var e3 := Prepend(c, s3, Fetch(0, true), e4);
    var e2 := Prepend(c, s2, Load(0), e3);
    var e1 := Prepend(c, s1, Register(1), e2);
    var e0 := Prepend(c, s0, Register(0), e1);
  }

  lemma Prepend(c: Config, s: State, e: Event, es: seq<Event>) returns (r: seq<Event>)
    requires |s.tasks| == |c.tasks| && Enabled(c, s, e) && CanRun(c, Apply(c, s, e), es)
    ensures r == [e] + es && CanRun(c, s, r) && After(c, s, r) == After(c, Apply(c, s, e), es)
  {
    r := [e] + es;
    assert r[1..] == es;
  }

  /** No task waits for ever: as long as one is not finished, a task can take a step. */
  lemma NeverStuck(c: Config, es: seq<Event>)
    requires CanRun(c, Init(c), es)
    ensures
      var s := After(c, Init(c), es);
      (exists i :: 0 <= i < |s.tasks| && !s.tasks[i].Finished?) ==> exists e: Event :: !e.Drop? && Enabled(c, s, e)
  {
    InitInv(c);
    RunInv(c, Init(c), es);
    var s := After(c, Init(c), es);
    if i :| 0 <= i < |s.tasks| && !s.tasks[i].Finished? {
      assert TaskOk(c, s, i);
      CanMove(c, s, i);
      if s.tasks[i].Waiting? {
        var l := s.tasks[i].leader;
        if l in s.closed {
          assert Enabled(c, s, Wake(i));
        } else {
          CanMove(c, s, l);
        }
      }
    }
  }

  /** No task is held up by another but the leader it waits for: whatever the others do, its own next step can be
      taken, and a fetch may store its answer or not. */
  lemma NobodyIsHeldUp(c: Config, s: State, i: nat, store: bool)
    requires |s.tasks| == |c.tasks| && i < |s.tasks|
    ensures match s.tasks[i]
            case Entering => Enabled(c, s, Register(i))
            case Waiting(l) => Enabled(c, s, Wake(i)) <==> l in s.closed
            case Loading(_) => Enabled(c, s, Load(i))
            case Asking(_) => Enabled(c, s, Fetch(i, store))
            case Deleting => Enabled(c, s, Delete(i))
            case Closing => Enabled(c, s, Close(i))
            case Finished => true
  {
  }

  /** Leader or follower, a task that fetches an answer to be stored puts it where loads under its key find it. */
  lemma FetchStores(c: Config, s: State, i: nat)
    requires Inv(c, s) && Enabled(c, s, Fetch(i, true))
    ensures
      var t := Apply(c, s, Fetch(i, true));
      i in t.stored && KeyOf(c, i) in t.cache && t.cache[KeyOf(c, i)] == i && t.lost == s.lost
    ensures
      var t := Apply(c, s, Fetch(i, false));
      t.stored == s.stored && t.cache == s.cache
  {
  }

  lemma CanMove(c: Config, s: State, i: nat)
    requires |s.tasks| == |c.tasks| && i < |s.tasks|
    ensures s.tasks[i].Waiting? || s.tasks[i].Finished? || exists e: Event :: !e.Drop? && Enabled(c, s, e)
  {
    match s.tasks[i]
    case Entering => assert Enabled(c, s, Register(i));
    case Loading(_) => assert Enabled(c, s, Load(i));
    case Asking(_) => assert Enabled(c, s, Fetch(i, true));
    case Deleting => assert Enabled(c, s, Delete(i));
    case Closing => assert Enabled(c, s, Close(i));
    case _ =>
  }

  // ---------------------------------------------------------------- every run ends

  function Weight(t: Task): nat {
    match t
    case Entering => 8
    case Waiting(_) => 7
    case Loading(_) => 6
    case Asking(_) => 5
    case Deleting => 2
    case Closing => 1
    case Finished => 0
  }

  function TotalWeight(ts: seq<Task>): nat {
    if ts == [] then 0 else Weight(ts[0]) + TotalWeight(ts[1..])
  }

  /** What is still to do: the steps of the tasks, and the entries the store may drop. */
  function Measure(s: State): nat {
    TotalWeight(s.tasks) + |s.cache|
  }

  lemma {:induction false} WeightOfUpdate(ts: seq<Task>, i: nat, t: Task)
    requires i < |ts|
    ensures TotalWeight(ts[i := t]) == TotalWeight(ts) - Weight(ts[i]) + Weight(t)
  {
    if i == 0 {
      assert ts[0 := t][1..] == ts[1..];
    } else {
      WeightOfUpdate(ts[1..], i - 1, t);
      assert ts[i := t][1..] == ts[1..][i - 1 := t];
    }
  }

  lemma {:induction false} InitialWeight(ts: seq<Task>)
    requires forall i :: 0 <= i < |ts| ==> ts[i].Entering?
    ensures TotalWeight(ts) == 8 * |ts|
  {
    if ts == [] {
    } else {
      InitialWeight(ts[1..]);
    }
  }

  lemma FetchShrinks(c: Config, s: State, i: nat, store: bool)
    requires |s.tasks| == |c.tasks| && Enabled(c, s, Fetch(i, store))
    ensures Measure(Apply(c, s, Fetch(i, store))) < Measure(s)
  {
    WeightOfUpdate(s.tasks, i, Leave(s.tasks[i].role));
    GrowsByOne(s.cache, KeyOf(c, i), i);
  }

  lemma GrowsByOne(cache: map<Key, nat>, k: Key, i: nat)
    ensures |cache[k := i]| <= |cache| + 1
  {
    assert cache[k := i].Keys == cache.Keys + {k};
  }

  lemma DropShrinks(c: Config, s: State, key: Key)
    requires |s.tasks| == |c.tasks| && Enabled(c, s, Drop(key))
    ensures Measure(Apply(c, s, Drop(key))) < Measure(s)
  {
    assert Apply(c, s, Drop(key)).cache.Keys == s.cache.Keys - {key};
  }

  lemma TaskShrinks(c: Config, s: State, e: Event)
    requires |s.tasks| == |c.tasks| && Enabled(c, s, e) && !e.Drop? && !e.Fetch?
    ensures Measure(Apply(c, s, e)) < Measure(s)
  {
    var i := e.i;
    match e
    case Register(_) =>
      var q := c.tasks[i].question;
      WeightOfUpdate(s.tasks, i, if q in s.channels then Waiting(s.channels[q]) else Loading(Leader));
    case Wake(_) => WeightOfUpdate(s.tasks, i, Loading(Follower(s.tasks[i].leader)));
    case Load(_) => WeightOfUpdate(s.tasks, i, if KeyOf(c, i) in s.cache then Leave(s.tasks[i].role) else Asking(s.tasks[i].role));
    case Delete(_) => WeightOfUpdate(s.tasks, i, Closing);
    case Close(_) => WeightOfUpdate(s.tasks, i, Finished);
  }

  lemma StepShrinks(c: Config, s: State, e: Event)
    requires |s.tasks| == |c.tasks| && Enabled(c, s, e)
    ensures Measure(Apply(c, s, e)) < Measure(s)
  {
    match e
    case Drop(key) => DropShrinks(c, s, key);
    case Fetch(i, store) => FetchShrinks(c, s, i, store);
    case _ => TaskShrinks(c, s, e);
  }

  lemma {:induction false} RunShrinks(c: Config, s: State, es: seq<Event>)
    requires |s.tasks| == |c.tasks| && CanRun(c, s, es)
    ensures |es| + Measure(After(c, s, es)) <= Measure(s)
    decreases |es|
  {
    if es == [] {
    } else {
      StepShrinks(c, s, es[0]);
      RunShrinks(c, Apply(c, s, es[0]), es[1..]);
    }
  }

  /** No run has more than eight events a task, so with `NeverStuck` every waiter is woken and every
      task finishes, however often the store drops what it holds. */
  lemma EveryRunEnds(c: Config, es: seq<Event>)
    requires CanRun(c, Init(c), es)
    ensures |es| <= 8 * |c.tasks|
    ensures
      var s := After(c, Init(c), es);
      (forall e: Event :: !e.Drop? ==> !Enabled(c, s, e)) ==> forall i :: 0 <= i < |s.tasks| ==> s.tasks[i].Finished?
  {
    RunShrinks(c, Init(c), es);
    InitialWeight(Init(c).tasks);
    NeverStuck(c, es);
  }

  // ---------------------------------------------------------------- every channel is cleaned up

  lemma {:induction false} JoinRuns(c: Config, s: State, a: seq<Event>, b: seq<Event>)
    requires |s.tasks| == |c.tasks| && CanRun(c, s, a) && CanRun(c, After(c, s, a), b)
    ensures CanRun(c, s, a + b) && After(c, s, a + b) == After(c, After(c, s, a), b)
    decreases |a|
  {
    if a == [] {
      assert a + b == b;
    } else {
      assert (a + b)[1..] == a[1..] + b;
      JoinRuns(c, Apply(c, s, a[0]), a[1..], b);
    }
  }

  /** The task has its channel registered, or is about to close it, or has closed it. */
  predicate HasChannel(s: State, i: nat)
    requires i < |s.tasks|
  {
    Leads(s.tasks[i]) || s.tasks[i].Closing? || i in s.closed
  }

  lemma {:induction false} ChannelStays(c: Config, s: State, es: seq<Event>, i: nat)
    requires |s.tasks| == |c.tasks| && i < |s.tasks| && CanRun(c, s, es) && HasChannel(s, i)
    ensures HasChannel(After(c, s, es), i)
    decreases |es|
  {
    if es == [] {
    } else {
      ChannelStays(c, Apply(c, s, es[0]), es[1..], i);
    }
  }

  /** A task that led a question at any time has, when no task can move any more, deleted its channel
      exactly once and closed it exactly once, and no channel is left registered. */
  lemma LeaderCleansUp(c: Config, a: seq<Event>, b: seq<Event>, i: nat)
    requires CanRun(c, Init(c), a) && CanRun(c, After(c, Init(c), a), b)
    requires i < |c.tasks| && Leads(After(c, Init(c), a).tasks[i])
    requires forall e: Event :: !e.Drop? ==> !Enabled(c, After(c, After(c, Init(c), a), b), e)
    ensures
      var s := After(c, After(c, Init(c), a), b);
      && i in s.deletes && NoDuplicates(s.deletes)
      && i in s.closes && NoDuplicates(s.closes)
      && s.channels == map[]
  {
    var s := After(c, After(c, Init(c), a), b);
    JoinRuns(c, Init(c), a, b);
    ChannelStays(c, After(c, Init(c), a), b, i);
    InitInv(c);
    RunInv(c, Init(c), a + b);
    EveryRunEnds(c, a + b);
    assert s.tasks[i].Finished? && i in Elements(s.closes);
    assert TaskOk(c, s, i);
    if q :| q in s.channels {
      RegisteredLeads(c, s, q);
    }
  }

  lemma RegisteredLeads(c: Config, s: State, q: string)
    requires Inv(c, s) && q in s.channels
    ensures s.channels[q] < |s.tasks| && Leads(s.tasks[s.channels[q]])
  {
    assert TaskOk(c, s, s.channels[q]);
  }
}
