/**
  Dependency-ordered start: the fixpoint loop and the diagnosis walk that the outbound
  manager and the DNS transport manager share.

  `fails` says at which positions of the list a start reports an error. `order` lists the
  start calls made by tag, `picks` by position in the list.
  The nil dereference of the Go code is a result of its own.
*/
module StartOrder {
  import opened Lists

  datatype Component = Component(tag: string, dependencies: seq<string>)

  datatype Result =
    | AllStarted
    | StartFailed(tag: string)
    | Circular(path: seq<string>, back: string)
    | NotFound(dependency: string, of: string)
    | NilDereference

  function TagList(list: seq<Component>): seq<string> {
    seq(|list|, i requires 0 <= i < |list| => list[i].tag)
  }

  function Tags(list: seq<Component>): (r: set<string>)
    ensures r == Elements(TagList(list))
  {
    var r := set c | c in list :: c.tag;
    assert forall t :: t in r <==> t in TagList(list) by {
      forall t | t in r ensures t in TagList(list) {
        var c :| c in list && c.tag == t;
        var i :| 0 <= i < |list| && list[i] == c;
        assert TagList(list)[i] == t;
      }
    }
    r
  }

  predicate Ready(c: Component, started: set<string>) {
    forall d :: d in c.dependencies ==> d in started
  }

  /** Each tag of `order` belongs to a component whose dependencies all come before it. */
  ghost predicate InOrder(list: seq<Component>, order: seq<string>) {
    && NoDuplicates(order)
    && forall k :: 0 <= k < |order| ==> StartsAt(list, order, k)
  }

  ghost predicate StartsAt(list: seq<Component>, order: seq<string>, k: nat)
    requires k < |order|
  {
    exists c :: c in list && c.tag == order[k] && Ready(c, Elements(order[..k]))
  }

  /** A start order for everything. */
  ghost predicate CompleteOrder(list: seq<Component>, order: seq<string>) {
    InOrder(list, order) && Elements(order) == Tags(list)
  }

  /** Nothing that is left can be started. */
  ghost predicate Blocked(list: seq<Component>, started: set<string>) {
    forall c :: c in list && c.tag !in started ==> !Ready(c, started)
  }

  lemma {:induction false} ExtendOrder(list: seq<Component>, order: seq<string>, c: Component)
    requires InOrder(list, order) && c in list && c.tag !in order && Ready(c, Elements(order))
    ensures InOrder(list, order + [c.tag]) && Elements(order + [c.tag]) == Elements(order) + {c.tag}
  {
    var next := order + [c.tag];
    AppendUnique(order, c.tag);
    forall k | 0 <= k < |next| ensures StartsAt(list, next, k) {
      assert k < |order| ==> next[..k] == order[..k];
      if k < |order| {
        assert StartsAt(list, order, k);
      } else {
        assert next[..k] == order;
      }
    }
  }

  /** When the loop is blocked with something left, no order at all starts everything. */
  lemma BlockedMeansImpossible(list: seq<Component>, started: set<string>, full: seq<string>)
    requires Blocked(list, started) && !(Tags(list) <= started)
    ensures !CompleteOrder(list, full)
  {
    if CompleteOrder(list, full) {
      var t :| t in Tags(list) && t !in started;
      assert t in Elements(full);
      var k :| 0 <= k < |full| && full[k] == t;
      FirstOutside(list, started, full, k);
    }
  }

  lemma {:induction false} FirstOutside(list: seq<Component>, started: set<string>, full: seq<string>, k: nat)
    requires Blocked(list, started) && CompleteOrder(list, full) && k < |full|
    ensures full[k] in started
  {
    assert StartsAt(list, full, k);
    var c :| c in list && c.tag == full[k] && Ready(c, Elements(full[..k]));
    forall d | d in c.dependencies ensures d in started {
      assert d in Elements(full[..k]);
      var j :| 0 <= j < k && full[j] == d;
      FirstOutside(list, started, full, j);
    }
  }

  // ---------------------------------------------------------------- diagnosis

  /** `common.Find` on the dependencies: the first that is not started. */
  function FirstMissing(ds: seq<string>, started: set<string>): (d: string)
    requires exists x :: x in ds && x !in started
    ensures d in ds && d !in started
  {
    if ds[0] !in started then ds[0] else FirstMissing(ds[1..], started)
  }

  /** All dependencies before it are started. */
  lemma {:induction false} FirstMissingIsFirst(ds: seq<string>, started: set<string>)
    requires exists x :: x in ds && x !in started
    ensures exists k :: 0 <= k < |ds| && ds[k] == FirstMissing(ds, started) && forall j :: 0 <= j < k ==> ds[j] in started
  {
    if ds[0] !in started {
    } else {
      FirstMissingIsFirst(ds[1..], started);
      var k :| 0 <= k < |ds[1..]| && ds[1..][k] == FirstMissing(ds[1..], started) && forall j :: 0 <= j < k ==> ds[1..][j] in started;
      assert ds[k + 1] == FirstMissing(ds, started);
      forall j | 0 <= j < k + 1 ensures ds[j] in started {
        assert j > 0 ==> ds[j] == ds[1..][j - 1];
      }
    }
  }

  /** The registry knows only components of the list, under their tags. */
  predicate RegistryOk(list: seq<Component>, registry: map<string, Component>) {
    forall t :: t in registry ==> registry[t] in list && registry[t].tag == t
  }

  /** `a` is an unstarted component that waits for `b`, which is not started either. */
  predicate Waits(list: seq<Component>, started: set<string>, a: string, b: string) {
    a !in started && b !in started && exists c :: c in list && c.tag == a && b in c.dependencies
  }

  /** Each tag of the path waits for the next one. */
  predicate WaitChain(list: seq<Component>, started: set<string>, path: seq<string>) {
    forall k :: 0 <= k < |path| - 1 ==> Waits(list, started, path[k], path[k + 1])
  }

  /** What an honest diagnosis says. */
  predicate Truthful(list: seq<Component>, registry: map<string, Component>, started: set<string>, r: Result) {
    match r
    case Circular(path, back) =>
      path != [] && WaitChain(list, started, path) && back in path && Waits(list, started, path[|path| - 1], back)
    case NotFound(d, of) => Waits(list, started, of, d) && d !in registry
    case _ => false
  }

  /** The recursive walk: it ends because every step adds a registered tag to the path. */
  function Lint(list: seq<Component>, registry: map<string, Component>, started: set<string>, tree: seq<string>, current: Component): (r: Result)
    requires RegistryOk(list, registry) && Blocked(list, started)
    requires current in list && current.tag !in started
    requires tree != [] && tree[|tree| - 1] == current.tag && WaitChain(list, started, tree)
    ensures Truthful(list, registry, started, r)
    decreases registry.Keys - Elements(tree)
  {
    assert !Ready(current, started);
    var problem := FirstMissing(current.dependencies, started);
    if problem in tree then Circular(tree, problem)
    else if problem !in registry then NotFound(problem, current.tag)
    else
      assert Elements(tree + [problem]) == Elements(tree) + {problem};
      assert problem in registry.Keys - Elements(tree);
      Lint(list, registry, started, tree + [problem], registry[problem])
  }

  /** The first component that is not started. */
  function FirstUnstarted(list: seq<Component>, started: set<string>): Option<Component> {
    if list == [] then None
    else if list[0].tag !in started then Some(list[0])
    else FirstUnstarted(list[1..], started)
  }

  lemma {:induction false} FirstUnstartedFinds(list: seq<Component>, started: set<string>)
    ensures match FirstUnstarted(list, started)
            case None => Tags(list) <= started
            case Some(c) => c in list && c.tag !in started
  {
    if list == [] {
    } else {
      FirstUnstartedFinds(list[1..], started);
      assert forall c :: c in list <==> c == list[0] || c in list[1..];
    }
  }

  /** All components before it are started. */
  lemma {:induction false} FirstUnstartedIsFirst(list: seq<Component>, started: set<string>)
    requires FirstUnstarted(list, started).Some?
    ensures exists k :: 0 <= k < |list| && list[k] == FirstUnstarted(list, started).value && forall j :: 0 <= j < k ==> list[j].tag in started
  {
    if list[0].tag !in started {
    } else {
      FirstUnstartedIsFirst(list[1..], started);
      var c := FirstUnstarted(list, started).value;
      var k :| 0 <= k < |list[1..]| && list[1..][k] == c && forall j :: 0 <= j < k ==> list[1..][j].tag in started;
      assert list[k + 1] == c;
      forall j | 0 <= j < k + 1 ensures list[j].tag in started {
        assert j > 0 ==> list[j] == list[1..][j - 1];
      }
    }
  }

  function Diagnose(list: seq<Component>, registry: map<string, Component>, started: set<string>): (r: Result)
    requires RegistryOk(list, registry) && Blocked(list, started)
    ensures r.NilDereference? <==> Tags(list) <= started
    ensures !r.NilDereference? ==> Truthful(list, registry, started, r)
  {
    FirstUnstartedFinds(list, started);
    match FirstUnstarted(list, started)
    case None => NilDereference
    case Some(c) => Lint(list, registry, started, [c.tag], c)
  }

  /** With a registry of exactly the listed components, as the DNS manager keeps it, a missing
      dependency is not a component at all. */
  lemma NotFoundMeansAbsent(list: seq<Component>, registry: map<string, Component>, started: set<string>)
    requires RegistryOk(list, registry) && Blocked(list, started) && registry.Keys == Tags(list)
    ensures
      var r := Diagnose(list, registry, started);
      r.NotFound? ==> forall c :: c in list ==> c.tag != r.dependency
  {
  }

  /** The component a walk from `first` stands at after `k` steps. */
  function At(registry: map<string, Component>, first: Component, path: seq<string>, k: nat): Component
    requires k < |path| && (k == 0 || path[k] in registry)
  {
    if k == 0 then first else registry[path[k]]
  }

  predicate FollowedBy(registry: map<string, Component>, started: set<string>, first: Component, path: seq<string>, k: nat)
    requires k < |path| - 1
  {
    && (k == 0 || path[k] in registry)
    && var c := At(registry, first, path, k);
       !Ready(c, started) && path[k + 1] == FirstMissing(c.dependencies, started)
  }

  /** The path of first missing dependencies from `first`: each tag is the first dependency of the one
      before it that is not started, and all but the ends are registered. */
  predicate MissingPath(registry: map<string, Component>, started: set<string>, first: Component, path: seq<string>) {
    path != [] && path[0] == first.tag && forall k :: 0 <= k < |path| - 1 ==> FollowedBy(registry, started, first, path, k)
  }

  /** The path runs without a repeat to a tag that the registry lacks. */
  predicate LeadsOut(registry: map<string, Component>, started: set<string>, first: Component, path: seq<string>) {
    && |path| >= 2 && MissingPath(registry, started, first, path) && NoDuplicates(path)
    && path[|path| - 1] !in registry
  }

  /** The walk follows such a path to its end. */
  lemma {:induction false} LintFollows(list: seq<Component>, registry: map<string, Component>, started: set<string>, first: Component, path: seq<string>, k: nat)
    requires RegistryOk(list, registry) && Blocked(list, started) && LeadsOut(registry, started, first, path)
    requires first in list && first.tag !in started && 1 <= k < |path|
    requires path[k - 1] !in started && WaitChain(list, started, path[..k]) && (k == 1 || path[k - 1] in registry)
    ensures Lint(list, registry, started, path[..k], At(registry, first, path, k - 1)) == NotFound(path[|path| - 1], path[|path| - 2])
    decreases |path| - k
  {
    var c := At(registry, first, path, k - 1);
    assert FollowedBy(registry, started, first, path, k - 1);
    assert path[..k + 1] == path[..k] + [path[k]];
    assert path[k] !in path[..k];
    if k == |path| - 1 {
    } else {
      assert FollowedBy(registry, started, first, path, k);
      assert Waits(list, started, path[k - 1], path[k]);
      LintFollows(list, registry, started, first, path, k + 1);
    }
  }

  /** A walk that ends outside the registry has followed such a path. */
  lemma {:induction false} LintPath(list: seq<Component>, registry: map<string, Component>, started: set<string>, first: Component, tree: seq<string>)
    returns (path: seq<string>)
    requires RegistryOk(list, registry) && Blocked(list, started) && first in list && first.tag !in started
    requires MissingPath(registry, started, first, tree) && NoDuplicates(tree) && WaitChain(list, started, tree)
    requires tree[|tree| - 1] !in started && (|tree| == 1 || tree[|tree| - 1] in registry)
    requires Lint(list, registry, started, tree, At(registry, first, tree, |tree| - 1)).NotFound?
    ensures LeadsOut(registry, started, first, path)
    ensures path[|path| - 1] == Lint(list, registry, started, tree, At(registry, first, tree, |tree| - 1)).dependency
    decreases registry.Keys - Elements(tree)
  {
    var c := At(registry, first, tree, |tree| - 1);
    assert c in list && c.tag == tree[|tree| - 1] && !Ready(c, started);
    var problem := FirstMissing(c.dependencies, started);
    assert problem !in tree;
    path := tree + [problem];
    AppendUnique(tree, problem);
    forall k | 0 <= k < |path| - 1 ensures FollowedBy(registry, started, first, path, k) {
      if k < |tree| - 1 {
        assert FollowedBy(registry, started, first, tree, k);
      }
    }
    if problem in registry {
      assert Waits(list, started, c.tag, problem);
      path := LintPath(list, registry, started, first, path);
    }
  }

  /** A dependency is reported missing if and only if the path of first missing dependencies, from the
      first component that is not started, leads to it before it repeats itself. */
  lemma NotFoundExactlyWhen(list: seq<Component>, registry: map<string, Component>, started: set<string>, first: Component, d: string)
    requires RegistryOk(list, registry) && Blocked(list, started) && FirstUnstarted(list, started) == Some(first)
    ensures
      var r := Diagnose(list, registry, started);
      (r.NotFound? && r.dependency == d) <==>
      exists path :: LeadsOut(registry, started, first, path) && path[|path| - 1] == d
  {
    FirstUnstartedFinds(list, started);
    var r := Diagnose(list, registry, started);
    if r.NotFound? {
      var path := LintPath(list, registry, started, first, [first.tag]);
    }
    forall path | LeadsOut(registry, started, first, path) ensures r == NotFound(path[|path| - 1], path[|path| - 2]) {
      assert path[..1] == [first.tag];
      LintFollows(list, registry, started, first, path, 1);
    }
  }

  /** The outbound manager lists endpoints too but does not look them up. It reports an existing component
      missing if and only if the first tag behind the start of that path that no outbound has, before any
      repeat, is the tag of an endpoint. */
  lemma OutboundDiagnosis(outbounds: seq<Component>, endpoints: seq<Component>, registry: map<string, Component>, started: set<string>, first: Component)
    requires RegistryOk(outbounds + endpoints, registry) && Blocked(outbounds + endpoints, started)
    requires registry.Keys == Tags(outbounds) && FirstUnstarted(outbounds + endpoints, started) == Some(first)
    ensures
      var r := Diagnose(outbounds + endpoints, registry, started);
      r.NotFound? && r.dependency in Tags(outbounds + endpoints) <==>
      exists path :: LeadsOut(registry, started, first, path) && path[|path| - 1] in Tags(endpoints)
  {
    var all := outbounds + endpoints;
    var r := Diagnose(all, registry, started);
    TagsOfBoth(outbounds, endpoints);
    if r.NotFound? {
      NotFoundExactlyWhen(all, registry, started, first, r.dependency);
    }
    forall path | LeadsOut(registry, started, first, path) ensures r.NotFound? && r.dependency == path[|path| - 1] {
      NotFoundExactlyWhen(all, registry, started, first, path[|path| - 1]);
    }
  }

  lemma TagsOfBoth(a: seq<Component>, b: seq<Component>)
    ensures Tags(a + b) == Tags(a) + Tags(b)
  {
    assert TagList(a + b) == TagList(a) + TagList(b);
  }

  /** So where nothing that is left waits for an endpoint, what it reports missing does not exist. */
  lemma OutboundDiagnosisIsRight(outbounds: seq<Component>, endpoints: seq<Component>, registry: map<string, Component>, started: set<string>)
    requires RegistryOk(outbounds + endpoints, registry) && Blocked(outbounds + endpoints, started) && registry.Keys == Tags(outbounds)
    requires forall a, e :: e in Tags(endpoints) ==> !Waits(outbounds + endpoints, started, a, e)
    ensures
      var r := Diagnose(outbounds + endpoints, registry, started);
      r.NotFound? ==> r.dependency !in Tags(outbounds + endpoints)
  {
    TagsOfBoth(outbounds, endpoints);
    var r := Diagnose(outbounds + endpoints, registry, started);
    assert r.NotFound? ==> Waits(outbounds + endpoints, started, r.of, r.dependency);
  }

  lemma EndpointReportedMissing()
    ensures
      var a, e := Component("a", ["e"]), Component("e", ["a"]);
      Blocked([a] + [e], {}) && Diagnose([a] + [e], map["a" := a], {}) == NotFound("e", "a")
  {
    var a, e := Component("a", ["e"]), Component("e", ["a"]);
    var list := [a] + [e];
    assert list == [a, e];
    assert "e" in a.dependencies && "a" in e.dependencies;
    assert FirstUnstarted(list, {}) == Some(a);
    assert FirstMissing(a.dependencies, {}) == "e";
  }

  // ---------------------------------------------------------------- which components are started

  /** What one pass over the list starts, as positions, and the tags that are then started. */
  datatype Passed = Passed(picks: seq<nat>, started: set<string>)

  /** The pass from position `i` on, if nothing fails: a component is started when its tag is new and
      its dependencies are started. */
  function Pass(list: seq<Component>, i: nat, started: set<string>): Passed
    requires i <= |list|
    decreases |list| - i
  {
    if i == |list| then Passed([], started)
    else if list[i].tag !in started && Ready(list[i], started) then
      var r := Pass(list, i + 1, started + {list[i].tag});
      Passed([i] + r.picks, r.started)
    else Pass(list, i + 1, started)
  }

  lemma {:induction false} PassGrows(list: seq<Component>, i: nat, started: set<string>)
    requires i <= |list|
    ensures
      var r := Pass(list, i, started);
      && started <= r.started <= started + Tags(list)
      && (if r.picks == [] then r.started == started else started < r.started)
    decreases |list| - i
  {
    if i == |list| {
    } else if list[i].tag !in started && Ready(list[i], started) {
      assert list[i] in list;
      PassGrows(list, i + 1, started + {list[i].tag});
    } else {
      PassGrows(list, i + 1, started);
    }
  }

  /** The positions that are started pass by pass, if nothing fails. */
  function Schedule(list: seq<Component>, started: set<string>): seq<nat>
    decreases Tags(list) - started
  {
    PassGrows(list, 0, started);
    var r := Pass(list, 0, started);
    if r.picks == [] then [] else r.picks + Schedule(list, r.started)
  }

  lemma ScheduleUnfolds(list: seq<Component>, started: set<string>)
    ensures
      var r := Pass(list, 0, started);
      Schedule(list, started) == r.picks + Schedule(list, r.started)
  {
    PassGrows(list, 0, started);
  }

  /** What is picked stands in the list, under a tag that was not started. */
  lemma {:induction false} PassPicks(list: seq<Component>, i: nat, started: set<string>, p: nat)
    requires i <= |list| && p in Pass(list, i, started).picks
    ensures i <= p < |list| && list[p].tag !in started
    decreases |list| - i
  {
    if list[i].tag !in started && Ready(list[i], started) {
      if p != i {
        PassPicks(list, i + 1, started + {list[i].tag}, p);
      }
    } else {
      PassPicks(list, i + 1, started, p);
    }
  }

  lemma {:induction false} SchedulePicks(list: seq<Component>, started: set<string>, p: nat)
    requires p in Schedule(list, started)
    ensures p < |list| && list[p].tag !in started
    decreases Tags(list) - started
  {
    PassGrows(list, 0, started);
    var r := Pass(list, 0, started);
    if p in r.picks {
      PassPicks(list, 0, started, p);
    } else {
      SchedulePicks(list, r.started, p);
    }
  }

  /** A pass goes through the list from the front. */
  lemma {:induction false} PassInListOrder(list: seq<Component>, i: nat, started: set<string>, a: nat, b: nat)
    requires i <= |list| && a < b < |Pass(list, i, started).picks|
    ensures Pass(list, i, started).picks[a] < Pass(list, i, started).picks[b]
    decreases |list| - i
  {
    if list[i].tag !in started && Ready(list[i], started) {
      var next := started + {list[i].tag};
      var rest := Pass(list, i + 1, next).picks;
      assert Pass(list, i, started).picks == [i] + rest;
      if a == 0 {
        PassPicks(list, i + 1, next, rest[b - 1]);
      } else {
        PassInListOrder(list, i + 1, next, a - 1, b - 1);
      }
    } else {
      PassInListOrder(list, i + 1, started, a, b);
    }
  }

  lemma {:induction false} ShadowedInPass(list: seq<Component>, from: nat, started: set<string>, i: nat, j: nat)
    requires from <= i < j < |list| && list[i].tag == list[j].tag && list[i].dependencies == []
    ensures j !in Pass(list, from, started).picks && list[i].tag in Pass(list, from, started).started
    decreases i - from
  {
    var next := if list[from].tag !in started && Ready(list[from], started) then started + {list[from].tag} else started;
    PassGrows(list, from + 1, next);
    if from == i {
      if j in Pass(list, i + 1, next).picks {
        PassPicks(list, i + 1, next, j);
      }
    } else {
      ShadowedInPass(list, from + 1, next, i, j);
    }
  }

  /** A component behind one of the same tag that has no dependencies is never started. */
  lemma ShadowedIsNeverStarted(list: seq<Component>, i: nat, j: nat)
    requires i < j < |list| && list[i].tag == list[j].tag && list[i].dependencies == []
    ensures j !in Schedule(list, {})
  {
    ShadowedInPass(list, 0, {}, i, j);
    if j in Schedule(list, {}) {
      SchedulePicks(list, Pass(list, 0, {}).started, j);
    }
  }

  // ---------------------------------------------------------------- the schedule is a start order

  predicate Positions(list: seq<Component>, picks: seq<nat>) {
    forall k :: 0 <= k < |picks| ==> picks[k] < |list|
  }

  function TagsAt(list: seq<Component>, picks: seq<nat>): seq<string>
    requires Positions(list, picks)
  {
    seq(|picks|, k requires 0 <= k < |picks| => list[picks[k]].tag)
  }

  lemma TagsAppend(list: seq<Component>, order: seq<string>, a: seq<nat>, b: seq<nat>)
    requires Positions(list, a) && Positions(list, b)
    ensures Positions(list, a + b) && TagsAt(list, a + b) == TagsAt(list, a) + TagsAt(list, b)
    ensures order + TagsAt(list, a + b) == (order + TagsAt(list, a)) + TagsAt(list, b)
  {
  }

  lemma {:induction false} PassSound(list: seq<Component>, i: nat, started: set<string>, order: seq<string>)
    requires i <= |list| && InOrder(list, order) && started == Elements(order)
    ensures
      var r := Pass(list, i, started);
      && Positions(list, r.picks) && InOrder(list, order + TagsAt(list, r.picks))
      && Elements(order + TagsAt(list, r.picks)) == r.started
    decreases |list| - i
  {
    var r := Pass(list, i, started);
    if i == |list| {
      assert order + TagsAt(list, r.picks) == order;
    } else if list[i].tag !in started && Ready(list[i], started) {
      ExtendOrder(list, order, list[i]);
      PassSound(list, i + 1, started + {list[i].tag}, order + [list[i].tag]);
      var rest := Pass(list, i + 1, started + {list[i].tag}).picks;
      assert order + TagsAt(list, r.picks) == (order + [list[i].tag]) + TagsAt(list, rest);
    } else {
      PassSound(list, i + 1, started, order);
    }
  }

  lemma {:induction false} EmptyPassIsBlocked(list: seq<Component>, i: nat, started: set<string>)
    requires i <= |list| && Pass(list, i, started).picks == []
    ensures forall j :: i <= j < |list| && list[j].tag !in started ==> !Ready(list[j], started)
    decreases |list| - i
  {
    if i == |list| {
    } else {
      EmptyPassIsBlocked(list, i + 1, started);
    }
  }

  /** The schedule starts each tag after its dependencies, and goes on until nothing more can be. */
  lemma {:induction false} ScheduleSound(list: seq<Component>, started: set<string>, order: seq<string>)
    requires InOrder(list, order) && started == Elements(order)
    ensures
      var picks := Schedule(list, started);
      && Positions(list, picks) && InOrder(list, order + TagsAt(list, picks))
      && Blocked(list, Elements(order + TagsAt(list, picks)))
    decreases Tags(list) - started
  {
    PassGrows(list, 0, started);
    PassSound(list, 0, started, order);
    var r := Pass(list, 0, started);
    if r.picks == [] {
      EmptyPassIsBlocked(list, 0, started);
      assert order + TagsAt(list, []) == order;
    } else {
      var next := order + TagsAt(list, r.picks);
      ScheduleSound(list, r.started, next);
      TagsAppend(list, order, r.picks, Schedule(list, r.started));
    }
  }

  lemma OrderPrefix(list: seq<Component>, order: seq<string>, n: nat)
    requires InOrder(list, order) && n <= |order|
    ensures InOrder(list, order[..n])
  {
    forall k | 0 <= k < n ensures StartsAt(list, order[..n], k) {
      assert StartsAt(list, order, k) && order[..n][..k] == order[..k];
    }
  }

  lemma OrderWithin(list: seq<Component>, order: seq<string>)
    requires InOrder(list, order)
    ensures Elements(order) <= Tags(list)
  {
    forall t | t in order ensures t in Tags(list) {
      var k :| 0 <= k < |order| && order[k] == t;
      assert StartsAt(list, order, k);
    }
  }

  /** When everything was started under distinct tags, every position was picked exactly once. */
  lemma PicksAreAll(list: seq<Component>, picks: seq<nat>)
    requires Positions(list, picks) && NoDuplicates(TagsAt(list, picks))
    ensures NoDuplicates(picks)
    ensures CompleteOrder(list, TagsAt(list, picks)) && NoDuplicates(TagList(list)) ==>
              forall i :: 0 <= i < |list| ==> i in picks
  {
    var order := TagsAt(list, picks);
    forall i, j | 0 <= i < j < |picks| ensures picks[i] != picks[j] {
      assert order[i] != order[j];
    }
    if CompleteOrder(list, order) && NoDuplicates(TagList(list)) {
      forall i | 0 <= i < |list| ensures i in picks {
        assert TagList(list)[i] in Tags(list);
        assert list[i].tag in Elements(order);
        var k :| 0 <= k < |order| && order[k] == list[i].tag;
        assert TagList(list)[picks[k]] == TagList(list)[i];
        assert picks[k] == i;
      }
    }
  }

  // ---------------------------------------------------------------- the loop

  /** There is an order that starts everything. */
  ghost predicate HasOrder(list: seq<Component>) {
    exists full :: CompleteOrder(list, full)
  }

  ghost predicate NoneFails(picks: seq<nat>, fails: nat -> bool) {
    forall k :: 0 <= k < |picks| ==> !fails(picks[k])
  }

  /** What was started is the schedule, or the piece of it up to the first failure. */
  ghost predicate Follows(picks: seq<nat>, schedule: seq<nat>, failed: bool, fails: nat -> bool) {
    if failed then picks <= schedule && picks != [] && NoneFails(picks[..|picks| - 1], fails) && fails(picks[|picks| - 1])
    else picks == schedule && NoneFails(picks, fails)
  }

  /** The result in terms of the input alone. */
  ghost predicate ExactResult(list: seq<Component>, fails: nat -> bool, r: Result) {
    && (r.AllStarted? <==> HasOrder(list) && NoDuplicates(TagList(list)) && forall p :: 0 <= p < |list| ==> !fails(p))
    && (r.NilDereference? <==> HasOrder(list) && !NoDuplicates(TagList(list)) && NoneFails(Schedule(list, {}), fails))
    && (r.StartFailed? <==> !NoneFails(Schedule(list, {}), fails))
  }

  /** Everything is started once and after its dependencies, or the caller learns why not. What is
      started is the schedule up to the first failure; and what comes of it follows from whether an order
      exists, whether tags are shared and which positions fail, where of a shared tag only the component
      that is started counts. */
  method StartAll(list: seq<Component>, registry: map<string, Component>, fails: nat -> bool)
    returns (r: Result, picks: seq<nat>)
    requires RegistryOk(list, registry)
    ensures Follows(picks, Schedule(list, {}), r.StartFailed?, fails)
    ensures Positions(list, picks) && InOrder(list, TagsAt(list, picks))
    ensures r.AllStarted? || r.NilDereference? ==> CompleteOrder(list, TagsAt(list, picks))
    ensures r.StartFailed? ==> r.tag == list[picks[|picks| - 1]].tag
    ensures r.Circular? || r.NotFound? ==> Truthful(list, registry, Elements(TagsAt(list, picks)), r) && !HasOrder(list)
    ensures ExactResult(list, fails, r)
  {
    var started: set<string> := {};
    picks := [];
    assert [] + Schedule(list, {}) == Schedule(list, {});
    while true
      invariant SoFar(list, picks, started, fails)
      decreases Tags(list) - started
    {
      ghost var before := started;
      var failed, more;
      failed, more, started := StartRound(list, started, fails);
      Advance(list, before, picks, more, failed, fails);
      picks := picks + more;
      if failed {
        Failed(list, picks, fails);
        return StartFailed(list[picks[|picks| - 1]].tag), picks;
      }
      if |started| != |list| && |more| > 0 {
        PassGrows(list, 0, before);
        continue;
      }
      EmptyPassEnds(list, before);
      r := Conclude(list, registry, picks, started, fails);
      return;
    }
  }

  lemma EmptyPassEnds(list: seq<Component>, started: set<string>)
    ensures
      var r := Pass(list, 0, started);
      r.picks == [] ==> r.started == started && Schedule(list, started) == []
  {
    PassGrows(list, 0, started);
  }

  /** Between two rounds: what is started so far is the beginning of the schedule. */
  ghost predicate SoFar(list: seq<Component>, picks: seq<nat>, started: set<string>, fails: nat -> bool) {
    && Positions(list, picks) && InOrder(list, TagsAt(list, picks)) && started == Elements(TagsAt(list, picks))
    && Schedule(list, {}) == picks + Schedule(list, started) && NoneFails(picks, fails)
  }

  /** A failure further on, or none, behind positions that did not fail. */
  lemma FollowsBehind(picked: seq<nat>, more: seq<nat>, now: seq<nat>, later: seq<nat>, failed: bool, fails: nat -> bool)
    requires NoneFails(picked, fails) && Follows(more, now, failed, fails)
    ensures failed ==> Follows(picked + more, picked + (now + later), true, fails)
    ensures !failed ==> NoneFails(picked + more, fails)
  {
    var all := picked + more;
    if failed {
      assert all[..|all| - 1] == picked + more[..|more| - 1];
    }
  }

  lemma PassBehind(list: seq<Component>, started: set<string>, picked: seq<nat>)
    requires Positions(list, picked) && InOrder(list, TagsAt(list, picked)) && started == Elements(TagsAt(list, picked))
    ensures
      var r := Pass(list, 0, started);
      && Positions(list, r.picks) && Positions(list, picked + r.picks)
      && InOrder(list, TagsAt(list, picked + r.picks)) && r.started == Elements(TagsAt(list, picked + r.picks))
  {
    PassSound(list, 0, started, TagsAt(list, picked));
    TagsAppend(list, [], picked, Pass(list, 0, started).picks);
  }

  lemma ScheduleBehind(list: seq<Component>, started: set<string>, picked: seq<nat>)
    requires Schedule(list, {}) == picked + Schedule(list, started)
    ensures
      var r := Pass(list, 0, started);
      && Schedule(list, {}) == (picked + r.picks) + Schedule(list, r.started)
      && Schedule(list, {}) == picked + (r.picks + Schedule(list, r.started))
  {
    ScheduleUnfolds(list, started);
  }

  /** A round moves along the schedule by one pass, or by the piece of it up to a failure. */
  lemma Advance(list: seq<Component>, started: set<string>, picked: seq<nat>, more: seq<nat>, failed: bool, fails: nat -> bool)
    requires SoFar(list, picked, started, fails) && Follows(more, Pass(list, 0, started).picks, failed, fails)
    ensures Positions(list, picked + more)
    ensures if failed then Follows(picked + more, Schedule(list, {}), true, fails)
            else SoFar(list, picked + more, Pass(list, 0, started).started, fails)
  {
    var pass := Pass(list, 0, started);
    ScheduleBehind(list, started, picked);
    PassBehind(list, started, picked);
    FollowsBehind(picked, more, pass.picks, Schedule(list, pass.started), failed, fails);
  }

  lemma Failed(list: seq<Component>, picks: seq<nat>, fails: nat -> bool)
    requires Positions(list, picks) && Follows(picks, Schedule(list, {}), true, fails)
    ensures InOrder(list, TagsAt(list, picks)) && ExactResult(list, fails, StartFailed(list[picks[|picks| - 1]].tag))
  {
    var schedule, p := Schedule(list, {}), picks[|picks| - 1];
    ScheduleSound(list, {}, []);
    assert [] + TagsAt(list, schedule) == TagsAt(list, schedule);
    OrderPrefix(list, TagsAt(list, schedule), |picks|);
    assert TagsAt(list, schedule)[..|picks|] == TagsAt(list, picks);
    assert schedule[|picks| - 1] == p && p < |list| && fails(p);
  }

  /** The end of the loop: all are started, or nothing more can be. */
  method Conclude(list: seq<Component>, registry: map<string, Component>, ghost picks: seq<nat>, started: set<string>, ghost fails: nat -> bool)
    returns (r: Result)
    requires RegistryOk(list, registry) && SoFar(list, picks, started, fails)
    requires |started| == |list| || Schedule(list, started) == []
    ensures picks == Schedule(list, {}) && !r.StartFailed? && ExactResult(list, fails, r)
    ensures r.AllStarted? || r.NilDereference? ==> CompleteOrder(list, TagsAt(list, picks))
    ensures r.Circular? || r.NotFound? ==> Truthful(list, registry, started, r) && !HasOrder(list)
  {
    OrderWithin(list, TagsAt(list, picks));
    ElementCount(TagList(list));
    SubsetCount(started, Tags(list));
    ghost var later := Schedule(list, started);
    ScheduleSound(list, started, TagsAt(list, picks));
    if |started| == |list| {
      NothingLeft(list, started);
      assert picks + later == picks;
      r := AllStarted;
    } else {
      assert picks + later == picks && TagsAt(list, picks) + TagsAt(list, later) == TagsAt(list, picks);
      r := Diagnose(list, registry, started);
      if !r.NilDereference? {
        forall full ensures !CompleteOrder(list, full) {
          BlockedMeansImpossible(list, started, full);
        }
      }
    }
    ConcludedIsExact(list, picks, fails, r);
  }

  lemma NothingLeft(list: seq<Component>, started: set<string>)
    requires Tags(list) <= started
    ensures Schedule(list, started) == []
  {
    PassGrows(list, 0, started);
  }

  lemma ConcludedIsExact(list: seq<Component>, picks: seq<nat>, fails: nat -> bool, r: Result)
    requires Positions(list, picks) && picks == Schedule(list, {}) && NoneFails(picks, fails) && !r.StartFailed?
    requires InOrder(list, TagsAt(list, picks))
    requires r.AllStarted? ==> CompleteOrder(list, TagsAt(list, picks)) && NoDuplicates(TagList(list))
    requires r.NilDereference? ==> CompleteOrder(list, TagsAt(list, picks)) && !NoDuplicates(TagList(list))
    requires r.Circular? || r.NotFound? ==> !HasOrder(list)
    ensures ExactResult(list, fails, r)
  {
    PicksAreAll(list, picks);
    if r.AllStarted? {
      forall p | 0 <= p < |list| ensures !fails(p) {
        assert p in picks;
      }
    }
  }

  /** The pass from `before` has come to position `i` with `more` picked and `started` started. */
  ghost predicate PassAt(list: seq<Component>, before: set<string>, i: nat, more: seq<nat>, started: set<string>)
    requires i <= |list|
  {
    var rest := Pass(list, i, started);
    Pass(list, 0, before) == Passed(more + rest.picks, rest.started)
  }

  lemma PassTakes(list: seq<Component>, before: set<string>, i: nat, more: seq<nat>, started: set<string>)
    requires i < |list| && PassAt(list, before, i, more, started) && list[i].tag !in started && Ready(list[i], started)
    ensures PassAt(list, before, i + 1, more + [i], started + {list[i].tag})
    ensures more + [i] <= Pass(list, 0, before).picks
  {
    var rest := Pass(list, i + 1, started + {list[i].tag}).picks;
    assert more + ([i] + rest) == (more + [i]) + rest;
  }

  lemma PassSkips(list: seq<Component>, before: set<string>, i: nat, more: seq<nat>, started: set<string>)
    requires i < |list| && PassAt(list, before, i, more, started) && (list[i].tag in started || !Ready(list[i], started))
    ensures PassAt(list, before, i + 1, more, started)
  {
  }

  /** One pass over the list: it starts what the pass picks, up to the first failure. The flag
      `canContinue` of the Go code is that `more` is not empty. */
  method StartRound(list: seq<Component>, started0: set<string>, fails: nat -> bool)
    returns (failed: bool, more: seq<nat>, started: set<string>)
    ensures Follows(more, Pass(list, 0, started0).picks, failed, fails)
    ensures !failed ==> started == Pass(list, 0, started0).started
  {
    more, started := [], started0;
    assert [] + Pass(list, 0, started0).picks == Pass(list, 0, started0).picks;
    for i := 0 to |list|
      invariant PassAt(list, started0, i, more, started) && NoneFails(more, fails)
    {
      var c := list[i];
      if c.tag in started {
        PassSkips(list, started0, i, more, started);
        continue;
      }
      var ready := AllStartedIn(c, started);
      if !ready {
        PassSkips(list, started0, i, more, started);
        continue;
      }
      PassTakes(list, started0, i, more, started);
      started := started + {c.tag};
      if fails(i) {
        assert (more + [i])[..|more|] == more;
        return true, more + [i], started;
      }
      more := more + [i];
    }
    assert more + [] == more;
    failed := false;
  }

  method AllStartedIn(c: Component, started: set<string>) returns (ready: bool)
    ensures ready <==> Ready(c, started)
  {
    for i := 0 to |c.dependencies|
      invariant forall j :: 0 <= j < i ==> c.dependencies[j] in started
    {
      if c.dependencies[i] !in started {
        return false;
      }
    }
    return true;
  }
}
