/**
  The registry of the outbound manager (adapter/outbound/manager.go): a list of outbounds
  and a map from tags to them, changed by Create, Remove, the start and Close. The panics
  of the Go code are results.
*/
module OutboundRegistry {
  import opened Lists

  class Outbound {
    const tag: string
    const dependencies: seq<string>

    constructor (tag: string, dependencies: seq<string>)
      ensures this.tag == tag && this.dependencies == dependencies
    {
      this.tag, this.dependencies := tag, dependencies;
    }
  }

  datatype Outcome = Ok | Error | InvalidIndex

  /** What creating and starting a new outbound, and closing an old one, report. */
  datatype Reports = Reports(created: bool, startsUp: bool, closes: bool)

  function Without<T>(s: seq<T>, i: nat): seq<T>
    requires i < |s|
  {
    s[..i] + s[i + 1..]
  }

  /** The list without the first occurrence of an element. */
  function WithoutFirst<T(==)>(s: seq<T>, x: T): seq<T> {
    if s == [] then [] else if s[0] == x then s[1..] else [s[0]] + WithoutFirst(s[1..], x)
  }

  lemma {:induction false} WithoutIsFirst<T>(s: seq<T>, i: nat)
    requires i < |s| && s[i] !in s[..i]
    ensures Without(s, i) == WithoutFirst(s, s[i])
  {
    if i == 0 {
      assert Without(s, 0) == s[1..];
    } else {
      assert s[0] in s[..i];
      assert s[1..][..i - 1] == s[..i][1..];
      WithoutIsFirst(s[1..], i - 1);
      assert Without(s, i) == [s[0]] + Without(s[1..], i - 1);
    }
  }

  lemma {:induction false} WithoutKeeps<T>(s: seq<T>, i: nat)
    requires i < |s| && NoDuplicates(s)
    ensures NoDuplicates(Without(s, i)) && Elements(Without(s, i)) == Elements(s) - {s[i]}
    ensures forall x :: x in Without(s, i) <==> x in s && x != s[i]
  {
    var t := Without(s, i);
    forall x | x in s && x != s[i] ensures x in t {
      var k :| 0 <= k < |s| && s[k] == x;
      assert t[if k < i then k else k - 1] == x;
    }
  }

  class Manager {
    const defaultTag: string
    var started: bool
    var outbounds: seq<Outbound>
    var outboundByTag: map<string, Outbound>
    var dependByTag: map<string, seq<string>>
    var defaultOutbound: Outbound?

    /** The list has no duplicates and is exactly the values of the map, each under its own tag.
        Without a configured default tag a non-empty list also has some default; that is why the
        fallback can be registered without looking for its tag. */
    ghost predicate Valid()
      reads this
    {
      && NoDuplicates(outbounds)
      && (forall o :: o in outbounds ==> o.tag in outboundByTag && outboundByTag[o.tag] == o)
      && (forall t :: t in outboundByTag ==> outboundByTag[t] in outbounds && outboundByTag[t].tag == t)
      && (defaultTag == "" && defaultOutbound == null ==> outbounds == [])
    }

    constructor (defaultTag: string)
      ensures Valid() && outbounds == [] && outboundByTag == map[] && this.defaultTag == defaultTag && !started
    {
      this.defaultTag := defaultTag;
      started, outbounds, outboundByTag, dependByTag, defaultOutbound := false, [], map[], map[], null;
    }

    /** `common.Index`. */
    method Index(o: Outbound) returns (i: int)
      ensures -1 <= i < |outbounds|
      ensures i == -1 <==> o !in outbounds
      ensures i >= 0 ==> outbounds[i] == o && o !in outbounds[..i]
    {
      i := 0;
      while i < |outbounds|
        invariant 0 <= i <= |outbounds| && o !in outbounds[..i]
      {
        if outbounds[i] == o {
          return;
        }
        i := i + 1;
      }
      i := -1;
    }

    /** The settling of the default at the second stage: an endpoint, or a new fallback, which in a valid
        registry finds it empty. */
    method SettleDefault(endpoint: Outbound?, fallbackTag: string, created: bool) returns (r: Outcome)
      modifies this
      ensures old(Valid()) ==> Valid()
      ensures started && dependByTag == old(dependByTag)
      ensures r == if old(defaultOutbound) != null then Ok
                   else if defaultTag != "" then (if endpoint == null then Error else Ok)
                   else if created then Ok else Error
      ensures r.Ok? && defaultTag == "" && old(defaultOutbound) == null ==>
                && defaultOutbound != null && fresh(defaultOutbound) && defaultOutbound.tag == fallbackTag
                && outbounds == old(outbounds) + [defaultOutbound] && outboundByTag == old(outboundByTag)[fallbackTag := defaultOutbound]
                && (old(Valid()) ==> old(outbounds) == [] && old(outboundByTag) == map[])
      ensures !(r.Ok? && defaultTag == "" && old(defaultOutbound) == null) ==>
                outbounds == old(outbounds) && outboundByTag == old(outboundByTag)
    {
      started := true;
      if defaultTag != "" && defaultOutbound == null {
        if endpoint == null {
          return Error;
        }
        defaultOutbound := endpoint;
      }
      if defaultOutbound == null {
        if !created {
          return Error;
        }
        var direct := new Outbound(fallbackTag, []);
        outbounds := outbounds + [direct];
        outboundByTag := outboundByTag[direct.tag := direct];
        defaultOutbound := direct;
      }
      r := Ok;
    }

    /** The list without the outbound registered under a tag, if there is one; it is not found exactly
        when the map knows an outbound that the list lacks. */
    method OthersThan(tag: string) returns (found: bool, rest: seq<Outbound>)
      ensures found <==> tag !in outboundByTag || outboundByTag[tag] in outbounds
      ensures found ==> rest == if tag in outboundByTag then WithoutFirst(outbounds, outboundByTag[tag]) else outbounds
      ensures Valid() ==> NoDuplicates(rest) && forall o :: o in rest <==> o in outbounds && o.tag != tag
    {
      if tag !in outboundByTag {
        return true, outbounds;
      }
      var i := Index(outboundByTag[tag]);
      if i == -1 {
        return false, outbounds;
      }
      WithoutIsFirst(outbounds, i);
      if NoDuplicates(outbounds) {
        WithoutKeeps(outbounds, i);
      }
      return true, outbounds[..i] + outbounds[i + 1..];
    }

    /** The tag joins the dependants of each of its dependencies, as often as it names them; all others
        stay as they were. */
    method AddDependencies(tag: string, dependencies: seq<string>)
      modifies this`dependByTag
      ensures Gained(old(dependByTag), dependByTag, tag, dependencies)
    {
      for k := 0 to |dependencies|
        invariant Gained(old(dependByTag), dependByTag, tag, dependencies[..k])
      {
        var d := dependencies[k];
        assert dependencies[..k + 1] == dependencies[..k] + [d];
        GainOne(old(dependByTag), dependByTag, tag, dependencies[..k], d);
        dependByTag := dependByTag[d := (if d in dependByTag then dependByTag[d] else []) + [tag]];
      }
      assert dependencies[..|dependencies|] == dependencies;
    }

    /** A new outbound takes the place of whatever had its tag. */
    method Register(rest: seq<Outbound>, o: Outbound)
      modifies this
      ensures old(Valid()) && NoDuplicates(rest) && (forall x :: x in rest <==> x in old(outbounds) && x.tag != o.tag) ==> Valid()
      ensures started == old(started)
      ensures outbounds == rest + [o] && outboundByTag == old(outboundByTag)[o.tag := o]
      ensures Gained(old(dependByTag), dependByTag, o.tag, o.dependencies)
      ensures defaultOutbound == if o.tag == defaultTag || (defaultTag == "" && old(defaultOutbound) == null) then o else old(defaultOutbound)
    {
      if NoDuplicates(rest) && o !in rest {
        AppendUnique(rest, o);
      }
      outbounds := rest + [o];
      outboundByTag := outboundByTag[o.tag := o];
      AddDependencies(o.tag, o.dependencies);
      if o.tag == defaultTag || (defaultTag == "" && defaultOutbound == null) {
        defaultOutbound := o;
      }
    }

    /** In every state: the call panics if and only if it gets as far as the list and the map knows an
        outbound under the tag that the list lacks, as after `Close`. */
    method Create(tag: string, dependencies: seq<string>, reports: Reports) returns (r: Outcome, o: Outbound?)
      modifies this
      ensures old(Valid()) ==> Valid() && !r.InvalidIndex?
      ensures started == old(started)
      ensures r.Error? <==> tag == "" || !reports.created || (started && !reports.startsUp) || (started && tag in old(outboundByTag) && !reports.closes)
      ensures r.InvalidIndex? <==> !r.Error? && tag in old(outboundByTag) && old(outboundByTag)[tag] !in old(outbounds)
      ensures !r.Ok? ==> unchanged(this)
      ensures r.Ok? ==>
                && o != null && fresh(o) && o.tag == tag && o.dependencies == dependencies
                && outboundByTag == old(outboundByTag)[tag := o]
                && outbounds == (if tag in old(outboundByTag) then WithoutFirst(old(outbounds), old(outboundByTag)[tag]) else old(outbounds)) + [o]
                && Gained(old(dependByTag), dependByTag, tag, dependencies)
                && defaultOutbound == if tag == defaultTag || (defaultTag == "" && old(defaultOutbound) == null) then o else old(defaultOutbound)
    {
      o := null;
      if tag == "" || !reports.created {
        return Error, null;
      }
      if started && !reports.startsUp {
        return Error, null;
      }
      if tag in outboundByTag && started && !reports.closes {
        return Error, null;
      }
      var found, rest := OthersThan(tag);
      if !found {
        return InvalidIndex, null;
      }
      o := new Outbound(tag, dependencies);
      Register(rest, o);
      r := Ok;
    }

    /** A dependency forgets its only dependant, whoever that is, and otherwise the tag; once for each
        time it is named. */
    method RemoveDependencies(tag: string, dependencies: seq<string>)
      modifies this`dependByTag
      ensures Lost(old(dependByTag), dependByTag, tag, dependencies)
    {
      for k := 0 to |dependencies|
        invariant Lost(old(dependByTag), dependByTag, tag, dependencies[..k])
      {
        var d := dependencies[k];
        var l := if d in dependByTag then dependByTag[d] else [];
        assert dependencies[..k + 1] == dependencies[..k] + [d];
        LoseOne(old(dependByTag), dependByTag, if |l| == 1 then dependByTag - {d} else dependByTag[d := Filter(l, tag)],
                tag, dependencies[..k], d);
        dependByTag := if |l| == 1 then dependByTag - {d} else dependByTag[d := Filter(l, tag)];
      }
      assert dependencies[..|dependencies|] == dependencies;
    }

    /** Take an outbound out of the list; the first of the others becomes the default in its place. */
    method Unlist(o: Outbound) returns (found: bool)
      modifies this`outbounds, this`defaultOutbound
      ensures found <==> o in old(outbounds)
      ensures !found ==> outbounds == old(outbounds) && defaultOutbound == old(defaultOutbound)
      ensures found ==> outbounds == WithoutFirst(old(outbounds), o)
      ensures found && old(NoDuplicates(outbounds)) ==>
                NoDuplicates(outbounds) && forall x :: x in outbounds <==> x in old(outbounds) && x != o
      ensures found ==>
                defaultOutbound == if old(defaultOutbound) != o then old(defaultOutbound) else if outbounds == [] then null else outbounds[0]
    {
      var i := Index(o);
      if i == -1 {
        return false;
      }
      WithoutIsFirst(outbounds, i);
      if NoDuplicates(outbounds) {
        WithoutKeeps(outbounds, i);
      }
      outbounds := outbounds[..i] + outbounds[i + 1..];
      if defaultOutbound == o {
        defaultOutbound := if |outbounds| > 0 then outbounds[0] else null;
      }
      found := true;
    }

    /** Removing takes the outbound out of list and map even when it then reports that others depend
        on it. It panics if and only if the map knows an outbound that the list does not hold. */
    method Remove(tag: string, closes: bool) returns (r: Outcome)
      modifies this
      ensures old(Valid()) ==> Valid()
      ensures r.InvalidIndex? <==> tag in old(outboundByTag) && old(outboundByTag)[tag] !in old(outbounds)
      ensures outboundByTag == old(outboundByTag) - {tag}
      ensures tag !in old(outboundByTag) ==> r.Error? && unchanged(this)
      ensures r.InvalidIndex? ==> outbounds == old(outbounds) && dependByTag == old(dependByTag) && defaultOutbound == old(defaultOutbound)
      ensures tag in old(outboundByTag) && !r.InvalidIndex? ==>
                var o := old(outboundByTag)[tag];
                var depended := Dependants(old(dependByTag), tag) != [];
                && outbounds == WithoutFirst(old(outbounds), o)
                && defaultOutbound == (if old(defaultOutbound) != o then old(defaultOutbound) else if outbounds == [] then null else outbounds[0])
                && (r.Ok? <==> !depended && (started ==> closes))
                && if depended then dependByTag == old(dependByTag) else Lost(old(dependByTag), dependByTag, tag, o.dependencies)
      ensures started == old(started)
    {
      if tag !in outboundByTag {
        return Error;
      }
      var o := outboundByTag[tag];
      outboundByTag := outboundByTag - {tag};
      var found := Unlist(o);
      if !found {
        return InvalidIndex;
      }
      if tag in dependByTag && |dependByTag[tag]| > 0 {
        return Error;
      }
      RemoveDependencies(tag, o.dependencies);
      r := if started && !closes then Error else Ok;
    }

    /** Close empties the list but not the map, so from then on every removal of a tag that was
        registered panics. */
    method Close()
      modifies this
      ensures started == false && outboundByTag == old(outboundByTag) && outbounds == if old(started) then [] else old(outbounds)
      ensures old(Valid()) && old(started) && old(outbounds) != [] ==>
                !Valid() && forall t :: t in outboundByTag ==> outboundByTag[t] !in outbounds
    {
      if !started {
        return;
      }
      started := false;
      assert old(Valid()) && old(outbounds) != [] ==> outbounds[0].tag in outboundByTag;
      outbounds := [];
    }
  }

  function Dependants(m: map<string, seq<string>>, d: string): seq<string> {
    if d in m then m[d] else []
  }

  function Occurrences(ds: seq<string>, d: string): nat {
    if ds == [] then 0 else Occurrences(ds[..|ds| - 1], d) + if ds[|ds| - 1] == d then 1 else 0
  }

  function Repeat(tag: string, n: nat): seq<string> {
    if n == 0 then [] else Repeat(tag, n - 1) + [tag]
  }

  /** The dependants `l` have gained the tag `n` times. */
  predicate GainedTimes(l: seq<string>, m: seq<string>, tag: string, n: nat) {
    m == l + Repeat(tag, n)
  }

  /** Each dependency has gained the tag as often as `ds` names it. */
  ghost predicate Gained(a: map<string, seq<string>>, b: map<string, seq<string>>, tag: string, ds: seq<string>) {
    forall d :: GainedTimes(Dependants(a, d), Dependants(b, d), tag, Occurrences(ds, d))
  }

  lemma GainOnce(l: seq<string>, m: seq<string>, tag: string, n: nat)
    requires GainedTimes(l, m, tag, n)
    ensures GainedTimes(l, m + [tag], tag, n + 1)
  {
    assert l + Repeat(tag, n) + [tag] == l + (Repeat(tag, n) + [tag]);
  }

  lemma OccursOnceMore(ds: seq<string>, d: string, x: string)
    ensures Occurrences(ds + [d], x) == Occurrences(ds, x) + if x == d then 1 else 0
  {
    assert (ds + [d])[..|ds|] == ds;
  }

  lemma GainOneAt(a: map<string, seq<string>>, b: map<string, seq<string>>, tag: string, ds: seq<string>, d: string, x: string)
    requires GainedTimes(Dependants(a, x), Dependants(b, x), tag, Occurrences(ds, x))
    ensures GainedTimes(Dependants(a, x), Dependants(b[d := Dependants(b, d) + [tag]], x), tag, Occurrences(ds + [d], x))
  {
    OccursOnceMore(ds, d, x);
    if x == d {
      GainOnce(Dependants(a, d), Dependants(b, d), tag, Occurrences(ds, d));
    }
  }

  lemma GainOne(a: map<string, seq<string>>, b: map<string, seq<string>>, tag: string, ds: seq<string>, d: string)
    requires Gained(a, b, tag, ds)
    ensures Gained(a, b[d := Dependants(b, d) + [tag]], tag, ds + [d])
  {
    var c := b[d := Dependants(b, d) + [tag]];
    forall x ensures GainedTimes(Dependants(a, x), Dependants(c, x), tag, Occurrences(ds + [d], x)) {
      GainOneAt(a, b, tag, ds, d, x);
    }
  }

  function Forgotten(l: seq<string>, tag: string, n: nat): seq<string> {
    if n == 0 then l
    else
      var m := Forgotten(l, tag, n - 1);
      if |m| == 1 then [] else Filter(m, tag)
  }

  predicate ForgottenTimes(l: seq<string>, m: seq<string>, tag: string, n: nat) {
    m == Forgotten(l, tag, n)
  }

  /** Each dependency has forgotten a dependant as often as `ds` names it. */
  ghost predicate Lost(a: map<string, seq<string>>, b: map<string, seq<string>>, tag: string, ds: seq<string>) {
    forall d :: ForgottenTimes(Dependants(a, d), Dependants(b, d), tag, Occurrences(ds, d))
  }

  lemma LoseOneAt(a: map<string, seq<string>>, b: map<string, seq<string>>, c: map<string, seq<string>>, tag: string, ds: seq<string>, d: string, x: string)
    requires ForgottenTimes(Dependants(a, x), Dependants(b, x), tag, Occurrences(ds, x))
    requires Dependants(c, x) == if x != d then Dependants(b, x) else if |Dependants(b, d)| == 1 then [] else Filter(Dependants(b, d), tag)
    ensures ForgottenTimes(Dependants(a, x), Dependants(c, x), tag, Occurrences(ds + [d], x))
  {
    OccursOnceMore(ds, d, x);
  }

  lemma LoseOne(a: map<string, seq<string>>, b: map<string, seq<string>>, c: map<string, seq<string>>, tag: string, ds: seq<string>, d: string)
    requires Lost(a, b, tag, ds)
    requires c == if |Dependants(b, d)| == 1 then b - {d} else b[d := Filter(Dependants(b, d), tag)]
    ensures Lost(a, c, tag, ds + [d])
  {
    forall x ensures ForgottenTimes(Dependants(a, x), Dependants(c, x), tag, Occurrences(ds + [d], x)) {
      LoseOneAt(a, b, c, tag, ds, d, x);
    }
  }

  /** What a dependency gained by one creation is forgotten again by the removal, and nothing else. */
  lemma AddedIsForgotten(l: seq<string>, tag: string)
    requires tag !in l
    ensures Forgotten(l + [tag], tag, 1) == l
  {
    assert Forgotten(l + [tag], tag, 0) == l + [tag];
    if l != [] {
      FilterAppend(l, tag);
    }
  }

  lemma {:induction false} FilterAppend(l: seq<string>, tag: string)
    requires tag !in l
    ensures Filter(l + [tag], tag) == l
  {
    if l == [] {
      assert (l + [tag])[1..] == [];
    } else {
      assert (l + [tag])[1..] == l[1..] + [tag];
      FilterAppend(l[1..], tag);
    }
  }

  function Filter(l: seq<string>, tag: string): seq<string> {
    if l == [] then [] else (if l[0] != tag then [l[0]] else []) + Filter(l[1..], tag)
  }
}
