/**
  The route rule interpreter (route/route.go, `matchRule`): rules are tried in order, non-final
  actions rewrite the metadata, a final action ends the run. Pre-match runs the same loop
  without sniffing and stops at the first sniff rule.

  Matching, sniffing, resolving and what happens before the rules are oracles.
*/
module RouteRules {
  import opened Lists

  datatype Socksaddr = Socksaddr(addr: Option<nat>, port: nat, fqdn: string)

  datatype Network = TCP | UDP | ICMP

  /** The options a route or route-options rule carries; an empty or zero field changes nothing. */
  datatype RouteOptions = RouteOptions(
    address: Socksaddr, port: nat, strategy: Option<nat>, networkType: seq<nat>, fallbackType: seq<nat>,
    fallbackDelay: nat, disableUnmapping: bool, udpConnect: bool, udpTimeout: nat,
    tlsFragment: bool, tlsDelay: nat, tlsRecord: bool)

  datatype Action =
    | Route(outbound: string, options: RouteOptions)
    | Options(options: RouteOptions)
    | Sniff(overrideDestination: bool)
    | Resolve
    | Reject
    | HijackDNS
    | OtherAction

  datatype InboundOptions = InboundOptions(sniff: bool, sniffOverride: bool, resolve: bool, disableUnmapping: bool)

  /** `sniffed` stands for everything a sniffer writes besides the destination. */
  datatype Metadata = Metadata(
    network: Network, destination: Socksaddr, originalDestination: Socksaddr, addresses: seq<nat>, sniffed: nat,
    inboundOptions: InboundOptions, strategy: Option<nat>, networkType: seq<nat>, fallbackType: seq<nat>,
    fallbackDelay: nat, disableUnmapping: bool, udpConnect: bool, udpTimeout: nat,
    tlsFragment: bool, tlsDelay: nat, tlsRecord: bool)

  datatype SniffReport = SniffReport(sniffed: nat, domain: Option<string>, fatal: bool)

  /** `prepare` stands for process search, FakeIP and reverse mapping; `None` is a fatal error.
      The index given to the other oracles is the rule's, or the number of rules for the
      deprecated options of the inbound. */
  datatype Router = Router(
    rules: seq<Action>,
    isDomain: string -> bool,
    prepare: Metadata -> Option<Metadata>,
    matches: (nat, Metadata) -> bool,
    sniff: (nat, Metadata) -> SniffReport,
    resolve: (nat, Metadata) -> Option<seq<nat>>)
  {
    predicate IsFqdn(s: Socksaddr) { s.addr.None? && isDomain(s.fqdn) }
    predicate IsValid(s: Socksaddr) { s.addr.Some? || isDomain(s.fqdn) }
  }

  /** The metadata and the sniffs run so far, each with the metadata it started from. */
  datatype Run = Run(metadata: Metadata, sniffs: seq<(nat, Metadata)>)

  datatype Verdict = Selected(rule: nat) | NoRule | Fatal

  // ---------------------------------------------------------------- one rule

  function Redirect(r: Router, d: Socksaddr, o: RouteOptions): Socksaddr {
    var a := if r.IsValid(o.address) then Socksaddr(o.address.addr, d.port, o.address.fqdn) else d;
    if o.port > 0 then a.(port := o.port) else a
  }

  predicate Overrides(r: Router, o: RouteOptions) {
    r.IsValid(o.address) || o.port > 0
  }

  function WithOptions(r: Router, m: Metadata, o: RouteOptions): Metadata {
    m.(originalDestination :=
         if Overrides(r, o) && !r.IsValid(m.originalDestination) then m.destination else m.originalDestination,
       destination := Redirect(r, m.destination, o),
       addresses := if r.IsValid(o.address) then [] else m.addresses,
       strategy := if o.strategy.Some? then o.strategy else m.strategy,
       networkType := if o.networkType != [] then o.networkType else m.networkType,
       fallbackType := if o.fallbackType != [] then o.fallbackType else m.fallbackType,
       fallbackDelay := if o.fallbackDelay != 0 then o.fallbackDelay else m.fallbackDelay,
       disableUnmapping := m.disableUnmapping || o.disableUnmapping,
       udpConnect := m.udpConnect || o.udpConnect,
       udpTimeout := if o.udpTimeout > 0 then o.udpTimeout else m.udpTimeout,
       tlsFragment := m.tlsFragment || o.tlsFragment,
       tlsDelay := if o.tlsFragment then o.tlsDelay else m.tlsDelay,
       tlsRecord := m.tlsRecord || o.tlsRecord)
  }

  function ApplyOptions(r: Router, s: Run, o: RouteOptions): Run {
    s.(metadata := WithOptions(r, s.metadata, o))
  }

  /** The domain that replaces the destination after a sniff, if any. */
  function SniffedDestination(r: Router, i: nat, m: Metadata, overrideDestination: bool): Option<string> {
    var report := r.sniff(i, m);
    if report.domain.Some? && overrideDestination && r.isDomain(report.domain.value) && !report.fatal then report.domain else None
  }

  /** A sniff that finds a domain may replace the destination by it, keeping the port. */
  function ApplySniff(r: Router, s: Run, i: nat, overrideDestination: bool): Run {
    var m := s.metadata.(sniffed := r.sniff(i, s.metadata).sniffed);
    var domain := SniffedDestination(r, i, s.metadata, overrideDestination);
    Run(if domain.Some? then m.(destination := Socksaddr(None, m.destination.port, domain.value)) else m,
        s.sniffs + [(i, s.metadata)])
  }

  /** Resolving fills in the addresses of a domain. */
  function ApplyResolve(r: Router, s: Run, i: nat): Option<Run> {
    if !r.IsFqdn(s.metadata.destination) then Some(s)
    else
      var found := r.resolve(i, s.metadata);
      if found.None? then None else Some(s.(metadata := s.metadata.(addresses := found.value)))
  }

  datatype Step = Go(run: Run) | Stop(verdict: Verdict, run: Run)

  function VisitRule(r: Router, preMatch: bool, i: nat, s: Run): Step
    requires i < |r.rules|
  {
    if !r.matches(i, s.metadata) then Go(s)
    else
      match r.rules[i]
      case Route(_, o) => Stop(Selected(i), ApplyOptions(r, s, o))
      case Options(o) => Go(ApplyOptions(r, s, o))
      case Sniff(override) =>
        if !preMatch then
          if r.sniff(i, s.metadata).fatal then Stop(Fatal, ApplySniff(r, s, i, override)) else Go(ApplySniff(r, s, i, override))
        else if s.metadata.network != ICMP then Stop(Selected(i), s)
        else Go(s)
      case Resolve => if ApplyResolve(r, s, i).None? then Stop(Fatal, s) else Go(ApplyResolve(r, s, i).value)
      case Reject => Stop(Selected(i), s)
      case HijackDNS => Stop(Selected(i), s)
      case OtherAction => Go(s)
  }

  /** The run from rule `i` on. */
  function RunFrom(r: Router, preMatch: bool, i: nat, s: Run): (result: (Verdict, Run))
    requires i <= |r.rules|
    ensures result.0.Selected? ==> i <= result.0.rule < |r.rules|
    decreases |r.rules| - i
  {
    if i == |r.rules| then (NoRule, s)
    else
      match VisitRule(r, preMatch, i, s)
      case Go(t) => RunFrom(r, preMatch, i + 1, t)
      case Stop(v, t) => (v, t)
  }

  /** What comes before the rules; `None` is a fatal error. */
  function BeforeRules(r: Router, preMatch: bool, m: Metadata): (bool, Run) {
    var p := r.prepare(m);
    if p.None? then (false, Run(m, []))
    else
      var o := p.value.inboundOptions;
      var n := |r.rules|;
      var s0 := Run(p.value, []);
      var s1 := if !preMatch && o.sniff then ApplySniff(r, s0, n, o.sniffOverride) else s0;
      if !preMatch && o.sniff && r.sniff(n, p.value).fatal then (false, s1)
      else
        var s2 := if o.resolve then ApplyResolve(r, s1, n) else Some(s1);
        if s2.None? then (false, s1)
        else
          (true, s2.value.(metadata := s2.value.metadata.(
                             disableUnmapping := s2.value.metadata.disableUnmapping || o.disableUnmapping,
                             inboundOptions := InboundOptions(false, false, false, false))))
  }

  function MatchRule(r: Router, preMatch: bool, m: Metadata): (result: (Verdict, Run))
    ensures result.0.Selected? ==> result.0.rule < |r.rules|
  {
    var (ok, s) := BeforeRules(r, preMatch, m);
    if !ok then (Fatal, s) else RunFrom(r, preMatch, 0, s)
  }

  // ---------------------------------------------------------------- the loop

  method MatchRuleLoop(r: Router, preMatch: bool, m: Metadata) returns (verdict: Verdict, run: Run)
    ensures (verdict, run) == MatchRule(r, preMatch, m)
  {
    var before := BeforeRules(r, preMatch, m);
    run := before.1;
    if !before.0 {
      return Fatal, run;
    }
    for i := 0 to |r.rules|
      invariant MatchRule(r, preMatch, m) == RunFrom(r, preMatch, i, run)
    {
      if !r.matches(i, run.metadata) {
        continue;
      }
      var action := r.rules[i];
      if action.Route? || action.Options? {
        run := ApplyOptions(r, run, action.options);
      }
      if action.Sniff? {
        if !preMatch {
          var fatal := r.sniff(i, run.metadata).fatal;
          run := ApplySniff(r, run, i, action.overrideDestination);
          if fatal {
            return Fatal, run;
          }
        } else if run.metadata.network != ICMP {
          return Selected(i), run;
        }
      } else if action.Resolve? {
        var resolved := ApplyResolve(r, run, i);
        if resolved.None? {
          return Fatal, run;
        }
        run := resolved.value;
      }
      if action.Route? || action.Reject? || action.HijackDNS? {
        return Selected(i), run;
      }
    }
    verdict := NoRule;
  }

  // ---------------------------------------------------------------- pre-match is sound

  /** The two forms treat every rule alike but a matching sniff rule. */
  lemma SameVisit(r: Router, i: nat, s: Run)
    requires i < |r.rules| && !(r.matches(i, s.metadata) && r.rules[i].Sniff?)
    ensures VisitRule(r, true, i, s) == VisitRule(r, false, i, s) && VisitRule(r, false, i, s).run.sniffs == s.sniffs
    ensures VisitRule(r, false, i, s).run.metadata.network == s.metadata.network
  {
  }

  /** From the same point, a pre-match that ends without a sniff rule ends as the full run does,
      and one that stops at a sniff rule stops where the full run sniffs first. */
  lemma {:induction false} PreMatchFrom(r: Router, i: nat, s: Run)
    requires i <= |r.rules| && s.metadata.network != ICMP
    ensures
      var (pv, pr) := RunFrom(r, true, i, s);
      var (fv, fr) := RunFrom(r, false, i, s);
      if pv.Selected? && r.rules[pv.rule].Sniff? then
        |fr.sniffs| > |s.sniffs| && fr.sniffs[..|s.sniffs| + 1] == s.sniffs + [(pv.rule, pr.metadata)]
      else fv == pv && fr == pr && fr.sniffs == s.sniffs
    decreases |r.rules| - i
  {
    if i == |r.rules| {
    } else if r.matches(i, s.metadata) && r.rules[i].Sniff? {
      assert VisitRule(r, true, i, s) == Stop(Selected(i), s);
      SniffsGrow(r, i, s);
    } else {
      SameVisit(r, i, s);
      match VisitRule(r, false, i, s)
      case Go(t) => PreMatchFrom(r, i + 1, t);
      case Stop(_, _) =>
    }
  }

  /** The full run only adds to the list of sniffs; at a matching sniff rule it adds that rule first. */
  lemma {:induction false} SniffsGrow(r: Router, i: nat, s: Run)
    requires i <= |r.rules|
    ensures s.sniffs <= RunFrom(r, false, i, s).1.sniffs
    ensures i < |r.rules| && r.matches(i, s.metadata) && r.rules[i].Sniff? ==>
              s.sniffs + [(i, s.metadata)] <= RunFrom(r, false, i, s).1.sniffs
    decreases |r.rules| - i
  {
    if i == |r.rules| {
    } else {
      match VisitRule(r, false, i, s)
      case Go(t) => SniffsGrow(r, i + 1, t);
      case Stop(_, _) =>
    }
  }

  /** Pre-match foretells the full match: the same verdict and metadata, unless it stops at a sniff
      rule, and then that rule is the first the full match sniffs with, from the same metadata. */
  predicate Agree(r: Router, m: Metadata) {
    var (pv, pr) := MatchRule(r, true, m);
    var (fv, fr) := MatchRule(r, false, m);
    if pv.Selected? && r.rules[pv.rule].Sniff? then fr.sniffs != [] && fr.sniffs[0] == (pv.rule, pr.metadata)
    else fv == pv && fr.metadata == pr.metadata
  }

  /** So it does for TCP and UDP without deprecated sniffing, and without a sniff rule nothing is
      sniffed at all. */
  lemma PreMatchIsSound(r: Router, m: Metadata)
    requires r.prepare(m).Some? ==> r.prepare(m).value.network != ICMP && !r.prepare(m).value.inboundOptions.sniff
    ensures Agree(r, m)
    ensures
      var pv := MatchRule(r, true, m).0;
      !(pv.Selected? && r.rules[pv.rule].Sniff?) ==> MatchRule(r, false, m).1.sniffs == []
  {
    var (ok, s) := BeforeRules(r, true, m);
    if ok {
      PreMatchFrom(r, 0, s);
    }
  }

  /** A sniff rule for ICMP and a reject rule for whatever was sniffed. */
  function RejectSniffed(before: nat): Router {
    Router([Sniff(false), Reject], _ => false, (m: Metadata) => Some(m),
           (i: nat, m: Metadata) => if i == 0 then m.network == ICMP else m.sniffed != before,
           (_: nat, _: Metadata) => SniffReport(before + 1, None, false), (_: nat, _: Metadata) => Some([]))
  }

  /** For ICMP, and with deprecated sniffing, there are rules on which pre-match finds nothing and the
      full match rejects. */
  lemma PreMatchCanFail(m: Metadata)
    requires m.network == ICMP || m.inboundOptions.sniff
    ensures MatchRule(RejectSniffed(m.sniffed), true, m).0 == NoRule
    ensures MatchRule(RejectSniffed(m.sniffed), false, m).0 == Selected(1)
  {
    var r := RejectSniffed(m.sniffed);
    var p, f := BeforeRules(r, true, m).1, BeforeRules(r, false, m).1;
    assert p.metadata.sniffed == m.sniffed && f.metadata.sniffed == if m.inboundOptions.sniff then m.sniffed + 1 else m.sniffed;
    assert VisitRule(r, true, 0, p) == Go(p) && VisitRule(r, true, 1, p) == Go(p);
    assert RunFrom(r, true, 2, p) == (NoRule, p);
    assert RunFrom(r, true, 1, p) == (NoRule, p);
    var g := if m.network == ICMP then ApplySniff(r, f, 0, false) else f;
    assert VisitRule(r, false, 0, f) == Go(g) && VisitRule(r, false, 1, g) == Stop(Selected(1), g);
    assert RunFrom(r, false, 1, g) == (Selected(1), g);
  }

  /** Exactly when the metadata that comes to the rules may be relied on: pre-match agrees with the
      full match under all rules if and only if it is not ICMP and deprecated sniffing is off. */
  lemma PreMatchAgreesExactly(m: Metadata)
    ensures (forall r: Router :: r.prepare(m) == Some(m) ==> Agree(r, m)) <==> m.network != ICMP && !m.inboundOptions.sniff
  {
    if m.network != ICMP && !m.inboundOptions.sniff {
      forall r: Router | r.prepare(m) == Some(m) ensures Agree(r, m) {
        PreMatchIsSound(r, m);
      }
    } else {
      PreMatchCanFail(m);
      assert !Agree(RejectSniffed(m.sniffed), m);
      assert RejectSniffed(m.sniffed).prepare(m) == Some(m);
    }
  }

  // ---------------------------------------------------------------- which rules had a say

  /** The run as it comes to rule `i`, starting from `s`. */
  function RunAt(r: Router, preMatch: bool, s: Run, i: nat): Run
    requires i <= |r.rules|
  {
    if i == 0 then s else VisitRule(r, preMatch, i - 1, RunAt(r, preMatch, s, i - 1)).run
  }

  /** Where the run from rule `i` on ends: behind the rule that stops it, or behind the last one. */
  function EndOf(r: Router, preMatch: bool, s: Run, i: nat): (n: nat)
    requires i <= |r.rules|
    ensures i <= n <= |r.rules|
    decreases |r.rules| - i
  {
    if i == |r.rules| then i
    else if VisitRule(r, preMatch, i, RunAt(r, preMatch, s, i)).Stop? then i + 1
    else EndOf(r, preMatch, s, i + 1)
  }

  lemma {:induction false} RunEndsThere(r: Router, preMatch: bool, s: Run, i: nat)
    requires i <= |r.rules|
    ensures
      var (v, t) := RunFrom(r, preMatch, i, RunAt(r, preMatch, s, i));
      var n := EndOf(r, preMatch, s, i);
      && t == RunAt(r, preMatch, s, n)
      && (v.Selected? ==> n == v.rule + 1)
      && (v.NoRule? ==> n == |r.rules|)
    decreases |r.rules| - i
  {
    var at := RunAt(r, preMatch, s, i);
    if i == |r.rules| {
    } else {
      assert RunAt(r, preMatch, s, i + 1) == VisitRule(r, preMatch, i, at).run;
      if VisitRule(r, preMatch, i, at).Go? {
        RunEndsThere(r, preMatch, s, i + 1);
      }
    }
  }

  /** A matching rule that ends the run. */
  predicate Final(preMatch: bool, network: Network, a: Action) {
    a.Route? || a.Reject? || a.HijackDNS? || (a.Sniff? && preMatch && network != ICMP)
  }

  /** A matching rule whose action fails: a fatal sniff in a full match, or a domain that cannot be resolved. */
  predicate Breaks(r: Router, preMatch: bool, i: nat, m: Metadata)
    requires i < |r.rules|
  {
    || (r.rules[i].Sniff? && !preMatch && r.sniff(i, m).fatal)
    || (r.rules[i].Resolve? && r.IsFqdn(m.destination) && r.resolve(i, m).None?)
  }

  /** Rule `j` does not match what it meets, or matches and does not end the run. */
  predicate PassedOver(r: Router, preMatch: bool, s: Run, j: nat)
    requires j < |r.rules|
  {
    var m := RunAt(r, preMatch, s, j).metadata;
    r.matches(j, m) ==> !Final(preMatch, m.network, r.rules[j]) && !Breaks(r, preMatch, j, m)
  }

  /** Rule `k` matches what it meets and is final. */
  predicate SelectsAt(r: Router, preMatch: bool, s: Run, k: nat)
    requires k < |r.rules|
  {
    var m := RunAt(r, preMatch, s, k).metadata;
    r.matches(k, m) && Final(preMatch, m.network, r.rules[k])
  }

  /** Rule `k` matches what it meets and its action fails. */
  predicate BreaksAt(r: Router, preMatch: bool, s: Run, k: nat)
    requires k < |r.rules|
  {
    var m := RunAt(r, preMatch, s, k).metadata;
    r.matches(k, m) && Breaks(r, preMatch, k, m)
  }

  /** The verdict of a run from rule `i` on, said without the run. */
  ghost predicate FirstMatch(r: Router, preMatch: bool, s: Run, i: nat, v: Verdict) {
    match v
    case NoRule => forall j :: i <= j < |r.rules| ==> PassedOver(r, preMatch, s, j)
    case Selected(k) => i <= k < |r.rules| && SelectsAt(r, preMatch, s, k) && forall j :: i <= j < k ==> PassedOver(r, preMatch, s, j)
    case Fatal => exists k :: i <= k < |r.rules| && BreaksAt(r, preMatch, s, k) && forall j :: i <= j < k ==> PassedOver(r, preMatch, s, j)
  }

  /** The first-match law. The run ends at the first rule that matches the metadata it meets and is a route,
      reject or hijack rule, or a sniff rule in pre-match, or whose action fails; it selects the rule in the
      first case and is fatal in the second; it selects none if there is no such rule. */
  lemma {:induction false} FirstMatchIsSelected(r: Router, preMatch: bool, s: Run, i: nat)
    requires i <= |r.rules|
    ensures FirstMatch(r, preMatch, s, i, RunFrom(r, preMatch, i, RunAt(r, preMatch, s, i)).0)
    decreases |r.rules| - i
  {
    if i == |r.rules| {
    } else {
      VisitStops(r, preMatch, i, RunAt(r, preMatch, s, i));
      RunUnfolds(r, preMatch, s, i);
      if PassedOver(r, preMatch, s, i) {
        FirstMatchIsSelected(r, preMatch, s, i + 1);
        OneEarlier(r, preMatch, s, i, RunFrom(r, preMatch, i + 1, RunAt(r, preMatch, s, i + 1)).0);
      } else {
        assert SelectsAt(r, preMatch, s, i) || BreaksAt(r, preMatch, s, i);
      }
    }
  }

  lemma OneEarlier(r: Router, preMatch: bool, s: Run, i: nat, v: Verdict)
    requires i < |r.rules| && PassedOver(r, preMatch, s, i) && FirstMatch(r, preMatch, s, i + 1, v)
    ensures FirstMatch(r, preMatch, s, i, v)
  {
  }

  /** No other verdict fits: the law determines it. */
  lemma FirstMatchIsUnique(r: Router, preMatch: bool, s: Run, i: nat, v: Verdict, w: Verdict)
    requires FirstMatch(r, preMatch, s, i, v) && FirstMatch(r, preMatch, s, i, w)
    ensures v == w
  {
    forall k | i <= k < |r.rules| ensures !(PassedOver(r, preMatch, s, k) && (SelectsAt(r, preMatch, s, k) || BreaksAt(r, preMatch, s, k))) {
    }
    forall k | i <= k < |r.rules| ensures !(SelectsAt(r, preMatch, s, k) && BreaksAt(r, preMatch, s, k)) {
    }
  }

  lemma VisitStops(r: Router, preMatch: bool, i: nat, s: Run)
    requires i < |r.rules|
    ensures
      var v, m := VisitRule(r, preMatch, i, s), s.metadata;
      var final, breaks := Final(preMatch, m.network, r.rules[i]), Breaks(r, preMatch, i, m);
      && (v.Stop? <==> r.matches(i, m) && (final || breaks)) && !(final && breaks)
      && (v.Stop? ==> v.verdict == if final then Selected(i) else Fatal)
  {
  }

  lemma RunUnfolds(r: Router, preMatch: bool, s: Run, i: nat)
    requires i < |r.rules|
    ensures
      var v := VisitRule(r, preMatch, i, RunAt(r, preMatch, s, i));
      if v.Go? then RunFrom(r, preMatch, i, RunAt(r, preMatch, s, i)) == RunFrom(r, preMatch, i + 1, RunAt(r, preMatch, s, i + 1))
      else RunFrom(r, preMatch, i, RunAt(r, preMatch, s, i)).0 == v.verdict
  {
  }

  /** For a whole match, from the metadata that comes to the rules. */
  lemma MatchRuleSelects(r: Router, preMatch: bool, m: Metadata)
    ensures
      var (ok, s) := BeforeRules(r, preMatch, m);
      if ok then FirstMatch(r, preMatch, s, 0, MatchRule(r, preMatch, m).0) else MatchRule(r, preMatch, m).0 == Fatal
  {
    FirstMatchIsSelected(r, preMatch, BeforeRules(r, preMatch, m).1, 0);
  }

  predicate GivesOptions(a: Action) {
    a.Route? || a.Options?
  }

  /** The options of the rules before `n` that match the metadata they meet, in the order of the rules. */
  function Given(r: Router, preMatch: bool, s: Run, n: nat): seq<RouteOptions>
    requires n <= |r.rules|
  {
    if n == 0 then []
    else
      Given(r, preMatch, s, n - 1)
      + if r.matches(n - 1, RunAt(r, preMatch, s, n - 1).metadata) && GivesOptions(r.rules[n - 1]) then [r.rules[n - 1].options] else []
  }

  /** A change of the destination: by the override of a rule, or by a sniffed domain. */
  datatype Edit = Override(rule: nat, options: RouteOptions) | SniffTo(rule: nat, domain: string)

  /** The edits of the rules before `n` that match the metadata they meet, in the order of the rules:
      the overrides, and in a full match the sniffed domains. */
  function Edits(r: Router, preMatch: bool, s: Run, n: nat): seq<Edit>
    requires n <= |r.rules|
  {
    if n == 0 then []
    else Edits(r, preMatch, s, n - 1) + EditsOf(r, preMatch, n - 1, RunAt(r, preMatch, s, n - 1).metadata)
  }

  function EditsOf(r: Router, preMatch: bool, i: nat, m: Metadata): seq<Edit>
    requires i < |r.rules|
  {
    if !r.matches(i, m) then []
    else
      match r.rules[i]
      case Route(_, o) => if Overrides(r, o) then [Override(i, o)] else []
      case Options(o) => if Overrides(r, o) then [Override(i, o)] else []
      case Sniff(override) =>
        var domain := SniffedDestination(r, i, m, override);
        if !preMatch && domain.Some? then [SniffTo(i, domain.value)] else []
      case _ => []
  }

  // ---------------------------------------------------------------- destinations

  function EditDestination(r: Router, d: Socksaddr, e: Edit): Socksaddr {
    match e
    case Override(_, o) => Redirect(r, d, o)
    case SniffTo(_, domain) => Socksaddr(None, d.port, domain)
  }

  /** The destination after the edits, in order. */
  function Fold(r: Router, d: Socksaddr, edits: seq<Edit>): Socksaddr {
    if edits == [] then d else EditDestination(r, Fold(r, d, edits[..|edits| - 1]), edits[|edits| - 1])
  }

  /** An override with a valid address replaces address and domain, one with a port the port; what is not
      overridden stays. */
  lemma RedirectLaw(r: Router, d: Socksaddr, o: RouteOptions)
    ensures
      var e := Redirect(r, d, o);
      && e.port == (if o.port > 0 then o.port else d.port)
      && e.addr == (if r.IsValid(o.address) then o.address.addr else d.addr)
      && e.fqdn == (if r.IsValid(o.address) then o.address.fqdn else d.fqdn)
  {
  }

  /** Edit `k` is an override that meets a valid destination. */
  predicate Recorded(r: Router, d: Socksaddr, edits: seq<Edit>, k: nat)
    requires k < |edits|
  {
    edits[k].Override? && r.IsValid(Fold(r, d, edits[..k]))
  }

  /** The first override that meets a valid destination, or the number of edits. */
  function FirstRecorded(r: Router, d: Socksaddr, edits: seq<Edit>, from: nat): (k: nat)
    requires from <= |edits|
    ensures from <= k <= |edits|
    ensures forall j :: from <= j < k ==> !Recorded(r, d, edits, j)
    ensures k < |edits| ==> Recorded(r, d, edits, k)
    decreases |edits| - from
  {
    if from == |edits| || Recorded(r, d, edits, from) then from else FirstRecorded(r, d, edits, from + 1)
  }

  /** `m` is where the edits lead from destination `d` and original destination `original`. */
  ghost predicate Tracks(r: Router, d: Socksaddr, original: Socksaddr, edits: seq<Edit>, m: Metadata) {
    var k := FirstRecorded(r, d, edits, 0);
    && m.destination == Fold(r, d, edits)
    && if r.IsValid(original) then m.originalDestination == original
       else if k < |edits| then m.originalDestination == Fold(r, d, edits[..k])
       else !r.IsValid(m.originalDestination) && ((forall e :: e in edits ==> !e.Override?) ==> m.originalDestination == original)
  }

  lemma TrackEdit(r: Router, d: Socksaddr, original: Socksaddr, edits: seq<Edit>, m: Metadata, e: Edit, n: Metadata)
    requires Tracks(r, d, original, edits, m)
    requires n.destination == EditDestination(r, m.destination, e)
    requires n.originalDestination ==
             if e.Override? && !r.IsValid(m.originalDestination) then m.destination else m.originalDestination
    ensures Tracks(r, d, original, edits + [e], n)
  {
    var all := edits + [e];
    assert all[..|edits|] == edits && all[|edits|] == e;
    forall j | 0 <= j < |edits| ensures Recorded(r, d, all, j) == Recorded(r, d, edits, j) {
      assert all[..j] == edits[..j];
    }
    var k := FirstRecorded(r, d, edits, 0);
    if k < |edits| {
      assert all[..k] == edits[..k];
      SameFirst(r, d, all, k);
    } else if Recorded(r, d, all, |edits|) {
      SameFirst(r, d, all, |edits|);
    }
  }

  lemma SameFirst(r: Router, d: Socksaddr, edits: seq<Edit>, k: nat)
    requires k < |edits| && Recorded(r, d, edits, k) && forall j :: 0 <= j < k ==> !Recorded(r, d, edits, j)
    ensures FirstRecorded(r, d, edits, 0) == k
  {
  }

  lemma VisitTracks(r: Router, preMatch: bool, i: nat, d: Socksaddr, original: Socksaddr, edits: seq<Edit>, s: Run)
    requires i < |r.rules| && Tracks(r, d, original, edits, s.metadata)
    ensures Tracks(r, d, original, edits + EditsOf(r, preMatch, i, s.metadata), VisitRule(r, preMatch, i, s).run.metadata)
  {
    var more := EditsOf(r, preMatch, i, s.metadata);
    if more == [] {
      assert edits + more == edits;
    } else {
      TrackEdit(r, d, original, edits, s.metadata, more[0], VisitRule(r, preMatch, i, s).run.metadata);
    }
  }

  lemma {:induction false} RunTracks(r: Router, preMatch: bool, s: Run, n: nat)
    requires n <= |r.rules|
    ensures Tracks(r, s.metadata.destination, s.metadata.originalDestination, Edits(r, preMatch, s, n), RunAt(r, preMatch, s, n).metadata)
  {
    if n == 0 {
    } else {
      RunTracks(r, preMatch, s, n - 1);
      VisitTracks(r, preMatch, n - 1, s.metadata.destination, s.metadata.originalDestination,
                  Edits(r, preMatch, s, n - 1), RunAt(r, preMatch, s, n - 1));
    }
  }

  /** Every run, pre-match or full, and with whatever the deprecated options did before the rules, ends
      at the in-order fold of the edits of all matching rules up to the one that stopped it. An original
      destination that was valid stays; otherwise it is the one that stood just before the first override
      that met a valid destination. */
  lemma DestinationIsTheFold(r: Router, preMatch: bool, m: Metadata)
    requires BeforeRules(r, preMatch, m).0
    ensures
      var s := BeforeRules(r, preMatch, m).1;
      var (v, t) := MatchRule(r, preMatch, m);
      var n := EndOf(r, preMatch, s, 0);
      && Tracks(r, s.metadata.destination, s.metadata.originalDestination, Edits(r, preMatch, s, n), t.metadata)
      && (v.Selected? ==> n == v.rule + 1)
      && (v.NoRule? ==> n == |r.rules|)
  {
    var s := BeforeRules(r, preMatch, m).1;
    RunEndsThere(r, preMatch, s, 0);
    RunTracks(r, preMatch, s, EndOf(r, preMatch, s, 0));
  }

  lemma EditStaysValid(r: Router, preMatch: bool, i: nat, m: Metadata, e: Edit, d: Socksaddr)
    requires i < |r.rules| && e in EditsOf(r, preMatch, i, m) && r.IsValid(d)
    ensures r.IsValid(EditDestination(r, d, e))
  {
  }

  /** Every destination on the way is valid. */
  ghost predicate AlwaysValid(r: Router, d: Socksaddr, edits: seq<Edit>) {
    forall k :: 0 <= k <= |edits| ==> ValidAfter(r, d, edits, k)
  }

  predicate ValidAfter(r: Router, d: Socksaddr, edits: seq<Edit>, k: nat)
    requires k <= |edits|
  {
    r.IsValid(Fold(r, d, edits[..k]))
  }

  lemma AppendValid(r: Router, d: Socksaddr, edits: seq<Edit>, e: Edit)
    requires AlwaysValid(r, d, edits) && r.IsValid(EditDestination(r, Fold(r, d, edits), e))
    ensures AlwaysValid(r, d, edits + [e])
  {
    var all := edits + [e];
    forall k | 0 <= k <= |all| ensures ValidAfter(r, d, all, k) {
      if k <= |edits| {
        assert ValidAfter(r, d, edits, k) && all[..k] == edits[..k];
      } else {
        assert all[..k] == all && all[..|edits|] == edits;
      }
    }
  }

  lemma WholeIsValid(r: Router, d: Socksaddr, edits: seq<Edit>)
    requires AlwaysValid(r, d, edits)
    ensures r.IsValid(Fold(r, d, edits))
  {
    assert ValidAfter(r, d, edits, |edits|) && edits[..|edits|] == edits;
  }

  /** From a valid destination every edit leads to a valid one, so the original destination is the one
      before the first override of all. */
  lemma {:induction false} ValidDestinationsStay(r: Router, preMatch: bool, s: Run, n: nat)
    requires n <= |r.rules| && r.IsValid(s.metadata.destination)
    ensures AlwaysValid(r, s.metadata.destination, Edits(r, preMatch, s, n))
  {
    var d := s.metadata.destination;
    if n == 0 {
    } else {
      ValidDestinationsStay(r, preMatch, s, n - 1);
      var before, m := Edits(r, preMatch, s, n - 1), RunAt(r, preMatch, s, n - 1).metadata;
      var more := EditsOf(r, preMatch, n - 1, m);
      if more == [] {
        assert before + more == before;
      } else {
        WholeIsValid(r, d, before);
        EditStaysValid(r, preMatch, n - 1, m, more[0], Fold(r, d, before));
        AppendValid(r, d, before, more[0]);
        assert more == [more[0]];
      }
    }
  }

  /** With a valid destination and no original one at the start, the original destination is valid from
      the first override on, and is what stood just before it. */
  lemma OriginalStoodBeforeTheFirstOverride(r: Router, preMatch: bool, m: Metadata, k: nat)
    requires BeforeRules(r, preMatch, m).0
    requires
      var s := BeforeRules(r, preMatch, m).1;
      var edits := Edits(r, preMatch, s, EndOf(r, preMatch, s, 0));
      && r.IsValid(s.metadata.destination) && !r.IsValid(s.metadata.originalDestination)
      && k < |edits| && edits[k].Override? && forall j :: 0 <= j < k ==> !edits[j].Override?
    ensures
      var s := BeforeRules(r, preMatch, m).1;
      var edits := Edits(r, preMatch, s, EndOf(r, preMatch, s, 0));
      var original := MatchRule(r, preMatch, m).1.metadata.originalDestination;
      r.IsValid(original) && original == Fold(r, s.metadata.destination, edits[..k])
  {
    var s := BeforeRules(r, preMatch, m).1;
    var n := EndOf(r, preMatch, s, 0);
    DestinationIsTheFold(r, preMatch, m);
    ValidDestinationsStay(r, preMatch, s, n);
    assert ValidAfter(r, s.metadata.destination, Edits(r, preMatch, s, n), k);
    SameFirst(r, s.metadata.destination, Edits(r, preMatch, s, n), k);
  }

  // ---------------------------------------------------------------- the other options

  predicate Any(os: seq<RouteOptions>, f: RouteOptions -> bool) {
    exists o :: o in os && f(o)
  }

  function When<T>(given: bool, v: T): Option<T> {
    if given then Some(v) else None
  }

  /** A value given by several of the options is that of the last one to give it. */
  predicate ValuesFold(m0: Metadata, os: seq<RouteOptions>, m: Metadata) {
    && LastWins(m0.strategy, Pick(os, (o: RouteOptions) => When(o.strategy.Some?, o.strategy)), m.strategy)
    && LastWins(m0.networkType, Pick(os, (o: RouteOptions) => When(o.networkType != [], o.networkType)), m.networkType)
    && LastWins(m0.fallbackType, Pick(os, (o: RouteOptions) => When(o.fallbackType != [], o.fallbackType)), m.fallbackType)
    && LastWins(m0.fallbackDelay, Pick(os, (o: RouteOptions) => When(o.fallbackDelay != 0, o.fallbackDelay)), m.fallbackDelay)
    && LastWins(m0.udpTimeout, Pick(os, (o: RouteOptions) => When(o.udpTimeout > 0, o.udpTimeout)), m.udpTimeout)
    && LastWins(m0.tlsDelay, Pick(os, (o: RouteOptions) => When(o.tlsFragment, o.tlsDelay)), m.tlsDelay)
  }

  /** A flag is set when it was set before or any of the options sets it. */
  predicate FlagsFold(m0: Metadata, os: seq<RouteOptions>, m: Metadata) {
    && (m.disableUnmapping <==> m0.disableUnmapping || Any(os, (o: RouteOptions) => o.disableUnmapping))
    && (m.udpConnect <==> m0.udpConnect || Any(os, (o: RouteOptions) => o.udpConnect))
    && (m.tlsFragment <==> m0.tlsFragment || Any(os, (o: RouteOptions) => o.tlsFragment))
    && (m.tlsRecord <==> m0.tlsRecord || Any(os, (o: RouteOptions) => o.tlsRecord))
  }

  lemma AnyOne(os: seq<RouteOptions>, f: RouteOptions -> bool, o: RouteOptions)
    ensures Any(os + [o], f) <==> Any(os, f) || f(o)
  {
    assert forall x :: x in os + [o] <==> x in os || x == o;
  }

  lemma ApplyValues(r: Router, m0: Metadata, os: seq<RouteOptions>, m: Metadata, o: RouteOptions)
    requires ValuesFold(m0, os, m)
    ensures ValuesFold(m0, os + [o], WithOptions(r, m, o))
  {
    PickOne(m0.strategy, os, (o: RouteOptions) => When(o.strategy.Some?, o.strategy), m.strategy, o);
    PickOne(m0.networkType, os, (o: RouteOptions) => When(o.networkType != [], o.networkType), m.networkType, o);
    PickOne(m0.fallbackType, os, (o: RouteOptions) => When(o.fallbackType != [], o.fallbackType), m.fallbackType, o);
    PickOne(m0.fallbackDelay, os, (o: RouteOptions) => When(o.fallbackDelay != 0, o.fallbackDelay), m.fallbackDelay, o);
    PickOne(m0.udpTimeout, os, (o: RouteOptions) => When(o.udpTimeout > 0, o.udpTimeout), m.udpTimeout, o);
    PickOne(m0.tlsDelay, os, (o: RouteOptions) => When(o.tlsFragment, o.tlsDelay), m.tlsDelay, o);
  }

  lemma ApplyFlags(r: Router, m0: Metadata, os: seq<RouteOptions>, m: Metadata, o: RouteOptions)
    requires FlagsFold(m0, os, m)
    ensures FlagsFold(m0, os + [o], WithOptions(r, m, o))
  {
    AnyOne(os, (o: RouteOptions) => o.disableUnmapping, o);
    AnyOne(os, (o: RouteOptions) => o.udpConnect, o);
    AnyOne(os, (o: RouteOptions) => o.tlsFragment, o);
    AnyOne(os, (o: RouteOptions) => o.tlsRecord, o);
  }

  predicate OptionsFold(m0: Metadata, os: seq<RouteOptions>, m: Metadata) {
    ValuesFold(m0, os, m) && FlagsFold(m0, os, m)
  }

  /** What sniffing and resolving change does not touch the options. */
  lemma OtherFields(m0: Metadata, os: seq<RouteOptions>, m: Metadata, n: Metadata)
    requires OptionsFold(m0, os, m)
    requires n == m.(destination := n.destination, addresses := n.addresses, sniffed := n.sniffed)
    ensures OptionsFold(m0, os, n)
  {
  }

  /** Any other rule leaves the options as they were. */
  lemma OtherRule(r: Router, preMatch: bool, i: nat, s: Run)
    requires i < |r.rules| && !(r.matches(i, s.metadata) && GivesOptions(r.rules[i]))
    ensures
      var n := VisitRule(r, preMatch, i, s).run.metadata;
      n == s.metadata.(destination := n.destination, addresses := n.addresses, sniffed := n.sniffed)
  {
    if r.matches(i, s.metadata) {
      match r.rules[i]
      case Sniff(override) => assert ApplySniff(r, s, i, override).metadata.addresses == s.metadata.addresses;
      case _ =>
    }
  }

  lemma {:induction false} RunFolds(r: Router, preMatch: bool, s: Run, n: nat)
    requires n <= |r.rules|
    ensures OptionsFold(s.metadata, Given(r, preMatch, s, n), RunAt(r, preMatch, s, n).metadata)
  {
    if n == 0 {
    } else {
      RunFolds(r, preMatch, s, n - 1);
      var at, given := RunAt(r, preMatch, s, n - 1), Given(r, preMatch, s, n - 1);
      if r.matches(n - 1, at.metadata) && GivesOptions(r.rules[n - 1]) {
        ApplyFolds(r, s.metadata, given, at.metadata, r.rules[n - 1].options);
      } else {
        assert Given(r, preMatch, s, n) == given;
        OtherRule(r, preMatch, n - 1, at);
        OtherFields(s.metadata, given, at.metadata, RunAt(r, preMatch, s, n).metadata);
      }
    }
  }

  lemma ApplyFolds(r: Router, m0: Metadata, os: seq<RouteOptions>, m: Metadata, o: RouteOptions)
    requires OptionsFold(m0, os, m)
    ensures OptionsFold(m0, os + [o], WithOptions(r, m, o))
  {
    ApplyValues(r, m0, os, m, o);
    ApplyFlags(r, m0, os, m, o);
  }

  /** Over every run the options of the matching rules up to the one that stopped it add up: of each
      value the last one given stands, and flags stay set. */
  lemma OptionsAddUp(r: Router, preMatch: bool, m: Metadata)
    requires BeforeRules(r, preMatch, m).0
    ensures
      var s := BeforeRules(r, preMatch, m).1;
      var n := EndOf(r, preMatch, s, 0);
      OptionsFold(s.metadata, Given(r, preMatch, s, n), MatchRule(r, preMatch, m).1.metadata)
  {
    var s := BeforeRules(r, preMatch, m).1;
    RunEndsThere(r, preMatch, s, 0);
    RunFolds(r, preMatch, s, EndOf(r, preMatch, s, 0));
  }

  // ---------------------------------------------------------------- addresses and what was sniffed

  /** What a matching rule does to the resolved addresses: an address override clears them, resolving a domain
      sets them. */
  function AddressesGiven(r: Router, i: nat, m: Metadata): Option<seq<nat>>
    requires i < |r.rules|
  {
    if !r.matches(i, m) then None
    else
      match r.rules[i]
      case Route(_, o) => When(r.IsValid(o.address), [])
      case Options(o) => When(r.IsValid(o.address), [])
      case Resolve => if r.IsFqdn(m.destination) then r.resolve(i, m) else None
      case _ => None
  }

  /** What a matching sniff rule of a full match finds. */
  function SniffGiven(r: Router, preMatch: bool, i: nat, m: Metadata): Option<nat>
    requires i < |r.rules|
  {
    if r.matches(i, m) && r.rules[i].Sniff? && !preMatch then Some(r.sniff(i, m).sniffed) else None
  }

  /** What a rule leaves of the addresses, of what was sniffed and of the network. */
  predicate GivesOn(r: Router, preMatch: bool, i: nat, m: Metadata, n: Metadata)
    requires i < |r.rules|
  {
    var a, f := AddressesGiven(r, i, m), SniffGiven(r, preMatch, i, m);
    && n.addresses == (if a.Some? then a.value else m.addresses)
    && n.sniffed == (if f.Some? then f.value else m.sniffed)
    && n.network == m.network
  }

  lemma VisitGives(r: Router, preMatch: bool, i: nat, s: Run)
    requires i < |r.rules|
    ensures GivesOn(r, preMatch, i, s.metadata, VisitRule(r, preMatch, i, s).run.metadata)
  {
    match r.rules[i]
    case Sniff(override) =>
    case Resolve =>
    case _ =>
  }

  /** The metadata as the run comes to each of the first rules, and behind them. */
  function Trace(r: Router, preMatch: bool, s: Run, n: nat): (trace: seq<Metadata>)
    requires n <= |r.rules|
    ensures |trace| == n + 1 && forall j :: 0 <= j <= n ==> trace[j] == RunAt(r, preMatch, s, j).metadata
  {
    seq(n + 1, j requires 0 <= j < n + 1 => RunAt(r, preMatch, s, j).metadata)
  }

  lemma RunGives(r: Router, preMatch: bool, s: Run, i: nat)
    requires i < |r.rules|
    ensures GivesOn(r, preMatch, i, RunAt(r, preMatch, s, i).metadata, RunAt(r, preMatch, s, i + 1).metadata)
  {
    VisitGives(r, preMatch, i, RunAt(r, preMatch, s, i));
  }

  function AllAddresses(r: Router, trace: seq<Metadata>): seq<Option<seq<nat>>>
    requires 0 < |trace| <= |r.rules| + 1
  {
    seq(|trace| - 1, j requires 0 <= j < |trace| - 1 => AddressesGiven(r, j, trace[j]))
  }

  function AllSniffed(r: Router, preMatch: bool, trace: seq<Metadata>): seq<Option<nat>>
    requires 0 < |trace| <= |r.rules| + 1
  {
    seq(|trace| - 1, j requires 0 <= j < |trace| - 1 => SniffGiven(r, preMatch, j, trace[j]))
  }

  /** Along a trace the addresses are those given last, what was sniffed is what was found last, and the network
      stays. */
  ghost predicate AddsUp(r: Router, preMatch: bool, trace: seq<Metadata>)
    requires 0 < |trace| <= |r.rules| + 1
  {
    var first, last := trace[0], trace[|trace| - 1];
    && LastWins(first.addresses, AllAddresses(r, trace), last.addresses)
    && LastWins(first.sniffed, AllSniffed(r, preMatch, trace), last.sniffed)
    && last.network == first.network
  }

  lemma TraceAddsUp(r: Router, preMatch: bool, trace: seq<Metadata>)
    requires 0 < |trace| <= |r.rules| + 1
    requires forall j :: 0 <= j < |trace| - 1 ==> GivesOn(r, preMatch, j, trace[j], trace[j + 1])
    ensures AddsUp(r, preMatch, trace)
  {
    var n := |trace|;
    var addresses: seq<seq<nat>> := seq(n, j requires 0 <= j < n => trace[j].addresses);
    var sniffed: seq<nat> := seq(n, j requires 0 <= j < n => trace[j].sniffed);
    LastOfSteps<seq<nat>>(addresses, AllAddresses(r, trace));
    LastOfSteps<nat>(sniffed, AllSniffed(r, preMatch, trace));
    assert addresses[0] == trace[0].addresses && addresses[n - 1] == trace[n - 1].addresses;
    assert sniffed[0] == trace[0].sniffed && sniffed[n - 1] == trace[n - 1].sniffed;
    NetworkStays(r, preMatch, trace, n - 1);
  }

  lemma {:induction false} NetworkStays(r: Router, preMatch: bool, trace: seq<Metadata>, n: nat)
    requires n < |trace| <= |r.rules| + 1
    requires forall j :: 0 <= j < |trace| - 1 ==> GivesOn(r, preMatch, j, trace[j], trace[j + 1])
    ensures trace[n].network == trace[0].network
  {
    if n == 0 {
    } else {
      NetworkStays(r, preMatch, trace, n - 1);
      assert GivesOn(r, preMatch, n - 1, trace[n - 1], trace[n - 1 + 1]);
    }
  }

  /** Over every run the addresses are those of the last matching rule that set or cleared them, up to the one
      that stopped it, what was sniffed is what the last sniff found, and the network stays. */
  lemma AddressesAndSniffsAddUp(r: Router, preMatch: bool, m: Metadata)
    requires BeforeRules(r, preMatch, m).0
    ensures
      var s := BeforeRules(r, preMatch, m).1;
      var trace := Trace(r, preMatch, s, EndOf(r, preMatch, s, 0));
      AddsUp(r, preMatch, trace) && trace[0] == s.metadata && trace[|trace| - 1] == MatchRule(r, preMatch, m).1.metadata
  {
    var s := BeforeRules(r, preMatch, m).1;
    var n := EndOf(r, preMatch, s, 0);
    RunEndsThere(r, preMatch, s, 0);
    RunAddsUp(r, preMatch, s, n);
  }

  lemma RunAddsUp(r: Router, preMatch: bool, s: Run, n: nat)
    requires n <= |r.rules|
    ensures AddsUp(r, preMatch, Trace(r, preMatch, s, n))
  {
    var trace := Trace(r, preMatch, s, n);
    forall j | 0 <= j < n ensures GivesOn(r, preMatch, j, trace[j], trace[j + 1]) {
      RunGives(r, preMatch, s, j);
    }
    TraceAddsUp(r, preMatch, trace);
  }

  // ---------------------------------------------------------------- before the rules

  /** What the deprecated options of an inbound do before the rules, from the prepared metadata: a full match
      sniffs first and may take the domain as destination, then a domain is resolved, then unmapping may be
      turned off, and the options are used up. A failure of any of them is fatal. */
  lemma BeforeTheRules(r: Router, preMatch: bool, m: Metadata)
    ensures
      var (ok, s) := BeforeRules(r, preMatch, m);
      match r.prepare(m)
      case None => !ok
      case Some(p) =>
        var o, n := p.inboundOptions, |r.rules|;
        var sniffs := o.sniff && !preMatch;
        var report := r.sniff(n, p);
        var replaced := sniffs && o.sniffOverride && report.domain.Some? && r.isDomain(report.domain.value);
        var destination := if replaced then Socksaddr(None, p.destination.port, report.domain.value) else p.destination;
        var q := p.(sniffed := if sniffs then report.sniffed else p.sniffed, destination := destination);
        var resolves := o.resolve && r.IsFqdn(destination);
        && (ok <==> !(sniffs && report.fatal) && !(resolves && r.resolve(n, q).None?))
        && (ok ==>
              && s.sniffs == (if sniffs then [(n, p)] else [])
              && s.metadata == q.(addresses := if resolves then r.resolve(n, q).value else p.addresses,
                                  disableUnmapping := p.disableUnmapping || o.disableUnmapping,
                                  inboundOptions := InboundOptions(false, false, false, false)))
  {
  }
}
