/**
  The rule loop of the DNS router (dns/router.go): a first-match search that starts again
  behind a rule whose response was rejected.

  `Query.matches`, `Query.ask`, `Query.attempt` and `Query.early` stand for the rule matchers
  and the client. They take the index of the rule, and since a query looks at each rule at
  most once, they may answer differently for every look; the index `|rules|` stands for the
  default transport, and for a transport that the caller names. The addresses are `metadata.DestinationAddresses`, which a response
  check overwrites and later matches see.
*/
module DnsRules {
  import opened Lists
  import opened DnsCommon

  datatype Options = Options(strategy: Strategy, disableCache: bool, rewriteTtl: Option<nat>, subnet: Option<nat>)

  datatype Transport = Transport(tag: string, fakeIP: bool, legacy: Option<(Strategy, Option<nat>)>)

  datatype RejectMethod = RejectDefault | RejectDrop | RejectReply

  datatype Action =
    | Route(server: string, edits: Options)
    | RouteOptions(edits: Options)
    | Reject(how: RejectMethod)
    | Predefined(rcode: nat, addresses: seq<Address>)
    | OtherAction

  datatype Rule = Rule(action: Action, addressLimit: bool)

  datatype Mode = ExchangeMode(addressQuery: bool) | LookupMode {
    predicate AddressQuery() { LookupMode? || addressQuery }
    predicate AllowFakeIP() { ExchangeMode? }
  }

  /** An attempt either settles the query or is rejected and leaves addresses behind. */
  datatype Attempt<+R> = Settled(result: R) | Rejected(addresses: seq<Address>)

  /** A query against a rule list: `ask` is a call of the client without a response check,
      `attempt` one with the check of the rule. `early` is what the client answers before it
      touches the transport (from the cache, or because of the strategy); when it does not, a call
      without a transport dereferences nil. */
  datatype Query<!R> = Query(
    mode: Mode,
    rules: seq<Rule>,
    transports: map<string, Transport>,
    default: Option<Transport>,
    defaultStrategy: Strategy,
    options: Options,
    addresses: seq<Address>,
    matches: (nat, seq<Address>) -> bool,
    ask: (nat, Transport, Options, seq<Address>) -> R,
    attempt: (nat, Transport, Options, seq<Address>) -> Attempt<R>,
    early: (nat, Options) -> Option<R>)

  /** How a query ends: a rule ends it on its own, an attempt settles it, or there is no transport. */
  datatype Final<+R> = Ended(rule: nat, retries: nat) | Answered(result: R) | NilTransport(rule: nat)

  // ---------------------------------------------------------------- options

  /** What a matched route-options rule does to the options. */
  function Merge(o: Options, e: Options): Options {
    Options(if e.strategy != AsIs then e.strategy else o.strategy,
            o.disableCache || e.disableCache,
            if e.rewriteTtl.Some? then e.rewriteTtl else o.rewriteTtl,
            if e.subnet.Some? then e.subnet else o.subnet)
  }

  /** A route rule also disables the cache for FakeIP and asks a legacy server for its defaults. */
  function MergeRoute(o: Options, e: Options, t: Transport): Options {
    var m := Merge(o, e.(disableCache := e.disableCache || t.fakeIP));
    if t.legacy.None? then m
    else m.(strategy := if m.strategy == AsIs then t.legacy.value.0 else m.strategy,
            subnet := if m.subnet.None? then t.legacy.value.1 else m.subnet)
  }

  function WithDefaultStrategy(o: Options, s: Strategy): Options {
    if o.strategy == AsIs then o.(strategy := s) else o
  }

  // ---------------------------------------------------------------- the declarative search

  /** What the search carries from rule to rule. */
  datatype Carry = Carry(options: Options, addresses: seq<Address>, retries: nat)

  datatype Visit = Pass | Edit(edits: Options) | End | Try(transport: Transport, options: Options) | Blind(options: Options)

  /** Rule `i` is eligible for the query and matches it. */
  predicate Matches<R>(q: Query<R>, i: nat, addresses: seq<Address>)
    requires i < |q.rules|
  {
    !(q.rules[i].addressLimit && !q.mode.AddressQuery()) && q.matches(i, addresses)
  }

  /** What rule `i` asks for: a rule with an address limit is not eligible for other queries,
      and a route to a missing server or, in a lookup, to FakeIP is passed over. A reject rule
      with the method `reply` goes on to an exchange without a transport. */
  function VisitRule<R>(q: Query<R>, i: nat, c: Carry): Visit
    requires i < |q.rules|
  {
    if !Matches(q, i, c.addresses) then Pass
    else
      match q.rules[i].action
      case Route(server, edits) =>
        if server !in q.transports then Pass
        else if q.transports[server].fakeIP && !q.mode.AllowFakeIP() then Pass
        else Try(q.transports[server], MergeRoute(c.options, edits, q.transports[server]))
      case RouteOptions(edits) => Edit(edits)
      case Reject(how) => if q.mode.ExchangeMode? && how.RejectReply? then Blind(c.options) else End
      case Predefined(_, _) => End
      case OtherAction => Pass
  }

  function Outcome<R>(q: Query<R>, i: nat, c: Carry, v: Visit): Attempt<R>
    requires i < |q.rules| && v.Try?
  {
    var options := WithDefaultStrategy(v.options, q.defaultStrategy);
    if q.rules[i].addressLimit then q.attempt(i, v.transport, options, c.addresses)
    else Settled(q.ask(i, v.transport, options, c.addresses))
  }

  /** What the search carries past rule `i`: edits add up, a rejection starts from the options
      of the call again. */
  function Step<R>(q: Query<R>, i: nat, c: Carry): Carry
    requires i < |q.rules|
  {
    var v := VisitRule(q, i, c);
    match v
    case Edit(edits) => c.(options := Merge(c.options, edits))
    case Try(_, _) =>
      var a := Outcome(q, i, c, v);
      if a.Rejected? then Carry(q.options, a.addresses, c.retries + 1) else c
    case _ => c
  }

  /** What the search carries when it comes to rule `i`, all earlier ones having been passed. */
  function CarryAt<R>(q: Query<R>, i: nat): Carry
    requires i <= |q.rules|
  {
    if i == 0 then Carry(q.options, q.addresses, 0) else Step(q, i - 1, CarryAt(q, i - 1))
  }

  /** Rule `i` decides the query: it matches, is eligible, and ends the query or has a response
      that is not rejected. */
  predicate Decisive<R>(q: Query<R>, i: nat)
    requires i < |q.rules|
  {
    var c := CarryAt(q, i);
    var v := VisitRule(q, i, c);
    v.End? || v.Blind? || (v.Try? && Outcome(q, i, c, v).Settled?)
  }

  /** The first decisive rule at or after `i`, or the number of rules when there is none. */
  function FirstDecisive<R>(q: Query<R>, i: nat): (k: nat)
    requires i <= |q.rules|
    ensures i <= k <= |q.rules|
    ensures forall j :: i <= j < k ==> !Decisive(q, j)
    ensures k < |q.rules| ==> Decisive(q, k)
    decreases |q.rules| - i
  {
    if i == |q.rules| || Decisive(q, i) then i else FirstDecisive(q, i + 1)
  }

  /** The outcome is that of the first decisive rule, and otherwise that of the default
      transport, whose response is not checked. */
  function Answer<R>(q: Query<R>): Final<R>
  {
    var k := FirstDecisive(q, 0);
    var c := CarryAt(q, k);
    if k < |q.rules| then
      var v := VisitRule(q, k, c);
      if v.End? then Ended(k, c.retries)
      else if v.Blind? then WithoutTransport(q, k, v.options)
      else Answered(Outcome(q, k, c, v).result)
    else if q.default.None? then WithoutTransport(q, k, c.options)
    else Answered(q.ask(k, q.default.value, WithDefaultStrategy(c.options, q.defaultStrategy), c.addresses))
  }

  function WithoutTransport<R>(q: Query<R>, k: nat, options: Options): Final<R> {
    var early := q.early(k, WithDefaultStrategy(options, q.defaultStrategy));
    if early.Some? then Answered(early.value) else NilTransport(k)
  }

  /** The first decisive rule is a matching reject rule with the method `reply`, or no rule decides and
      there is no default transport. */
  predicate LacksTransport<R>(q: Query<R>) {
    var k := FirstDecisive(q, 0);
    if k == |q.rules| then q.default.None?
    else q.mode.ExchangeMode? && q.rules[k].action == Reject(RejectReply) && Matches(q, k, CarryAt(q, k).addresses)
  }

  /** Exactly when a query dereferences a nil transport: it comes to a rule or a default without one,
      and the client has no early answer. */
  lemma NilTransportExactlyWhen<R>(q: Query<R>)
    ensures
      var k := FirstDecisive(q, 0);
      Answer(q).NilTransport? <==>
      LacksTransport(q) && q.early(k, WithDefaultStrategy(CarryAt(q, k).options, q.defaultStrategy)).None?
  {
  }

  /** So a rule list without such rules, with a default transport, never does. */
  lemma NeverNilTransport<R>(q: Query<R>)
    requires q.default.Some? && forall i :: 0 <= i < |q.rules| ==> q.rules[i].action != Reject(RejectReply)
    ensures !Answer(q).NilTransport?
  {
  }

  /** An input at which it happens: one reject rule with the method `reply`. */
  lemma ReplyRuleDereferencesNil<R>(base: Query<R>)
    requires base.mode.ExchangeMode?
    ensures
      var q := base.(rules := [Rule(Reject(RejectReply), false)],
                     matches := (_: nat, _: seq<Address>) => true, early := (_: nat, _: Options) => None);
      Answer(q) == NilTransport(0)
  {
  }

  /** Which rule decides, said without the search: it is the first that, with the addresses it meets, matches and
      is eligible (an address limit is for address queries), and that ends the query, or has a server that exists
      and is not FakeIP in a lookup, and no address limit or a response that is not rejected. */
  lemma DecisiveExactlyWhen<R>(q: Query<R>, i: nat)
    requires i < |q.rules|
    ensures
      var c, rule := CarryAt(q, i), q.rules[i];
      Decisive(q, i) <==>
      && q.matches(i, c.addresses)
      && (rule.addressLimit ==> q.mode == LookupMode || q.mode == ExchangeMode(true))
      && match rule.action
         case Predefined(_, _) => true
         case Reject(_) => true
         case RouteOptions(_) => false
         case OtherAction => false
         case Route(server, edits) =>
           && server in q.transports
           && (q.mode == LookupMode ==> !q.transports[server].fakeIP)
           && (rule.addressLimit ==>
                 var options := WithDefaultStrategy(MergeRoute(c.options, edits, q.transports[server]), q.defaultStrategy);
                 q.attempt(i, q.transports[server], options, c.addresses).Settled?)
  {
  }

  /** A query that does not ask for addresses is decided by a rule without an address limit, and no response to
      it is ever rejected. */
  lemma OtherQueriesAreNotChecked<R>(q: Query<R>, i: nat)
    requires q.mode == ExchangeMode(false)
    ensures FirstDecisive(q, 0) < |q.rules| ==> !q.rules[FirstDecisive(q, 0)].addressLimit
    ensures i < |q.rules| ==> !WasRejected(q, i)
  {
  }

  /** So how a response would be checked does not matter to it. */
  lemma ChecksDoNotMatter<R>(q: Query<R>, p: Query<R>)
    requires q.mode == ExchangeMode(false) && p == q.(attempt := p.attempt)
    ensures Answer(p) == Answer(q)
  {
    forall i | 0 <= i <= |q.rules| ensures CarryAt(p, i) == CarryAt(q, i) {
      SameCarryUnchecked(q, p, i);
    }
    forall j | 0 <= j < |q.rules| ensures Decisive(p, j) == Decisive(q, j) {
      assert CarryAt(p, j) == CarryAt(q, j);
    }
    FirstDecisiveSkips(p, 0, FirstDecisive(q, 0));
  }

  lemma {:induction false} SameCarryUnchecked<R>(q: Query<R>, p: Query<R>, i: nat)
    requires q.mode == ExchangeMode(false) && p == q.(attempt := p.attempt) && i <= |q.rules|
    ensures CarryAt(p, i) == CarryAt(q, i)
  {
    if i == 0 {
    } else {
      SameCarryUnchecked(q, p, i - 1);
    }
  }

  lemma {:induction false} FirstDecisiveSkips<R>(q: Query<R>, i: nat, k: nat)
    requires i <= k <= |q.rules| && forall j :: i <= j < k ==> !Decisive(q, j)
    ensures FirstDecisive(q, i) == FirstDecisive(q, k)
    decreases k - i
  {
    if i == k {
    } else {
      FirstDecisiveSkips(q, i + 1, k);
    }
  }

  /** A rule that is passed over or edits the options leaves the decision to the rules behind it. */
  lemma MovesOn<R>(q: Query<R>, i: nat, c: Carry)
    requires i < |q.rules| && c == CarryAt(q, i) && (VisitRule(q, i, c).Pass? || VisitRule(q, i, c).Edit?)
    ensures FirstDecisive(q, i) == FirstDecisive(q, i + 1)
    ensures
      var v := VisitRule(q, i, c);
      CarryAt(q, i + 1) == if v.Edit? then c.(options := Merge(c.options, v.edits)) else c
  {
    assert !Decisive(q, i);
  }

  // ---------------------------------------------------------------- the loops

  /** `matchDNS`: from behind `ruleIndex` to the next rule that ends the query or names a server.
      `rule` is `None` with the default transport, and then `next` is -1. */
  method MatchDns<R>(q: Query<R>, ruleIndex: int, addresses: seq<Address>, ghost retries: nat)
    returns (transport: Option<Transport>, rule: Option<nat>, next: int, options: Options)
    requires -1 <= ruleIndex < |q.rules|
    requires CarryAt(q, ruleIndex + 1) == Carry(q.options, addresses, retries)
    requires FirstDecisive(q, 0) == FirstDecisive(q, ruleIndex + 1)
    ensures rule.None? ==>
              && next == -1 && transport == q.default && FirstDecisive(q, 0) == |q.rules|
              && CarryAt(q, |q.rules|) == Carry(options, addresses, retries)
    ensures rule.Some? ==>
              && rule.value == next && ruleIndex < next < |q.rules|
              && FirstDecisive(q, 0) == FirstDecisive(q, next)
              && CarryAt(q, next).addresses == addresses && CarryAt(q, next).retries == retries
              && var v := VisitRule(q, next, CarryAt(q, next));
                 if q.rules[next].action.Route? then transport.Some? && v == Try(transport.value, options)
                 else
                   && transport == None && !v.Pass? && !v.Edit? && !v.Try?
                   && (q.rules[next].action.Reject? || q.rules[next].action.Predefined?)
                   && (v.Blind? ==> v.options == options)
  {
    options := q.options;
    var i := 0;
    if ruleIndex != -1 {
      i := ruleIndex + 1;
    }
    while i < |q.rules|
      invariant ruleIndex + 1 <= i <= |q.rules|
      invariant CarryAt(q, i) == Carry(options, addresses, retries)
      invariant FirstDecisive(q, 0) == FirstDecisive(q, i)
    {
      var current := q.rules[i];
      ghost var carry := CarryAt(q, i);
      if !(current.addressLimit && !q.mode.AddressQuery()) && q.matches(i, addresses) {
        match current.action
        case Route(server, edits) =>
          if server in q.transports && !(q.transports[server].fakeIP && !q.mode.AllowFakeIP()) {
            var t := q.transports[server];
            return Some(t), Some(i), i, MergeRoute(options, edits, t);
          }
        case RouteOptions(edits) =>
          options := Merge(options, edits);
        case Reject(_) => return None, Some(i), i, options;
        case Predefined(_, _) => return None, Some(i), i, options;
        case OtherAction =>
      }
      MovesOn(q, i, carry);
      i := i + 1;
    }
    return q.default, None, -1, options;
  }

  /** The retry loop shared by `Exchange` and `Lookup`. It gives the outcome of the declarative
      search and makes at most one attempt more than there are rules. */
  method Resolve<R>(q: Query<R>) returns (r: Final<R>, attempts: nat)
    ensures r == Answer(q)
    ensures attempts <= |q.rules| + 1
  {
    var ruleIndex := -1;
    var addresses := q.addresses;
    var retries := 0;
    attempts := 0;
    while true
      invariant -1 <= ruleIndex < |q.rules|
      invariant attempts == retries <= ruleIndex + 1
      invariant CarryAt(q, ruleIndex + 1) == Carry(q.options, addresses, retries)
      invariant FirstDecisive(q, 0) == FirstDecisive(q, ruleIndex + 1)
      decreases |q.rules| - ruleIndex
    {
      var transport, rule, next, options := MatchDns(q, ruleIndex, addresses, retries);
      if rule.Some? {
        match q.rules[next].action
        case Reject(how) =>
          if q.mode.LookupMode? || !how.RejectReply? {
            return Ended(next, retries), attempts;
          }
        case Predefined(_, _) => return Ended(next, retries), attempts;
        case _ =>
      }
      var checked := rule.Some? && q.rules[next].addressLimit;
      var index := if rule.Some? then next else |q.rules|;
      options := WithDefaultStrategy(options, q.defaultStrategy);
      attempts := attempts + 1;
      if transport.None? {
        var early := q.early(index, options);
        return if early.Some? then Answered(early.value) else NilTransport(index), attempts;
      }
      if !checked {
        return Answered(q.ask(index, transport.value, options, addresses)), attempts;
      }
      var a := q.attempt(next, transport.value, options, addresses);
      if a.Settled? {
        return Answered(a.result), attempts;
      }
      ruleIndex, addresses, retries := next, a.addresses, retries + 1;
      assert !Decisive(q, ruleIndex);
    }
  }

  // ---------------------------------------------------------------- what the search means

  /** Rules behind the deciding one have no say. */
  lemma LaterRulesDoNotMatter<R>(q: Query<R>, p: Query<R>, k: nat)
    requires k < |q.rules| && k < |p.rules| && k == FirstDecisive(q, 0)
    requires p == q.(rules := p.rules) && p.rules[..k + 1] == q.rules[..k + 1]
    ensures Answer(p) == Answer(q)
  {
    forall i | 0 <= i <= k ensures p.rules[i] == q.rules[i] {
      assert p.rules[..k + 1][i] == q.rules[..k + 1][i];
    }
    forall j | 0 <= j <= k ensures Decisive(p, j) == Decisive(q, j) {
      SameDecision(q, p, j);
    }
    FirstDecisiveSkips(p, 0, k);
    SameDecision(q, p, k);
  }

  lemma SameDecision<R>(q: Query<R>, p: Query<R>, i: nat)
    requires i < |q.rules| && i < |p.rules| && p == q.(rules := p.rules)
    requires forall j :: 0 <= j <= i ==> p.rules[j] == q.rules[j]
    ensures CarryAt(p, i) == CarryAt(q, i) && Decisive(p, i) == Decisive(q, i)
    ensures
      var c := CarryAt(q, i);
      var v := VisitRule(q, i, c);
      VisitRule(p, i, c) == v && (v.Try? ==> Outcome(p, i, c, v) == Outcome(q, i, c, v))
  {
    SameCarry(q, p, i);
  }

  lemma {:induction false} SameCarry<R>(q: Query<R>, p: Query<R>, i: nat)
    requires i <= |q.rules| && i <= |p.rules| && p == q.(rules := p.rules)
    requires forall j :: 0 <= j < i ==> p.rules[j] == q.rules[j]
    ensures CarryAt(p, i) == CarryAt(q, i)
  {
    if i == 0 {
    } else {
      SameCarry(q, p, i - 1);
    }
  }

  /** Rule `i` was tried and its response was rejected. */
  predicate WasRejected<R>(q: Query<R>, i: nat)
    requires i < |q.rules|
  {
    var c := CarryAt(q, i);
    var v := VisitRule(q, i, c);
    v.Try? && Outcome(q, i, c, v).Rejected?
  }

  /** Rule `i` is a route-options rule that is eligible and matches the addresses it meets. */
  predicate EditsAt<R>(q: Query<R>, i: nat)
    requires i < |q.rules|
  {
    && q.rules[i].action.RouteOptions? && q.matches(i, CarryAt(q, i).addresses)
    && (q.rules[i].addressLimit ==> q.mode == LookupMode || q.mode == ExchangeMode(true))
  }

  /** The edits of the route-options rules matched in `from .. to`, in order. */
  function EditsBetween<R>(q: Query<R>, from: nat, to: nat): seq<Options>
    requires from <= to <= |q.rules|
  {
    if from == to then []
    else EditsBetween(q, from, to - 1) + if EditsAt(q, to - 1) then [q.rules[to - 1].action.edits] else []
  }

  function GivenStrategy(e: Options): Option<Strategy> {
    if e.strategy != AsIs then Some(e.strategy) else None
  }

  function GivenTtl(e: Options): Option<Option<nat>> {
    if e.rewriteTtl.Some? then Some(e.rewriteTtl) else None
  }

  function GivenSubnet(e: Options): Option<Option<nat>> {
    if e.subnet.Some? then Some(e.subnet) else None
  }

  /** `o` is what the edits make of the options of the call: of each value the last one given, and
      no caching as soon as one asks for it. */
  predicate Edited(call: Options, es: seq<Options>, o: Options) {
    && LastWins(call.strategy, Pick(es, GivenStrategy), o.strategy)
    && LastWins(call.rewriteTtl, Pick(es, GivenTtl), o.rewriteTtl)
    && LastWins(call.subnet, Pick(es, GivenSubnet), o.subnet)
    && (o.disableCache <==> call.disableCache || exists e :: e in es && e.disableCache)
  }

  lemma MergeEdits(call: Options, es: seq<Options>, o: Options, e: Options)
    requires Edited(call, es, o)
    ensures Edited(call, es + [e], Merge(o, e))
  {
    PickOne(call.strategy, es, GivenStrategy, o.strategy, e);
    PickOne(call.rewriteTtl, es, GivenTtl, o.rewriteTtl, e);
    PickOne(call.subnet, es, GivenSubnet, o.subnet, e);
    assert forall x :: x in es + [e] <==> x in es || x == e;
  }

  /** The options a rule sees are those of the call as edited by the route-options rules matched
      since the last rejection: what was matched before it is forgotten. */
  lemma {:induction false} OptionsSinceLastRejection<R>(q: Query<R>, from: nat, i: nat)
    requires from <= i <= |q.rules|
    requires from == 0 || WasRejected(q, from - 1)
    requires forall j :: from <= j < i ==> !WasRejected(q, j)
    ensures Edited(q.options, EditsBetween(q, from, i), CarryAt(q, i).options)
    decreases i - from
  {
    if from < i {
      OptionsSinceLastRejection(q, from, i - 1);
      OptionStep(q, i - 1);
      if EditsAt(q, i - 1) {
        MergeEdits(q.options, EditsBetween(q, from, i - 1), CarryAt(q, i - 1).options, q.rules[i - 1].action.edits);
      } else {
        assert EditsBetween(q, from, i) == EditsBetween(q, from, i - 1);
      }
    }
  }

  lemma OptionStep<R>(q: Query<R>, i: nat)
    requires i < |q.rules| && !WasRejected(q, i)
    ensures CarryAt(q, i + 1).options ==
            if EditsAt(q, i) then Merge(CarryAt(q, i).options, q.rules[i].action.edits) else CarryAt(q, i).options
  {
  }

  /** The options `asked` that a server is asked with when the edits have made `m` of the options of the
      call: a legacy server fills in what is still open, then the router's default strategy, and FakeIP is
      never cached. */
  predicate AskedWith(m: Options, t: Transport, default: Strategy, asked: Options) {
    && asked.strategy == (if m.strategy != AsIs then m.strategy
                          else if t.legacy.Some? && t.legacy.value.0 != AsIs then t.legacy.value.0 else default)
    && asked.subnet == (if m.subnet.None? && t.legacy.Some? then t.legacy.value.1 else m.subnet)
    && asked.rewriteTtl == m.rewriteTtl
    && asked.disableCache == (m.disableCache || t.fakeIP)
  }

  lemma RouteAsksWith(o: Options, edits: Options, t: Transport, default: Strategy)
    ensures AskedWith(Merge(o, edits), t, default, WithDefaultStrategy(MergeRoute(o, edits, t), default))
  {
  }

  /** The first rule behind the last rejection before `i`. */
  function SinceRejection<R>(q: Query<R>, i: nat): (from: nat)
    requires i <= |q.rules|
    ensures from <= i
  {
    if i == 0 || WasRejected(q, i - 1) then i else SinceRejection(q, i - 1)
  }

  lemma {:induction false} SinceRejectionIs<R>(q: Query<R>, i: nat)
    requires i <= |q.rules|
    ensures
      var from := SinceRejection(q, i);
      (from == 0 || WasRejected(q, from - 1)) && forall j :: from <= j < i ==> !WasRejected(q, j)
  {
    if i == 0 || WasRejected(q, i - 1) {
    } else {
      SinceRejectionIs(q, i - 1);
    }
  }

  /** The addresses that a rejection leaves behind. */
  function LeftBehind<R>(q: Query<R>, i: nat): seq<Address>
    requires i < |q.rules| && WasRejected(q, i)
  {
    var c := CarryAt(q, i);
    Outcome(q, i, c, VisitRule(q, i, c)).addresses
  }

  lemma AddressStep<R>(q: Query<R>, i: nat)
    requires i < |q.rules|
    ensures CarryAt(q, i + 1).addresses == if WasRejected(q, i) then LeftBehind(q, i) else CarryAt(q, i).addresses
  {
  }

  /** The addresses a rule meets are those that the last rejection left behind, and those of the call before
      any. */
  lemma {:induction false} AddressesSinceLastRejection<R>(q: Query<R>, from: nat, i: nat)
    requires from <= i <= |q.rules|
    requires from == 0 || WasRejected(q, from - 1)
    requires forall j :: from <= j < i ==> !WasRejected(q, j)
    ensures CarryAt(q, i).addresses == if from == 0 then q.addresses else LeftBehind(q, from - 1)
    decreases i - from
  {
    if i == from {
      if from > 0 {
        AddressStep(q, from - 1);
      }
    } else {
      AddressesSinceLastRejection(q, from, i - 1);
      AddressStep(q, i - 1);
    }
  }

  /** A query that a route rule decides is answered by its server, asked with the options of the call as
      edited by the route-options rules matched since the last rejection and then by the rule itself; a
      query that no rule decides by the default transport, asked with those edits alone. */
  lemma AnswerIsAskedWith<R>(q: Query<R>)
    ensures
      var k := FirstDecisive(q, 0);
      var edits := EditsBetween(q, SinceRejection(q, k), k);
      var addresses := CarryAt(q, k).addresses;
      && (k < |q.rules| && VisitRule(q, k, CarryAt(q, k)).Try? ==>
            var rule := q.rules[k];
            && rule.action.Route? && rule.action.server in q.transports
            && var t := q.transports[rule.action.server];
               exists m, asked ::
                 && Edited(q.options, edits + [rule.action.edits], m) && AskedWith(m, t, q.defaultStrategy, asked)
                 && if rule.addressLimit then q.attempt(k, t, asked, addresses).Settled? && Answer(q) == Answered(q.attempt(k, t, asked, addresses).result)
                    else Answer(q) == Answered(q.ask(k, t, asked, addresses)))
      && (k == |q.rules| && q.default.Some? ==>
            exists m ::
              && Edited(q.options, edits, m)
              && Answer(q) == Answered(q.ask(k, q.default.value, WithDefaultStrategy(m, q.defaultStrategy), addresses)))
  {
    var k := FirstDecisive(q, 0);
    var from, c := SinceRejection(q, k), CarryAt(q, k);
    SinceRejectionIs(q, k);
    OptionsSinceLastRejection(q, from, k);
    assert Edited(q.options, EditsBetween(q, from, k), c.options);
    if k < |q.rules| && VisitRule(q, k, c).Try? {
      DecidedByRoute(q, k, EditsBetween(q, from, k));
    }
  }

  lemma DecidedByRoute<R>(q: Query<R>, k: nat, edits: seq<Options>)
    requires k < |q.rules| && k == FirstDecisive(q, 0) && VisitRule(q, k, CarryAt(q, k)).Try?
    requires Edited(q.options, edits, CarryAt(q, k).options)
    ensures
      var rule, addresses := q.rules[k], CarryAt(q, k).addresses;
      && rule.action.Route? && rule.action.server in q.transports
      && var t := q.transports[rule.action.server];
         exists m, asked ::
           && Edited(q.options, edits + [rule.action.edits], m) && AskedWith(m, t, q.defaultStrategy, asked)
           && if rule.addressLimit then q.attempt(k, t, asked, addresses).Settled? && Answer(q) == Answered(q.attempt(k, t, asked, addresses).result)
              else Answer(q) == Answered(q.ask(k, t, asked, addresses))
  {
    var rule, c := q.rules[k], CarryAt(q, k);
    var t := q.transports[rule.action.server];
    var m, asked := Merge(c.options, rule.action.edits), WithDefaultStrategy(MergeRoute(c.options, rule.action.edits, t), q.defaultStrategy);
    MergeEdits(q.options, edits, c.options, rule.action.edits);
    RouteAsksWith(c.options, rule.action.edits, t, q.defaultStrategy);
    assert Edited(q.options, edits + [rule.action.edits], m) && AskedWith(m, t, q.defaultStrategy, asked);
  }

  /** How many of the rules before `i` had their response rejected. */
  function RejectedBelow<R>(q: Query<R>, i: nat): nat
    requires i <= |q.rules|
  {
    if i == 0 then 0 else RejectedBelow(q, i - 1) + if WasRejected(q, i - 1) then 1 else 0
  }

  /** The number of retries is the number of rules tried in vain. */
  lemma {:induction false} RetriesAreRejections<R>(q: Query<R>, i: nat)
    requires i <= |q.rules|
    ensures CarryAt(q, i).retries == RejectedBelow(q, i)
  {
    if i == 0 {
    } else {
      RetriesAreRejections(q, i - 1);
      RetryStep(q, i - 1);
    }
  }

  lemma {:induction false} SomeRejected<R>(q: Query<R>, i: nat)
    requires i <= |q.rules|
    ensures RejectedBelow(q, i) == 0 <==> forall j :: 0 <= j < i ==> !WasRejected(q, j)
  {
    if i == 0 {
    } else {
      SomeRejected(q, i - 1);
    }
  }

  lemma RetryStep<R>(q: Query<R>, i: nat)
    requires i < |q.rules|
    ensures CarryAt(q, i + 1).retries == CarryAt(q, i).retries + if WasRejected(q, i) then 1 else 0
  {
  }

  // ---------------------------------------------------------------- Exchange

  /** What the client finds: an answer it may hand out unchecked, a rejection known from an
      earlier run, and what the server says. An error may itself wrap a rejection. */
  datatype Found<+M> = Found(unchecked: Option<M>, rejectionKnown: bool, server: ServerReply<M>)

  datatype ServerReply<+M> = Error(isRejection: bool) | Reply(message: M, hasAddresses: bool, addresses: seq<Address>)

  datatype ExchangeResult<+M> = Message(message: M) | Failure

  function Unchecked<M>(f: Found<M>): ExchangeResult<M> {
    if f.unchecked.Some? then Message(f.unchecked.value)
    else if f.server.Error? then Failure
    else Message(f.server.message)
  }

  /** A call of the client with a response check: a response without addresses is rejected
      before the check, and the check leaves the addresses it saw in the metadata. */
  function Checked<M>(f: Found<M>, i: nat, limit: (nat, seq<Address>) -> bool, addresses: seq<Address>): Attempt<ExchangeResult<M>> {
    if f.unchecked.Some? then Settled(Message(f.unchecked.value))
    else if f.rejectionKnown then Rejected(addresses)
    else
      match f.server
      case Error(isRejection) => if isRejection then Rejected(addresses) else Settled(Failure)
      case Reply(m, hasAddresses, found) =>
        if !hasAddresses then Rejected(addresses)
        else if limit(i, found) then Settled(Message(m))
        else Rejected(found)
  }

  // ---------------------------------------------------------------- a transport named by the caller

  /** What `Exchange` makes of the options for a transport that the caller names. */
  function NamedOptions(o: Options, t: Transport, default: Strategy): Options {
    WithDefaultStrategy(
      if t.legacy.None? then o
      else o.(strategy := if o.strategy == AsIs then t.legacy.value.0 else o.strategy,
              subnet := if o.subnet.None? then t.legacy.value.1 else o.subnet), default)
  }

  /** What `Lookup` makes of them: the strategy of a legacy server is not looked at. */
  function NamedLookupOptions(o: Options, t: Transport, default: Strategy): Options {
    var strategy := if t.legacy.Some? && o.strategy == AsIs then default else o.strategy;
    var subnet := if t.legacy.Some? && o.subnet.None? then t.legacy.value.1 else o.subnet;
    WithDefaultStrategy(o.(strategy := strategy, subnet := subnet), default)
  }

  const NO_EDITS := Options(AsIs, false, None, None)

  /** A named server is asked as a route rule without edits would ask it, except that FakeIP answers
      may be cached. */
  lemma NamedAsksLikeARoute(o: Options, t: Transport, default: Strategy)
    ensures WithDefaultStrategy(MergeRoute(o, NO_EDITS, t), default)
            == NamedOptions(o, t, default).(disableCache := o.disableCache || t.fakeIP)
  {
  }

  /** A lookup and an exchange through the same named server ask with the same options if and only if the
      call gives a strategy, or the server is not legacy, or its own strategy would not have counted. */
  lemma NamedLookupDiffersExactlyWhen(o: Options, t: Transport, default: Strategy)
    ensures NamedLookupOptions(o, t, default) == NamedOptions(o, t, default) <==>
            o.strategy != AsIs || t.legacy.None? || t.legacy.value.0 in [AsIs, default]
  {
  }

  // ---------------------------------------------------------------- the whole of Exchange

  datatype Response<+M> = FormatError | Refused | Dropped | Fixed(rule: nat) | FromServer(result: ExchangeResult<M>) | NilDereference

  /** The response that the rules give, read off the declarative search. */
  function RuledResponse<M>(q: Query<ExchangeResult<M>>): Response<M>
    requires q.mode.ExchangeMode?
  {
    match Answer(q)
    case Answered(r) => FromServer(r)
    case NilTransport(_) => NilDereference
    case Ended(k, _) =>
      EndedByRule(q);
      match q.rules[k].action
      case Reject(how) => if how.RejectDefault? then Refused else Dropped
      case _ => Fixed(k)
  }

  lemma EndedByRule<R>(q: Query<R>)
    requires Answer(q).Ended?
    ensures
      var k := Answer(q).rule;
      k < |q.rules| && Decisive(q, k)
      && (q.rules[k].action.Predefined? || (q.rules[k].action.Reject? && !(q.mode.ExchangeMode? && q.rules[k].action.how.RejectReply?)))
  {
  }

  /** What an ending rule answers an exchange with. */
  lemma EndingRuleAnswers<M>(q: Query<ExchangeResult<M>>)
    requires q.mode.ExchangeMode? && Answer(q).Ended?
    ensures
      var k := Answer(q).rule;
      && k == FirstDecisive(q, 0) < |q.rules|
      && match q.rules[k].action
         case Reject(RejectDefault) => RuledResponse(q) == Refused
         case Reject(RejectDrop) => RuledResponse(q) == Dropped
         case Predefined(_, _) => RuledResponse(q) == Fixed(k)
         case _ => false
  {
  }

  /** The query that `Exchange` runs, for what the client would find at each rule. */
  function ExchangeQuery<M>(base: Query<ExchangeResult<M>>, find: (nat, Transport, Options) -> Found<M>, limit: (nat, seq<Address>) -> bool)
    : Query<ExchangeResult<M>>
  {
    base.(ask := (i: nat, t: Transport, o: Options, a: seq<Address>) => Unchecked(find(i, t, o)),
          attempt := (i: nat, t: Transport, o: Options, a: seq<Address>) => Checked(find(i, t, o), i, limit, a))
  }

  /** What the router has at hand before it looks at the rules. */
  datatype Request<+M> = Request(questions: nat, cached: Option<M>, named: Option<Transport>)

  /** The cache comes first, then a named transport, whose response is not checked, then the rules. */
  method Exchange<M>(
    base: Query<ExchangeResult<M>>, find: (nat, Transport, Options) -> Found<M>, limit: (nat, seq<Address>) -> bool,
    request: Request<M>) returns (r: Response<M>, attempts: nat)
    requires base.mode.ExchangeMode?
    ensures attempts <= |base.rules| + 1
    ensures
      if request.questions != 1 then r == FormatError && attempts == 0
      else if request.cached.Some? then r == FromServer(Message(request.cached.value)) && attempts == 0
      else if request.named.Some? then
        var t := request.named.value;
        attempts == 1 && r == FromServer(Unchecked(find(|base.rules|, t, NamedOptions(base.options, t, base.defaultStrategy))))
      else r == RuledResponse(ExchangeQuery(base, find, limit))
  {
    if request.questions != 1 {
      return FormatError, 0;
    }
    if request.cached.Some? {
      return FromServer(Message(request.cached.value)), 0;
    }
    if request.named.Some? {
      var t := request.named.value;
      var options := base.options;
      if t.legacy.Some? {
        if options.strategy == AsIs {
          options := options.(strategy := t.legacy.value.0);
        }
        if options.subnet.None? {
          options := options.(subnet := t.legacy.value.1);
        }
      }
      if options.strategy == AsIs {
        options := options.(strategy := base.defaultStrategy);
      }
      return FromServer(Unchecked(find(|base.rules|, t, options))), 1;
    }
    var q := ExchangeQuery(base, find, limit);
    var f;
    f, attempts := Resolve(q);
    match f
    case Answered(result) => r := FromServer(result);
    case NilTransport(_) => r := NilDereference;
    case Ended(k, _) =>
      EndedByRule(q);
      match q.rules[k].action
      case Reject(how) => r := if how.RejectDefault? then Refused else Dropped;
      case _ => r := Fixed(k);
  }

  // ---------------------------------------------------------------- Lookup

  /** `failed` is a non-nil error beside the addresses. */
  datatype LookupResult = LookupResult(addresses: seq<Address>, failed: bool)

  /** What the client's lookup gives and leaves in the metadata; a failure carries no addresses. */
  datatype Looked = Looked(result: LookupResult, leftBehind: seq<Address>)

  type Look = (nat, bool, Transport, Options, seq<Address>) -> Looked

  /** A lookup is retried on every error of a rule with an address limit. */
  function LookupQuery(base: Query<LookupResult>, look: Look): Query<LookupResult> {
    base.(ask := (i: nat, t: Transport, o: Options, a: seq<Address>) => look(i, false, t, o, a).result,
          attempt := (i: nat, t: Transport, o: Options, a: seq<Address>) =>
            var l := look(i, true, t, o, a);
            if l.result.failed then Rejected(l.leftBehind) else Settled(l.result))
  }

  /** A lookup without addresses is a failure. */
  function Printed(l: LookupResult): LookupResult {
    LookupResult(l.addresses, l.failed || l.addresses == [])
  }

  /** What the rules give, read off the declarative search; `None` is the nil dereference. */
  function RuledLookup(q: Query<LookupResult>): Option<LookupResult> {
    match Answer(q)
    case Answered(l) => Some(Printed(l))
    case NilTransport(_) => None
    case Ended(k, retries) =>
      EndedByRule(q);
      match q.rules[k].action
      case Predefined(rcode, addresses) =>
        Some(if rcode != 0 then LookupResult([], true) else Printed(LookupResult(addresses, retries > 0)))
      case _ => Some(LookupResult([], true))
  }

  /** The shared cache comes first, then a named transport, then the rules. */
  method Lookup(base: Query<LookupResult>, look: Look, cached: Option<seq<Address>>, named: Option<Transport>)
    returns (r: Option<LookupResult>, attempts: nat)
    requires base.mode.LookupMode?
    ensures attempts <= |base.rules| + 1
    ensures
      if cached.Some? then r == Some(LookupResult(cached.value, cached.value == [])) && attempts == 0
      else if named.Some? then
        var o := NamedLookupOptions(base.options, named.value, base.defaultStrategy);
        attempts == 1 && r == Some(Printed(look(|base.rules|, false, named.value, o, base.addresses).result))
      else r == RuledLookup(LookupQuery(base, look))
  {
    if cached.Some? {
      if |cached.value| == 0 {
        return Some(LookupResult([], true)), 0;
      }
      return Some(LookupResult(cached.value, false)), 0;
    }
    var err := false;
    var addresses: seq<Address> := [];
    if named.Some? {
      var l := LookupNamed(base, look, named.value);
      addresses, err := l.addresses, l.failed;
      attempts := 1;
    } else {
      var q := LookupQuery(base, look);
      var f;
      f, attempts := Resolve(q);
      match f {
        case Answered(l) =>
          addresses, err := l.addresses, l.failed;
        case NilTransport(_) =>
          return None, attempts;
        case Ended(k, retries) =>
          EndedByRule(q);
          err := retries > 0;
          match q.rules[k].action {
            case Predefined(rcode, fixed) =>
              if rcode != 0 {
                err := true;
              } else {
                addresses := addresses + fixed;
                assert addresses == fixed;
              }
            case _ =>
              return Some(LookupResult([], true)), attempts;
          }
      }
    }
    if !err && |addresses| == 0 {
      err := true;
    }
    r := Some(LookupResult(addresses, err));
  }

  method LookupNamed(base: Query<LookupResult>, look: Look, t: Transport) returns (l: LookupResult)
    ensures l == look(|base.rules|, false, t, NamedLookupOptions(base.options, t, base.defaultStrategy), base.addresses).result
  {
    var options := base.options;
    if t.legacy.Some? {
      if options.strategy == AsIs {
        options := options.(strategy := base.defaultStrategy);
      }
      if options.subnet.None? {
        options := options.(subnet := t.legacy.value.1);
      }
    }
    if options.strategy == AsIs {
      options := options.(strategy := base.defaultStrategy);
    }
    l := look(|base.rules|, false, t, options, base.addresses).result;
  }

  /** A predefined answer with addresses comes back without an error if and only if no earlier
      rule was tried in vain: `Lookup` does not clear the error of the failed attempt. */
  lemma PredefinedAnswerKeepsOldError(q: Query<LookupResult>)
    requires
      Answer(q).Ended? && Answer(q).rule < |q.rules| &&
      var a := q.rules[Answer(q).rule].action;
      a.Predefined? && a.rcode == 0 && a.addresses != []
    ensures
      RuledLookup(q).Some? && !RuledLookup(q).value.failed <==>
      forall j :: 0 <= j < Answer(q).rule ==> !WasRejected(q, j)
  {
    var k := FirstDecisive(q, 0);
    RetriesAreRejections(q, k);
    SomeRejected(q, k);
  }

  /** What an ending rule answers a lookup with when it has no addresses to give. */
  lemma EndingRuleFailsLookup(q: Query<LookupResult>)
    requires q.mode.LookupMode? && Answer(q).Ended?
    ensures
      var k := Answer(q).rule;
      && k == FirstDecisive(q, 0) < |q.rules|
      && match q.rules[k].action
         case Reject(_) => RuledLookup(q) == Some(LookupResult([], true))
         case Predefined(rcode, addresses) =>
           && (rcode != 0 || addresses == [] ==> RuledLookup(q) == Some(LookupResult([], true)))
           && (rcode == 0 && addresses != [] ==> RuledLookup(q).Some? && RuledLookup(q).value.addresses == addresses)
         case _ => false
  {
  }

  // ---------------------------------------------------------------- at work

  /** A rule that edits the options, a rule whose response is always rejected, and a last one. */
  function ThreeRules<R>(base: Query<R>, server: string, last: Rule): Query<R> {
    base.(rules := [Rule(RouteOptions(NO_EDITS.(disableCache := true)), false), Rule(Route(server, NO_EDITS), true), last],
          matches := (_: nat, _: seq<Address>) => true,
          attempt := (_: nat, _: Transport, _: Options, a: seq<Address>) => Rejected(a))
  }

  lemma ThreeRulesRun<R>(base: Query<R>, t: Transport, last: Rule)
    requires base.mode.AddressQuery() && t.tag in base.transports && base.transports[t.tag] == t && !t.fakeIP
    ensures
      var q := ThreeRules(base, t.tag, last);
      && !Decisive(q, 0) && !Decisive(q, 1) && !WasRejected(q, 0) && WasRejected(q, 1)
      && CarryAt(q, 1) == Carry(base.options.(disableCache := true), base.addresses, 0)
      && CarryAt(q, 2) == Carry(base.options, base.addresses, 1)
  {
    var q := ThreeRules(base, t.tag, last);
    assert CarryAt(q, 0) == Carry(base.options, base.addresses, 0);
    assert VisitRule(q, 0, CarryAt(q, 0)) == Edit(NO_EDITS.(disableCache := true));
    assert VisitRule(q, 1, CarryAt(q, 1)).Try?;
  }

  /** The cache that the first rule turns off is on again when the last rule asks its server. */
  lemma OptionsAreForgotten<R>(base: Query<R>, t: Transport)
    requires base.mode.AddressQuery() && t.tag in base.transports && base.transports[t.tag] == t && !t.fakeIP
    requires t.legacy.None? && !base.options.disableCache
    ensures
      var q := ThreeRules(base, t.tag, Rule(Route(t.tag, NO_EDITS), false));
      var asked := WithDefaultStrategy(base.options, base.defaultStrategy);
      Answer(q) == Answered(q.ask(2, t, asked, base.addresses)) && !asked.disableCache
  {
    var q := ThreeRules(base, t.tag, Rule(Route(t.tag, NO_EDITS), false));
    ThreeRulesRun(base, t, q.rules[2]);
    assert MergeRoute(base.options, NO_EDITS, t) == base.options;
    assert VisitRule(q, 2, CarryAt(q, 2)) == Try(t, base.options);
    FirstDecisiveSkips(q, 0, 2);
  }

  /** A predefined answer behind a rejected one comes back with its addresses and an error. */
  lemma OldErrorIsKept(base: Query<LookupResult>, t: Transport, addresses: seq<Address>)
    requires base.mode.LookupMode? && t.tag in base.transports && base.transports[t.tag] == t && !t.fakeIP
    ensures
      var q := ThreeRules(base, t.tag, Rule(Predefined(0, addresses), false));
      RuledLookup(q) == Some(LookupResult(addresses, true))
  {
    var q := ThreeRules(base, t.tag, Rule(Predefined(0, addresses), false));
    ThreeRulesRun(base, t, q.rules[2]);
    assert VisitRule(q, 2, CarryAt(q, 2)) == End;
    FirstDecisiveSkips(q, 0, 2);
  }
}
