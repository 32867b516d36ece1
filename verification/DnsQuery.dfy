/**
  Where the DNS router meets the DNS client: what the rule loop takes the client to find at a
  rule is what the client's exchange gives, and a rejection there is a rejection here.
*/
module DnsQuery {
  import opened Lists
  import opened DnsCommon
  import opened DnsMessage
  import DnsClient
  import DnsRules

  /** What the client finds, read off its cache and the call alone. */
  ghost function Find(client: DnsClient.Client, q: DnsClient.Question, simple: bool, options: DnsClient.Options, call: DnsClient.Call)
    : DnsRules.Found<Message>
    requires client.Valid(call.now)
    reads client
  {
    var useCache := simple && !client.disableCache && !options.disableCache;
    var hit := DnsClient.Loaded(client.noExpire, client.cache, DnsClient.KeyFor(client.independent, q, call.transport), call.now);
    DnsRules.Found(
      if DnsClient.StrategyRejects(q, options.strategy) then Some(Message(RCODE_SUCCESS, [], [], []))
      else if useCache then hit
      else None,
      useCache && !call.loopback && call.rejectionKnown,
      ServerReply(q, options, call))
  }

  /** What the server says: a query that would loop back to its own transport is an error. */
  function ServerReply(q: DnsClient.Question, options: DnsClient.Options, call: DnsClient.Call): DnsRules.ServerReply<Message> {
    if call.loopback then DnsRules.Error(false)
    else if call.reply.TransportError? then DnsRules.Error(call.reply.wrapsRejection)
    else
      var m := DnsClient.MessageOf(call.reply);
      var n := DnsClient.Shown(m, q, options.strategy);
      DnsRules.Reply(Normalized(n, ChosenTtl(n, options.rewriteTtl)), m.rcode == RCODE_SUCCESS && m.answer != [], Addresses(m))
  }

  /** The router's view of an outcome. */
  function ResultOf(o: DnsClient.Outcome): DnsRules.ExchangeResult<Message> {
    match o
    case Fixed(rcode) => DnsRules.ExchangeResult.Message(Message(rcode, [], [], []))
    case Cached(m) => DnsRules.ExchangeResult.Message(m)
    case Fresh(m) => DnsRules.ExchangeResult.Message(m)
    case _ => DnsRules.Failure
  }

  /** With a check: a rejection, or an error that wraps one, sends the router on to the next rule, and the
      addresses that the check looked at stay behind. */
  function AttemptOf(o: DnsClient.Outcome, addresses: seq<Address>): DnsRules.Attempt<DnsRules.ExchangeResult<Message>> {
    match o
    case RejectedCached => DnsRules.Rejected(addresses)
    case Failed(true) => DnsRules.Rejected(addresses)
    case Rejected(m) => DnsRules.Rejected(if m.rcode == RCODE_SUCCESS && m.answer != [] then Addresses(m) else addresses)
    case _ => DnsRules.Settled(ResultOf(o))
  }

  /** A call without a response check. */
  method Ask(client: DnsClient.Client, q: DnsClient.Question, simple: bool, options: DnsClient.Options, call: DnsClient.Call)
    returns (r: DnsRules.ExchangeResult<Message>)
    requires client.Valid(call.now) && call.skew < DnsClient.SECOND && call.checker.None?
    modifies client
    ensures client.Valid(call.now)
    ensures r == old(DnsRules.Unchecked(Find(client, q, simple, options, call)))
  {
    var o, asked := client.Exchange(Some(q), simple, options, call);
    r := ResultOf(o);
  }

  /** A call with the check of rule `i`. */
  method AskChecked(
    client: DnsClient.Client, q: DnsClient.Question, simple: bool, options: DnsClient.Options, call: DnsClient.Call,
    i: nat, limit: (nat, seq<Address>) -> bool, addresses: seq<Address>)
    returns (a: DnsRules.Attempt<DnsRules.ExchangeResult<Message>>)
    requires client.Valid(call.now) && call.skew < DnsClient.SECOND
    requires call.checker.Some? && forall s :: call.checker.value(s) == limit(i, s)
    modifies client
    ensures client.Valid(call.now)
    ensures a == old(DnsRules.Checked(Find(client, q, simple, options, call), i, limit, addresses))
  {
    var o, asked := client.Exchange(Some(q), simple, options, call);
    a := AttemptOf(o, addresses);
  }
}
