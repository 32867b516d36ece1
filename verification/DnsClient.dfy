/**
  The caching DNS client of dns/client.go.

  Time is in nanoseconds and given by the caller. The LRU store is a map from keys to
  entries that may lose any entry at any time (`Evict`); `skew` is what the store adds
  to the expiry it was asked for, always less than one second.
*/
module DnsClient {
  import opened Lists
  import opened DnsCommon
  import opened DnsMessage

  const SECOND := 1_000_000_000
  const TWO32 := 0x1_0000_0000
  const TWO53 := 0x20_0000_0000_0000
  const TWO63 := 0x8000_0000_0000_0000

  const TYPE_A := 1
  const TYPE_AAAA := 28
  const TYPE_HTTPS := 65
  const RCODE_FORMAT_ERROR := 1

  datatype Question = Question(name: string, qtype: nat)

  /** The transport tag is part of the key only with the independent cache. */
  datatype Key = Key(question: Question, transport: Option<string>)

  /** `ttl` is the lifetime in seconds the entry was stored with. */
  datatype Entry = Entry(message: Message, ttl: uint32, expireAt: int)

  datatype Options = Options(strategy: Strategy, lookupStrategy: Strategy, disableCache: bool, rewriteTtl: Option<uint32>)

  /** What the transport does when it is asked; an error may itself wrap a rejection. */
  datatype Reply = TransportError(wrapsRejection: bool) | RcodeReply(rcode: nat) | Response(message: Message)

  datatype Outcome =
    | Fixed(rcode: nat)
    | Cached(message: Message)
    | Loopback
    | RejectedCached
    | Failed(wrapsRejection: bool)
    | Rejected(message: Message)
    | Fresh(message: Message)

  /** Everything about one call that the client does not decide. */
  datatype Call = Call(
    now: int, transport: string, loopback: bool, rejectionKnown: bool, reply: Reply, skew: int,
    checker: Option<seq<Address> -> bool>)

  // Machine arithmetic: uint32(n) and int64(n) of Go.

  function Uint32(n: int): uint32 { n % TWO32 }

  function Int64(n: int): int { (n + TWO63) % (2 * TWO63) - TWO63 }

  /** `time.Second * time.Duration(ttl)`. */
  function Lifetime(ttl: uint32): int { Int64(SECOND * ttl) }

  lemma LifetimeIsExact(ttl: uint32)
    ensures Lifetime(ttl) == SECOND * ttl
  {
    assert 0 <= SECOND * ttl < TWO63;
  }

  function MessageOf(r: Reply): Message
    requires !r.TransportError?
  {
    if r.Response? then r.message else Message(r.rcode, [], [], [])
  }

  predicate FiltersHints(q: Question, s: Strategy) {
    q.qtype == TYPE_HTTPS && (s.IPv4Only? || s.IPv6Only?)
  }

  /** The response as it goes on after the check: without the hints an only-strategy rules out. */
  function Shown(m: Message, q: Question, s: Strategy): Message {
    if FiltersHints(q, s) then Presented(m, s) else m
  }

  /** Only answers to HTTPS questions under an only-strategy change, and of these only the hints: each record
      keeps its TTL and exactly the addresses of the family that is asked for. */
  lemma ShownHints(m: Message, q: Question, s: Strategy, i: nat)
    requires i < |m.answer|
    ensures q.qtype != 65 || !(s == IPv4Only || s == IPv6Only) ==> Shown(m, q, s) == m
    ensures |Shown(m, q, s).answer| == |m.answer| && Shown(m, q, s) == m.(answer := Shown(m, q, s).answer)
    ensures Shown(m, q, s).answer[i].ttl == m.answer[i].ttl
    ensures !m.answer[i].data.HTTPS? ==> Shown(m, q, s).answer[i] == m.answer[i]
    ensures q.qtype == 65 && m.answer[i].data.HTTPS? && (s == IPv4Only || s == IPv6Only) ==>
              RecordAddresses(Shown(m, q, s).answer[i]) == HintsOf(m.answer[i].data.values, s == IPv6Only)
  {
    if m.answer[i].data.HTTPS? {
      HintsOfOneFamily(m.answer[i].data.values);
    }
  }

  // ---------------------------------------------------------------- seconds as a float

  /** The largest power of two up to `n`. */
  function Binade(n: nat): (p: nat)
    requires n > 0
    ensures 1 <= p <= n < 2 * p
  {
    if n == 1 then 1 else 2 * Binade(n / 2)
  }

  /** `Duration.Seconds` adds whole seconds and their fraction as 64-bit floats, whose spacing from
      `2^e` seconds on is `2^(e - 52)`: the sum rounds up to the next whole second when less than half
      of that is missing. */
  predicate RoundsUp(d: nat) {
    d / SECOND > 0 && (SECOND - d % SECOND) * TWO53 < Binade(d / SECOND) * SECOND
  }

  /** `int(d.Seconds())`. */
  function WholeSeconds(d: nat): nat {
    d / SECOND + if RoundsUp(d) then 1 else 0
  }

  function Pow2(k: nat): nat {
    if k == 0 then 1 else 2 * Pow2(k - 1)
  }

  lemma {:induction false} BinadeBelow(n: nat, k: nat)
    requires 0 < n < Pow2(k + 1)
    ensures Binade(n) <= Pow2(k)
  {
    if k == 0 || n == 1 {
      PowerIsPositive(k);
      assert k == 0 ==> Pow2(1) == 2 * Pow2(0) == 2;
    } else {
      BinadeBelow(n / 2, k - 1);
    }
  }

  lemma {:induction false} PowerIsPositive(k: nat)
    ensures Pow2(k) >= 1
  {
    if k == 0 {
    } else {
      PowerIsPositive(k - 1);
    }
  }

  lemma {:induction false} BinadeOfPower(k: nat)
    ensures Pow2(k) >= 1 && Binade(Pow2(k)) == Pow2(k)
  {
    if k == 0 {
    } else {
      BinadeOfPower(k - 1);
      assert Pow2(k) / 2 == Pow2(k - 1);
    }
  }

  lemma PowerOf24()
    ensures Pow2(24) == 0x100_0000 && Pow2(23) == 0x80_0000
  {
    assert Pow2(4) == 16 by { assert Pow2(2) == 4; }
    assert Pow2(8) == 256 by { assert Pow2(6) == 64; }
    assert Pow2(12) == 4096 by { assert Pow2(10) == 1024; }
    assert Pow2(16) == 65536 by { assert Pow2(14) == 16384; }
    assert Pow2(20) == 0x10_0000 by { assert Pow2(18) == 0x4_0000; }
    assert Pow2(22) == 0x40_0000;
  }

  /** The float is exact below `2^24` seconds, and never more than half a microsecond early. */
  lemma RoundsUpOnlyLate(d: nat)
    requires d < TWO32 * SECOND
    ensures RoundsUp(d) ==> d >= 0x100_0000 * SECOND && SECOND - d % SECOND < 500
  {
    var n := d / SECOND;
    if RoundsUp(d) && n < 0x100_0000 {
      PowerOf24();
      BinadeBelow(n, 23);
    }
  }

  /** It does round up there: one nanosecond before `2^24 + 1` seconds. */
  lemma RoundsUpSomewhere()
    ensures
      var d := 0x100_0000 * SECOND + SECOND - 1;
      RoundsUp(d) && WholeSeconds(d) == 0x100_0001
  {
    var d := 0x100_0000 * SECOND + SECOND - 1;
    PowerOf24();
    BinadeOfPower(24);
    assert d / SECOND == 0x100_0000 && d % SECOND == SECOND - 1;
    assert Binade(0x100_0000) == 0x100_0000;
  }

  // ---------------------------------------------------------------- entries

  function KeyFor(independent: bool, q: Question, transport: string): Key {
    Key(q, if independent then Some(transport) else None)
  }

  /** The shared cache keeps one answer per question, the independent one per question and transport. */
  lemma KeysTellApart(q: Question, s: string, p: Question, t: string)
    ensures KeyFor(true, q, s) == KeyFor(true, p, t) <==> q == p && s == t
    ensures KeyFor(false, q, s) == KeyFor(false, p, t) <==> q == p
  {
  }

  /** An entry is sound at `now` when all its records carry its TTL, which is positive, and it
      does not live longer than that from `now` on, up to the skew. */
  predicate Sound(e: Entry, now: int) {
    e.ttl > 0 && e.message == Normalized(e.message, e.ttl) && e.expireAt - now < (e.ttl + 1) * SECOND
  }

  type Cache = map<Key, Entry>

  /** The entry that a call stores. */
  function EntryFor(n: Message, t: uint32, call: Call): Entry {
    Entry(Normalized(n, t), t, call.now + t * SECOND + call.skew)
  }

  predicate SoundCache(cache: Cache, now: int) {
    forall k :: k in cache ==> Sound(cache[k], now)
  }

  /** What a load at `now` gives: a copy whose TTLs are the seconds that are left. */
  function Loaded(noExpire: bool, cache: Cache, k: Key, now: int): Option<Message>
    requires SoundCache(cache, now)
  {
    if k !in cache then None
    else if noExpire then Some(cache[k].message)
    else if now > cache[k].expireAt then None
    else Some(Normalized(cache[k].message, SecondsLeft(cache[k], now)))
  }

  /** The TTL that is served: the whole seconds left, unless the float rounds up, and then one more. */
  function SecondsLeft(e: Entry, now: int): (n: uint32)
    requires Sound(e, now) && now <= e.expireAt
    ensures
      var d := e.expireAt - now;
      if RoundsUp(d) then n == Uint32(d / SECOND + 1)
      else n <= e.ttl && n * SECOND <= d < (n + 1) * SECOND
  {
    Uint32(WholeSeconds(e.expireAt - now))
  }

  /** What is served exceeds the stored TTL if and only if the float rounds up in the second that the
      store added on top of it, which needs a positive skew and a TTL from `2^24` on. */
  lemma ServedTtlExceedsExactlyWhen(e: Entry, now: int)
    requires Sound(e, now) && now <= e.expireAt
    ensures
      var d := e.expireAt - now;
      && (SecondsLeft(e, now) > e.ttl <==> RoundsUp(d) && d / SECOND == e.ttl && e.ttl + 1 < TWO32)
      && (SecondsLeft(e, now) > e.ttl ==> d > e.ttl * SECOND && e.ttl >= 0x100_0000)
  {
    var d := e.expireAt - now;
    RoundsUpOnlyLate(d);
    assert d == d / SECOND * SECOND + d % SECOND && d / SECOND <= e.ttl;
    if RoundsUp(d) {
      assert SecondsLeft(e, now) == if d / SECOND + 1 == TWO32 then 0 else d / SECOND + 1;
    }
  }

  /** The cache after a load: an expired entry is dropped. */
  function AfterLoad(noExpire: bool, cache: Cache, k: Key, now: int): Cache {
    if k in cache && !noExpire && now > cache[k].expireAt then cache - {k} else cache
  }

  function SortAddresses(a4: seq<Address>, a6: seq<Address>, s: Strategy): seq<Address> {
    if s.PreferIPv6? then a6 + a4 else a4 + a6
  }

  /** `PreferIPv6` puts all IPv6 addresses first, every other strategy all IPv4 addresses; within a family
      the order stays. */
  lemma PreferredFamilyFirst(a4: seq<Address>, a6: seq<Address>, s: Strategy, i: nat)
    requires i < |a4| + |a6|
    ensures |SortAddresses(a4, a6, s)| == |a4| + |a6|
    ensures s == PreferIPv6 ==> SortAddresses(a4, a6, s)[i] == if i < |a6| then a6[i] else a4[i - |a6|]
    ensures s != PreferIPv6 ==> SortAddresses(a4, a6, s)[i] == if i < |a4| then a4[i] else a6[i - |a4|]
  {
  }

  /** Which questions each strategy answers with nothing: those for addresses of the other family, and no
      question of another kind. */
  lemma RejectedQuestions(name: string, qtype: nat, s: Strategy)
    ensures StrategyRejects(Question(name, 28), IPv4Only) && !StrategyRejects(Question(name, 1), IPv4Only)
    ensures StrategyRejects(Question(name, 1), IPv6Only) && !StrategyRejects(Question(name, 28), IPv6Only)
    ensures (qtype != 1 && qtype != 28) || s in [AsIs, PreferIPv4, PreferIPv6] ==> !StrategyRejects(Question(name, qtype), s)
  {
  }

  /** Successes and name errors may be cached, nothing else. */
  lemma CacheableCodes(rcode: nat)
    ensures Cacheable(rcode) <==> rcode == 0 || rcode == 3
  {
  }

  predicate StrategyRejects(q: Question, s: Strategy) {
    (q.qtype == TYPE_A && s.IPv6Only?) || (q.qtype == TYPE_AAAA && s.IPv4Only?)
  }

  predicate Cacheable(rcode: nat) {
    rcode == RCODE_SUCCESS || rcode == RCODE_NAME_ERROR
  }

  /** The response checker is asked only about successful answers with records. */
  predicate IsRejected(checker: Option<seq<Address> -> bool>, m: Message) {
    checker.Some? && (m.rcode != RCODE_SUCCESS || m.answer == [] || !checker.value(Addresses(m)))
  }

  /** Without a checker nothing is rejected; with one, only a success with answers whose addresses it accepts
      is not. */
  lemma RejectionLaw(accepts: seq<Address> -> bool, m: Message)
    ensures !IsRejected(None, m)
    ensures !IsRejected(Some(accepts), m) <==> m.rcode == 0 && m.answer != [] && accepts(AddressesOf(m.answer))
  {
  }

  method CheckResponse(checker: Option<seq<Address> -> bool>, m: Message) returns (rejected: bool)
    ensures rejected == IsRejected(checker, m)
  {
    if checker.None? {
      return false;
    }
    if m.rcode != RCODE_SUCCESS || |m.answer| == 0 {
      return true;
    }
    var addresses := MessageToAddresses(m);
    return !checker.value(addresses);
  }

  class Client {
    const disableCache: bool
    const noExpire: bool
    const independent: bool
    var cache: Cache

    ghost predicate Valid(now: int)
      reads this
    {
      SoundCache(cache, now) && (disableCache ==> cache == map[])
    }

    constructor (disableCache: bool, noExpire: bool, independent: bool)
      ensures this.disableCache == disableCache && this.noExpire == noExpire && this.independent == independent
      ensures cache == map[] && forall now :: Valid(now)
    {
      this.disableCache, this.noExpire, this.independent := disableCache, noExpire, independent;
      cache := map[];
    }

    /** The store forgets an entry. */
    method Evict(k: Key, now: int)
      requires Valid(now)
      modifies this
      ensures Valid(now) && cache == old(cache) - {k}
    {
      cache := cache - {k};
    }

    method ClearCache()
      modifies this
      ensures cache == map[] && forall now :: Valid(now)
    {
      cache := map[];
    }

    /** Storing keeps the cache sound and skips a zero TTL. */
    method StoreCache(now: int, k: Key, m: Message, ttl: uint32, skew: int)
      requires Valid(now) && !disableCache && skew < SECOND && m == Normalized(m, ttl)
      modifies this
      ensures Valid(now)
      ensures cache == if ttl == 0 then old(cache) else old(cache)[k := Entry(m, ttl, now + ttl * SECOND + skew)]
    {
      if ttl == 0 {
        return;
      }
      LifetimeIsExact(ttl);
      cache := cache[k := Entry(m, ttl, now + Lifetime(ttl) + skew)];
    }

    /** Ageing in 32-bit arithmetic brings every record to the seconds left; it wraps around only
        where these do not fit. */
    method Age(rs: seq<Record>, ttl: uint32, left: nat) returns (out: seq<Record>)
      requires rs == WithTtl(rs, ttl)
      ensures out == WithTtl(rs, Uint32(left))
    {
      var duration := Uint32(ttl - left);
      AgeOne(ttl, left);
      out := rs;
      for i := 0 to |rs|
        invariant |out| == |rs|
        invariant forall j :: 0 <= j < |rs| ==> out[j] == if j < i then rs[j].(ttl := Uint32(left)) else rs[j]
      {
        out := out[i := out[i].(ttl := Uint32(out[i].ttl - duration))];
      }
    }

    method LoadResponse(now: int, k: Key) returns (r: Option<Message>, left: nat)
      requires Valid(now)
      modifies this
      ensures Valid(now)
      ensures cache == AfterLoad(noExpire, old(cache), k, now)
      ensures r == Loaded(noExpire, old(cache), k, now)
      ensures r.Some? && !noExpire ==> left == WholeSeconds(old(cache)[k].expireAt - now)
    {
      left := 0;
      if k !in cache {
        return None, 0;
      }
      var e := cache[k];
      if noExpire {
        return Some(e.message), 0;
      }
      if now > e.expireAt {
        cache := cache - {k};
        return None, 0;
      }
      assert Sound(e, now);
      var origin := ScanTtl(e.message);
      left := WholeSeconds(e.expireAt - now);
      OriginIsTtl(e, origin);
      var m := e.message;
      if origin > 0 {
        var answer := Age(m.answer, origin, left);
        var ns := Age(m.ns, origin, left);
        var extra := Age(m.extra, origin, left);
        m := Message(m.rcode, answer, ns, extra);
      } else {
        m := SetAllTtl(m, Uint32(left));
      }
      r := Some(m);
    }

    /** One exchange: cache, rejection store, transport, check, TTL, store. */
    method Exchange(question: Option<Question>, simple: bool, options: Options, call: Call) returns (o: Outcome, asked: bool)
      requires Valid(call.now) && call.skew < SECOND
      modifies this
      ensures Valid(call.now)
      // no question, or a question that the strategy rules out
      ensures question.None? ==> o == Fixed(RCODE_FORMAT_ERROR) && !asked && cache == old(cache)
      ensures question.Some? && StrategyRejects(question.value, options.strategy) ==>
                o == Fixed(RCODE_SUCCESS) && !asked && cache == old(cache)
      // a cached answer ends the call
      ensures
        question.Some? && !StrategyRejects(question.value, options.strategy) ==>
          var k := KeyFor(independent, question.value, call.transport);
          var useCache := simple && !disableCache && !options.disableCache;
          var hit := Loaded(noExpire, old(cache), k, call.now);
          var rest := if useCache then AfterLoad(noExpire, old(cache), k, call.now) else old(cache);
          if useCache && hit.Some? then o == Cached(hit.value) && !asked && cache == old(cache)
          else if call.loopback then o == Loopback && !asked && cache == rest
          else if useCache && call.checker.Some? && call.rejectionKnown then o == RejectedCached && !asked && cache == rest
          else if call.reply.TransportError? then o == Failed(call.reply.wrapsRejection) && asked && cache == rest
          else
            var m := MessageOf(call.reply);
            var n := Shown(m, question.value, options.strategy);
            var t := ChosenTtl(n, options.rewriteTtl);
            && asked
            && if IsRejected(call.checker, m) then o == Rejected(m) && cache == rest
               else
                 && o == Fresh(Normalized(n, t))
                 && cache == if useCache && Cacheable(m.rcode) && t > 0
                             then rest[k := EntryFor(n, t, call)] else rest
    {
      asked := false;
      if question.None? {
        return Fixed(RCODE_FORMAT_ERROR), false;
      }
      var q := question.value;
      if (q.qtype == TYPE_A && options.strategy.IPv6Only?) || (q.qtype == TYPE_AAAA && options.strategy.IPv4Only?) {
        return Fixed(RCODE_SUCCESS), false;
      }
      var k := KeyFor(independent, q, call.transport);
      var noCache := !simple || disableCache || options.disableCache;
      if !noCache {
        var response, _ := LoadResponse(call.now, k);
        if response.Some? {
          return Cached(response.value), false;
        }
      }
      if call.loopback {
        return Loopback, false;
      }
      if !noCache && call.checker.Some? && call.rejectionKnown {
        return RejectedCached, false;
      }
      asked := true;
      if call.reply.TransportError? {
        return Failed(call.reply.wrapsRejection), true;
      }
      o := Finish(k, noCache, options, call);
    }

    /** The part of the exchange after the transport has answered. */
    method Finish(k: Key, noCache0: bool, options: Options, call: Call) returns (o: Outcome)
      requires Valid(call.now) && call.skew < SECOND && !call.reply.TransportError? && (disableCache ==> noCache0)
      modifies this
      ensures Valid(call.now)
      ensures
        var m := MessageOf(call.reply);
        var n := Shown(m, k.question, options.strategy);
        var t := ChosenTtl(n, options.rewriteTtl);
        if IsRejected(call.checker, m) then o == Rejected(m) && cache == old(cache)
        else
          && o == Fresh(Normalized(n, t))
          && cache == if !noCache0 && Cacheable(m.rcode) && t > 0 then old(cache)[k := EntryFor(n, t, call)] else old(cache)
    {
      var m := MessageOf(call.reply);
      var noCache := noCache0 || !Cacheable(m.rcode);
      var rejected := CheckResponse(call.checker, m);
      if rejected {
        return Rejected(m);
      }
      var n, t := Rewrite(m, k.question, options);
      if !noCache {
        StoreCache(call.now, k, n, t, call.skew);
      }
      o := Fresh(n);
    }

    /** Filter the hints, choose the TTL and write it into every record. */
    method Rewrite(m: Message, q: Question, options: Options) returns (n: Message, t: uint32)
      ensures t == ChosenTtl(Shown(m, q, options.strategy), options.rewriteTtl)
      ensures n == Normalized(Shown(m, q, options.strategy), t) == Normalized(n, t)
    {
      var shown := m;
      if FiltersHints(q, options.strategy) {
        shown := FilterHints(m, options.strategy);
      }
      t := ChooseTtl(shown, options.rewriteTtl);
      ChosenTtlIsUnique(shown, options.rewriteTtl, t);
      n := SetAllTtl(shown, t);
      NormalizedTwice(shown, t, t);
    }

    method SetAllTtl(m: Message, t: uint32) returns (n: Message)
      ensures n == Normalized(m, t)
    {
      var answer := SetTtl(m.answer, t);
      var ns := SetTtl(m.ns, t);
      var extra := SetTtl(m.extra, t);
      n := Message(m.rcode, answer, ns, extra);
    }

    /** One operation: an entry goes only when it is dropped or has expired, and a new one is that of the
        exchange just made. */
    method Perform(op: Operation)
      requires Valid(op.Time()) && (op.ExchangeOp? ==> op.call.skew < SECOND)
      modifies this
      ensures Valid(op.Time())
      ensures forall k :: k in old(cache) && !op.Drops(k) && (noExpire || op.Time() <= old(cache)[k].expireAt) ==>
                k in cache && cache[k] == old(cache)[k]
      ensures forall k :: k in cache ==> (k in old(cache) && cache[k] == old(cache)[k]) || StoredBy(op, disableCache, independent, k, cache[k])
    {
      match op
      case ExchangeOp(question, simple, options, call) =>
        var o, asked := Exchange(question, simple, options, call);
      case LoadOp(key, now) =>
        var m, left := LoadResponse(now, key);
      case DropOp(key, now) => Evict(key, now);
      case ClearOp(now) => ClearCache();
    }

    /** Any operations: an entry stays until it is dropped or expires, and every other entry is that of one
        of the exchanges. */
    method PerformAll(ops: seq<Operation>, ghost from: int, ghost to: int)
      requires Valid(from) && InTime(ops, from, to)
      modifies this
      ensures Valid(to)
      ensures forall k :: k in old(cache) && (noExpire || to <= old(cache)[k].expireAt) && !Dropped(ops, k) ==>
                k in cache && cache[k] == old(cache)[k]
      ensures forall k :: k in cache ==> (k in old(cache) && cache[k] == old(cache)[k]) || StoredByOne(ops, disableCache, independent, k, cache[k])
    {
      ghost var time := from;
      for i := 0 to |ops|
        invariant Valid(time) && from <= time <= to
        invariant forall j :: i <= j < |ops| ==> time <= ops[j].Time()
        invariant forall k :: k in old(cache) && (noExpire || to <= old(cache)[k].expireAt) && !Dropped(ops, k) ==>
                    k in cache && cache[k] == old(cache)[k]
        invariant forall k :: k in cache ==> (k in old(cache) && cache[k] == old(cache)[k]) || StoredByOne(ops, disableCache, independent, k, cache[k])
      {
        SoundLater(cache, time, ops[i].Time());
        Perform(ops[i]);
        time := ops[i].Time();
      }
      SoundLater(cache, time, to);
    }

    /** An exchange, then any operations, then a load before the entry expires: unless the store dropped it,
        every record is served with the seconds left, and without a TTL rewrite none outlives the original. */
    method ExchangeThenLoad(q: Question, simple: bool, options: Options, call: Call, ops: seq<Operation>, now: int)
      returns (first: Outcome, served: Option<Message>)
      requires Valid(call.now) && call.skew < SECOND && InTime(ops, call.now, now)
      modifies this
      ensures Valid(now)
      ensures first.Fresh? ==> !call.reply.TransportError?
      ensures
        var k := KeyFor(independent, q, call.transport);
        first.Fresh? && simple && !disableCache && !options.disableCache && !noExpire && !Dropped(ops, k) ==>
          var n := Shown(MessageOf(call.reply), q, options.strategy);
          var t := ChosenTtl(n, options.rewriteTtl);
          Cacheable(n.rcode) && t > 0 && now <= call.now + t * SECOND + call.skew ==> Serves(n, options.rewriteTtl, call, now, served)
    {
      var asked, left;
      first, asked := Exchange(Some(q), simple, options, call);
      PerformAll(ops, call.now, now);
      var k := KeyFor(independent, q, call.transport);
      ghost var held := cache;
      served, left := LoadResponse(now, k);
      ghost var n := if first.Fresh? then Shown(MessageOf(call.reply), q, options.strategy) else Message(0, [], [], []);
      ghost var t := ChosenTtl(n, options.rewriteTtl);
      if first.Fresh? && simple && !disableCache && !options.disableCache && !noExpire && !Dropped(ops, k)
         && Cacheable(n.rcode) && t > 0 && now <= call.now + t * SECOND + call.skew {
        ServedRecordsDoNotOutliveTheOriginal(n, options.rewriteTtl, call, held, k, now);
      }
    }

    /** From an empty cache, whatever was done in the meantime: a load that is served is served from the
        answer to one of the exchanges, which has not expired, with the seconds left in every record. */
    method RunThenLoad(ops: seq<Operation>, k: Key, from: int, now: int) returns (served: Option<Message>)
      requires cache == map[] && InTime(ops, from, now) && !noExpire
      modifies this
      ensures Valid(now)
      ensures served.Some? ==> exists i :: 0 <= i < |ops| && ServedFrom(ops[i], disableCache, independent, k, now, served)
    {
      PerformAll(ops, from, now);
      ghost var held := cache;
      var left;
      served, left := LoadResponse(now, k);
      if served.Some? {
        ghost var i :| 0 <= i < |ops| && StoredBy(ops[i], disableCache, independent, k, held[k]);
        StoredIsServed(ops[i], disableCache, independent, held, k, now);
      }
    }

    /** With the independent cache, an exchange through a transport that no exchange of the question has used
        so far is not answered from the cache. */
    method RunThenExchange(ops: seq<Operation>, from: int, q: Question, simple: bool, options: Options, call: Call)
      returns (o: Outcome, asked: bool)
      requires cache == map[] && independent && InTime(ops, from, call.now) && call.skew < SECOND
      requires forall i :: 0 <= i < |ops| && ops[i].ExchangeOp? && ops[i].question == Some(q) ==> ops[i].call.transport != call.transport
      modifies this
      ensures Valid(call.now) && !o.Cached?
    {
      PerformAll(ops, from, call.now);
      o, asked := Exchange(Some(q), simple, options, call);
    }

    /** With the shared cache, the answer to an exchange serves exchanges of the question through every
        transport until it expires or is dropped, and the transport is not asked. */
    method ExchangeTwice(q: Question, options: Options, call: Call, ops: seq<Operation>, options2: Options, call2: Call)
      returns (first: Outcome, second: Outcome, asked: bool)
      requires Valid(call.now) && call.skew < SECOND && call2.skew < SECOND && InTime(ops, call.now, call2.now)
      requires !independent && !disableCache && !options.disableCache && !options2.disableCache && !noExpire
      modifies this
      ensures Valid(call2.now)
      ensures first.Fresh? ==> !call.reply.TransportError?
      ensures
        first.Fresh? && !Dropped(ops, Key(q, None)) && !StrategyRejects(q, options2.strategy) ==>
          var n := Shown(MessageOf(call.reply), q, options.strategy);
          var t := ChosenTtl(n, options.rewriteTtl);
          Cacheable(n.rcode) && t > 0 && call2.now <= call.now + t * SECOND + call.skew ==> second.Cached? && !asked
    {
      var asked1;
      first, asked1 := Exchange(Some(q), true, options, call);
      PerformAll(ops, call.now, call2.now);
      second, asked := Exchange(Some(q), true, options2, call2);
    }

    method QuestionCache(now: int, k: Key) returns (r: Option<Answer>)
      requires Valid(now)
      modifies this
      ensures Valid(now)
      ensures cache == AfterLoad(noExpire, old(cache), k, now)
      ensures
        var hit := Loaded(noExpire, old(cache), k, now);
        r == if hit.None? then None else Some(AnswerOf(hit.value))
    {
      var response, _ := LoadResponse(now, k);
      if response.None? {
        return None;
      }
      if response.value.rcode != RCODE_SUCCESS {
        return Some(Err(response.value.rcode));
      }
      var addresses := MessageToAddresses(response.value);
      r := Some(Addrs(addresses));
    }

    ghost function AnswerTo(q: Question, simple: bool, options: Options, call: Call): Answer
      requires Valid(call.now)
      reads this
    {
      AnswerWith(HitFor(q, options, call), !disableCache && simple, q, options, call)
    }

    /** The transport is asked. */
    ghost predicate Asks(q: Question, simple: bool, options: Options, call: Call)
      requires Valid(call.now)
      reads this
    {
      AsksWith(HitFor(q, options, call), !disableCache && simple, q, options, call)
    }

    /** What a lookup finds in the cache, if it may use it. */
    ghost function HitFor(q: Question, options: Options, call: Call): Option<Message>
      requires Valid(call.now)
      reads this
    {
      if disableCache || options.disableCache then None
      else Loaded(noExpire, cache, KeyFor(independent, q, call.transport), call.now)
    }

    /** Only an answer that is not in the cache goes on to the exchange, and entries of other
        questions stay as they are. */
    method LookupToExchange(q: Question, simple: bool, options: Options, call: Call) returns (r: Answer, asked: bool)
      requires Valid(call.now) && call.skew < SECOND
      modifies this
      ensures Valid(call.now)
      ensures r == old(AnswerTo(q, simple, options, call)) && asked == old(Asks(q, simple, options, call))
      ensures SameElsewhere(old(cache), cache, q)
      ensures
        var hit := Loaded(noExpire, old(cache), KeyFor(independent, q, call.transport), call.now);
        !disableCache && !options.disableCache && hit.Some? ==> cache == old(cache)
    {
      if !(disableCache || options.disableCache) {
        var cached := QuestionCache(call.now, KeyFor(independent, q, call.transport));
        if cached.Some? {
          return cached.value, false;
        }
      }
      var o;
      o, asked := Exchange(Some(q), simple, options, call);
      match o
      case Fixed(rcode) => r := AnswerOf(Message(rcode, [], [], []));
      case Cached(m) => r := AnswerOf(m);
      case Fresh(m) =>
        TtlDoesNotMoveAnswers(Shown(MessageOf(call.reply), q, options.strategy));
        r := AnswerOf(m);
      case _ => r := Broken;
    }

    method LookupCache(now: int, name: string, strategy: Strategy) returns (addresses: seq<Address>, hit: bool)
      requires Valid(now)
      modifies this
      ensures Valid(now)
      ensures hit <==> !disableCache && !independent && Hits(noExpire, old(cache), name, strategy, now)
      ensures hit ==> addresses == CachedAddresses(noExpire, old(cache), name, strategy, now)
      ensures hit ==> cache == old(cache)
      ensures Purged(old(cache), cache, now)
    {
      addresses, hit := [], false;
      if disableCache || independent {
        return;
      }
      var k4 := Key(Question(name, TYPE_A), None);
      var k6 := Key(Question(name, TYPE_AAAA), None);
      if strategy.IPv4Only? || strategy.IPv6Only? {
        var cached := QuestionCache(now, if strategy.IPv4Only? then k4 else k6);
        if cached.Some? {
          return cached.value.Addresses(), true;
        }
        return;
      }
      var response4, _ := LoadResponse(now, k4);
      if response4.None? {
        return;
      }
      var response6, _ := LoadResponse(now, k6);
      if response6.None? {
        return;
      }
      var a4 := MessageToAddresses(response4.value);
      var a6 := MessageToAddresses(response6.value);
      return SortAddresses(a4, a6, strategy), true;
    }

    /** A lookup that the cache alone can answer asks nobody and gets the cached addresses. */
    lemma CacheAnswers(name: string, simple: bool, options: Options, call4: Call, call6: Call)
      requires Valid(call4.now) && call6.now == call4.now && !disableCache && !independent && !options.disableCache
      requires Hits(noExpire, cache, name, EffectiveStrategy(options), call4.now)
      ensures LookupAddresses(name, simple, options, call4, call6)
              == CachedAddresses(noExpire, cache, name, EffectiveStrategy(options), call4.now)
      ensures !LookupAsks(name, simple, options, call4, call6)
    {
    }

    /** The answer to a lookup joins those to the families the strategy asks for. */
    ghost function LookupAddresses(name: string, simple: bool, options: Options, call4: Call, call6: Call): seq<Address>
      requires Valid(call4.now) && Valid(call6.now)
      reads this
    {
      var a4 := AnswerTo(Question(name, TYPE_A), simple, options, call4).Addresses();
      var a6 := AnswerTo(Question(name, TYPE_AAAA), simple, options, call6).Addresses();
      match EffectiveStrategy(options)
      case IPv4Only => a4
      case IPv6Only => a6
      case strategy => SortAddresses(a4, a6, strategy)
    }

    /** With both families, one that fails is no error as long as the other has addresses. */
    ghost predicate LookupFails(name: string, simple: bool, options: Options, call4: Call, call6: Call)
      requires Valid(call4.now) && Valid(call6.now)
      reads this
    {
      var r4 := AnswerTo(Question(name, TYPE_A), simple, options, call4);
      var r6 := AnswerTo(Question(name, TYPE_AAAA), simple, options, call6);
      match EffectiveStrategy(options)
      case IPv4Only => !r4.Addrs?
      case IPv6Only => !r6.Addrs?
      case _ => (!r4.Addrs? || !r6.Addrs?) && r4.Addresses() == [] && r6.Addresses() == []
    }

    /** A lookup that has addresses is no failure, and one that fails has none; where every family that is
        asked for has an answer, even an empty one, it does not fail. */
    lemma FailureMeansNoAddresses(name: string, simple: bool, options: Options, call4: Call, call6: Call)
      requires Valid(call4.now) && Valid(call6.now)
      ensures LookupFails(name, simple, options, call4, call6) ==> LookupAddresses(name, simple, options, call4, call6) == []
      ensures
        var s := EffectiveStrategy(options);
        && (s == IPv6Only || AnswerTo(Question(name, 1), simple, options, call4).Addrs?)
        && (s == IPv4Only || AnswerTo(Question(name, 28), simple, options, call6).Addrs?) ==>
          !LookupFails(name, simple, options, call4, call6)
    {
    }

    ghost predicate LookupAsks(name: string, simple: bool, options: Options, call4: Call, call6: Call)
      requires Valid(call4.now) && Valid(call6.now)
      reads this
    {
      var s := EffectiveStrategy(options);
      || (!s.IPv6Only? && Asks(Question(name, TYPE_A), simple, options, call4))
      || (!s.IPv4Only? && Asks(Question(name, TYPE_AAAA), simple, options, call6))
    }

    /** Both families, in either order: what the first does to the cache is no concern of the second. */
    method LookupBoth(name: string, simple: bool, options: Options, call4: Call, call6: Call, sixFirst: bool) returns (r4: Answer, r6: Answer, asked: bool)
      requires Valid(call4.now) && call6.now == call4.now && call4.skew < SECOND && call6.skew < SECOND
      modifies this
      ensures Valid(call4.now)
      ensures r4 == old(AnswerTo(Question(name, TYPE_A), simple, options, call4))
      ensures r6 == old(AnswerTo(Question(name, TYPE_AAAA), simple, options, call6))
      ensures asked == (old(Asks(Question(name, TYPE_A), simple, options, call4))
                        || old(Asks(Question(name, TYPE_AAAA), simple, options, call6)))
      ensures !disableCache && !independent && !options.disableCache && old(BothCached(name, call4.now)) ==> cache == old(cache)
    {
      var asked4, asked6;
      var q4, q6 := Question(name, TYPE_A), Question(name, TYPE_AAAA);
      if sixFirst {
        r6, asked6 := LookupToExchange(q6, simple, options, call6);
        OtherLoadsStay(noExpire, old(cache), cache, q6, KeyFor(independent, q4, call4.transport), call4.now);
        r4, asked4 := LookupToExchange(q4, simple, options, call4);
      } else {
        r4, asked4 := LookupToExchange(q4, simple, options, call4);
        OtherLoadsStay(noExpire, old(cache), cache, q4, KeyFor(independent, q6, call6.transport), call6.now);
        r6, asked6 := LookupToExchange(q6, simple, options, call6);
      }
      asked := asked4 || asked6;
    }

    ghost predicate BothCached(name: string, now: int)
      requires Valid(now)
      reads this
    {
      Family(noExpire, cache, name, TYPE_A, now).Some? && Family(noExpire, cache, name, TYPE_AAAA, now).Some?
    }

    /** `call4` and `call6` carry what the transport would say about each family, and `sixFirst` which of
        the two concurrent queries gets to the cache first. When the cache
        alone could answer `LookupCache`, the lookup gives the same addresses and asks nobody. */
    method Lookup(name: string, simple: bool, options: Options, call4: Call, call6: Call, sixFirst: bool) returns (addresses: seq<Address>, failed: bool, asked: bool)
      requires Valid(call4.now) && call6.now == call4.now && call4.skew < SECOND && call6.skew < SECOND
      modifies this
      ensures Valid(call4.now)
      ensures addresses == old(LookupAddresses(name, simple, options, call4, call6))
      ensures failed == old(LookupFails(name, simple, options, call4, call6))
      ensures asked == old(LookupAsks(name, simple, options, call4, call6))
      ensures
        !disableCache && !independent && !options.disableCache
        && Hits(noExpire, old(cache), name, EffectiveStrategy(options), call4.now) ==>
          && addresses == CachedAddresses(noExpire, old(cache), name, EffectiveStrategy(options), call4.now)
          && !asked && cache == old(cache)
    {
      var strategy := if options.lookupStrategy != AsIs then options.lookupStrategy else options.strategy;
      if !disableCache && !independent && !options.disableCache && Hits(noExpire, cache, name, strategy, call4.now) {
        CacheAnswers(name, simple, options, call4, call6);
      }
      if strategy.IPv4Only? {
        var r, c := LookupToExchange(Question(name, TYPE_A), simple, options, call4);
        return r.Addresses(), !r.Addrs?, c;
      } else if strategy.IPv6Only? {
        var r, c := LookupToExchange(Question(name, TYPE_AAAA), simple, options, call6);
        return r.Addresses(), !r.Addrs?, c;
      }
      var r4, r6, c := LookupBoth(name, simple, options, call4, call6, sixFirst);
      if |r4.Addresses()| == 0 && |r6.Addresses()| == 0 {
        return [], !r4.Addrs? || !r6.Addrs?, c;
      }
      return SortAddresses(r4.Addresses(), r6.Addresses(), strategy), false, c;
    }
  }

  /** An operation of the client, or the store dropping an entry. Looking up is made of these. */
  datatype Operation =
    | ExchangeOp(question: Option<Question>, simple: bool, options: Options, call: Call)
    | LoadOp(key: Key, now: int)
    | DropOp(key: Key, now: int)
    | ClearOp(now: int)
  {
    function Time(): int { if ExchangeOp? then call.now else now }

    predicate Drops(k: Key) { ClearOp? || (DropOp? && key == k) }

    /** What an exchange has to give out and to store, up to the TTL. */
    function Answer(): Message
      requires ExchangeOp? && question.Some? && !call.reply.TransportError?
    {
      Shown(MessageOf(call.reply), question.value, options.strategy)
    }
  }

  /** Operations in the order of time. */
  predicate InTime(ops: seq<Operation>, from: int, to: int) {
    && from <= to
    && (forall i :: 0 <= i < |ops| ==> from <= ops[i].Time() <= to)
    && (forall i :: 0 <= i < |ops| && ops[i].ExchangeOp? ==> ops[i].call.skew < SECOND)
    && (forall i, j :: 0 <= i < j < |ops| ==> ops[i].Time() <= ops[j].Time())
  }

  predicate Dropped(ops: seq<Operation>, k: Key) {
    exists i :: 0 <= i < |ops| && ops[i].Drops(k)
  }

  /** The entry under `k` is what this exchange stored: it got an answer that was not rejected, may be cached
      and lives at all. */
  predicate StoredBy(op: Operation, disableCache: bool, independent: bool, k: Key, e: Entry) {
    && op.ExchangeOp? && op.question.Some? && op.simple && !disableCache && !op.options.disableCache
    && !op.call.reply.TransportError? && !IsRejected(op.call.checker, MessageOf(op.call.reply))
    && k == KeyFor(independent, op.question.value, op.call.transport)
    && var t := ChosenTtl(op.Answer(), op.options.rewriteTtl);
       t > 0 && Cacheable(op.Answer().rcode) && e == EntryFor(op.Answer(), t, op.call)
  }

  predicate StoredByOne(ops: seq<Operation>, disableCache: bool, independent: bool, k: Key, e: Entry) {
    exists i :: 0 <= i < |ops| && StoredBy(ops[i], disableCache, independent, k, e)
  }

  /** `served` is the answer `n` of a call with the seconds left, and without a TTL rewrite it outlives nothing. */
  predicate Serves(n: Message, rewrite: Option<uint32>, call: Call, now: int, served: Option<Message>) {
    var left := call.now + ChosenTtl(n, rewrite) * SECOND + call.skew - now;
    0 <= left && ServesWith(n, rewrite, call, now, left, served)
  }

  /** The same when `left` nanoseconds are left. */
  predicate ServesWith(n: Message, rewrite: Option<uint32>, call: Call, now: int, left: nat, served: Option<Message>) {
    var shown := Uint32(left / SECOND + if RoundsUp(left) then 1 else 0);
    && served == Some(Normalized(n, shown))
    && (rewrite.None? ==> OutlivesNothing(n, call.now, now, shown, call.skew + if RoundsUp(left) then 500 else 0))
  }

  predicate ServedFrom(op: Operation, disableCache: bool, independent: bool, k: Key, now: int, served: Option<Message>) {
    && op.ExchangeOp? && op.question.Some? && !op.call.reply.TransportError? && op.Time() <= now
    && StoredBy(op, disableCache, independent, k, EntryFor(op.Answer(), ChosenTtl(op.Answer(), op.options.rewriteTtl), op.call))
    && Serves(op.Answer(), op.options.rewriteTtl, op.call, now, served)
  }

  /** What a question is answered with: from the cache if it can be, whatever the strategy and the
      transport would say, and otherwise from an exchange. */
  function AnswerWith(hit: Option<Message>, withCache: bool, q: Question, options: Options, call: Call): Answer {
    if hit.Some? then AnswerOf(hit.value)
    else if StrategyRejects(q, options.strategy) then Addrs([])
    else if !AsksWith(hit, withCache, q, options, call) || call.reply.TransportError? then Broken
    else if IsRejected(call.checker, MessageOf(call.reply)) then Broken
    else AnswerOf(Shown(MessageOf(call.reply), q, options.strategy))
  }

  predicate AsksWith(hit: Option<Message>, withCache: bool, q: Question, options: Options, call: Call) {
    && hit.None? && !StrategyRejects(q, options.strategy) && !call.loopback
    && !(withCache && !options.disableCache && call.checker.Some? && call.rejectionKnown)
  }

  /** A change of the entries of one question does not change what is loaded for another. */
  lemma OtherLoadsStay(noExpire: bool, a: Cache, b: Cache, changed: Question, k: Key, now: int)
    requires SoundCache(a, now) && SoundCache(b, now) && SameElsewhere(a, b, changed) && k.question != changed
    ensures Loaded(noExpire, a, k, now) == Loaded(noExpire, b, k, now)
  {
  }

  /** The addresses of one family, an error code of the server, or no usable response. */
  datatype Answer = Addrs(list: seq<Address>) | Err(rcode: nat) | Broken {
    function Addresses(): seq<Address> { if Addrs? then list else [] }
  }

  function AnswerOf(m: Message): Answer {
    if m.rcode != RCODE_SUCCESS then Err(m.rcode) else Addrs(AddressesOf(m.answer))
  }

  /** The lookup strategy comes before the query strategy, and only a success is an answer with addresses. */
  lemma LookupTerms(o: Options, m: Message)
    ensures o.lookupStrategy != AsIs ==> EffectiveStrategy(o) == o.lookupStrategy
    ensures o.lookupStrategy == AsIs ==> EffectiveStrategy(o) == o.strategy
    ensures AnswerOf(m).Addresses() == Addresses(m) && (AnswerOf(m).Addrs? <==> m.rcode == 0)
  {
  }

  /** Without expiry an entry is served as it was stored at any time. */
  lemma NoExpiryServesAsStored(cache: Cache, k: Key, now: int)
    requires SoundCache(cache, now)
    ensures Loaded(true, cache, k, now) == if k in cache then Some(cache[k].message) else None
  {
  }

  lemma TtlDoesNotMoveAnswers(m: Message)
    ensures forall t: uint32 :: AnswerOf(Normalized(m, t)) == AnswerOf(m)
  {
    forall t: uint32 ensures AnswerOf(Normalized(m, t)) == AnswerOf(m) {
      AddressesIgnoreTtl(m.answer, t);
    }
  }

  /** The two caches agree on all questions but one. */
  predicate SameElsewhere(a: Cache, b: Cache, q: Question) {
    && (forall k :: k in a && k.question != q ==> k in b && b[k] == a[k])
    && (forall k :: k in b && k.question != q ==> k in a)
  }

  /** Only entries that have expired are gone. */
  predicate Purged(a: Cache, b: Cache, now: int) {
    && (forall k :: k in b ==> k in a && b[k] == a[k])
    && (forall k :: k in a && k !in b ==> now > a[k].expireAt)
  }

  function EffectiveStrategy(o: Options): Strategy {
    if o.lookupStrategy != AsIs then o.lookupStrategy else o.strategy
  }

  function Family(noExpire: bool, cache: Cache, name: string, qtype: nat, now: int): Option<Message>
    requires SoundCache(cache, now)
  {
    Loaded(noExpire, cache, Key(Question(name, qtype), None), now)
  }

  /** The shared cache alone can answer a lookup: it holds each family the strategy asks for. */
  predicate Hits(noExpire: bool, cache: Cache, name: string, s: Strategy, now: int)
    requires SoundCache(cache, now)
  {
    && (!s.IPv6Only? ==> Family(noExpire, cache, name, TYPE_A, now).Some?)
    && (!s.IPv4Only? ==> Family(noExpire, cache, name, TYPE_AAAA, now).Some?)
  }

  function CachedAddresses(noExpire: bool, cache: Cache, name: string, s: Strategy, now: int): seq<Address>
    requires SoundCache(cache, now) && Hits(noExpire, cache, name, s, now)
  {
    if s.IPv4Only? then Addresses(Family(noExpire, cache, name, TYPE_A, now).value)
    else if s.IPv6Only? then Addresses(Family(noExpire, cache, name, TYPE_AAAA, now).value)
    else SortAddresses(Addresses(Family(noExpire, cache, name, TYPE_A, now).value),
                       Addresses(Family(noExpire, cache, name, TYPE_AAAA, now).value), s)
  }

  lemma AgeOne(ttl: uint32, left: nat)
    ensures Uint32(ttl - Uint32(ttl - left)) == Uint32(left)
  {
    var q := (ttl - left) / TWO32;
    assert ttl - Uint32(ttl - left) == left + q * TWO32;
    AddWholes(left, q);
  }

  lemma AddWholes(n: int, q: int)
    ensures (n + q * TWO32) % TWO32 == n % TWO32
  {
  }

  lemma OriginIsTtl(e: Entry, origin: uint32)
    requires e.ttl > 0 && e.message == Normalized(e.message, e.ttl) && LeastPositive(Records(e.message), origin)
    ensures origin == 0 || origin == e.ttl
    ensures origin == 0 ==> Records(e.message) == []
  {
    var rs := Records(e.message);
    forall r | r in rs ensures r.ttl == e.ttl {
      var i :| 0 <= i < |rs| && rs[i] == r;
      if i < |e.message.answer| {
        assert r == e.message.answer[i];
      } else if i < |e.message.answer| + |e.message.ns| {
        assert r == e.message.ns[i - |e.message.answer|];
      } else {
        assert r == e.message.extra[i - |e.message.answer| - |e.message.ns|];
      }
    }
    if rs != [] {
      assert rs[0] in rs;
    }
  }

  /** Time passing keeps the cache sound. */
  lemma SoundLater(cache: Cache, now: int, later: int)
    requires SoundCache(cache, now) && now <= later
    ensures SoundCache(cache, later)
  {
    forall k | k in cache ensures Sound(cache[k], later) {
      assert Sound(cache[k], now);
    }
  }

  /** Nothing that is served at `now` with TTL `left` claims to live past a positive TTL of the
      original, or, for a negative answer, past a positive RFC 2308 TTL; `slack` is what the store and
      the float add. */
  predicate OutlivesNothing(n: Message, fetched: int, now: int, left: uint32, slack: int) {
    var negative := n.answer == [] && NegativeTtl(n.ns).Some? && NegativeTtl(n.ns).value > 0;
    && (negative ==> now + left * SECOND <= fetched + NegativeTtl(n.ns).value * SECOND + slack)
    && (!negative ==> forall r :: r in Records(n) && r.ttl > 0 ==> now + left * SECOND <= fetched + r.ttl * SECOND + slack)
  }

  lemma EntryServes(n: Message, rewrite: Option<uint32>, call: Call, e: Entry, now: int)
    requires
      var t := ChosenTtl(n, rewrite);
      t > 0 && e == EntryFor(n, t, call) && Sound(e, now) && now <= e.expireAt
    ensures ServesWith(n, rewrite, call, now, e.expireAt - now, Some(Normalized(n, SecondsLeft(e, now))))
  {
    var shown := SecondsLeft(e, now);
    ShownSeconds(e, now);
    LeftFits(e, now);
    if rewrite.None? {
      WithinTheOriginal(n, ChosenTtl(n, None), call.now, now, shown, call.skew + if RoundsUp(e.expireAt - now) then 500 else 0);
    }
    ServesShown(n, rewrite, call, now, e.expireAt - now, shown);
  }

  /** A stored entry, served from any cache that still holds it at any time before it expires: every
      record carries the seconds left, and without a TTL rewrite none outlives the original. */
  lemma ServedRecordsDoNotOutliveTheOriginal(n: Message, rewrite: Option<uint32>, call: Call, cache: Cache, k: Key, now: int)
    requires SoundCache(cache, now) && k in cache && cache[k] == EntryFor(n, ChosenTtl(n, rewrite), call) && now <= cache[k].expireAt
    ensures Serves(n, rewrite, call, now, Loaded(false, cache, k, now))
  {
    assert Sound(cache[k], now);
    EntryServes(n, rewrite, call, cache[k], now);
    NormalizedTwice(n, ChosenTtl(n, rewrite), SecondsLeft(cache[k], now));
  }

  /** What does not live past the chosen TTL does not live past the original. */
  lemma WithinTheOriginal(n: Message, t: uint32, fetched: int, now: int, left: uint32, slack: int)
    requires IsChosenTtl(n, None, t) && t > 0 && now + left * SECOND <= fetched + t * SECOND + slack
    ensures OutlivesNothing(n, fetched, now, left, slack)
  {
    forall r | r in Records(n) && r.ttl > 0 && !(n.answer == [] && NegativeTtl(n.ns).Some? && NegativeTtl(n.ns).value > 0)
      ensures now + left * SECOND <= fetched + r.ttl * SECOND + slack
    {
      assert t <= r.ttl;
    }
  }

  lemma ShownSeconds(e: Entry, now: int)
    requires Sound(e, now) && now <= e.expireAt
    ensures
      var left := e.expireAt - now;
      SecondsLeft(e, now) == Uint32(left / SECOND + if RoundsUp(left) then 1 else 0)
  {
  }

  lemma ServesShown(n: Message, rewrite: Option<uint32>, call: Call, now: int, left: nat, shown: uint32)
    requires shown == Uint32(left / SECOND + if RoundsUp(left) then 1 else 0)
    requires rewrite.None? ==> OutlivesNothing(n, call.now, now, shown, call.skew + if RoundsUp(left) then 500 else 0)
    ensures ServesWith(n, rewrite, call, now, left, Some(Normalized(n, shown)))
  {
  }

  /** A load before expiry of what an exchange stored is served from it. */
  lemma StoredIsServed(op: Operation, disableCache: bool, independent: bool, cache: Cache, k: Key, now: int)
    requires SoundCache(cache, now) && k in cache && now <= cache[k].expireAt
    requires StoredBy(op, disableCache, independent, k, cache[k]) && op.Time() <= now && op.call.skew < SECOND
    ensures ServedFrom(op, disableCache, independent, k, now, Loaded(false, cache, k, now))
  {
    ServedRecordsDoNotOutliveTheOriginal(op.Answer(), op.options.rewriteTtl, op.call, cache, k, now);
  }

  lemma LeftFits(e: Entry, now: int)
    requires Sound(e, now) && now <= e.expireAt
    ensures now + SecondsLeft(e, now) * SECOND <= e.expireAt + if RoundsUp(e.expireAt - now) then 500 else 0
  {
    var d := e.expireAt - now;
    RoundsUpOnlyLate(d);
    assert d == d / SECOND * SECOND + d % SECOND;
  }
}
