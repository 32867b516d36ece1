/**
  DNS messages as dns/client.go reads and rewrites them, and the choice of the one TTL
  that the client writes into every record and uses as the cache lifetime.
*/
module DnsMessage {
  import opened Lists
  import opened DnsCommon

  type uint32 = n: nat | n < 0x1_0000_0000

  /** A parameter of an HTTPS record: hints for one address family, or anything else. */
  datatype SvcbValue = Hint4(addresses: seq<Address>) | Hint6(addresses: seq<Address>) | OtherValue

  datatype Data =
    | A(address: Address)
    | AAAA(address: Address)
    | HTTPS(values: seq<SvcbValue>)
    | SOA(minimum: uint32)
    | Other

  datatype Record = Record(ttl: uint32, data: Data)

  /** A response without an OPT record. */
  datatype Message = Message(rcode: nat, answer: seq<Record>, ns: seq<Record>, extra: seq<Record>)

  const RCODE_SUCCESS := 0
  const RCODE_NAME_ERROR := 3

  function Records(m: Message): seq<Record> {
    m.answer + m.ns + m.extra
  }

  // ---------------------------------------------------------------- addresses

  function HintAddresses(vs: seq<SvcbValue>): seq<Address> {
    if vs == [] then []
    else
      var n := |vs| - 1;
      HintAddresses(vs[..n]) + if vs[n].OtherValue? then [] else vs[n].addresses
  }

  function RecordAddresses(r: Record): seq<Address> {
    match r.data
    case A(a) => [a]
    case AAAA(a) => [a]
    case HTTPS(values) => HintAddresses(values)
    case _ => []
  }

  function AddressesOf(rs: seq<Record>): seq<Address> {
    if rs == [] then [] else AddressesOf(rs[..|rs| - 1]) + RecordAddresses(rs[|rs| - 1])
  }

  function Addresses(m: Message): seq<Address> {
    if m.rcode != RCODE_SUCCESS then [] else AddressesOf(m.answer)
  }

  method MessageToAddresses(m: Message) returns (addresses: seq<Address>)
    ensures addresses == Addresses(m)
  {
    if m.rcode != RCODE_SUCCESS {
      return [];
    }
    addresses := [];
    for i := 0 to |m.answer|
      invariant addresses == AddressesOf(m.answer[..i])
    {
      AddressesStep(m.answer, i);
      addresses := addresses + RecordAddresses(m.answer[i]);
    }
    assert m.answer[..|m.answer|] == m.answer;
  }

  lemma AddressesStep(rs: seq<Record>, i: nat)
    requires i < |rs|
    ensures AddressesOf(rs[..i + 1]) == AddressesOf(rs[..i]) + RecordAddresses(rs[i])
  {
    assert rs[..i + 1][..i] == rs[..i];
  }

  /** The addresses of two lists of records one after the other are those of the first and then those of
      the second. */
  lemma {:induction false} AddressesInOrder(a: seq<Record>, b: seq<Record>)
    ensures AddressesOf(a + b) == AddressesOf(a) + AddressesOf(b)
    decreases |b|
  {
    if b == [] {
      assert a + b == a;
    } else {
      var n := |b| - 1;
      assert (a + b)[..|a + b| - 1] == a + b[..n] && (a + b)[|a + b| - 1] == b[n];
      AddressesInOrder(a, b[..n]);
      Regroup(AddressesOf(a), AddressesOf(b[..n]), RecordAddresses(b[n]));
    }
  }

  lemma {:induction false} HintsInOrder(a: seq<SvcbValue>, b: seq<SvcbValue>)
    ensures HintAddresses(a + b) == HintAddresses(a) + HintAddresses(b)
    decreases |b|
  {
    if b == [] {
      assert a + b == a;
    } else {
      var n := |b| - 1;
      assert (a + b)[..|a + b| - 1] == a + b[..n] && (a + b)[|a + b| - 1] == b[n];
      HintsInOrder(a, b[..n]);
      Regroup(HintAddresses(a), HintAddresses(b[..n]), if b[n].OtherValue? then [] else b[n].addresses);
    }
  }

  /** What one record gives, whatever its TTL: with the two lemmas above this says what any answer gives. */
  lemma OneRecord(ttl: uint32, x: Address, hints: seq<Address>, minimum: uint32)
    ensures AddressesOf([Record(ttl, A(x))]) == [x] && AddressesOf([Record(ttl, AAAA(x))]) == [x]
    ensures AddressesOf([Record(ttl, HTTPS([Hint4(hints)]))]) == hints == AddressesOf([Record(ttl, HTTPS([Hint6(hints)]))])
    ensures AddressesOf([Record(ttl, HTTPS([OtherValue]))]) == [] == AddressesOf([Record(ttl, SOA(minimum))])
    ensures AddressesOf([Record(ttl, Other)]) == []
  {
    forall v: SvcbValue ensures HintAddresses([v]) == if v.OtherValue? then [] else v.addresses {
      assert [v][..0] == [];
    }
    forall r: Record ensures AddressesOf([r]) == RecordAddresses(r) {
      assert [r][..0] == [];
    }
  }

  /** A response other than a success has no addresses, whatever its records say. */
  lemma OnlySuccessHasAddresses(m: Message)
    ensures Addresses(m) == if m.rcode == 0 then AddressesOf(m.answer) else []
  {
  }

  // ---------------------------------------------------------------- hints of the other family

  predicate Keeps(s: Strategy, v: SvcbValue) {
    !(s.IPv4Only? && v.Hint6?) && !(s.IPv6Only? && v.Hint4?)
  }

  /** The values that the strategy keeps, in order. */
  function KeptValues(vs: seq<SvcbValue>, s: Strategy): seq<SvcbValue> {
    if vs == [] then []
    else
      var n := |vs| - 1;
      KeptValues(vs[..n], s) + if Keeps(s, vs[n]) then [vs[n]] else []
  }

  function WithoutOtherHints(r: Record, s: Strategy): Record {
    if r.data.HTTPS? then r.(data := HTTPS(KeptValues(r.data.values, s))) else r
  }

  /** The answers with the hints that an only-strategy rules out taken away. */
  function Presented(m: Message, s: Strategy): (n: Message)
    ensures |n.answer| == |m.answer| && n == m.(answer := n.answer)
    ensures forall i :: 0 <= i < |m.answer| ==> n.answer[i] == WithoutOtherHints(m.answer[i], s)
  {
    m.(answer := seq(|m.answer|, i requires 0 <= i < |m.answer| => WithoutOtherHints(m.answer[i], s)))
  }

  /** Filtering the hints in place, record by record. */
  method FilterHints(m: Message, s: Strategy) returns (n: Message)
    requires s.IPv4Only? || s.IPv6Only?
    ensures n == Presented(m, s)
  {
    var answer := m.answer;
    for i := 0 to |m.answer|
      invariant |answer| == |m.answer|
      invariant forall j :: 0 <= j < |answer| ==> answer[j] == if j < i then WithoutOtherHints(m.answer[j], s) else m.answer[j]
    {
      if answer[i].data.HTTPS? {
        var kept := FilterValues(answer[i].data.values, s);
        answer := answer[i := answer[i].(data := HTTPS(kept))];
      }
    }
    n := m.(answer := answer);
    assert n.answer == Presented(m, s).answer;
  }

  method FilterValues(vs: seq<SvcbValue>, s: Strategy) returns (kept: seq<SvcbValue>)
    requires s.IPv4Only? || s.IPv6Only?
    ensures kept == KeptValues(vs, s)
  {
    kept := [];
    for i := 0 to |vs|
      invariant kept == KeptValues(vs[..i], s)
    {
      assert vs[..i + 1][..i] == vs[..i];
      if (if s.IPv4Only? then !vs[i].Hint6? else !vs[i].Hint4?) {
        kept := kept + [vs[i]];
      }
    }
    assert vs[..|vs|] == vs;
  }

  /** An only-strategy leaves exactly the addresses of its own family in the hints, in their order. */
  lemma {:induction false} HintsOfOneFamily(vs: seq<SvcbValue>)
    ensures HintAddresses(KeptValues(vs, IPv4Only)) == HintsOf(vs, false)
    ensures HintAddresses(KeptValues(vs, IPv6Only)) == HintsOf(vs, true)
  {
    if vs == [] {
    } else {
      HintsOfOneFamily(vs[..|vs| - 1]);
      KeepOne(vs, IPv4Only);
      KeepOne(vs, IPv6Only);
    }
  }

  lemma KeepOne(vs: seq<SvcbValue>, s: Strategy)
    requires vs != []
    ensures
      var v, others := vs[|vs| - 1], KeptValues(vs[..|vs| - 1], s);
      HintAddresses(KeptValues(vs, s)) == HintAddresses(others) + if Keeps(s, v) && !v.OtherValue? then v.addresses else []
  {
    var v, others := vs[|vs| - 1], KeptValues(vs[..|vs| - 1], s);
    if Keeps(s, v) {
      assert (others + [v])[..|others|] == others;
    } else {
      assert KeptValues(vs, s) == others;
    }
  }

  function HintsOf(vs: seq<SvcbValue>, six: bool): seq<Address> {
    if vs == [] then []
    else
      var n := |vs| - 1;
      HintsOf(vs[..n], six) + if (if six then vs[n].Hint6? else vs[n].Hint4?) then vs[n].addresses else []
  }

  // ---------------------------------------------------------------- one TTL for all records

  function WithTtl(rs: seq<Record>, ttl: uint32): (r: seq<Record>)
    ensures |r| == |rs|
    ensures forall i :: 0 <= i < |rs| ==> r[i] == rs[i].(ttl := ttl)
  {
    seq(|rs|, i requires 0 <= i < |rs| => rs[i].(ttl := ttl))
  }

  function Normalized(m: Message, ttl: uint32): Message {
    Message(m.rcode, WithTtl(m.answer, ttl), WithTtl(m.ns, ttl), WithTtl(m.extra, ttl))
  }

  /** Rewriting the TTL in place, record by record. */
  method SetTtl(rs: seq<Record>, ttl: uint32) returns (out: seq<Record>)
    ensures out == WithTtl(rs, ttl)
  {
    out := rs;
    for i := 0 to |rs|
      invariant |out| == |rs|
      invariant forall j :: 0 <= j < |rs| ==> out[j] == if j < i then rs[j].(ttl := ttl) else rs[j]
    {
      out := out[i := out[i].(ttl := ttl)];
    }
  }

  lemma TtlDoesNotMoveAddresses(m: Message, ttl: uint32)
    ensures Addresses(Normalized(m, ttl)) == Addresses(m)
  {
    AddressesIgnoreTtl(m.answer, ttl);
  }

  lemma {:induction false} AddressesIgnoreTtl(rs: seq<Record>, ttl: uint32)
    ensures AddressesOf(WithTtl(rs, ttl)) == AddressesOf(rs)
  {
    if rs == [] {
    } else {
      var n := |rs| - 1;
      AddressesIgnoreTtl(rs[..n], ttl);
      assert WithTtl(rs, ttl)[..n] == WithTtl(rs[..n], ttl);
    }
  }

  lemma NormalizedTwice(m: Message, a: uint32, b: uint32)
    ensures Normalized(Normalized(m, a), b) == Normalized(m, b)
  {
    assert WithTtl(WithTtl(m.answer, a), b) == WithTtl(m.answer, b);
    assert WithTtl(WithTtl(m.ns, a), b) == WithTtl(m.ns, b);
    assert WithTtl(WithTtl(m.extra, a), b) == WithTtl(m.extra, b);
  }

  /** `t` is zero when every TTL is zero, and otherwise the least of the positive ones. */
  ghost predicate LeastPositive(rs: seq<Record>, t: uint32) {
    if forall r :: r in rs ==> r.ttl == 0 then t == 0
    else
      && t > 0
      && (exists r :: r in rs && r.ttl == t)
      && (forall r :: r in rs && r.ttl > 0 ==> t <= r.ttl)
  }

  /** There is only one such TTL. */
  lemma LeastPositiveIsUnique(rs: seq<Record>, t: uint32, u: uint32)
    requires LeastPositive(rs, t) && LeastPositive(rs, u)
    ensures t == u
  {
    if t > 0 && u > 0 {
      var r :| r in rs && r.ttl == t;
      var q :| q in rs && q.ttl == u;
    }
  }

  /** The two nested scans that the client runs before storing and after loading. */
  method ScanTtl(m: Message) returns (t: uint32)
    ensures LeastPositive(Records(m), t)
  {
    t := 0;
    var lists := [m.answer, m.ns, m.extra];
    for k := 0 to 3
      invariant LeastPositive(FirstLists(m, k), t)
    {
      t := ScanList(FirstLists(m, k), lists[k], t);
    }
  }

  function FirstLists(m: Message, k: nat): seq<Record> {
    if k == 0 then [] else if k == 1 then m.answer else if k == 2 then m.answer + m.ns else Records(m)
  }

  method ScanList(ghost before: seq<Record>, rs: seq<Record>, start: uint32) returns (t: uint32)
    requires LeastPositive(before, start)
    ensures LeastPositive(before + rs, t)
  {
    t := start;
    assert before + rs[..0] == before;
    for i := 0 to |rs|
      invariant LeastPositive(before + rs[..i], t)
    {
      var record := rs[i];
      assert before + rs[..i + 1] == (before + rs[..i]) + [record];
      ScanStep(before + rs[..i], t, record);
      if t == 0 || (record.ttl > 0 && record.ttl < t) {
        t := record.ttl;
      }
    }
    assert rs[..|rs|] == rs;
  }

  lemma ScanStep(rs: seq<Record>, t: uint32, r: Record)
    requires LeastPositive(rs, t)
    ensures LeastPositive(rs + [r], if t == 0 || (r.ttl > 0 && r.ttl < t) then r.ttl else t)
  {
    var s := rs + [r];
    assert forall q :: q in s <==> q in rs || q == r;
    var u := if t == 0 || (r.ttl > 0 && r.ttl < t) then r.ttl else t;
    if u == r.ttl {
      assert r in s;
    } else {
      var q :| q in rs && q.ttl == t;
      assert q in s;
    }
  }

  // ---------------------------------------------------------------- negative answers

  /** The lesser of TTL and minimum of the first SOA record, as section 5 of RFC 2308 asks. */
  function NegativeTtl(ns: seq<Record>): Option<uint32> {
    if ns == [] then None
    else if ns[0].data.SOA? then Some(if ns[0].ttl < ns[0].data.minimum then ns[0].ttl else ns[0].data.minimum)
    else NegativeTtl(ns[1..])
  }

  method ExtractNegativeTtl(m: Message) returns (t: Option<uint32>)
    ensures t == NegativeTtl(m.ns)
  {
    for i := 0 to |m.ns|
      invariant NegativeTtl(m.ns) == NegativeTtl(m.ns[i..])
    {
      var record := m.ns[i];
      if record.data.SOA? {
        if record.ttl < record.data.minimum {
          return Some(record.ttl);
        }
        return Some(record.data.minimum);
      }
      assert m.ns[i..][1..] == m.ns[i + 1..];
    }
    t := None;
  }

  /** It is the TTL or the minimum of the first SOA record and exceeds neither; there is none without one. */
  lemma {:induction false} NegativeTtlIsTheLesser(ns: seq<Record>)
    ensures match NegativeTtl(ns)
            case None => forall r :: r in ns ==> !r.data.SOA?
            case Some(t) =>
              exists i :: 0 <= i < |ns| && ns[i].data.SOA? && (forall j :: 0 <= j < i ==> !ns[j].data.SOA?)
                && t <= ns[i].ttl && t <= ns[i].data.minimum && (t == ns[i].ttl || t == ns[i].data.minimum)
  {
    if ns == [] {
    } else if ns[0].data.SOA? {
      assert NegativeTtl(ns).Some?;
    } else {
      NegativeTtlIsTheLesser(ns[1..]);
      assert forall r :: r in ns <==> r == ns[0] || r in ns[1..];
      if NegativeTtl(ns).Some? {
        var t := NegativeTtl(ns).value;
        var i :| 0 <= i < |ns[1..]| && ns[1..][i].data.SOA? && (forall j :: 0 <= j < i ==> !ns[1..][j].data.SOA?)
          && t <= ns[1..][i].ttl && t <= ns[1..][i].data.minimum && (t == ns[1..][i].ttl || t == ns[1..][i].data.minimum);
        assert ns[i + 1] == ns[1..][i];
        forall j | 0 <= j < i + 1 ensures !ns[j].data.SOA? {
          assert j > 0 ==> ns[j] == ns[1..][j - 1];
        }
      }
    }
  }

  /** What the chosen TTL must be, clause by clause. */
  ghost predicate IsChosenTtl(m: Message, rewrite: Option<uint32>, t: uint32) {
    if rewrite.Some? then t == rewrite.value
    else if m.answer == [] && NegativeTtl(m.ns).Some? && NegativeTtl(m.ns).value > 0 then t == NegativeTtl(m.ns).value
    else LeastPositive(Records(m), t)
  }

  method ChooseTtl(m: Message, rewrite: Option<uint32>) returns (t: uint32)
    ensures IsChosenTtl(m, rewrite, t)
  {
    t := 0;
    if |m.answer| == 0 {
      var soa := ExtractNegativeTtl(m);
      if soa.Some? {
        t := soa.value;
      }
    }
    if t == 0 {
      t := ScanTtl(m);
    }
    if rewrite.Some? {
      t := rewrite.value;
    }
  }

  /** The chosen TTL as a function: there is one, and only one. */
  function ChosenTtl(m: Message, rewrite: Option<uint32>): (t: uint32)
    ensures IsChosenTtl(m, rewrite, t)
  {
    if rewrite.Some? then rewrite.value
    else if m.answer == [] && NegativeTtl(m.ns).Some? && NegativeTtl(m.ns).value > 0 then NegativeTtl(m.ns).value
    else LeastPositiveTtl(Records(m))
  }

  function LeastPositiveTtl(rs: seq<Record>): (t: uint32)
    ensures LeastPositive(rs, t)
  {
    if rs == [] then 0
    else
      var n := |rs| - 1;
      var t := LeastPositiveTtl(rs[..n]);
      ScanStep(rs[..n], t, rs[n]);
      assert rs == rs[..n] + [rs[n]];
      if t == 0 || (rs[n].ttl > 0 && rs[n].ttl < t) then rs[n].ttl else t
  }

  lemma ChosenTtlIsUnique(m: Message, rewrite: Option<uint32>, t: uint32)
    requires IsChosenTtl(m, rewrite, t)
    ensures t == ChosenTtl(m, rewrite)
  {
    if rewrite.None? && !(m.answer == [] && NegativeTtl(m.ns).Some? && NegativeTtl(m.ns).value > 0) {
      LeastPositiveIsUnique(Records(m), t, ChosenTtl(m, rewrite));
    }
  }

  /** A rewrite is obeyed, also one to zero; the TTL of an answer with records is never that of its SOA
      record unless that is the least positive one. */
  lemma RewriteWinsAndAnswersAreScanned(m: Message, t: uint32)
    ensures ChosenTtl(m, Some(t)) == t
    ensures m.answer != [] ==> LeastPositive(Records(m), ChosenTtl(m, None))
  {
  }

  /** A negative answer with an SOA record gets the TTL of RFC 2308 if and only if that TTL is
      positive or no record has a positive TTL: when the SOA minimum is zero, which asks for no
      caching, the scan takes over. */
  lemma NegativeTtlIsHonoured(m: Message, t: uint32)
    requires m.answer == [] && NegativeTtl(m.ns).Some? && IsChosenTtl(m, None, t)
    ensures t == NegativeTtl(m.ns).value
            <==> NegativeTtl(m.ns).value > 0 || forall r :: r in Records(m) ==> r.ttl == 0
  {
  }

  /** The failing family has members: an SOA with TTL 300 and minimum 0 is kept for 300 seconds. */
  lemma ZeroMinimumIsCached()
    ensures
      var m := Message(RCODE_NAME_ERROR, [], [Record(300, SOA(0))], []);
      NegativeTtl(m.ns) == Some(0) && forall t :: IsChosenTtl(m, None, t) <==> t == 300
  {
    var m := Message(RCODE_NAME_ERROR, [], [Record(300, SOA(0))], []);
    var soa := Record(300, SOA(0));
    assert Records(m) == [soa];
    forall r | r in Records(m) ensures r.ttl == 300 {}
    assert soa in Records(m);
    assert LeastPositive(Records(m), 300);
    forall t | IsChosenTtl(m, None, t) ensures t == 300 {
      LeastPositiveIsUnique(Records(m), t, 300);
    }
  }
}
