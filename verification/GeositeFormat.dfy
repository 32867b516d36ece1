/**
  The geosite file format (common/geosite): bytes, strings, items and the header, each as
  an encoding and as a partial decoding of all byte strings.

  As in the varbin library, a string is its length as an unsigned varint followed by its
  bytes, and a struct is its fields in order.
*/
module GeositeFormat {
  import opened Lists

  type byte = b: int | 0 <= b < 256

  type Bytes = seq<byte>

  const TWO63 := 0x8000_0000_0000_0000
  const TWO64 := 0x1_0000_0000_0000_0000

  datatype Item = Item(kind: byte, value: Bytes)

  /** One line of the header: where the items of a code begin, and how many there are. */
  datatype Entry = Entry(code: Bytes, index: nat, length: nat)

  /** A decoded value and the bytes behind it. */
  datatype Got<+T> = Got(value: T, rest: Bytes)

  // ---------------------------------------------------------------- unsigned varints

  function Uvarint(n: nat): (r: Bytes)
    ensures |r| >= 1
  {
    if n < 128 then [n] else [n % 128 + 128] + Uvarint(n / 128)
  }

  /** The reader's loop from its `i`-th byte on: at most ten bytes, and the tenth at most one. */
  function GetUvarint(s: Bytes, i: nat): (g: Option<Got<nat>>)
    ensures g.Some? ==> |g.value.rest| < |s|
  {
    if s == [] || i >= 10 then None
    else if s[0] < 128 then
      if i == 9 && s[0] > 1 then None else Some(Got(s[0], s[1..]))
    else
      match GetUvarint(s[1..], i + 1)
      case None => None
      case Some(g) => Some(Got(s[0] - 128 + 128 * g.value, g.rest))
  }

  function Pow128(i: nat): (p: nat)
    ensures p >= 1
  {
    if i == 0 then 1 else 128 * Pow128(i - 1)
  }

  lemma {:induction false} UvarintRoundTripFrom(n: nat, i: nat, rest: Bytes)
    requires i < 10 && n * Pow128(i) < TWO64
    ensures GetUvarint(Uvarint(n) + rest, i) == Some(Got(n, rest))
    decreases n
  {
    var s := Uvarint(n) + rest;
    if i == 9 {
      assert Pow128(9) == 0x8000_0000_0000_0000 by { PowerNine(); }
      assert n <= 1;
    } else if n >= 128 {
      assert s[1..] == Uvarint(n / 128) + rest;
      assert n / 128 * Pow128(i + 1) <= n * Pow128(i) by { Shift(n, Pow128(i)); }
      UvarintRoundTripFrom(n / 128, i + 1, rest);
    }
  }

  lemma Shift(n: nat, p: nat)
    ensures n / 128 * (128 * p) <= n * p
  {
    assert n / 128 * 128 <= n;
    Monotone(n / 128 * 128, n, p);
    assert n / 128 * (128 * p) == n / 128 * 128 * p;
  }

  lemma Monotone(a: nat, b: nat, p: nat)
    requires a <= b
    ensures a * p <= b * p
  {
  }

  lemma PowerNine()
    ensures Pow128(9) == 0x8000_0000_0000_0000
  {
    assert Pow128(2) == 128 * Pow128(1) == 16384;
    assert Pow128(4) == 128 * Pow128(3) && Pow128(3) == 128 * Pow128(2);
    assert Pow128(6) == 128 * Pow128(5) && Pow128(5) == 128 * Pow128(4);
    assert Pow128(8) == 128 * Pow128(7) && Pow128(7) == 128 * Pow128(6);
  }

  /** Every 64-bit number survives. */
  lemma UvarintRoundTrip(n: nat, rest: Bytes)
    requires n < TWO64
    ensures GetUvarint(Uvarint(n) + rest, 0) == Some(Got(n, rest))
  {
    UvarintRoundTripFrom(n, 0, rest);
  }

  // ---------------------------------------------------------------- strings and items

  function StringBytes(t: Bytes): Bytes {
    Uvarint(|t|) + t
  }

  function GetString(s: Bytes): (g: Option<Got<Bytes>>)
    ensures g.Some? ==> |g.value.rest| < |s|
  {
    match GetUvarint(s, 0)
    case None => None
    case Some(n) =>
      if n.value <= |n.rest| then Some(Got(n.rest[..n.value], n.rest[n.value..])) else None
  }

  lemma StringRoundTrip(t: Bytes, rest: Bytes)
    requires |t| < TWO63
    ensures GetString(StringBytes(t) + rest) == Some(Got(t, rest))
  {
    assert StringBytes(t) + rest == Uvarint(|t|) + (t + rest);
    UvarintRoundTrip(|t|, t + rest);
  }

  function ItemBytes(i: Item): Bytes {
    [i.kind] + StringBytes(i.value)
  }

  function GetItem(s: Bytes): (g: Option<Got<Item>>)
    ensures g.Some? ==> |g.value.rest| < |s|
  {
    if s == [] then None
    else
      match GetString(s[1..])
      case None => None
      case Some(v) => Some(Got(Item(s[0], v.value), v.rest))
  }

  lemma ItemRoundTrip(i: Item, rest: Bytes)
    requires SmallItem(i)
    ensures GetItem(ItemBytes(i) + rest) == Some(Got(i, rest))
  {
    var s := ItemBytes(i) + rest;
    assert s[1..] == StringBytes(i.value) + rest;
    StringRoundTrip(i.value, rest);
  }

  function ItemsBytes(items: seq<Item>): Bytes {
    if items == [] then [] else ItemBytes(items[0]) + ItemsBytes(items[1..])
  }

  /** Exactly `n` items. */
  function GetItems(s: Bytes, n: nat): Option<seq<Item>>
    decreases n
  {
    if n == 0 then Some([])
    else
      match GetItem(s)
      case None => None
      case Some(i) =>
        match GetItems(i.rest, n - 1)
        case None => None
        case Some(l) => Some([i.value] + l)
  }

  predicate SmallItem(i: Item) {
    |i.value| < TWO63
  }

  lemma {:induction false} ItemsRoundTrip(items: seq<Item>, rest: Bytes)
    requires forall i :: i in items ==> SmallItem(i)
    ensures GetItems(ItemsBytes(items) + rest, |items|) == Some(items)
  {
    if items != [] {
      var first, others := items[0], items[1..];
      assert first in items;
      ItemRoundTrip(first, ItemsBytes(others) + rest);
      ItemsRoundTrip(others, rest);
      NextItem(ItemBytes(first) + (ItemsBytes(others) + rest), Got(first, ItemsBytes(others) + rest), others);
      Regroup(ItemBytes(first), ItemsBytes(others), rest);
      assert [first] + others == items;
    } else {
      assert GetItems(ItemsBytes(items) + rest, 0) == Some([]);
    }
  }

  lemma NextItem(s: Bytes, g: Got<Item>, others: seq<Item>)
    requires GetItem(s) == Some(g) && GetItems(g.rest, |others|) == Some(others)
    ensures GetItems(s, |others| + 1) == Some([g.value] + others)
  {
  }

  // ---------------------------------------------------------------- header and content

  function EntryBytes(e: Entry): Bytes {
    StringBytes(e.code) + Uvarint(e.index) + Uvarint(e.length)
  }

  function GetEntry(s: Bytes): (g: Option<Got<Entry>>)
    ensures g.Some? ==> |g.value.rest| < |s|
  {
    match GetString(s)
    case None => None
    case Some(c) =>
      match GetUvarint(c.rest, 0)
      case None => None
      case Some(i) =>
        match GetUvarint(i.rest, 0)
        case None => None
        case Some(l) => Some(Got(Entry(c.value, i.value, l.value), l.rest))
  }

  lemma EntryRoundTrip(e: Entry, rest: Bytes)
    requires SmallEntry(e)
    ensures GetEntry(EntryBytes(e) + rest) == Some(Got(e, rest))
  {
    var c, i, l := StringBytes(e.code), Uvarint(e.index), Uvarint(e.length);
    assert EntryBytes(e) + rest == c + (i + (l + rest));
    StringRoundTrip(e.code, i + (l + rest));
    UvarintRoundTrip(e.index, l + rest);
    UvarintRoundTrip(e.length, rest);
  }

  function EntriesBytes(es: seq<Entry>): Bytes {
    if es == [] then [] else EntryBytes(es[0]) + EntriesBytes(es[1..])
  }

  function GetEntries(s: Bytes, n: nat): (g: Option<Got<seq<Entry>>>)
    ensures g.Some? ==> |g.value.rest| <= |s| && |g.value.value| == n
    decreases n
  {
    if n == 0 then Some(Got([], s))
    else
      match GetEntry(s)
      case None => None
      case Some(e) =>
        match GetEntries(e.rest, n - 1)
        case None => None
        case Some(l) => Some(Got([e.value] + l.value, l.rest))
  }

  predicate SmallEntry(e: Entry) {
    |e.code| < TWO63 && e.index < TWO63 && e.length < TWO63
  }

  lemma {:induction false} EntriesRoundTrip(es: seq<Entry>, rest: Bytes)
    requires forall e :: e in es ==> SmallEntry(e)
    ensures GetEntries(EntriesBytes(es) + rest, |es|) == Some(Got(es, rest))
  {
    if es != [] {
      var first, others := es[0], es[1..];
      assert first in es;
      EntryRoundTrip(first, EntriesBytes(others) + rest);
      EntriesRoundTrip(others, rest);
      NextEntry(EntryBytes(first) + (EntriesBytes(others) + rest), Got(first, EntriesBytes(others) + rest), Got(others, rest));
      Regroup(EntryBytes(first), EntriesBytes(others), rest);
      assert [first] + others == es;
    } else {
      assert EntriesBytes(es) + rest == rest;
    }
  }

  lemma NextEntry(s: Bytes, g: Got<Entry>, others: Got<seq<Entry>>)
    requires GetEntry(s) == Some(g) && GetEntries(g.rest, |others.value|) == Some(others)
    ensures GetEntries(s, |others.value| + 1) == Some(Got([g.value] + others.value, others.rest))
  {
  }

  function HeaderBytes(es: seq<Entry>): Bytes {
    [0] + Uvarint(|es|) + EntriesBytes(es)
  }

  /** The number of entries of a byte string, behind version zero. */
  function GetCount(s: Bytes): (g: Option<Got<nat>>)
    ensures g.Some? ==> |g.value.rest| < |s|
  {
    if s == [] || s[0] != 0 then None else GetUvarint(s[1..], 0)
  }

  /** The header of a byte string: version zero, the number of entries, the entries. */
  function GetHeader(s: Bytes): (g: Option<Got<seq<Entry>>>)
    ensures g.Some? ==> |g.value.rest| <= |s|
    ensures g.Some? ==> GetCount(s).Some? && |g.value.value| == GetCount(s).value.value
  {
    match GetCount(s)
    case None => None
    case Some(n) => GetEntries(n.rest, n.value)
  }

  lemma HeaderRoundTrip(es: seq<Entry>, rest: Bytes)
    requires |es| < TWO63 && forall e :: e in es ==> SmallEntry(e)
    ensures GetHeader(HeaderBytes(es) + rest) == Some(Got(es, rest))
  {
    var tail := EntriesBytes(es) + rest;
    assert (HeaderBytes(es) + rest)[1..] == Uvarint(|es|) + tail;
    UvarintRoundTrip(|es|, tail);
    assert GetCount(HeaderBytes(es) + rest) == Some(Got(|es|, tail));
    EntriesRoundTrip(es, rest);
  }

  type Domains = map<Bytes, seq<Item>>

  /** The items of the given codes, one after the other. */
  function Content(keys: seq<Bytes>, domains: Domains): Bytes
    requires forall k :: k in keys ==> k in domains
  {
    if keys == [] then []
    else Content(keys[..|keys| - 1], domains) + ItemsBytes(domains[keys[|keys| - 1]])
  }

  function EntryFor(keys: seq<Bytes>, domains: Domains, i: nat): Entry
    requires i < |keys| && forall k :: k in keys ==> k in domains
  {
    Entry(keys[i], |Content(keys[..i], domains)|, |domains[keys[i]]|)
  }

  function EntriesFor(keys: seq<Bytes>, domains: Domains): (es: seq<Entry>)
    requires forall k :: k in keys ==> k in domains
    ensures |es| == |keys| && forall i :: 0 <= i < |keys| ==> es[i] == EntryFor(keys, domains, i)
  {
    seq(|keys|, i requires 0 <= i < |keys| => EntryFor(keys, domains, i))
  }

  function FileBytes(keys: seq<Bytes>, domains: Domains): Bytes
    requires forall k :: k in keys ==> k in domains
  {
    HeaderBytes(EntriesFor(keys, domains)) + Content(keys, domains)
  }

  predicate SmallCode(code: Bytes, items: seq<Item>) {
    |code| < TWO63 && |items| < TWO63 && forall i :: i in items ==> SmallItem(i)
  }

  /** All lengths are Go lengths. */
  predicate Fits(keys: seq<Bytes>, domains: Domains)
    requires forall k :: k in keys ==> k in domains
  {
    && |keys| < TWO63 && |Content(keys, domains)| < TWO63
    && forall k :: k in keys ==> SmallCode(k, domains[k])
  }

  /** The content of the first codes begins the content of all. */
  lemma {:induction false} ContentPrefix(keys: seq<Bytes>, domains: Domains, i: nat)
    requires i < |keys| && forall k :: k in keys ==> k in domains
    ensures Content(keys[..i], domains) + ItemsBytes(domains[keys[i]]) <= Content(keys, domains)
    decreases |keys|
  {
    var n := |keys| - 1;
    if i == n {
    } else {
      assert keys[..n][..i] == keys[..i];
      ContentPrefix(keys[..n], domains, i);
    }
  }

  lemma EntriesAreSmall(keys: seq<Bytes>, domains: Domains, i: nat)
    requires (forall k :: k in keys ==> k in domains) && Fits(keys, domains) && i < |keys|
    ensures SmallEntry(EntryFor(keys, domains, i))
  {
    assert keys[i] in keys;
    ContentPrefix(keys, domains, i);
  }

  /** Where the items of the `i`-th code stand in the file. */
  function PositionOf(keys: seq<Bytes>, domains: Domains, i: nat): nat
    requires i < |keys| && forall k :: k in keys ==> k in domains
  {
    |HeaderBytes(EntriesFor(keys, domains))| + EntryFor(keys, domains, i).index
  }

  lemma CodeRoundTrip(keys: seq<Bytes>, domains: Domains, i: nat)
    requires (forall k :: k in keys ==> k in domains) && Fits(keys, domains) && i < |keys|
    ensures ItemsStandAt(FileBytes(keys, domains), PositionOf(keys, domains, i), domains[keys[i]])
  {
    assert SmallCode(keys[i], domains[keys[i]]);
    ContentPrefix(keys, domains, i);
    var header := HeaderBytes(EntriesFor(keys, domains));
    var content, before := Content(keys, domains), Content(keys[..i], domains);
    ItemsAt(header, content, before, domains[keys[i]]);
    assert FileBytes(keys, domains) == header + content;
    assert PositionOf(keys, domains, i) == |header| + |before|;
  }

  /** Decoding the header of a written file gives the entries and leaves the content; from where the
      content begins, the items of each code stand at its index. */
  lemma FileRoundTrip(keys: seq<Bytes>, domains: Domains)
    requires (forall k :: k in keys ==> k in domains) && Fits(keys, domains)
    ensures GetHeader(FileBytes(keys, domains)) == Some(Got(EntriesFor(keys, domains), Content(keys, domains)))
    ensures forall i :: 0 <= i < |keys| ==>
              ItemsStandAt(FileBytes(keys, domains), PositionOf(keys, domains, i), domains[keys[i]])
  {
    var es := EntriesFor(keys, domains);
    forall i | 0 <= i < |keys| ensures SmallEntry(es[i]) {
      EntriesAreSmall(keys, domains, i);
    }
    HeaderRoundTrip(es, Content(keys, domains));
    forall i | 0 <= i < |keys|
      ensures ItemsStandAt(FileBytes(keys, domains), PositionOf(keys, domains, i), domains[keys[i]])
    {
      CodeRoundTrip(keys, domains, i);
    }
  }

  /** Reading as many items as there are from position `p` gives the items. */
  predicate ItemsStandAt(s: Bytes, p: nat, items: seq<Item>) {
    p <= |s| && GetItems(s[p..], |items|) == Some(items)
  }

  lemma ItemsAt(header: Bytes, content: Bytes, before: Bytes, items: seq<Item>)
    requires before + ItemsBytes(items) <= content && forall i :: i in items ==> SmallItem(i)
    ensures ItemsStandAt(header + content, |header| + |before|, items)
  {
    var rest := content[|before + ItemsBytes(items)|..];
    ItemsRoundTrip(items, rest);
    Pieces(header, content, before, ItemsBytes(items));
  }

  lemma Pieces(header: Bytes, content: Bytes, before: Bytes, middle: Bytes)
    requires before + middle <= content
    ensures (header + content)[|header| + |before|..] == middle + content[|before + middle|..]
  {
    var rest := content[|before + middle|..];
    assert content == before + middle + rest;
    assert header + content == (header + before) + (middle + rest);
  }

  // ---------------------------------------------------------------- a file, byte by byte

  lemma TwoEntries(a: Entry, b: Entry)
    ensures EntriesBytes([a, b]) == EntryBytes(a) + EntryBytes(b)
  {
    assert [a, b][1..] == [b] && [b][1..] == [];
    assert EntriesBytes([b]) == EntryBytes(b) + [];
  }

  lemma SmallBytes(t: Bytes, i: Item, e: Entry)
    requires |t| < 128 && |i.value| < 128 && |e.code| < 128 && e.index < 128 && e.length < 128
    ensures StringBytes(t) == [|t|] + t
    ensures ItemBytes(i) == [i.kind, |i.value|] + i.value
    ensures EntryBytes(e) == [|e.code|] + e.code + [e.index, e.length]
  {
  }

  /** A number from 128 on takes more bytes, the low ones first. */
  lemma LargeNumber()
    ensures Uvarint(300) == [172, 2]
  {
  }

  /** The items of "a" and "bc": kind, length and bytes of each value. */
  lemma SampleContent(domains: Domains)
    requires domains == map[[97] := [Item(0, [120])], [98, 99] := [Item(2, [121, 122]), Item(1, [])]]
    ensures Content([[97]], domains) == [0, 1, 120]
    ensures Content([[97], [98, 99]], domains) == [0, 1, 120, 2, 2, 121, 122, 1, 0]
  {
    var x, y, z := Item(0, [120]), Item(2, [121, 122]), Item(1, []);
    SmallBytes([], x, Entry([], 0, 0));
    SmallBytes([], y, Entry([], 0, 0));
    SmallBytes([], z, Entry([], 0, 0));
    assert [x][1..] == [] && [y, z][1..] == [z] && [z][1..] == [];
    assert ItemsBytes([x]) == [0, 1, 120];
    assert ItemsBytes([z]) == [1, 0];
    assert ItemsBytes([y, z]) == [2, 2, 121, 122, 1, 0];
    assert [[97]][..0] == [] && [[97], [98, 99]][..1] == [[97]];
    assert Content([], domains) == [];
  }

  lemma SampleHeader()
    ensures HeaderBytes([Entry([97], 0, 1), Entry([98, 99], 3, 2)]) == [0, 2, 1, 97, 0, 1, 2, 98, 99, 3, 2]
  {
    var a, b := Entry([97], 0, 1), Entry([98, 99], 3, 2);
    SmallBytes([], Item(0, []), a);
    SmallBytes([], Item(0, []), b);
    TwoEntries(a, b);
    assert EntryBytes(a) == [1, 97, 0, 1] && EntryBytes(b) == [2, 98, 99, 3, 2];
    assert Uvarint(2) == [2];
  }

  lemma SampleEntries(keys: seq<Bytes>, domains: Domains)
    requires keys == [[97], [98, 99]]
    requires domains == map[[97] := [Item(0, [120])], [98, 99] := [Item(2, [121, 122]), Item(1, [])]]
    ensures EntriesFor(keys, domains) == [Entry([97], 0, 1), Entry([98, 99], 3, 2)]
  {
    SampleContent(domains);
    assert keys[..0] == [] && keys[..1] == [[97]];
    assert EntryFor(keys, domains, 0) == Entry([97], 0, 1);
    assert EntryFor(keys, domains, 1) == Entry([98, 99], 3, 2);
  }

  /** The whole file of "a" with one item and "bc" with two: version, number of codes, for each code its length,
      bytes, offset and number of items, and then the items. */
  lemma SampleFile(domains: Domains)
    requires domains == map[[97] := [Item(0, [120])], [98, 99] := [Item(2, [121, 122]), Item(1, [])]]
    ensures FileBytes([[97], [98, 99]], domains) ==
            [0, 2, 1, 97, 0, 1, 2, 98, 99, 3, 2] + [0, 1, 120, 2, 2, 121, 122, 1, 0]
  {
    SampleContent(domains);
    SampleEntries([[97], [98, 99]], domains);
    SampleHeader();
  }
}
