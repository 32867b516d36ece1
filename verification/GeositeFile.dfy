/**
  Writing and reading geosite files (common/geosite/writer.go and reader.go).

  The reader works through a buffered reader on top of a counting reader. How many bytes a
  read of the file returns is up to `chunk`; where the content begins is computed from the
  count and what is still buffered.
*/
module GeositeFile {
  import opened Lists
  import opened GeositeFormat

  // ---------------------------------------------------------------- the order of the codes

  /** The byte-wise order of `sort.Strings`. */
  predicate Less(a: Bytes, b: Bytes) {
    b != [] && (a == [] || a[0] < b[0] || (a[0] == b[0] && Less(a[1..], b[1..])))
  }

  lemma {:induction false} LessIsTotal(a: Bytes, b: Bytes)
    ensures Less(a, b) || Less(b, a) || a == b
    ensures !(Less(a, b) && Less(b, a)) && !Less(a, a)
  {
    if a != [] && b != [] && a[0] == b[0] {
      LessIsTotal(a[1..], b[1..]);
      assert a == [a[0]] + a[1..] && b == [b[0]] + b[1..];
    }
    if a == [] {
    } else {
      LessIsTotal(a[1..], a[1..]);
    }
  }

  /** The first byte that differs decides, and a code comes before its extensions. */
  lemma {:induction false} FirstDifferenceDecides(p: Bytes, x: byte, a: Bytes, y: byte, b: Bytes)
    ensures Less(p, p + [x] + a) && !Less(p + [x] + a, p)
    ensures x != y ==> (Less(p + [x] + a, p + [y] + b) <==> x < y)
    decreases |p|
  {
    var u, v := p + [x] + a, p + [y] + b;
    if p == [] {
      assert u[0] == x && v[0] == y;
    } else {
      assert u[1..] == p[1..] + [x] + a && v[1..] == p[1..] + [y] + b;
      FirstDifferenceDecides(p[1..], x, a, y, b);
    }
  }

  lemma {:induction false} LessIsTransitive(a: Bytes, b: Bytes, c: Bytes)
    requires Less(a, b) && Less(b, c)
    ensures Less(a, c)
  {
    if a != [] && a[0] == b[0] == c[0] {
      LessIsTransitive(a[1..], b[1..], c[1..]);
    }
  }

  predicate Sorted(s: seq<Bytes>) {
    forall i, j :: 0 <= i < j < |s| ==> Less(s[i], s[j])
  }

  function Insert(s: seq<Bytes>, k: Bytes): seq<Bytes> {
    if s == [] then [k]
    else if Less(k, s[0]) then [k] + s
    else [s[0]] + Insert(s[1..], k)
  }

  lemma {:induction false} InsertSorts(s: seq<Bytes>, k: Bytes)
    requires Sorted(s) && k !in s
    ensures Sorted(Insert(s, k)) && Elements(Insert(s, k)) == Elements(s) + {k}
  {
    if s == [] {
    } else if Less(k, s[0]) {
      forall j | 0 <= j < |s| ensures Less(k, s[j]) {
        if j > 0 { LessIsTransitive(k, s[0], s[j]); }
      }
    } else {
      InsertSorts(s[1..], k);
      LessIsTotal(k, s[0]);
      var t := Insert(s[1..], k);
      forall j | 0 <= j < |t| ensures Less(s[0], t[j]) {
        assert t[j] in Elements(t);
      }
      assert Elements(s) == {s[0]} + Elements(s[1..]);
      assert Elements([s[0]] + t) == {s[0]} + Elements(t);
    }
  }

  /** There is only one sorted list of a set of codes, so what is written depends on the map alone. */
  lemma {:induction false} SortedIsUnique(a: seq<Bytes>, b: seq<Bytes>)
    requires Sorted(a) && Sorted(b) && Elements(a) == Elements(b)
    ensures a == b
  {
    NoElements(a);
    NoElements(b);
    if a == [] {
    } else {
      SameLeast(a, b);
      assert a == [a[0]] + a[1..] && b == [b[0]] + b[1..];
      TailElements(a);
      TailElements(b);
      SortedIsUnique(a[1..], b[1..]);
    }
  }

  lemma NoElements(a: seq<Bytes>)
    ensures a == [] <==> Elements(a) == {}
  {
    if a != [] {
      assert a[0] in Elements(a);
    }
  }

  lemma SameLeast(a: seq<Bytes>, b: seq<Bytes>)
    requires a != [] && b != [] && Sorted(a) && Sorted(b) && Elements(a) == Elements(b)
    ensures a[0] == b[0]
  {
    assert a[0] in Elements(b) && b[0] in Elements(a);
    var i :| 0 <= i < |a| && a[i] == b[0];
    var j :| 0 <= j < |b| && b[j] == a[0];
    LessIsTotal(a[0], b[0]);
  }

  lemma TailElements(a: seq<Bytes>)
    requires a != [] && Sorted(a)
    ensures Elements(a[1..]) == Elements(a) - {a[0]}
  {
    forall j | 0 < j < |a| ensures a[j] != a[0] {
      LessIsTotal(a[0], a[j]);
    }
    forall x | x in a && x != a[0] ensures x in a[1..] {
      var j :| 0 <= j < |a| && a[j] == x;
      assert a[1..][j - 1] == x;
    }
  }

  // ---------------------------------------------------------------- writer

  predicate KeysOf(keys: seq<Bytes>, domains: Domains) {
    Sorted(keys) && Elements(keys) == domains.Keys
  }

  lemma KeysAreKnown(keys: seq<Bytes>, domains: Domains)
    requires Elements(keys) <= domains.Keys
    ensures forall k :: k in keys ==> k in domains
  {
    forall k | k in keys ensures k in domains {
      assert k in Elements(keys);
    }
  }

  method SortedKeys(domains: Domains) returns (keys: seq<Bytes>)
    ensures KeysOf(keys, domains)
  {
    keys := [];
    var left := domains.Keys;
    while left != {}
      invariant left <= domains.Keys && Sorted(keys) && Elements(keys) == domains.Keys - left
    {
      var k :| k in left;
      assert k !in Elements(keys);
      InsertSorts(keys, k);
      keys := Insert(keys, k);
      left := left - {k};
    }
  }

  method WriteItems(items: seq<Item>) returns (out: Bytes)
    ensures out == ItemsBytes(items)
  {
    out := [];
    for i := 0 to |items|
      invariant ItemsBytes(items) == out + ItemsBytes(items[i..])
    {
      assert items[i..] == [items[i]] + items[i + 1..];
      out := out + ItemBytes(items[i]);
    }
  }

  lemma DistinctKeys(keys: seq<Bytes>)
    requires Sorted(keys)
    ensures NoDuplicates(keys)
  {
    forall i, j | 0 <= i < j < |keys| ensures keys[i] != keys[j] {
      LessIsTotal(keys[i], keys[j]);
    }
  }

  lemma ContentStep(keys: seq<Bytes>, domains: Domains, i: nat)
    requires i < |keys| && forall k :: k in keys ==> k in domains
    ensures Content(keys[..i + 1], domains) == Content(keys[..i], domains) + ItemsBytes(domains[keys[i]])
  {
    assert keys[..i + 1][..i] == keys[..i];
  }

  /** The first `n` codes are in the index, each with the length of the content before it. */
  predicate Indexed(keys: seq<Bytes>, domains: Domains, index: map<Bytes, nat>, n: nat)
    requires n <= |keys| && forall k :: k in keys ==> k in domains
  {
    forall j :: 0 <= j < n ==> keys[j] in index && index[keys[j]] == |Content(keys[..j], domains)|
  }

  lemma IndexOne(keys: seq<Bytes>, domains: Domains, index: map<Bytes, nat>, i: nat)
    requires i < |keys| && NoDuplicates(keys) && (forall k :: k in keys ==> k in domains) && Indexed(keys, domains, index, i)
    ensures Indexed(keys, domains, index[keys[i] := |Content(keys[..i], domains)|], i + 1)
  {
    assert forall j :: 0 <= j < i ==> keys[j] != keys[i];
  }

  /** Content and the place of each code in it. */
  method WriteContent(keys: seq<Bytes>, domains: Domains) returns (content: Bytes, index: map<Bytes, nat>)
    requires Sorted(keys) && forall k :: k in keys ==> k in domains
    ensures content == Content(keys, domains)
    ensures Indexed(keys, domains, index, |keys|)
  {
    content, index := [], map[];
    DistinctKeys(keys);
    for i := 0 to |keys|
      invariant content == Content(keys[..i], domains)
      invariant Indexed(keys, domains, index, i)
    {
      IndexOne(keys, domains, index, i);
      index := index[keys[i] := |content|];
      var items := WriteItems(domains[keys[i]]);
      ContentStep(keys, domains, i);
      content := content + items;
    }
    assert keys[..|keys|] == keys;
  }

  method WriteHeader(keys: seq<Bytes>, domains: Domains, index: map<Bytes, nat>) returns (out: Bytes)
    requires (forall k :: k in keys ==> k in domains) && Indexed(keys, domains, index, |keys|)
    ensures out == HeaderBytes(EntriesFor(keys, domains))
  {
    ghost var es := EntriesFor(keys, domains);
    out := [0] + Uvarint(|keys|);
    for i := 0 to |keys|
      invariant HeaderBytes(es) == out + EntriesBytes(es[i..])
    {
      IndexedEntry(keys, domains, index, i);
      NextEntryBytes(out, es, i);
      out := out + EntryBytes(Entry(keys[i], index[keys[i]], |domains[keys[i]]|));
    }
  }

  lemma IndexedEntry(keys: seq<Bytes>, domains: Domains, index: map<Bytes, nat>, i: nat)
    requires i < |keys| && (forall k :: k in keys ==> k in domains) && Indexed(keys, domains, index, |keys|)
    ensures keys[i] in index && EntriesFor(keys, domains)[i] == Entry(keys[i], index[keys[i]], |domains[keys[i]]|)
  {
  }

  lemma NextEntryBytes(out: Bytes, es: seq<Entry>, i: nat)
    requires i < |es|
    ensures out + EntriesBytes(es[i..]) == (out + EntryBytes(es[i])) + EntriesBytes(es[i + 1..])
  {
    assert es[i..][0] == es[i] && es[i..][1..] == es[i + 1..];
    Regroup(out, EntryBytes(es[i]), EntriesBytes(es[i + 1..]));
  }

  /** The file of a map is the header of its sorted codes followed by their items. */
  method Write(domains: Domains) returns (out: Bytes, keys: seq<Bytes>)
    ensures KeysOf(keys, domains) && forall k :: k in keys ==> k in domains
    ensures out == FileBytes(keys, domains)
  {
    keys := SortedKeys(domains);
    KeysAreKnown(keys, domains);
    var content, index := WriteContent(keys, domains);
    var header := WriteHeader(keys, domains, index);
    out := header + content;
  }

  // ---------------------------------------------------------------- reader

  /** `int(v)` of a 64-bit unsigned number. */
  function Int(v: nat): int {
    if v < TWO63 then v else v - TWO64
  }

  function IndexMap(es: seq<Entry>): map<Bytes, int> {
    if es == [] then map[] else IndexMap(es[..|es| - 1])[es[|es| - 1].code := Int(es[|es| - 1].index)]
  }

  function LengthMap(es: seq<Entry>): map<Bytes, int> {
    if es == [] then map[] else LengthMap(es[..|es| - 1])[es[|es| - 1].code := Int(es[|es| - 1].length)]
  }

  const BUFFER_SIZE := 4096

  function From(data: Bytes, p: nat): Bytes {
    if p <= |data| then data[p..] else []
  }

  /** `int64` addition. */
  function Add(a: int, b: int): int {
    if a + b >= TWO63 then a + b - TWO64 else if a + b < -TWO63 then a + b + TWO64 else a + b
  }

  /** The longest slices of strings and of items that `make` gives; a longer one is a panic. */
  datatype Limits = Limits(strings: nat, items: nat)

  datatype Reading<+T> = Done(value: T) | Refused | Panics

  function Reread<T>(o: Option<T>): Reading<T> {
    if o.None? then Refused else Done(o.value)
  }

  /** Reading the metadata of a byte string: the keys are allocated before the entries are read. */
  function ReadHeader(s: Bytes, limits: Limits): Reading<Got<seq<Entry>>> {
    var n := GetCount(s);
    if n.None? then Refused
    else if n.value.value > limits.strings then Panics
    else Reread(GetHeader(s))
  }

  /** Reading `n` items at position `p`. What the library does with an empty slice is `whenEmpty`. */
  function CodeItems(data: Bytes, p: int, n: int, limits: Limits, whenEmpty: Bytes -> Option<seq<Item>>): Reading<seq<Item>> {
    if p < 0 then Refused
    else if n < 0 || n > limits.items then Panics
    else if n == 0 then Reread(whenEmpty(From(data, p)))
    else Reread(GetItems(From(data, p), n))
  }

  /** What the reader finds of a code, given what it knows after the metadata. */
  function CodeRead(
    limits: Limits, file: Bytes, start: int, index: map<Bytes, int>, length: map<Bytes, int>,
    code: Bytes, whenEmpty: Bytes -> Option<seq<Item>>): Reading<seq<Item>>
  {
    if code !in index || code !in length then Refused
    else CodeItems(file, Add(start, index[code]), length[code], limits, whenEmpty)
  }

  /** Which failures are refusals and which are panics: a bad or short file is refused, a count or a length that
      cannot be allocated panics before anything behind it is read. */
  lemma RefusalsAndPanics(data: Bytes, p: int, n: int, limits: Limits, whenEmpty: Bytes -> Option<seq<Item>>)
    ensures CodeItems(data, p, n, limits, whenEmpty).Panics? <==> p >= 0 && (n < 0 || n > limits.items)
    ensures p < 0 ==> CodeItems(data, p, n, limits, whenEmpty).Refused?
    ensures p >= 0 && 0 < n <= limits.items && GetItems(From(data, p), n).None? ==> CodeItems(data, p, n, limits, whenEmpty).Refused?
    ensures ReadHeader(data, limits).Panics? <==> GetCount(data).Some? && GetCount(data).value.value > limits.strings
    ensures GetCount(data).None? ==> ReadHeader(data, limits).Refused?
  {
  }

  /** The two maps of the entries. */
  predicate MapsFor(es: seq<Entry>, index: map<Bytes, int>, length: map<Bytes, int>) {
    index == IndexMap(es) && length == LengthMap(es)
  }

  lemma NoMaps()
    ensures MapsFor([], map[], map[])
  {
  }

  class Reader {
    const data: Bytes
    const chunk: nat -> nat
    const limits: Limits

    /** Where the next read of the file begins, what the counter has counted, what is buffered. */
    var filePos: nat
    var count: nat
    var counting: bool
    var buffer: Bytes

    var metadataIndex: int
    var domainIndex: map<Bytes, int>
    var domainLength: map<Bytes, int>

    ghost predicate Valid()
      reads this
    {
      |buffer| <= filePos <= |data| && buffer == data[filePos - |buffer|..filePos] && (counting ==> count == filePos)
    }

    /** The bytes that are still to come, buffered or not. */
    ghost function Rest(): Bytes
      requires Valid()
      reads this
    {
      data[filePos - |buffer|..]
    }

    constructor (data: Bytes, chunk: nat -> nat, limits: Limits)
      ensures this.data == data && this.chunk == chunk && this.limits == limits
      ensures Valid() && counting && Rest() == data
    {
      this.data, this.chunk, this.limits := data, chunk, limits;
      filePos, count, counting, buffer := 0, 0, true, [];
      metadataIndex, domainIndex, domainLength := 0, map[], map[];
    }

    ghost predicate SameIndex(m: int, i: map<Bytes, int>, l: map<Bytes, int>)
      reads this
    {
      metadataIndex == m && domainIndex == i && domainLength == l
    }

    /** One read of the file: between one byte and all that is asked for, none at the end. */
    method ReadFile(n: nat) returns (out: Bytes)
      requires Valid() && buffer == [] && n > 0
      modifies this`filePos, this`count
      ensures Valid() && out + Rest() == old(Rest()) && filePos == old(filePos) + |out| && out == data[old(filePos)..filePos]
      ensures |out| <= n && (out == [] ==> Rest() == [])
    {
      var k := if chunk(filePos) == 0 then 1 else chunk(filePos);
      k := if k > n then n else k;
      k := if k > |data| - filePos then |data| - filePos else k;
      out := data[filePos..filePos + k];
      filePos := filePos + k;
      if counting {
        count := count + k;
      }
    }

    method Fill()
      requires Valid() && buffer == []
      modifies this`filePos, this`count, this`buffer
      ensures Valid() && Rest() == old(Rest()) && (buffer == [] ==> Rest() == [])
    {
      var more := ReadFile(BUFFER_SIZE);
      buffer := more;
      assert data[filePos - |buffer|..] == buffer + data[filePos..];
    }

    method Take(k: nat) returns (out: Bytes)
      requires Valid() && k <= |buffer|
      modifies this`buffer
      ensures Valid() && |out| == k && out + Rest() == old(Rest())
    {
      ghost var rest := Rest();
      out := buffer[..k];
      buffer := buffer[k..];
      assert Rest() == rest[k..] && out == rest[..k];
    }

    method ReadByte() returns (b: Option<byte>)
      requires Valid()
      modifies this`filePos, this`count, this`buffer
      ensures Valid()
      ensures b == if old(Rest()) == [] then None else Some(old(Rest())[0])
      ensures Rest() == if old(Rest()) == [] then [] else old(Rest())[1..]
    {
      if buffer == [] {
        Fill();
      }
      if buffer == [] {
        return None;
      }
      var one := Take(1);
      b := Some(one[0]);
    }

    /** One read of the buffered reader: from the buffer, or past it for what would not fit. */
    method ReadSome(need: nat) returns (out: Bytes)
      requires Valid() && need > 0
      modifies this`filePos, this`count, this`buffer
      ensures Valid() && out + Rest() == old(Rest())
      ensures |out| <= need && (out == [] ==> Rest() == [])
    {
      if buffer == [] && need >= BUFFER_SIZE {
        out := ReadFile(need);
        return;
      }
      if buffer == [] {
        Fill();
      }
      out := Take(if need < |buffer| then need else |buffer|);
    }

    /** `io.ReadFull`. */
    method ReadFull(n: nat) returns (out: Option<Bytes>)
      requires Valid()
      modifies this`filePos, this`count, this`buffer
      ensures Valid()
      ensures n <= |old(Rest())| ==> out == Some(old(Rest())[..n]) && Rest() == old(Rest())[n..]
      ensures n > |old(Rest())| ==> out.None?
    {
      var got: Bytes := [];
      ghost var s := Rest();
      while |got| < n
        invariant Valid() && |got| <= n && got + Rest() == s
        decreases n - |got|
      {
        var more := ReadSome(n - |got|);
        if more == [] {
          return None;
        }
        Regroup(got, more, Rest());
        got := got + more;
      }
      assert s[..n] == got && s[n..] == Rest();
      out := Some(got);
    }

    /** `binary.ReadUvarint`, from its `i`-th byte on. */
    method ReadUvarintFrom(i: nat) returns (v: Option<nat>)
      requires Valid() && i <= 10
      modifies this`filePos, this`count, this`buffer
      ensures Valid()
      ensures match GetUvarint(old(Rest()), i)
              case None => v.None?
              case Some(g) => v == Some(g.value) && Rest() == g.rest
      decreases 10 - i
    {
      if i == 10 {
        return None;
      }
      var b := ReadByte();
      if b.None? {
        return None;
      }
      if b.value < 128 {
        return if i == 9 && b.value > 1 then None else Some(b.value);
      }
      var more := ReadUvarintFrom(i + 1);
      if more.None? {
        return None;
      }
      v := Some(b.value - 128 + 128 * more.value);
    }

    method ReadUvarint() returns (v: Option<nat>)
      requires Valid()
      modifies this`filePos, this`count, this`buffer
      ensures Valid()
      ensures match GetUvarint(old(Rest()), 0)
              case None => v.None?
              case Some(g) => v == Some(g.value) && Rest() == g.rest
    {
      v := ReadUvarintFrom(0);
    }

    method ReadString() returns (t: Option<Bytes>)
      requires Valid()
      modifies this`filePos, this`count, this`buffer
      ensures Valid()
      ensures match GetString(old(Rest()))
              case None => t.None?
              case Some(g) => t == Some(g.value) && Rest() == g.rest
    {
      var n := ReadUvarint();
      if n.None? {
        return None;
      }
      t := ReadFull(n.value);
    }

    method ReadEntry() returns (e: Option<Entry>)
      requires Valid()
      modifies this`filePos, this`count, this`buffer
      ensures Valid()
      ensures match GetEntry(old(Rest()))
              case None => e.None?
              case Some(g) => e == Some(g.value) && Rest() == g.rest
    {
      var code := ReadString();
      if code.None? {
        return None;
      }
      var index := ReadUvarint();
      if index.None? {
        return None;
      }
      var length := ReadUvarint();
      if length.None? {
        return None;
      }
      e := Some(Entry(code.value, index.value, length.value));
    }

    /** One entry more in the two maps. */
    method AddNextEntry(index0: map<Bytes, int>, length0: map<Bytes, int>, ghost es0: seq<Entry>)
      returns (ok: bool, index: map<Bytes, int>, length: map<Bytes, int>, ghost es: seq<Entry>)
      requires Valid() && MapsFor(es0, index0, length0)
      modifies this`filePos, this`count, this`buffer
      ensures Valid() && MapsFor(es, index, length)
      ensures match GetEntry(old(Rest()))
              case None => !ok
              case Some(g) => ok && es == es0 + [g.value] && Rest() == g.rest
    {
      var e := ReadEntry();
      if e.None? {
        return false, index0, length0, es0;
      }
      AddEntry(es0, e.value);
      ok, es := true, es0 + [e.value];
      index := index0[e.value.code := Int(e.value.index)];
      length := length0[e.value.code := Int(e.value.length)];
    }

    method ReadEntries(n: nat) returns (ok: bool, index: map<Bytes, int>, length: map<Bytes, int>, ghost es: seq<Entry>)
      requires Valid()
      modifies this`filePos, this`count, this`buffer
      ensures Valid() && MapsFor(es, index, length)
      ensures match GetEntries(old(Rest()), n)
              case None => !ok
              case Some(g) => ok && es == g.value && Rest() == g.rest
    {
      index, length, es := map[], map[], [];
      NoMaps();
      ghost var expected := GetEntries(Rest(), n);
      PrependNothing(expected);
      for i := 0 to n
        invariant Valid() && MapsFor(es, index, length)
        invariant StillExpected(expected, es, Rest(), n - i)
      {
        ExpectNext(expected, es, Rest(), n - i);
        ok, index, length, es := AddNextEntry(index, length, es);
        if !ok {
          return;
        }
      }
      NoEntries(Rest(), es);
      ok := true;
    }

    /** Version and number of entries. */
    method ReadCount() returns (n: Option<nat>)
      requires Valid()
      modifies this`filePos, this`count, this`buffer
      ensures Valid()
      ensures match GetCount(old(Rest()))
              case None => n.None?
              case Some(g) => n == Some(g.value) && Rest() == g.rest
    {
      var version := ReadByte();
      if version.None? || version.value != 0 {
        return None;
      }
      n := ReadUvarint();
    }

    /** What is still to come begins where the count less the buffer says. */
    lemma Position()
      requires Valid() && counting
      ensures count - |buffer| == |data| - |Rest()|
    {
    }

    /** For every byte string: the metadata is what its header says, and the content begins right
        behind the header, however much was read ahead. */
    method ReadMetadata() returns (r: Reading<()>)
      requires Valid() && counting && Rest() == data
      modifies this
      ensures Valid()
      ensures match ReadHeader(data, limits)
              case Refused => r.Refused?
              case Panics => r.Panics?
              case Done(g) => r.Done? && SameIndex(|data| - |g.rest|, IndexMap(g.value), LengthMap(g.value))
    {
      var n := ReadCount();
      if n.None? {
        return Refused;
      }
      if n.value > limits.strings {
        return Panics;
      }
      var ok := ReadIndex(n.value);
      r := if ok then Done(()) else Refused;
    }

    /** The entries, and where the content begins. */
    method ReadIndex(n: nat) returns (ok: bool)
      requires Valid() && counting
      modifies this`filePos, this`count, this`buffer, this`metadataIndex, this`domainIndex, this`domainLength
      ensures Valid()
      ensures match GetEntries(old(Rest()), n)
              case None => !ok
              case Some(g) => ok && SameIndex(|data| - |g.rest|, IndexMap(g.value), LengthMap(g.value))
    {
      var good, index, length, es := ReadEntries(n);
      if !good {
        return false;
      }
      Position();
      domainIndex, domainLength := index, length;
      metadataIndex := count - |buffer|;
      ok := true;
    }

    method ReadItem() returns (item: Option<Item>)
      requires Valid()
      modifies this`filePos, this`count, this`buffer
      ensures Valid()
      ensures match GetItem(old(Rest()))
              case None => item.None?
              case Some(g) => item == Some(g.value) && Rest() == g.rest
    {
      var kind := ReadByte();
      if kind.None? {
        return None;
      }
      var value := ReadString();
      if value.None? {
        return None;
      }
      item := Some(Item(kind.value, value.value));
    }

    /** Seek and reset: from here on the counter is out of the way. */
    method SeekTo(p: nat)
      requires Valid()
      modifies this`filePos, this`buffer, this`counting
      ensures Valid() && Rest() == From(data, p)
    {
      filePos := if p <= |data| then p else |data|;
      buffer := [];
      counting := false;
    }

    /** The items of a code are what stands at its index behind the metadata. */
    method Read(code: Bytes, whenEmpty: Bytes -> Option<seq<Item>>) returns (items: Reading<seq<Item>>)
      requires Valid() && domainIndex.Keys == domainLength.Keys
      modifies this`filePos, this`count, this`buffer, this`counting
      ensures Valid()
      ensures items == CodeRead(limits, data, metadataIndex, domainIndex, domainLength, code, whenEmpty)
    {
      if code !in domainIndex {
        return Refused;
      }
      var p := Add(metadataIndex, domainIndex[code]);
      if p < 0 {
        return Refused;
      }
      SeekTo(p);
      if domainLength[code] < 0 || domainLength[code] > limits.items {
        return Panics;
      }
      if domainLength[code] == 0 {
        return Reread(whenEmpty(From(data, p)));
      }
      var list := ReadItems(domainLength[code]);
      items := Reread(list);
    }

    method ReadItems(n: nat) returns (items: Option<seq<Item>>)
      requires Valid()
      modifies this`filePos, this`count, this`buffer
      ensures Valid() && items == GetItems(old(Rest()), n)
    {
      var list: seq<Item> := [];
      ghost var rest := Rest();
      ghost var expected := GetItems(rest, n);
      FollowingNothing(expected);
      for i := 0 to n
        invariant Valid() && rest == Rest()
        invariant expected == Following(list, GetItems(rest, n - i))
      {
        OneItem(rest, n - i);
        var item := ReadItem();
        if item.None? {
          return None;
        }
        rest := Rest();
        FollowingTwice(list, item.value, GetItems(rest, n - i - 1));
        list := list + [item.value];
      }
      NoItems(rest, list);
      items := Some(list);
    }
  }

  function Following(list: seq<Item>, l: Option<seq<Item>>): Option<seq<Item>> {
    if l.None? then None else Some(list + l.value)
  }

  lemma NoItems(s: Bytes, list: seq<Item>)
    ensures Following(list, GetItems(s, 0)) == Some(list)
  {
    assert list + [] == list;
  }

  lemma FollowingNothing(l: Option<seq<Item>>)
    ensures Following([], l) == l
  {
    assert l.Some? ==> [] + l.value == l.value;
  }

  lemma OneItem(s: Bytes, n: nat)
    requires n > 0
    ensures GetItems(s, n) ==
            if GetItem(s).None? then None
            else Following([GetItem(s).value.value], GetItems(GetItem(s).value.rest, n - 1))
  {
  }

  lemma FollowingTwice(list: seq<Item>, i: Item, l: Option<seq<Item>>)
    ensures Following(list, Following([i], l)) == Following(list + [i], l)
  {
    if l.Some? {
      assert list + ([i] + l.value) == (list + [i]) + l.value;
    }
  }

  function Prepend(es: seq<Entry>, g: Option<Got<seq<Entry>>>): Option<Got<seq<Entry>>> {
    if g.None? then None else Some(Got(es + g.value.value, g.value.rest))
  }

  lemma OneEntry(s: Bytes, n: nat)
    requires n > 0
    ensures GetEntries(s, n) ==
            if GetEntry(s).None? then None
            else Prepend([GetEntry(s).value.value], GetEntries(GetEntry(s).value.rest, n - 1))
  {
  }

  /** What the whole header gives is `es` followed by `n` more entries. */
  predicate StillExpected(expected: Option<Got<seq<Entry>>>, es: seq<Entry>, s: Bytes, n: nat) {
    expected == Prepend(es, GetEntries(s, n))
  }

  lemma ExpectNext(expected: Option<Got<seq<Entry>>>, es: seq<Entry>, s: Bytes, n: nat)
    requires n > 0 && StillExpected(expected, es, s, n)
    ensures match GetEntry(s)
            case None => expected == None
            case Some(g) => StillExpected(expected, es + [g.value], g.rest, n - 1)
  {
    OneEntry(s, n);
    if GetEntry(s).Some? {
      PrependTwice(es, GetEntry(s).value.value, GetEntries(GetEntry(s).value.rest, n - 1));
    }
  }

  lemma NoEntries(s: Bytes, es: seq<Entry>)
    ensures Prepend(es, GetEntries(s, 0)) == Some(Got(es, s))
  {
    assert es + [] == es;
  }

  lemma AddEntry(es: seq<Entry>, e: Entry)
    ensures IndexMap(es + [e]) == IndexMap(es)[e.code := Int(e.index)]
    ensures LengthMap(es + [e]) == LengthMap(es)[e.code := Int(e.length)]
  {
    assert (es + [e])[..|es|] == es;
  }

  lemma PrependNothing(g: Option<Got<seq<Entry>>>)
    ensures Prepend([], g) == g
  {
    assert g.Some? ==> [] + g.value.value == g.value.value;
  }

  lemma PrependTwice(es: seq<Entry>, e: Entry, g: Option<Got<seq<Entry>>>)
    ensures Prepend(es, Prepend([e], g)) == Prepend(es + [e], g)
  {
    if g.Some? {
      assert es + ([e] + g.value.value) == (es + [e]) + g.value.value;
    }
  }

  // ---------------------------------------------------------------- round trip

  /** The two maps hold what entry `i` says. */
  predicate InMaps(es: seq<Entry>, i: nat)
    requires i < |es|
  {
    && es[i].code in IndexMap(es) && IndexMap(es)[es[i].code] == Int(es[i].index)
    && es[i].code in LengthMap(es) && LengthMap(es)[es[i].code] == Int(es[i].length)
  }

  predicate DistinctEntries(es: seq<Entry>) {
    forall i, j :: 0 <= i < j < |es| ==> es[i].code != es[j].code
  }

  lemma {:induction false} MapsOfEntries(es: seq<Entry>, i: nat)
    requires i < |es| && DistinctEntries(es)
    ensures InMaps(es, i)
  {
    var n := |es| - 1;
    if i == n {
    } else {
      assert DistinctEntries(es[..n]);
      MapsOfEntries(es[..n], i);
      assert es[..n][i] == es[i] && es[i].code != es[n].code;
    }
  }

  lemma {:induction false} MapKeys(es: seq<Entry>)
    ensures IndexMap(es).Keys == LengthMap(es).Keys == set e | e in es :: e.code
  {
    if es == [] {
    } else {
      var n := |es| - 1;
      MapKeys(es[..n]);
      assert forall e :: e in es <==> e in es[..n] || e == es[n];
    }
  }

  /** Reading a code from its index behind the header gives the items. */
  predicate CodeReadable(file: Bytes, es: seq<Entry>, start: nat, code: Bytes, items: seq<Item>) {
    CodeIn(file, IndexMap(es), LengthMap(es), start, code, items)
  }

  predicate CodeIn(file: Bytes, index: map<Bytes, int>, length: map<Bytes, int>, start: nat, code: Bytes, items: seq<Item>) {
    && code in index && code in length
    && start + index[code] >= 0 && length[code] == |items|
    && ItemsStandAt(file, start + index[code], items)
  }

  /** What the entries say about a file whose content begins at `start`: exactly the codes of the map,
      and exactly the items of each. */
  predicate Readable(file: Bytes, es: seq<Entry>, start: nat, domains: Domains) {
    && |es| == |domains| && IndexMap(es).Keys == domains.Keys
    && forall code {:trigger CodeReadable(file, es, start, code, domains[code])} :: code in domains ==>
         CodeReadable(file, es, start, code, domains[code])
  }

  /** The file has the header `es` and then the content, and the header says what the map holds. */
  predicate ReadableFile(file: Bytes, es: seq<Entry>, content: Bytes, domains: Domains) {
    && |content| <= |file| && GetHeader(file) == Some(Got(es, content))
    && Readable(file, es, |file| - |content|, domains)
  }

  lemma EntriesAreReadable(keys: seq<Bytes>, domains: Domains)
    requires KeysOf(keys, domains) && (forall k :: k in keys ==> k in domains) && Fits(keys, domains)
    ensures Readable(FileBytes(keys, domains), EntriesFor(keys, domains), |HeaderBytes(EntriesFor(keys, domains))|, domains)
  {
    var es := EntriesFor(keys, domains);
    CodesOf(keys, domains);
    DistinctKeys(keys);
    ElementCount(keys);
    forall code | code in domains
      ensures CodeReadable(FileBytes(keys, domains), es, |HeaderBytes(es)|, code, domains[code])
    {
      CodeRoundTrips(keys, domains, code);
    }
  }

  lemma Assemble(file: Bytes, es: seq<Entry>, start: nat, content: Bytes, domains: Domains)
    requires GetHeader(file) == Some(Got(es, content)) && |file| == start + |content| && Readable(file, es, start, domains)
    ensures ReadableFile(file, es, content, domains)
  {
  }

  /** A written file has a header, and what it says is what the map holds. */
  lemma RoundTrip(keys: seq<Bytes>, domains: Domains)
    requires KeysOf(keys, domains) && (forall k :: k in keys ==> k in domains) && Fits(keys, domains)
    ensures ReadableFile(FileBytes(keys, domains), EntriesFor(keys, domains), Content(keys, domains), domains)
  {
    var es := EntriesFor(keys, domains);
    FileRoundTrip(keys, domains);
    EntriesAreReadable(keys, domains);
    Assemble(FileBytes(keys, domains), es, |HeaderBytes(es)|, Content(keys, domains), domains);
  }

  lemma CodesOf(keys: seq<Bytes>, domains: Domains)
    requires KeysOf(keys, domains) && forall k :: k in keys ==> k in domains
    ensures
      var es := EntriesFor(keys, domains);
      IndexMap(es).Keys == LengthMap(es).Keys == domains.Keys
  {
    MapKeys(EntriesFor(keys, domains));
    forall code ensures code in (set e | e in EntriesFor(keys, domains) :: e.code) <==> code in domains {
      EntryOf(keys, domains, code);
    }
  }

  /** An entry whose items stand where it says is readable. */
  lemma EntryReadable(file: Bytes, es: seq<Entry>, start: nat, i: nat, items: seq<Item>)
    requires i < |es| && DistinctEntries(es)
    requires SmallEntry(es[i]) && es[i].length == |items| && ItemsStandAt(file, start + es[i].index, items)
    ensures CodeReadable(file, es, start, es[i].code, items)
  {
    MapsOfEntries(es, i);
  }

  lemma DistinctCodes(keys: seq<Bytes>, domains: Domains)
    requires KeysOf(keys, domains) && forall k :: k in keys ==> k in domains
    ensures DistinctEntries(EntriesFor(keys, domains))
  {
    DistinctKeys(keys);
  }

  lemma CodeAt(keys: seq<Bytes>, domains: Domains, i: nat)
    requires KeysOf(keys, domains) && (forall k :: k in keys ==> k in domains) && Fits(keys, domains) && i < |keys|
    ensures
      var es := EntriesFor(keys, domains);
      CodeReadable(FileBytes(keys, domains), es, |HeaderBytes(es)|, keys[i], domains[keys[i]])
  {
    var es := EntriesFor(keys, domains);
    DistinctCodes(keys, domains);
    EntriesAreSmall(keys, domains, i);
    CodeRoundTrip(keys, domains, i);
    EntryReadable(FileBytes(keys, domains), es, |HeaderBytes(es)|, i, domains[keys[i]]);
  }

  lemma CodeRoundTrips(keys: seq<Bytes>, domains: Domains, code: Bytes)
    requires KeysOf(keys, domains) && (forall k :: k in keys ==> k in domains) && Fits(keys, domains) && code in domains
    ensures
      var es := EntriesFor(keys, domains);
      CodeReadable(FileBytes(keys, domains), es, |HeaderBytes(es)|, code, domains[code])
  {
    assert code in Elements(keys);
    var i :| 0 <= i < |keys| && keys[i] == code;
    CodeAt(keys, domains, i);
  }

  lemma EntryOf(keys: seq<Bytes>, domains: Domains, code: Bytes)
    requires KeysOf(keys, domains) && forall k :: k in keys ==> k in domains
    ensures code in (set e | e in EntriesFor(keys, domains) :: e.code) <==> code in domains
  {
    var es := EntriesFor(keys, domains);
    if code in domains {
      assert code in Elements(keys);
      var i :| 0 <= i < |keys| && keys[i] == code;
      assert es[i] in es && es[i].code == code;
    }
    if code in (set e | e in es :: e.code) {
      var e :| e in es && e.code == code;
      var i :| 0 <= i < |es| && es[i] == e;
      assert keys[i] in Elements(keys);
    }
  }

  /** The map and its file are as large as Go lets them be: both existed in memory when the file was
      written. */
  predicate Within(limits: Limits, file: Bytes, domains: Domains) {
    && |file| < TWO63 && |domains| <= limits.strings
    && forall code {:trigger domains[code]} :: code in domains ==> |domains[code]| <= limits.items
  }

  lemma ReadableHeader(limits: Limits, file: Bytes, es: seq<Entry>, rest: Bytes)
    requires GetHeader(file) == Some(Got(es, rest)) && |es| <= limits.strings
    ensures ReadHeader(file, limits) == Done(Got(es, rest))
  {
  }

  lemma ReadableCode(
    limits: Limits, file: Bytes, start: int, index: map<Bytes, int>, length: map<Bytes, int>,
    code: Bytes, items: seq<Item>, whenEmpty: Bytes -> Option<seq<Item>>)
    requires code in index && code in length && length[code] == |items| && |file| < TWO63 && 0 < |items| <= limits.items
    requires start + index[code] >= 0 && ItemsStandAt(file, start + index[code], items)
    ensures CodeRead(limits, file, start, index, length, code, whenEmpty) == Done(items)
  {
  }

  /** The codes are those of the map, and the code at hand, if it has items, is read as its items. */
  predicate ReadsBack(
    limits: Limits, file: Bytes, index: map<Bytes, int>, length: map<Bytes, int>, start: int, domains: Domains,
    code: Bytes, whenEmpty: Bytes -> Option<seq<Item>>)
  {
    var read := CodeRead(limits, file, start, index, length, code, whenEmpty);
    && index.Keys == domains.Keys
    && (code !in domains ==> read.Refused?)
    && (code in domains && domains[code] != [] ==> read == Done(domains[code]))
  }

  /** What `Readable` and `Within` say about one code. */
  predicate OneReadable(limits: Limits, file: Bytes, index: map<Bytes, int>, length: map<Bytes, int>, start: nat, domains: Domains, code: Bytes) {
    && |file| < TWO63 && index.Keys == domains.Keys
    && (code in domains ==> CodeIn(file, index, length, start, code, domains[code]) && |domains[code]| <= limits.items)
  }

  lemma ReadableOne(limits: Limits, file: Bytes, domains: Domains, es: seq<Entry>, start: nat, code: Bytes)
    requires Readable(file, es, start, domains) && Within(limits, file, domains)
    ensures OneReadable(limits, file, IndexMap(es), LengthMap(es), start, domains, code)
  {
    assert code in domains ==> CodeReadable(file, es, start, code, domains[code]);
  }

  lemma ReadableReadsBack(
    limits: Limits, file: Bytes, index: map<Bytes, int>, length: map<Bytes, int>, start: nat, domains: Domains,
    code: Bytes, whenEmpty: Bytes -> Option<seq<Item>>)
    requires OneReadable(limits, file, index, length, start, domains, code)
    ensures ReadsBack(limits, file, index, length, start, domains, code, whenEmpty)
  {
    if code in domains && domains[code] != [] {
      ReadableCode(limits, file, start, index, length, code, domains[code], whenEmpty);
    } else if code !in domains {
      assert code !in index.Keys;
    }
  }

  lemma SameKeys(es: seq<Entry>)
    ensures IndexMap(es).Keys == LengthMap(es).Keys
  {
    MapKeys(es);
  }

  /** Open a file whose header is sound. */
  method Open(file: Bytes, ghost es: seq<Entry>, ghost rest: Bytes, chunk: nat -> nat, limits: Limits) returns (reader: Reader)
    requires ReadHeader(file, limits) == Done(Got(es, rest))
    ensures fresh(reader) && reader.Valid() && reader.data == file && reader.limits == limits
    ensures reader.SameIndex(|file| - |rest|, IndexMap(es), LengthMap(es))
  {
    reader := new Reader(file, chunk, limits);
    var r := reader.ReadMetadata();
  }

  /** Open a file whose header is sound and read one code of it. */
  method OpenAndRead(
    file: Bytes, ghost es: seq<Entry>, ghost rest: Bytes, chunk: nat -> nat, limits: Limits,
    code: Bytes, whenEmpty: Bytes -> Option<seq<Item>>)
    returns (codes: set<Bytes>, items: Reading<seq<Item>>)
    requires ReadHeader(file, limits) == Done(Got(es, rest))
    ensures codes == IndexMap(es).Keys
    ensures items == CodeRead(limits, file, |file| - |rest|, IndexMap(es), LengthMap(es), code, whenEmpty)
  {
    var reader := Open(file, es, rest, chunk, limits);
    SameKeys(es);
    codes := reader.domainIndex.Keys;
    items := reader.Read(code, whenEmpty);
  }

  lemma CodeReadsBack(
    limits: Limits, file: Bytes, es: seq<Entry>, start: nat, domains: Domains, code: Bytes, whenEmpty: Bytes -> Option<seq<Item>>)
    requires Readable(file, es, start, domains) && Within(limits, file, domains)
    ensures ReadsBack(limits, file, IndexMap(es), LengthMap(es), start, domains, code, whenEmpty)
  {
    ReadableOne(limits, file, domains, es, start, code);
    ReadableReadsBack(limits, file, IndexMap(es), LengthMap(es), start, domains, code, whenEmpty);
  }

  lemma HeaderReadsBack(limits: Limits, file: Bytes, es: seq<Entry>, content: Bytes, domains: Domains)
    requires ReadableFile(file, es, content, domains) && Within(limits, file, domains)
    ensures ReadHeader(file, limits) == Done(Got(es, content))
    ensures |content| <= |file| && Readable(file, es, |file| - |content|, domains)
  {
    ReadableHeader(limits, file, es, content);
  }

  /** A written map as a readable file. */
  method WriteReadable(domains: Domains, ghost sorted: seq<Bytes>, ghost limits: Limits)
    returns (file: Bytes, ghost es: seq<Entry>, ghost content: Bytes)
    requires KeysOf(sorted, domains) && (forall k :: k in sorted ==> k in domains)
    requires Fits(sorted, domains) && Within(limits, FileBytes(sorted, domains), domains)
    ensures ReadableFile(file, es, content, domains) && Within(limits, file, domains)
  {
    var keys;
    file, keys := Write(domains);
    SortedIsUnique(keys, sorted);
    RoundTrip(keys, domains);
    es, content := EntriesFor(keys, domains), Content(keys, domains);
  }

  /** A readable file gives back the codes of its map and, for a code with items, these. */
  method ReadBack(
    file: Bytes, ghost domains: Domains, ghost es: seq<Entry>, ghost content: Bytes, chunk: nat -> nat, limits: Limits,
    code: Bytes, whenEmpty: Bytes -> Option<seq<Item>>)
    returns (codes: set<Bytes>, items: Reading<seq<Item>>)
    requires ReadableFile(file, es, content, domains) && Within(limits, file, domains)
    ensures codes == domains.Keys
    ensures code !in domains ==> items.Refused?
    ensures code in domains && domains[code] != [] ==> items == Done(domains[code])
  {
    HeaderReadsBack(limits, file, es, content, domains);
    CodeReadsBack(limits, file, es, |file| - |content|, domains, code, whenEmpty);
    codes, items := OpenAndRead(file, es, content, chunk, limits, code, whenEmpty);
  }

  /** A map written and read back: the codes are those of the map, whatever the reads returned, and
      every code with items gives its items. `sorted` are its codes, for saying how large the file is. */
  method WriteThenRead(domains: Domains, ghost sorted: seq<Bytes>, chunk: nat -> nat, limits: Limits, code: Bytes, whenEmpty: Bytes -> Option<seq<Item>>)
    returns (codes: set<Bytes>, items: Reading<seq<Item>>)
    requires KeysOf(sorted, domains) && (forall k :: k in sorted ==> k in domains)
    requires Fits(sorted, domains) && Within(limits, FileBytes(sorted, domains), domains)
    ensures codes == domains.Keys
    ensures code !in domains ==> items.Refused?
    ensures code in domains && domains[code] != [] ==> items == Done(domains[code])
  {
    var file, es, content := WriteReadable(domains, sorted, limits);
    codes, items := ReadBack(file, domains, es, content, chunk, limits, code, whenEmpty);
  }
}
