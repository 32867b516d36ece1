/** Version names (common/badversion/version.go): printing, parsing and comparing. */
module Version {
  import opened Lists

  const MAX_INT := 0x7fff_ffff_ffff_ffff
  const MAX_UINT := 0xffff_ffff_ffff_ffff

  /** A 64-bit Go int. */
  type Int = n: int | -MAX_INT - 1 <= n <= MAX_INT

  datatype Version = Version(
    major: Int, minor: Int, patch: Int, commit: string, preReleaseIdentifier: string, preReleaseVersion: Int)

  // ---------------------------------------------------------------- numbers

  predicate IsDigit(c: char) { '0' <= c <= '9' }

  function Digits(n: nat): (s: string)
    ensures |s| >= 1 && forall c :: c in s ==> IsDigit(c)
  {
    if n < 10 then [n as char + '0'] else Digits(n / 10) + [(n % 10) as char + '0']
  }

  function Itoa(n: int): string {
    if n < 0 then "-" + Digits(-n) else Digits(n)
  }

  predicate AllDigits(s: string) {
    forall c :: c in s ==> IsDigit(c)
  }

  function DigitValue(c: char): nat
    requires IsDigit(c)
  {
    (c - '0') as nat
  }

  /** The loop of `strconv.ParseUint` behind digits worth `n`: `None` for what is not a digit, unless the
      digits before it are already too many for 64 bits. */
  function ParseUint(s: string, n: nat): Option<nat> {
    if s == "" then Some(n)
    else if !IsDigit(s[0]) then None
    else if 10 * n + DigitValue(s[0]) > MAX_UINT then Some(MAX_UINT)
    else ParseUint(s[1..], 10 * n + DigitValue(s[0]))
  }

  /** `strconv.Atoi` with the error dropped: zero for what is not a number, the nearest 64-bit
      number for one that is too large. */
  function Atoi(s: string): Int {
    var signed := s != "" && (s[0] == '-' || s[0] == '+');
    var digits := if signed then s[1..] else s;
    var u := ParseUint(digits, 0);
    if digits == "" || u.None? then 0
    else if signed && s[0] == '-' then (if u.value > MAX_INT + 1 then -MAX_INT - 1 else 0 - u.value)
    else if u.value > MAX_INT then MAX_INT
    else u.value
  }

  /** What digits are worth behind digits worth `n`. */
  function Worth(s: string, n: nat): nat
    requires AllDigits(s)
  {
    if s == "" then n
    else
      assert s[0] in s && forall c :: c in s[1..] ==> c in s;
      Worth(s[1..], 10 * n + DigitValue(s[0]))
  }

  lemma {:induction false} WorthIsParsed(s: string, n: nat)
    requires AllDigits(s)
    ensures n <= Worth(s, n) && (Worth(s, n) <= MAX_UINT ==> ParseUint(s, n) == Some(Worth(s, n)))
    decreases |s|
  {
    if s == "" {
    } else {
      assert s[0] in s && forall c :: c in s[1..] ==> c in s;
      WorthIsParsed(s[1..], 10 * n + DigitValue(s[0]));
    }
  }

  lemma {:induction false} WorthOfOneMore(s: string, n: nat, c: char)
    requires AllDigits(s) && IsDigit(c)
    ensures AllDigits(s + [c]) && Worth(s + [c], n) == 10 * Worth(s, n) + DigitValue(c)
    decreases |s|
  {
    var t := s + [c];
    assert forall x :: x in t <==> x in s || x == c;
    if s == "" {
      assert t[1..] == "" && t[0] == c;
    } else {
      assert s[0] in s && forall x :: x in s[1..] ==> x in s;
      assert t[1..] == s[1..] + [c] && t[0] == s[0];
      WorthOfOneMore(s[1..], 10 * n + DigitValue(s[0]), c);
    }
  }

  lemma {:induction false} WorthOfDigits(n: nat)
    ensures AllDigits(Digits(n)) && Worth(Digits(n), 0) == n
  {
    if n < 10 {
      var s := Digits(n);
      assert s[1..] == "" && DigitValue(s[0]) == n;
    } else {
      WorthOfDigits(n / 10);
      WorthOfOneMore(Digits(n / 10), 0, (n % 10) as char + '0');
    }
  }

  lemma AtoiOfDigits(n: nat)
    requires n <= MAX_INT
    ensures Atoi(Digits(n)) == n
  {
    WorthOfDigits(n);
    WorthIsParsed(Digits(n), 0);
    assert Digits(n)[0] in Digits(n);
  }

  lemma {:induction false} TooManyDigits(s: string, n: nat, rest: string)
    requires AllDigits(s) && n <= MAX_UINT < Worth(s, n)
    ensures ParseUint(s + rest, n) == Some(MAX_UINT)
    decreases |s|
  {
    if s == "" {
      assert false;
    } else {
      assert s[0] in s && forall c :: c in s[1..] ==> c in s;
      assert (s + rest)[1..] == s[1..] + rest && (s + rest)[0] == s[0];
      if 10 * n + DigitValue(s[0]) <= MAX_UINT {
        TooManyDigits(s[1..], 10 * n + DigitValue(s[0]), rest);
      }
    }
  }

  /** A number that is too large becomes the largest one, and beyond 64 bits whatever follows it. */
  lemma AtoiOfTooLarge(n: nat, rest: string)
    requires n > MAX_INT
    ensures Atoi(Digits(n)) == MAX_INT
    ensures n > MAX_UINT ==> Atoi(Digits(n) + rest) == MAX_INT
  {
    WorthOfDigits(n);
    var s := Digits(n);
    assert s[0] in s && (s + rest)[0] == s[0];
    if n <= MAX_UINT {
      WorthIsParsed(s, 0);
    } else {
      TooManyDigits(s, 0, "");
      assert s + "" == s;
      TooManyDigits(s, 0, rest);
    }
  }

  /** What is not a number, short of that, is zero. */
  lemma AtoiOfNoNumber(n: nat, c: char, rest: string)
    requires n <= MAX_UINT && !IsDigit(c)
    ensures Atoi(Digits(n) + [c] + rest) == 0 && Atoi("") == 0
  {
    WorthOfDigits(n);
    var s := Digits(n);
    StopsAt(s, 0, c, rest);
    assert s[0] in s && (s + [c] + rest)[0] == s[0];
  }

  lemma {:induction false} StopsAt(s: string, n: nat, c: char, rest: string)
    requires AllDigits(s) && Worth(s, n) <= MAX_UINT && !IsDigit(c)
    ensures ParseUint(s + [c] + rest, n) == None
    decreases |s|
  {
    var t := s + [c] + rest;
    if s == "" {
      assert t[0] == c;
    } else {
      assert s[0] in s && forall x :: x in s[1..] ==> x in s;
      assert t[1..] == s[1..] + [c] + rest && t[0] == s[0];
      WorthIsParsed(s[1..], 10 * n + DigitValue(s[0]));
      StopsAt(s[1..], 10 * n + DigitValue(s[0]), c, rest);
    }
  }

  lemma AtoiWithoutMinus(s: string)
    requires '-' !in s
    ensures Atoi(s) >= 0
  {
    if s != "" {
      assert s[0] in s;
    }
  }

  // ---------------------------------------------------------------- splitting

  /** The part before the first separator, all of it when there is none. */
  function Before(s: string, c: char): (r: string)
    ensures c !in r && r <= s
    ensures c !in s ==> r == s
  {
    if s == "" || s[0] == c then "" else [s[0]] + Before(s[1..], c)
  }

  /** `strings.Split`. */
  function Split(s: string, c: char): (r: seq<string>)
    ensures |r| >= 1 && r[0] == Before(s, c)
    ensures |r| >= 2 <==> c in s
    ensures forall p :: p in r ==> c !in p && forall x :: x in p ==> x in s
  {
    var p := Before(s, c);
    if |p| == |s| then [p]
    else
      SplitPoint(s, c);
      [p] + Split(s[|p| + 1..], c)
  }

  lemma {:induction false} SplitPoint(s: string, c: char)
    ensures |Before(s, c)| < |s| ==> s[|Before(s, c)|] == c
    ensures c in s ==> |Before(s, c)| < |s|
  {
    if s != "" && s[0] != c {
      SplitPoint(s[1..], c);
    }
  }

  /** A separator after a piece that has none. */
  lemma SplitAt(a: string, c: char, b: string)
    requires c !in a
    ensures Split(a + [c] + b, c) == [a] + Split(b, c)
  {
    var s := a + [c] + b;
    BeforeSeparator(a, c, b);
    assert s[|a| + 1..] == b;
  }

  lemma {:induction false} BeforeSeparator(a: string, c: char, b: string)
    requires c !in a
    ensures Before(a + [c] + b, c) == a
  {
    if a == "" {
    } else {
      assert (a + [c] + b)[1..] == a[1..] + [c] + b;
      BeforeSeparator(a[1..], c, b);
    }
  }

  // ---------------------------------------------------------------- printing and parsing

  function Numbers(v: Version): string {
    Itoa(v.major) + "." + Itoa(v.minor) + "." + Itoa(v.patch)
  }

  function String(v: Version): string {
    if v.preReleaseIdentifier == "" then Numbers(v)
    else Numbers(v) + "-" + v.preReleaseIdentifier + "." + Itoa(v.preReleaseVersion)
  }

  function ParseNumbers(v: Version, name: string): Version {
    var e := Split(name, '.');
    v.(major := Atoi(e[0]),
       minor := if |e| >= 2 then Atoi(e[1]) else 0,
       patch := if |e| >= 3 then Atoi(e[2]) else 0)
  }

  function ParseIdentifier(v: Version, identifier: string): Version {
    if '.' in identifier then
      var p := Split(identifier, '.');
      v.(preReleaseIdentifier := p[0], preReleaseVersion := Atoi(p[1]))
    else if "alpha" <= identifier then v.(preReleaseIdentifier := "alpha", preReleaseVersion := Atoi(identifier[5..]))
    else if "beta" <= identifier then v.(preReleaseIdentifier := "beta", preReleaseVersion := Atoi(identifier[4..]))
    else v.(commit := identifier)
  }

  function Parse(name: string): Version {
    var zero := Version(0, 0, 0, "", "", 0);
    var s := if "v" <= name then name[1..] else name;
    if '-' in s then
      var parts := Split(s, '-');
      ParseNumbers(ParseIdentifier(zero, parts[1]), parts[0])
    else ParseNumbers(zero, s)
  }

  // ---------------------------------------------------------------- round trip

  /** A version that its own name determines. */
  predicate Canonical(v: Version) {
    && v.major >= 0 && v.minor >= 0 && v.patch >= 0
    && v.commit == ""
    && if v.preReleaseIdentifier == "" then v.preReleaseVersion == 0
       else '.' !in v.preReleaseIdentifier && '-' !in v.preReleaseIdentifier && v.preReleaseVersion >= 0
  }

  lemma ThreeParts(a: string, b: string, c: string)
    requires '.' !in a && '.' !in b && '.' !in c
    ensures Split(a + "." + b + "." + c, '.') == [a, b, c]
  {
    assert a + "." + b + "." + c == a + ['.'] + (b + ['.'] + c);
    SplitAt(a, '.', b + ['.'] + c);
    SplitAt(b, '.', c);
    NoSplit(c, '.');
  }

  lemma NoSplit(s: string, c: char)
    requires c !in s
    ensures Split(s, c) == [s]
  {
  }

  lemma NumbersRoundTrip(v: Version, w: Version)
    requires v.major >= 0 && v.minor >= 0 && v.patch >= 0
    ensures ParseNumbers(w, Numbers(v)) == w.(major := v.major, minor := v.minor, patch := v.patch)
  {
    AtoiOfDigits(v.major);
    AtoiOfDigits(v.minor);
    AtoiOfDigits(v.patch);
    ThreeParts(Digits(v.major), Digits(v.minor), Digits(v.patch));
  }

  lemma NumbersAreDigitsAndDots(v: Version)
    requires v.major >= 0 && v.minor >= 0 && v.patch >= 0
    ensures Numbers(v) != "" && forall c :: c in Numbers(v) ==> IsDigit(c) || c == '.'
  {
    var a, b, c := Digits(v.major), Digits(v.minor), Digits(v.patch);
    assert Numbers(v) == a + "." + b + "." + c;
  }

  lemma DashedName(numbers: string, tail: string)
    requires '-' !in numbers && '-' !in tail && numbers != "" && numbers[0] != 'v'
    ensures Parse(numbers + ['-'] + tail) == ParseNumbers(ParseIdentifier(Version(0, 0, 0, "", "", 0), tail), numbers)
  {
    var name := numbers + ['-'] + tail;
    assert name[0] == numbers[0] && name[|numbers|] == '-';
    SplitAt(numbers, '-', tail);
    NoSplit(tail, '-');
  }

  lemma DottedIdentifier(v: Version, id: string, n: string)
    requires '.' !in id && '.' !in n
    ensures ParseIdentifier(v, id + ['.'] + n) == v.(preReleaseIdentifier := id, preReleaseVersion := Atoi(n))
  {
    assert (id + ['.'] + n)[|id|] == '.';
    SplitAt(id, '.', n);
    NoSplit(n, '.');
  }

  lemma ReleaseRoundTrip(v: Version)
    requires v.major >= 0 && v.minor >= 0 && v.patch >= 0
    ensures Parse(Numbers(v)) == Version(v.major, v.minor, v.patch, "", "", 0)
  {
    NumbersAreDigitsAndDots(v);
    assert Numbers(v)[0] in Numbers(v);
    assert '-' !in Numbers(v) && !("v" <= Numbers(v));
    NumbersRoundTrip(v, Version(0, 0, 0, "", "", 0));
  }

  lemma PreReleaseRoundTrip(v: Version, id: string, n: string)
    requires v.major >= 0 && v.minor >= 0 && v.patch >= 0
    requires '.' !in id && '-' !in id && '.' !in n && '-' !in n
    ensures Parse(Numbers(v) + ['-'] + (id + ['.'] + n)) == Version(v.major, v.minor, v.patch, "", id, Atoi(n))
  {
    var zero := Version(0, 0, 0, "", "", 0);
    NumbersAreDigitsAndDots(v);
    assert Numbers(v)[0] in Numbers(v);
    DashedName(Numbers(v), id + ['.'] + n);
    DottedIdentifier(zero, id, n);
    NumbersRoundTrip(v, zero.(preReleaseIdentifier := id, preReleaseVersion := Atoi(n)));
  }

  /** What a name with proper numbers and a proper identifier parses to. */
  lemma NameRoundTrip(v: Version)
    requires v.major >= 0 && v.minor >= 0 && v.patch >= 0
    requires v.preReleaseIdentifier != "" ==>
               '.' !in v.preReleaseIdentifier && '-' !in v.preReleaseIdentifier && v.preReleaseVersion >= 0
    ensures Parse(String(v)) ==
            v.(commit := "", preReleaseVersion := if v.preReleaseIdentifier == "" then 0 else v.preReleaseVersion)
  {
    if v.preReleaseIdentifier == "" {
      ReleaseRoundTrip(v);
    } else {
      var n := Digits(v.preReleaseVersion);
      AtoiOfDigits(v.preReleaseVersion);
      SameName(Numbers(v), v.preReleaseIdentifier, n);
      PreReleaseRoundTrip(v, v.preReleaseIdentifier, n);
    }
  }

  lemma SameName(a: string, b: string, c: string)
    ensures a + "-" + b + "." + c == a + ['-'] + (b + ['.'] + c)
  {
  }

  /** Whatever is parsed, the numbers are not negative and the identifier has no separator. */
  lemma ParsedIsClean(name: string)
    ensures
      var v := Parse(name);
      && v.major >= 0 && v.minor >= 0 && v.patch >= 0 && v.preReleaseVersion >= 0
      && '.' !in v.preReleaseIdentifier && '-' !in v.preReleaseIdentifier
      && (v.commit != "" ==> v.preReleaseIdentifier == "")
  {
    var zero := Version(0, 0, 0, "", "", 0);
    var s := if "v" <= name then name[1..] else name;
    if '-' in s {
      var parts := Split(s, '-');
      assert parts[0] in parts && parts[1] in parts;
      NumbersAreClean(ParseIdentifier(zero, parts[1]), parts[0]);
      IdentifierIsClean(parts[1]);
    } else {
      NumbersAreClean(zero, s);
    }
  }

  lemma NumbersAreClean(v: Version, name: string)
    requires '-' !in name
    ensures
      var w := ParseNumbers(v, name);
      w.major >= 0 && w.minor >= 0 && w.patch >= 0 && w == v.(major := w.major, minor := w.minor, patch := w.patch)
  {
    var e := Split(name, '.');
    forall p | p in e ensures Atoi(p) >= 0 {
      assert '-' !in p;
      AtoiWithoutMinus(p);
    }
    assert e[0] in e;
    assert |e| >= 2 ==> e[1] in e;
    assert |e| >= 3 ==> e[2] in e;
  }

  lemma IdentifierIsClean(identifier: string)
    requires '-' !in identifier
    ensures
      var v := ParseIdentifier(Version(0, 0, 0, "", "", 0), identifier);
      && v.preReleaseVersion >= 0 && '.' !in v.preReleaseIdentifier && '-' !in v.preReleaseIdentifier
      && (v.commit != "" ==> v.preReleaseIdentifier == "")
  {
    if '.' in identifier {
      var p := Split(identifier, '.');
      assert p[0] in p && p[1] in p;
      AtoiWithoutMinus(p[1]);
    } else if "alpha" <= identifier {
      AtoiWithoutMinus(identifier[5..]);
    } else if "beta" <= identifier {
      AtoiWithoutMinus(identifier[4..]);
    }
  }

  /** Printing and parsing give the version back if and only if it is canonical. */
  lemma RoundTrip(v: Version)
    ensures Parse(String(v)) == v <==> Canonical(v)
  {
    if Canonical(v) {
      NameRoundTrip(v);
    }
    if Parse(String(v)) == v {
      ParsedIsClean(String(v));
      NameRoundTrip(v);
    }
  }

  // ---------------------------------------------------------------- the short name

  /** `BadString`: a patch of zero and the number of a first pre-release are left out, and there is no dot before
      that number. */
  function ShortNumbers(v: Version): string {
    Itoa(v.major) + "." + Itoa(v.minor) + if v.patch > 0 then "." + Itoa(v.patch) else ""
  }

  function ShortTail(v: Version): string {
    v.preReleaseIdentifier + if v.preReleaseVersion > 0 then Itoa(v.preReleaseVersion) else ""
  }

  function BadString(v: Version): string {
    if v.preReleaseIdentifier == "" then ShortNumbers(v) else ShortNumbers(v) + "-" + ShortTail(v)
  }

  lemma TwoParts(a: string, b: string)
    requires '.' !in a && '.' !in b
    ensures Split(a + "." + b, '.') == [a, b]
  {
    assert a + "." + b == a + ['.'] + b;
    SplitAt(a, '.', b);
    NoSplit(b, '.');
  }

  lemma ShortNumbersRoundTrip(v: Version, w: Version)
    requires v.major >= 0 && v.minor >= 0 && v.patch >= 0
    ensures ParseNumbers(w, ShortNumbers(v)) == w.(major := v.major, minor := v.minor, patch := v.patch)
    ensures ShortNumbers(v) != "" && forall c :: c in ShortNumbers(v) ==> IsDigit(c) || c == '.'
  {
    var a, b := Digits(v.major), Digits(v.minor);
    AtoiOfDigits(v.major);
    AtoiOfDigits(v.minor);
    if v.patch > 0 {
      assert ShortNumbers(v) == Numbers(v) by { assert a + "." + b + ("." + Digits(v.patch)) == a + "." + b + "." + Digits(v.patch); }
      NumbersRoundTrip(v, w);
      NumbersAreDigitsAndDots(v);
    } else {
      assert ShortNumbers(v) == a + "." + b;
      TwoParts(a, b);
    }
  }

  lemma ShortDashedName(v: Version, tail: string)
    requires v.major >= 0 && v.minor >= 0 && v.patch >= 0 && '-' !in tail
    ensures
      var w := ParseIdentifier(Version(0, 0, 0, "", "", 0), tail);
      Parse(ShortNumbers(v) + "-" + tail) == w.(major := v.major, minor := v.minor, patch := v.patch)
  {
    var w := ParseIdentifier(Version(0, 0, 0, "", "", 0), tail);
    ShortNumbersRoundTrip(v, w);
    assert ShortNumbers(v)[0] in ShortNumbers(v);
    assert ShortNumbers(v) + "-" + tail == ShortNumbers(v) + ['-'] + tail;
    DashedName(ShortNumbers(v), tail);
  }

  /** A number behind the identifier, or none for zero, is read back. */
  lemma TailNumber(n: Int)
    requires n >= 0
    ensures Atoi(if n > 0 then Itoa(n) else "") == n && '-' !in (if n > 0 then Itoa(n) else "") && '.' !in (if n > 0 then Itoa(n) else "")
  {
    AtoiOfDigits(n);
  }

  lemma TailIdentifier(id: string, number: string)
    requires '.' !in id && '.' !in number && (id == "alpha" || id == "beta")
    ensures
      var zero := Version(0, 0, 0, "", "", 0);
      ParseIdentifier(zero, id + number) == zero.(preReleaseIdentifier := id, preReleaseVersion := Atoi(number))
  {
    var tail := id + number;
    assert tail[..|id|] == id && tail[|id|..] == number;
    if id == "beta" {
      assert tail[0] == 'b' && "alpha"[0] == 'a';
      assert !("alpha" <= tail);
    }
  }

  /** What the short name of an alpha, a beta or a release parses to. */
  lemma ShortNameRoundTrip(v: Version)
    requires Canonical(v) && v.preReleaseIdentifier in ["", "alpha", "beta"]
    ensures Parse(BadString(v)) == v
  {
    var zero := Version(0, 0, 0, "", "", 0);
    if v.preReleaseIdentifier == "" {
      ShortNumbersRoundTrip(v, zero);
      assert ShortNumbers(v)[0] in ShortNumbers(v);
    } else {
      var number := if v.preReleaseVersion > 0 then Itoa(v.preReleaseVersion) else "";
      TailNumber(v.preReleaseVersion);
      TailIdentifier(v.preReleaseIdentifier, number);
      ShortDashedName(v, ShortTail(v));
    }
  }

  /** Printing the short name and parsing give the version back if and only if it is canonical and a release, an
      alpha or a beta: a release candidate comes back as a commit. */
  lemma ShortRoundTrip(v: Version)
    ensures Parse(BadString(v)) == v <==> Canonical(v) && v.preReleaseIdentifier in ["", "alpha", "beta"]
  {
    if Canonical(v) && v.preReleaseIdentifier in ["", "alpha", "beta"] {
      ShortNameRoundTrip(v);
    }
    if Parse(BadString(v)) == v {
      ParsedIsClean(BadString(v));
      if v.preReleaseIdentifier == "" {
        ReleaseComesBack(v);
      } else {
        PreReleaseComesBack(v);
      }
    }
  }

  lemma ReleaseComesBack(v: Version)
    requires v.major >= 0 && v.minor >= 0 && v.patch >= 0 && v.preReleaseIdentifier == ""
    ensures Parse(BadString(v)) == Version(v.major, v.minor, v.patch, "", "", 0)
  {
    ShortNumbersRoundTrip(v, Version(0, 0, 0, "", "", 0));
    assert ShortNumbers(v)[0] in ShortNumbers(v);
  }

  lemma PreReleaseComesBack(v: Version)
    requires v.major >= 0 && v.minor >= 0 && v.patch >= 0 && v.preReleaseVersion >= 0
    requires v.preReleaseIdentifier != "" && '.' !in v.preReleaseIdentifier && '-' !in v.preReleaseIdentifier
    ensures Parse(BadString(v)) == v ==> v.commit == "" && v.preReleaseIdentifier in ["alpha", "beta"]
  {
    var tail := ShortTail(v);
    TailNumber(v.preReleaseVersion);
    assert '.' !in tail && '-' !in tail;
    ShortDashedName(v, tail);
    PlainIdentifier(tail);
  }

  /** An identifier without a dot is an alpha, a beta or a commit. */
  lemma PlainIdentifier(tail: string)
    requires '.' !in tail
    ensures
      var w := ParseIdentifier(Version(0, 0, 0, "", "", 0), tail);
      w.preReleaseIdentifier in ["", "alpha", "beta"] && (w.preReleaseIdentifier != "" ==> w.commit == "")
  {
  }

  /** Anything else behind the dash is kept as a commit. */
  lemma CommitIsKept(v: Version, commit: string)
    requires v.major >= 0 && v.minor >= 0 && v.patch >= 0
    requires '.' !in commit && '-' !in commit && !("alpha" <= commit) && !("beta" <= commit)
    ensures Parse(Numbers(v) + "-" + commit) == Version(v.major, v.minor, v.patch, commit, "", 0)
  {
    NumbersAreDigitsAndDots(v);
    assert Numbers(v)[0] in Numbers(v);
    assert Numbers(v) + "-" + commit == Numbers(v) + ['-'] + commit;
    DashedName(Numbers(v), commit);
    NumbersRoundTrip(v, Version(0, 0, 0, commit, "", 0));
  }

  /** A leading "v" makes no difference, unless there are two. */
  lemma LeadingV(name: string)
    requires !("v" <= name)
    ensures Parse("v" + name) == Parse(name)
  {
    assert ("v" + name)[1..] == name;
  }

  // ---------------------------------------------------------------- comparing

  function Rank(identifier: string): nat {
    if "rc" <= identifier then 1
    else if "beta" <= identifier then 2
    else if "alpha" <= identifier then 3
    else 0
  }

  predicate GreaterThan(v: Version, w: Version) {
    if v.major != w.major then v.major > w.major
    else if v.minor != w.minor then v.minor > w.minor
    else if v.patch != w.patch then v.patch > w.patch
    else
      var a, b := v.preReleaseIdentifier, w.preReleaseIdentifier;
      if a == "" || b == "" then a == "" && b != ""
      else if a == b && v.preReleaseVersion != w.preReleaseVersion then v.preReleaseVersion > w.preReleaseVersion
      else Rank(a) < Rank(b)
  }

  predicate LessThan(v: Version, w: Version) {
    !(v == w || GreaterThan(v, w))
  }

  /** What makes a version the greater one: the first of the numbers that differs; then being a release; then
      the number of a pre-release of the same kind; then the kind, with release candidates before betas before
      alphas. */
  lemma NewerIsGreater(v: Version, w: Version)
    ensures v.major > w.major ==> GreaterThan(v, w)
    ensures v.major == w.major && v.minor > w.minor ==> GreaterThan(v, w)
    ensures v.major == w.major && v.minor == w.minor && v.patch > w.patch ==> GreaterThan(v, w)
    ensures
      v.major == w.major && v.minor == w.minor && v.patch == w.patch ==>
        var a, b := v.preReleaseIdentifier, w.preReleaseIdentifier;
        && (a == "" && b != "" ==> GreaterThan(v, w))
        && (a == b != "" && v.preReleaseVersion > w.preReleaseVersion ==> GreaterThan(v, w))
        && (a == "rc" && b in ["beta", "alpha"] ==> GreaterThan(v, w))
        && (a == "beta" && b == "alpha" ==> GreaterThan(v, w))
  {
    KindsAreRanked();
  }

  lemma KindsAreRanked()
    ensures Rank("rc") == 1 && Rank("beta") == 2 && Rank("alpha") == 3
    ensures "rc" != "beta" && "rc" != "alpha" && "beta" != "alpha"
  {
    assert !("rc" <= "beta") by { assert "beta"[0] != "rc"[0]; }
    assert !("rc" <= "alpha") && !("beta" <= "alpha") by { assert "alpha"[0] != "rc"[0] && "alpha"[0] != "beta"[0]; }
  }

  /** A release, or a pre-release of a known kind. */
  predicate Known(v: Version) {
    Canonical(v) && v.preReleaseIdentifier in ["", "alpha", "beta", "rc"]
  }

  /** The comparison is a strict order on all versions. */
  lemma GreaterThanIsAnOrder(u: Version, v: Version, w: Version)
    ensures !GreaterThan(v, v)
    ensures GreaterThan(u, v) && GreaterThan(v, w) ==> GreaterThan(u, w)
  {
  }

  /** On known versions it is total, and there `LessThan` is its converse. */
  lemma KnownVersionsAreOrdered(v: Version, w: Version)
    requires Known(v) && Known(w)
    ensures v == w || GreaterThan(v, w) || GreaterThan(w, v)
    ensures LessThan(v, w) <==> GreaterThan(w, v)
  {
    KindsAreRanked();
    GreaterThanIsAnOrder(v, w, v);
  }

  /** `LessThan` holds both ways exactly for different versions that the order does not separate. */
  lemma LessThanBothWays(v: Version, w: Version)
    ensures LessThan(v, w) && LessThan(w, v) <==>
            && v != w && v.major == w.major && v.minor == w.minor && v.patch == w.patch
            && (v.preReleaseIdentifier == "" <==> w.preReleaseIdentifier == "")
            && (v.preReleaseIdentifier != "" ==>
                  && Rank(v.preReleaseIdentifier) == Rank(w.preReleaseIdentifier)
                  && (v.preReleaseIdentifier == w.preReleaseIdentifier ==> v.preReleaseVersion == w.preReleaseVersion))
  {
  }

  /** It does so for two commits on the same release. */
  lemma CommitsAreLessThanEachOther()
    ensures
      var a, b := Version(1, 2, 3, "a", "", 0), Version(1, 2, 3, "b", "", 0);
      LessThan(a, b) && LessThan(b, a)
  {
    assert "a"[0] != "b"[0];
  }
}
