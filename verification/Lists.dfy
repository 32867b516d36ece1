/** Facts about duplicate-free lists that several parts of the model share. */
module Lists {

  datatype Option<+T> = None | Some(value: T)

  predicate NoDuplicates<T(==)>(s: seq<T>) {
    forall i, j :: 0 <= i < j < |s| ==> s[i] != s[j]
  }

  function Elements<T>(s: seq<T>): set<T> {
    set x | x in s
  }

  /** The first `n` naturals. */
  function Below(n: nat): (r: set<nat>)
    ensures forall i: nat :: i in r <==> i < n
    ensures |r| == n
  {
    if n == 0 then {} else Below(n - 1) + {n - 1}
  }

  lemma {:induction false} ElementCount<T>(s: seq<T>)
    ensures |Elements(s)| <= |s|
    ensures NoDuplicates(s) <==> |Elements(s)| == |s|
  {
    if s == [] {
    } else {
      var t, x := s[..|s| - 1], s[|s| - 1];
      assert s == t + [x];
      ElementCount(t);
      assert Elements(s) == Elements(t) + {x};
      if NoDuplicates(t) && x in t {
        var k :| 0 <= k < |t| && t[k] == x;
        assert s[k] == s[|t|];
      }
      if !NoDuplicates(t) {
        var i, j :| 0 <= i < j < |t| && t[i] == t[j];
        assert s[i] == s[j];
      }
    }
  }

  lemma SubsetCount<T>(a: set<T>, b: set<T>)
    requires a <= b
    ensures |a| <= |b| && (|a| == |b| <==> a == b)
  {
    assert b == a + (b - a);
  }

  lemma {:induction false} AppendUnique<T>(s: seq<T>, x: T)
    requires NoDuplicates(s) && x !in s
    ensures NoDuplicates(s + [x]) && Elements(s + [x]) == Elements(s) + {x}
  {
    assert forall y :: y in s + [x] <==> y in s || y == x;
  }

  /** What is left of `first` after the given values were set in order, `None` setting nothing. */
  predicate LastWins<T(==)>(first: T, values: seq<Option<T>>, last: T) {
    if values == [] then last == first
    else if values[|values| - 1].Some? then last == values[|values| - 1].value
    else LastWins(first, values[..|values| - 1], last)
  }

  lemma SetOne<T>(first: T, values: seq<Option<T>>, last: T, v: Option<T>)
    requires LastWins(first, values, last)
    ensures LastWins(first, values + [v], if v.Some? then v.value else last)
  {
    assert (values + [v])[..|values|] == values;
  }

  /** A value that each step sets or keeps is in the end the last one set. */
  lemma {:induction false} LastOfSteps<T>(values: seq<T>, given: seq<Option<T>>)
    requires |values| == |given| + 1
    requires forall j :: 0 <= j < |given| ==> values[j + 1] == if given[j].Some? then given[j].value else values[j]
    ensures LastWins(values[0], given, values[|given|])
  {
    if given == [] {
    } else {
      var n := |given| - 1;
      LastOfSteps(values[..n + 1], given[..n]);
    }
  }

  function Pick<A, T>(s: seq<A>, f: A -> Option<T>): seq<Option<T>> {
    seq(|s|, i requires 0 <= i < |s| => f(s[i]))
  }

  /** One more element may set one more value. */
  lemma PickOne<A, T>(first: T, s: seq<A>, f: A -> Option<T>, last: T, x: A)
    requires LastWins(first, Pick(s, f), last)
    ensures LastWins(first, Pick(s + [x], f), if f(x).Some? then f(x).value else last)
  {
    SetOne(first, Pick(s, f), last, f(x));
    assert Pick(s + [x], f) == Pick(s, f) + [f(x)];
  }

  lemma Regroup<T>(a: seq<T>, b: seq<T>, c: seq<T>)
    ensures (a + b) + c == a + (b + c)
  {
  }
}
