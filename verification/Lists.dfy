/** Lists without repeats. */
module Lists {
  predicate NoRepeats<T(==)>(s: seq<T>) {
    forall i, j :: 0 <= i < j < |s| ==> s[i] != s[j]
  }

  /** The list with every `x` left out. */
  function Without<T(==)>(s: seq<T>, x: T): seq<T> {
    if s == [] then []
    else if s[0] == x then Without(s[1..], x)
    else [s[0]] + Without(s[1..], x)
  }

  lemma {:induction false} WithoutIs<T>(s: seq<T>, x: T)
    ensures forall y :: y in Without(s, x) <==> y in s && y != x
    ensures NoRepeats(s) ==> NoRepeats(Without(s, x))
  {
    if s != [] {
      WithoutIs(s[1..], x);
      assert s == [s[0]] + s[1..];
      assert NoRepeats(s) ==> NoRepeats(s[1..]) && s[0] !in s[1..];
    }
  }

  lemma {:induction false} WithoutSplits<T>(s: seq<T>, more: seq<T>, x: T)
    ensures Without(s + more, x) == Without(s, x) + Without(more, x)
  {
    if s == [] {
      assert s + more == more && [] + Without(more, x) == Without(more, x);
    } else {
      WithoutSplits(s[1..], more, x);
      assert (s + more)[1..] == s[1..] + more && (s + more)[0] == s[0];
      var rest, last := Without(s[1..], x), Without(more, x);
      assert [s[0]] + (rest + last) == [s[0]] + rest + last;
    }
  }

  lemma {:induction false} WithoutAbsent<T>(s: seq<T>, x: T)
    requires x !in s
    ensures Without(s, x) == s
  {
    if s != [] {
      WithoutAbsent(s[1..], x);
      assert s == [s[0]] + s[1..];
    }
  }

  /** What of the list is in `keep`. */
  function Selected<T(==)>(s: seq<T>, keep: set<T>): seq<T> {
    if s == [] then []
    else if s[0] in keep then [s[0]] + Selected(s[1..], keep)
    else Selected(s[1..], keep)
  }
}
