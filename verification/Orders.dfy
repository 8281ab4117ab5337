/** Sequences sorted by a strict order, which a set of values determines. */
module Orders {

  /** `less` never holds both ways, nor of a value and itself. */
  ghost predicate Asymmetric<T(!new)>(less: (T, T) -> bool) {
    forall a, b :: less(a, b) ==> !less(b, a)
  }

  ghost predicate Ascending<T>(less: (T, T) -> bool, s: seq<T>) {
    forall i, j :: 0 <= i < j < |s| ==> less(s[i], s[j])
  }

  /** Two ascending sequences with the same values are the same sequence. */
  lemma {:induction false} AscendingIsUnique<T(!new)>(less: (T, T) -> bool, s: seq<T>, t: seq<T>)
    requires Asymmetric(less) && Ascending(less, s) && Ascending(less, t)
    requires forall x :: x in s <==> x in t
    ensures s == t
  {
    assert s != [] ==> s[0] in t;
    assert t != [] ==> t[0] in s;
    if s != [] {
      assert s[0] == t[0];
      forall x
        ensures x in s[1..] <==> x in t[1..]
      {
        TailHasRest(less, s, x);
        TailHasRest(less, t, x);
      }
      AscendingIsUnique(less, s[1..], t[1..]);
      assert s == [s[0]] + s[1..] && t == [t[0]] + t[1..];
    }
  }

  lemma TailHasRest<T(!new)>(less: (T, T) -> bool, s: seq<T>, x: T)
    requires Asymmetric(less) && Ascending(less, s) && s != []
    ensures x in s[1..] <==> x in s && x != s[0]
  {
    if x in s && x != s[0] {
      var i :| 0 <= i < |s| && s[i] == x;
      assert s[1..][i - 1] == x;
    }
  }
}
