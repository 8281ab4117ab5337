/** File names in table order: folders first, then names by their words and numbers. */
module NameOrder {
  import opened Arithmetic
  import Decimals
  import Orders

  datatype Ordering = Less | Equal | Greater

  function Swap(o: Ordering): Ordering {
    match o
    case Less => Greater
    case Equal => Equal
    case Greater => Less
  }

  function Then(first: Ordering, second: Ordering): Ordering {
    if first == Equal then second else first
  }

  function CompareInts(a: int, b: int): Ordering {
    if a < b then Less else if a == b then Equal else Greater
  }

  /** Strings by their first difference, a prefix before what extends it. */
  function CompareStrings(a: string, b: string): Ordering {
    if a == [] && b == [] then Equal
    else if a == [] then Less
    else if b == [] then Greater
    else Then(CompareInts(a[0] as int, b[0] as int), CompareStrings(a[1..], b[1..]))
  }

  // ---------------------------------------------------------------- words and numbers

  predicate IsDigit(c: char) {
    '0' <= c <= '9'
  }

  predicate AllDigits(s: string) {
    forall i :: 0 <= i < |s| ==> IsDigit(s[i])
  }

  function DigitValue(c: char): nat
    requires IsDigit(c)
  {
    c as int - '0' as int
  }

  /** The number a run of digits denotes. */
  function NumberOf(digits: string): nat
    requires AllDigits(digits)
  {
    if digits == [] then 0
    else NumberOf(digits[..|digits| - 1]) * 10 + DigitValue(digits[|digits| - 1])
  }

  /** A name is made of numbers and single other characters. */
  datatype Token = Number(value: nat) | Letter(c: char)

  predicate IsToken(token: Token) {
    token.Letter? ==> !IsDigit(token.c)
  }

  /** How many digits `s` starts with. */
  function RunLength(s: string): (n: nat)
    ensures n <= |s|
    ensures AllDigits(s[..n])
    ensures n < |s| ==> !IsDigit(s[n])
  {
    if s == [] || !IsDigit(s[0]) then 0 else
      assert forall i :: 1 <= i < 1 + RunLength(s[1..]) ==> s[i] == s[1..][..RunLength(s[1..])][i - 1];
      1 + RunLength(s[1..])
  }

  function Tokens(s: string): (tokens: seq<Token>)
    ensures forall i :: 0 <= i < |tokens| ==> IsToken(tokens[i])
    decreases |s|
  {
    if s == [] then []
    else if IsDigit(s[0]) then [Number(NumberOf(s[..RunLength(s)]))] + Tokens(s[RunLength(s)..])
    else [Letter(s[0])] + Tokens(s[1..])
  }

  /** Numbers stand where the digits do among the characters, ordered by value. */
  function Rank(token: Token): int {
    if token.Letter? then token.c as int else '0' as int
  }

  function Magnitude(token: Token): nat {
    if token.Letter? then 0 else token.value
  }

  function CompareTokens(a: Token, b: Token): Ordering {
    Then(CompareInts(Rank(a), Rank(b)), CompareInts(Magnitude(a), Magnitude(b)))
  }

  function CompareAll(a: seq<Token>, b: seq<Token>): Ordering {
    if a == [] && b == [] then Equal
    else if a == [] then Less
    else if b == [] then Greater
    else Then(CompareTokens(a[0], b[0]), CompareAll(a[1..], b[1..]))
  }

  // ---------------------------------------------------------------- it is an order

  predicate AreTokens(tokens: seq<Token>) {
    forall i :: 0 <= i < |tokens| ==> IsToken(tokens[i])
  }

  lemma {:induction false} CompareSwaps(a: seq<Token>, b: seq<Token>)
    ensures CompareAll(b, a) == Swap(CompareAll(a, b))
  {
    if a != [] && b != [] {
      CompareSwaps(a[1..], b[1..]);
    }
  }

  /** Names compare equal only if they are made of the same words and numbers. */
  lemma {:induction false} CompareEqualMeansSame(a: seq<Token>, b: seq<Token>)
    requires AreTokens(a) && AreTokens(b)
    ensures CompareAll(a, b) == Equal <==> a == b
  {
    if a != [] && b != [] {
      CompareEqualMeansSame(a[1..], b[1..]);
      assert a == [a[0]] + a[1..] && b == [b[0]] + b[1..];
    }
  }

  lemma {:induction false} CompareIsTransitive(a: seq<Token>, b: seq<Token>, c: seq<Token>)
    requires CompareAll(a, b) != Greater && CompareAll(b, c) != Greater
    ensures CompareAll(a, c) != Greater
    ensures CompareAll(a, c) == Equal ==> CompareAll(a, b) == Equal && CompareAll(b, c) == Equal
  {
    if a != [] && b != [] && c != [] {
      if CompareTokens(a[0], b[0]) == Equal && CompareTokens(b[0], c[0]) == Equal {
        CompareIsTransitive(a[1..], b[1..], c[1..]);
      }
    }
  }

  // ---------------------------------------------------------------- numbers by their digits

  function StripZeros(s: string): string {
    if s != [] && s[0] == '0' then StripZeros(s[1..]) else s
  }

  function CompareDigits(a: string, b: string): Ordering {
    var left, right := StripZeros(a), StripZeros(b);
    Then(CompareInts(|left|, |right|), CompareStrings(left, right))
  }

  function Pow10(n: nat): nat {
    if n == 0 then 1 else 10 * Pow10(n - 1)
  }

  lemma {:induction false} NumberByHead(digits: string)
    requires AllDigits(digits) && digits != []
    ensures NumberOf(digits) == DigitValue(digits[0]) * Pow10(|digits| - 1) + NumberOf(digits[1..])
    decreases |digits|
  {
    if |digits| > 1 {
      var front := digits[..|digits| - 1];
      NumberByHead(front);
      assert front[1..] == digits[1..][..|digits| - 2];
      TenTimes(DigitValue(digits[0]), Pow10(|digits| - 2));
    }
  }

  /** The digits of a number, as it is usually written, denote it. */
  lemma {:induction false} NumberOfDecimal(n: nat)
    ensures AllDigits(Decimals.Decimal(n)) && NumberOf(Decimals.Decimal(n)) == n
  {
    if n >= 10 {
      NumberOfDecimal(n / 10);
      DigitsGrow(Decimals.Decimal(n / 10), n % 10);
    } else {
      DigitsGrow([], n);
      assert [] + [Decimals.Digit(n)] == [Decimals.Digit(n)];
    }
  }

  lemma DigitsGrow(digits: string, d: nat)
    requires AllDigits(digits) && d < 10
    ensures AllDigits(digits + [Decimals.Digit(d)])
    ensures NumberOf(digits + [Decimals.Digit(d)]) == NumberOf(digits) * 10 + d
  {
    assert (digits + [Decimals.Digit(d)])[..|digits|] == digits;
  }

  lemma TenTimes(d: nat, p: nat)
    ensures d * p * 10 == d * (10 * p)
  {
  }

  lemma {:induction false} NumberBound(digits: string)
    requires AllDigits(digits)
    ensures NumberOf(digits) < Pow10(|digits|)
  {
    if digits != [] {
      NumberBound(digits[..|digits| - 1]);
    }
  }

  lemma {:induction false} Pow10Grows(m: nat, n: nat)
    requires m <= n
    ensures 1 <= Pow10(m) <= Pow10(n)
  {
    if n > m {
      Pow10Grows(m, n - 1);
    } else if m > 0 {
      Pow10Grows(m - 1, m - 1);
    }
  }

  lemma {:induction false} StripKeepsNumber(digits: string)
    requires AllDigits(digits)
    ensures AllDigits(StripZeros(digits)) && NumberOf(StripZeros(digits)) == NumberOf(digits)
    ensures StripZeros(digits) != [] ==> StripZeros(digits)[0] != '0'
  {
    if digits != [] && digits[0] == '0' {
      StripKeepsNumber(digits[1..]);
      NumberByHead(digits);
    }
  }

  /** Runs of the same length compare as their numbers do. */
  lemma {:induction false} SameLengthCompares(a: string, b: string)
    requires AllDigits(a) && AllDigits(b) && |a| == |b|
    ensures CompareStrings(a, b) == CompareInts(NumberOf(a), NumberOf(b))
  {
    if a != [] {
      NumberByHead(a);
      NumberByHead(b);
      NumberBound(a[1..]);
      NumberBound(b[1..]);
      SameLengthCompares(a[1..], b[1..]);
      var p := Pow10(|a| - 1);
      if a[0] < b[0] {
        MulGap(DigitValue(a[0]), DigitValue(b[0]), p);
      } else if b[0] < a[0] {
        MulGap(DigitValue(b[0]), DigitValue(a[0]), p);
      }
    }
  }

  /** A longer run without leading zeros is the larger number. */
  lemma LongerIsLarger(a: string, b: string)
    requires AllDigits(a) && AllDigits(b) && |a| < |b| && b[0] != '0'
    ensures NumberOf(a) < NumberOf(b)
  {
    NumberBound(a);
    Pow10Grows(|a|, |b| - 1);
    NumberByHead(b);
    MulGap(0, DigitValue(b[0]), Pow10(|b| - 1));
  }

  /** Zero-stripped runs compared by length, then by character, compare as numbers, however long. */
  lemma DigitsCompareAsNumbers(a: string, b: string)
    requires AllDigits(a) && AllDigits(b)
    ensures CompareDigits(a, b) == CompareInts(NumberOf(a), NumberOf(b))
  {
    StripKeepsNumber(a);
    StripKeepsNumber(b);
    var left, right := StripZeros(a), StripZeros(b);
    if |left| < |right| {
      LongerIsLarger(left, right);
    } else if |right| < |left| {
      LongerIsLarger(right, left);
    } else {
      SameLengthCompares(left, right);
    }
  }

  // ---------------------------------------------------------------- comparing and sorting

  /** Two names, lowered by `lower`, as the table orders them. */
  function Compare(lower: string -> string, left: string, right: string): Ordering {
    CompareAll(Tokens(lower(left)), Tokens(lower(right)))
  }

  /** A maximal run of digits is one token. */
  lemma RunIsToken(s: string, from: nat, to: nat)
    requires from < to <= |s| && AllDigits(s[from..to]) && (to < |s| ==> !IsDigit(s[to]))
    ensures Tokens(s[from..]) == [Number(NumberOf(s[from..to]))] + Tokens(s[to..])
  {
    var n, size := RunLength(s[from..]), to - from;
    assert s[from..][..size] == s[from..to] && s[from..][size..] == s[to..];
    assert forall k :: 0 <= k < size ==> IsDigit(s[from..][k]) by {
      assert forall k :: 0 <= k < size ==> s[from..][k] == s[from..to][k];
    }
    assert n >= size;
    assert size < |s[from..]| ==> !IsDigit(s[from..][size]);
    assert n <= size by {
      assert forall k :: 0 <= k < n ==> s[from..][..n][k] == s[from..][k];
    }
  }

  lemma LetterIsToken(s: string, from: nat)
    requires from < |s| && !IsDigit(s[from])
    ensures Tokens(s[from..]) == [Letter(s[from])] + Tokens(s[from + 1..])
  {
    assert s[from..][1..] == s[from + 1..];
  }

  lemma DigitStartsNumber(s: string, from: nat)
    requires from < |s| && IsDigit(s[from])
    ensures Tokens(s[from..]) != [] && Tokens(s[from..])[0].Number?
  {
  }

  lemma CompareByHead(x: Token, xs: seq<Token>, y: Token, ys: seq<Token>)
    ensures CompareAll([x] + xs, [y] + ys) == Then(CompareTokens(x, y), CompareAll(xs, ys))
  {
    assert ([x] + xs)[1..] == xs && ([y] + ys)[1..] == ys;
  }

  /** Where at most one of the names has a number, the two characters decide. */
  lemma CharactersDecide(a: string, i: nat, b: string, j: nat)
    requires i < |a| && j < |b| && !(IsDigit(a[i]) && IsDigit(b[j]))
    ensures CompareAll(Tokens(a[i..]), Tokens(b[j..]))
         == Then(CompareInts(a[i] as int, b[j] as int), CompareAll(Tokens(a[i + 1..]), Tokens(b[j + 1..])))
  {
    hide Tokens;
    if IsDigit(a[i]) {
      DigitStartsNumber(a, i);
      LetterIsToken(b, j);
    } else if IsDigit(b[j]) {
      DigitStartsNumber(b, j);
      LetterIsToken(a, i);
    } else {
      LetterIsToken(a, i);
      LetterIsToken(b, j);
      CompareByHead(Letter(a[i]), Tokens(a[i + 1..]), Letter(b[j]), Tokens(b[j + 1..]));
    }
  }

  /** Where both names have a number, the numbers decide. */
  lemma NumbersDecide(a: string, i: nat, m: nat, b: string, j: nat, n: nat)
    requires i < m <= |a| && AllDigits(a[i..m]) && (m < |a| ==> !IsDigit(a[m]))
    requires j < n <= |b| && AllDigits(b[j..n]) && (n < |b| ==> !IsDigit(b[n]))
    ensures CompareAll(Tokens(a[i..]), Tokens(b[j..]))
         == Then(CompareDigits(a[i..m], b[j..n]), CompareAll(Tokens(a[m..]), Tokens(b[n..])))
  {
    hide Tokens, CompareDigits, NumberOf;
    RunIsToken(a, i, m);
    RunIsToken(b, j, n);
    DigitsCompareAsNumbers(a[i..m], b[j..n]);
    CompareByHead(Number(NumberOf(a[i..m])), Tokens(a[m..]), Number(NumberOf(b[j..n])), Tokens(b[n..]));
  }

  /** The end of the digits that start at `from`. */
  method RunEnd(s: string, from: nat) returns (to: nat)
    requires from < |s| && IsDigit(s[from])
    ensures from < to <= |s| && AllDigits(s[from..to]) && (to < |s| ==> !IsDigit(s[to]))
  {
    to := from;
    while to < |s| && IsDigit(s[to])
      invariant from <= to <= |s| && AllDigits(s[from..to])
    {
      assert s[from..to + 1] == s[from..to] + [s[to]];
      to := to + 1;
    }
  }

  lemma EndsDecide(a: string, i: nat, b: string, j: nat)
    requires i <= |a| && j <= |b| && (i == |a| || j == |b|)
    ensures CompareAll(Tokens(a[i..]), Tokens(b[j..]))
         == if i < |a| then Greater else if j < |b| then Less else Equal
  {
  }

  /** Case-insensitive, number-aware comparison: two cursors walk the lowered names together. */
  method CompareNames(lower: string -> string, left: string, right: string) returns (o: Ordering)
    ensures o == Compare(lower, left, right)
  {
    hide Tokens, CompareAll, CompareDigits;
    var a, b := lower(left), lower(right);
    var i, j := 0, 0;
    assert a[0..] == a && b[0..] == b;
    while i < |a| && j < |b|
      invariant i <= |a| && j <= |b|
      invariant Compare(lower, left, right) == CompareAll(Tokens(a[i..]), Tokens(b[j..]))
      decreases |a| - i
    {
      if IsDigit(a[i]) && IsDigit(b[j]) {
        var m := RunEnd(a, i);
        var n := RunEnd(b, j);
        NumbersDecide(a, i, m, b, j, n);
        var ordering := CompareDigits(a[i..m], b[j..n]);
        if ordering != Equal {
          return ordering;
        }
        i, j := m, n;
      } else {
        CharactersDecide(a, i, b, j);
        var ordering := CompareInts(a[i] as int, b[j] as int);
        if ordering != Equal {
          return ordering;
        }
        i, j := i + 1, j + 1;
      }
    }
    EndsDecide(a, i, b, j);
    return if i < |a| then Greater else if j < |b| then Less else Equal;
  }

  datatype Entry = Entry(name: string, isDir: bool)

  /** Folders first, then names. */
  function CompareEntries(lower: string -> string, left: Entry, right: Entry): Ordering {
    Then(CompareInts(if right.isDir then 1 else 0, if left.isDir then 1 else 0),
         Compare(lower, left.name, right.name))
  }

  lemma EntriesCompareTransitively(lower: string -> string, a: Entry, b: Entry, c: Entry)
    requires CompareEntries(lower, a, b) != Greater && CompareEntries(lower, b, c) != Greater
    ensures CompareEntries(lower, a, c) != Greater
    ensures CompareEntries(lower, a, c) == Equal ==>
      CompareEntries(lower, a, b) == Equal && CompareEntries(lower, b, c) == Equal
  {
    if a.isDir == b.isDir == c.isDir {
      CompareIsTransitive(Tokens(lower(a.name)), Tokens(lower(b.name)), Tokens(lower(c.name)));
    }
  }

  lemma EntriesCompareSwaps(lower: string -> string, a: Entry, b: Entry)
    ensures CompareEntries(lower, b, a) == Swap(CompareEntries(lower, a, b))
  {
    CompareSwaps(Tokens(lower(a.name)), Tokens(lower(b.name)));
  }

  /** Where a stable sort puts entry `i` before entry `j`. */
  predicate Before(lower: string -> string, entries: seq<Entry>, i: nat, j: nat) {
    && i < |entries| && j < |entries|
    && var o := CompareEntries(lower, entries[i], entries[j]);
       o == Less || (o == Equal && i < j)
  }

  lemma BeforeIsAnOrder(lower: string -> string, entries: seq<Entry>, i: nat, j: nat, k: nat)
    requires i < |entries| && j < |entries| && k < |entries|
    ensures Before(lower, entries, i, j) ==> !Before(lower, entries, j, i)
    ensures i != j ==> Before(lower, entries, i, j) || Before(lower, entries, j, i)
    ensures Before(lower, entries, i, j) && Before(lower, entries, j, k) ==> Before(lower, entries, i, k)
  {
    EntriesCompareSwaps(lower, entries[i], entries[j]);
    if Before(lower, entries, i, j) && Before(lower, entries, j, k) {
      EntriesCompareTransitively(lower, entries[i], entries[j], entries[k]);
    }
  }

  ghost predicate IsPermutation(order: seq<nat>, n: nat) {
    && |order| == n
    && (forall i :: 0 <= i < n ==> order[i] < n)
    && (forall i, j :: 0 <= i < j < n ==> order[i] != order[j])
  }

  ghost predicate IsTableOrder(lower: string -> string, entries: seq<Entry>, order: seq<nat>) {
    && IsPermutation(order, |entries|)
    && forall i, j :: 0 <= i < j < |order| ==> Before(lower, entries, order[i], order[j])
  }

  /** The first `i` places hold the first `i` indices in table order, the others are untouched. */
  ghost predicate IsSortedUpTo(lower: string -> string, entries: seq<Entry>, order: seq<nat>, i: nat) {
    && IsPermutation(order, |entries|) && i <= |entries|
    && (forall k :: i <= k < |order| ==> order[k] == k)
    && (forall p, q :: 0 <= p < q < i ==> Before(lower, entries, order[p], order[q]))
  }

  /** An array of all indices, permuted in place until `IsTableOrder` holds. */
  method SortEntries(lower: string -> string, entries: seq<Entry>) returns (order: array<nat>)
    ensures fresh(order)
    ensures IsTableOrder(lower, entries, order[..])
    ensures order.Length == |entries| && forall i :: 0 <= i < order.Length ==> order[i] < |entries|
    ensures forall i, j :: 0 <= i < j < order.Length && entries[order[j]].isDir ==> entries[order[i]].isDir
    ensures forall i, j :: 0 <= i < j < order.Length && entries[order[i]].isDir == entries[order[j]].isDir ==>
      && Compare(lower, entries[order[i]].name, entries[order[j]].name) != Greater
      && (Compare(lower, entries[order[i]].name, entries[order[j]].name) == Equal ==> order[i] < order[j])
  {
    hide Before;
    var n := |entries|;
    order := new nat[n](i => i);
    for i := 0 to n
      invariant fresh(order) && order.Length == n
      invariant IsSortedUpTo(lower, entries, order[..], i)
    {
      Sink(lower, entries, order, i);
    }
    TableOrderMeans(lower, entries, order[..]);
    hide Compare, IsTableOrder;
    ghost var sorted := order[..];
    assert forall i :: 0 <= i < order.Length ==> sorted[i] == order[i];
  }

  /** In table order folders come before files; among either, names come in order and equal ones as they
      were listed. */
  lemma TableOrderMeans(lower: string -> string, entries: seq<Entry>, order: seq<nat>)
    requires IsTableOrder(lower, entries, order)
    ensures |order| == |entries| && forall i :: 0 <= i < |order| ==> order[i] < |entries|
    ensures forall i, j :: 0 <= i < j < |order| && entries[order[j]].isDir ==> entries[order[i]].isDir
    ensures forall i, j :: 0 <= i < j < |order| && entries[order[i]].isDir == entries[order[j]].isDir ==>
      && Compare(lower, entries[order[i]].name, entries[order[j]].name) != Greater
      && (Compare(lower, entries[order[i]].name, entries[order[j]].name) == Equal ==> order[i] < order[j])
  {
    hide Compare;
    forall i, j | 0 <= i < j < |order|
      ensures Before(lower, entries, order[i], order[j])
    {
    }
  }

  // ---------------------------------------------------------------- what the order of names means

  predicate TokenPrecedes(a: Token, b: Token) {
    match (a, b)
    case (Number(m), Number(n)) => m < n
    case (Letter(c), Letter(d)) => c < d
    case (Number(_), Letter(d)) => '9' < d
    case (Letter(c), Number(_)) => c < '0'
  }

  /** At their first difference `a` has the smaller token, or none. */
  predicate PrecedesAt(a: seq<Token>, b: seq<Token>, k: nat) {
    && k <= |a| && k < |b| && a[..k] == b[..k]
    && (k < |a| ==> TokenPrecedes(a[k], b[k]))
  }

  ghost predicate Precedes(a: seq<Token>, b: seq<Token>) {
    exists k: nat :: PrecedesAt(a, b, k)
  }

  lemma TokensCompare(a: Token, b: Token)
    requires IsToken(a) && IsToken(b)
    ensures CompareTokens(a, b) == Less <==> TokenPrecedes(a, b)
    ensures CompareTokens(a, b) == Equal <==> a == b
  {
  }

  lemma {:induction false} LessPrecedes(a: seq<Token>, b: seq<Token>) returns (k: nat)
    requires AreTokens(a) && AreTokens(b) && CompareAll(a, b) == Less
    ensures PrecedesAt(a, b, k)
  {
    hide CompareTokens, TokenPrecedes;
    if a == [] {
      k := 0;
    } else {
      TokensCompare(a[0], b[0]);
      if a[0] == b[0] {
        var rest := LessPrecedes(a[1..], b[1..]);
        k := rest + 1;
        assert a[..k] == [a[0]] + a[1..][..k - 1] && b[..k] == [b[0]] + b[1..][..k - 1];
      } else {
        k := 0;
      }
    }
  }

  lemma {:induction false} PrecedesIsLess(a: seq<Token>, b: seq<Token>, k: nat)
    requires AreTokens(a) && AreTokens(b) && PrecedesAt(a, b, k)
    ensures CompareAll(a, b) == Less
  {
    hide CompareTokens, TokenPrecedes;
    if a != [] {
      TokensCompare(a[0], b[0]);
      if k > 0 {
        assert a[0] == a[..k][0] && b[0] == b[..k][0];
        assert a[1..][..k - 1] == a[..k][1..] && b[1..][..k - 1] == b[..k][1..];
        PrecedesIsLess(a[1..], b[1..], k - 1);
      }
    }
  }

  /** A name comes first exactly when, both in lower case, it has the smaller word or number at the first
      difference, or none there; names are equal exactly when they are of the same words and numbers. */
  lemma CompareMeans(lower: string -> string, left: string, right: string)
    ensures var a, b := Tokens(lower(left)), Tokens(lower(right));
      && (Compare(lower, left, right) == Less <==> Precedes(a, b))
      && (Compare(lower, left, right) == Equal <==> a == b)
  {
    var a, b := Tokens(lower(left)), Tokens(lower(right));
    assert AreTokens(a) && AreTokens(b);
    hide Tokens, Precedes, CompareAll;
    CompareEqualMeansSame(a, b);
    LessMeans(a, b);
  }

  lemma LessMeans(a: seq<Token>, b: seq<Token>)
    requires AreTokens(a) && AreTokens(b)
    ensures CompareAll(a, b) == Less <==> Precedes(a, b)
  {
    hide CompareAll, PrecedesAt;
    if CompareAll(a, b) == Less {
      var k := LessPrecedes(a, b);
    }
    if Precedes(a, b) {
      var k: nat :| PrecedesAt(a, b, k);
      PrecedesIsLess(a, b, k);
    }
  }

  lemma SwapKeepsPermutation(order: seq<nat>, n: nat, j: nat)
    requires IsPermutation(order, n) && 0 < j < |order|
    ensures IsPermutation(order[j - 1 := order[j]][j := order[j - 1]], n)
  {
  }

  /** Index `i` has sunk to place `j`: the first `i` indices around it are in order, and it comes
      before those it has passed. */
  ghost predicate IsSinking(lower: string -> string, entries: seq<Entry>, order: seq<nat>, i: nat, j: nat) {
    && IsPermutation(order, |entries|) && j <= i < |entries| && order[j] == i
    && (forall k :: i < k < |order| ==> order[k] == k)
    && (forall p, q :: 0 <= p < q <= i && p != j && q != j ==> Before(lower, entries, order[p], order[q]))
    && (forall q :: j < q <= i ==> Before(lower, entries, i, order[q]))
  }

  lemma SinkStep(lower: string -> string, entries: seq<Entry>, order: seq<nat>, i: nat, j: nat)
    requires IsSinking(lower, entries, order, i, j) && 0 < j
    requires CompareEntries(lower, entries[order[j - 1]], entries[i]) == Greater
    ensures IsSinking(lower, entries, order[j - 1 := order[j]][j := order[j - 1]], i, j - 1)
  {
    hide Before, CompareEntries;
    SwappedIsBefore(lower, entries, order[j - 1], i);
    SwapKeepsPermutation(order, |entries|, j);
  }

  lemma SinkDone(lower: string -> string, entries: seq<Entry>, order: seq<nat>, i: nat, j: nat)
    requires IsSinking(lower, entries, order, i, j)
    requires j > 0 ==> CompareEntries(lower, entries[order[j - 1]], entries[i]) != Greater
    ensures IsSortedUpTo(lower, entries, order, i + 1)
  {
    hide Before, CompareEntries;
    if j > 0 {
      EarlierIsSmaller(order, |entries|, i, j, j - 1);
      StaysBefore(lower, entries, order[j - 1], i);
    }
    forall p | 0 <= p < j
      ensures Before(lower, entries, order[p], i)
    {
      if p < j - 1 {
        BeforeIsAnOrder(lower, entries, order[p], order[j - 1], i);
      }
    }
  }

  /** Let the index at place `i` sink to its place among the ones before it. */
  method Sink(lower: string -> string, entries: seq<Entry>, order: array<nat>, i: nat)
    requires i < |entries| == order.Length
    requires IsSortedUpTo(lower, entries, order[..], i)
    modifies order
    ensures IsSortedUpTo(lower, entries, order[..], i + 1)
  {
    hide Before, CompareEntries;
    var j := i;
    while j > 0 && CompareEntries(lower, entries[order[j - 1]], entries[order[j]]) == Greater
      invariant 0 <= j <= i
      invariant IsSinking(lower, entries, order[..], i, j)
    {
      ghost var was := order[..];
      SinkStep(lower, entries, was, i, j);
      order[j - 1], order[j] := order[j], order[j - 1];
      assert order[..] == was[j - 1 := was[j]][j := was[j - 1]];
      j := j - 1;
    }
    SinkDone(lower, entries, order[..], i, j);
  }

  /** Beyond place `i` every index is in its own place, so before it are only smaller ones than `i`. */
  lemma EarlierIsSmaller(order: seq<nat>, n: nat, i: nat, j: nat, p: nat)
    requires IsPermutation(order, n) && p < j <= i < n && order[j] == i
    requires forall k :: i < k < n ==> order[k] == k
    ensures order[p] < i
  {
    if order[p] > i {
      InItsPlace(order, n, p, order[p]);
    }
  }

  lemma InItsPlace(order: seq<nat>, n: nat, p: nat, x: nat)
    requires IsPermutation(order, n) && p < x < n && order[x] == x
    ensures order[p] != x
  {
  }

  lemma SwappedIsBefore(lower: string -> string, entries: seq<Entry>, i: nat, j: nat)
    requires i < |entries| && j < |entries|
    requires CompareEntries(lower, entries[i], entries[j]) == Greater
    ensures Before(lower, entries, j, i)
  {
    EntriesCompareSwaps(lower, entries[i], entries[j]);
  }

  lemma StaysBefore(lower: string -> string, entries: seq<Entry>, i: nat, j: nat)
    requires i < |entries| && j < |entries| && i < j
    requires CompareEntries(lower, entries[i], entries[j]) != Greater
    ensures Before(lower, entries, i, j)
  {
  }

  /** Any stable sort returns this order: it is the only one. */
  lemma TableOrderIsUnique(lower: string -> string, entries: seq<Entry>, order: seq<nat>, other: seq<nat>)
    requires IsTableOrder(lower, entries, order) && IsTableOrder(lower, entries, other)
    ensures order == other
  {
    hide Before;
    var less := (i: nat, j: nat) => Before(lower, entries, i, j);
    forall i: nat, j: nat | less(i, j)
      ensures !less(j, i)
    {
      BeforeOnlyInside(lower, entries, i, j);
      BeforeIsAnOrder(lower, entries, i, j, i);
    }
    forall x: nat
      ensures x in order <==> x in other
    {
      PermutationHasAll(order, |entries|, x);
      PermutationHasAll(other, |entries|, x);
    }
    Orders.AscendingIsUnique(less, order, other);
  }

  lemma BeforeOnlyInside(lower: string -> string, entries: seq<Entry>, i: nat, j: nat)
    requires Before(lower, entries, i, j)
    ensures i < |entries| && j < |entries|
  {
  }

  ghost function Below(n: nat): (s: set<nat>)
    ensures forall x: nat :: x in s <==> x < n
    ensures |s| == n
  {
    if n == 0 then {} else Below(n - 1) + {n - 1}
  }

  function FirstValues(order: seq<nat>, n: nat): set<nat>
    requires n <= |order|
  {
    set i | 0 <= i < n :: order[i]
  }

  /** Distinct indices below `n`, `n` of them, are all of them. */
  lemma PermutationHasAll(order: seq<nat>, n: nat, x: nat)
    requires IsPermutation(order, n)
    ensures x in order <==> x < n
  {
    var values := FirstValues(order, n);
    DistinctCount(order, n);
    SubsetOfSameSize(values, Below(n));
    assert x in values <==> x in order;
  }

  lemma FirstValuesStep(order: seq<nat>, n: nat)
    requires 0 < n <= |order| && forall i :: 0 <= i < n - 1 ==> order[i] != order[n - 1]
    ensures FirstValues(order, n) == FirstValues(order, n - 1) + {order[n - 1]}
    ensures order[n - 1] !in FirstValues(order, n - 1)
  {
  }

  lemma {:induction false} DistinctCount(order: seq<nat>, n: nat)
    requires n <= |order| && forall i, j :: 0 <= i < j < n ==> order[i] != order[j]
    ensures |FirstValues(order, n)| == n
  {
    if n > 0 {
      DistinctCount(order, n - 1);
      FirstValuesStep(order, n);
      hide FirstValues;
    } else {
      assert FirstValues(order, n) == {};
    }
  }

  lemma SubsetOfSameSize(a: set<nat>, b: set<nat>)
    requires a <= b && |a| == |b|
    ensures a == b
  {
    assert |b - a| == |b| - |a|;
  }
}
