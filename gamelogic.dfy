/**
 * The puzzle generator (services/gameLogic.ts): permutation codes drawn with a
 * Fisher–Yates shuffle, their application to a row of shapes, the decoy options
 * of a mystery layer, the assembly of a whole puzzle from a level, and the
 * `m:ss` rendering of a time.
 *
 * Every `Math.random()` draw is an input here. A Fisher–Yates run is given by
 * its draw vector `draws`, where `draws[i]` is the index `j` drawn when the loop
 * is at position `i` (so `0 <= draws[i] <= i`; `draws[0]` is never drawn and is
 * 0). A shuffle done by sorting with a random comparator is given as the
 * permutation it happened to produce.
 */
module GameLogic {
  import opened Wrappers
  import opened Catalog
  import opened JsText

  /** A permutation code: output position k takes input position code[k] (1-based). */
  type Code = seq<int>

  /** The array `generateCode` starts from. */
  const IDENTITY: Code := [1, 2, 3, 4]

  /** Four distinct positions among 1..4. */
  predicate IsCode(c: seq<int>) {
    |c| == 4 && InRange(c, 4) && Distinct(c)
  }

  /** Every entry is a 1-based position of a sequence of length n. */
  predicate InRange(c: seq<int>, n: int) {
    forall k :: 0 <= k < |c| ==> 1 <= c[k] <= n
  }

  function Elems<T>(s: seq<T>): set<T> {
    set x | x in s
  }

  // ---------------------------------------------------------------------------
  // Distinctness and multisets

  lemma {:induction false} DistinctIffSingletons<T>(s: seq<T>)
    ensures Distinct(s) <==> forall x :: multiset(s)[x] <= 1
  {
    if Distinct(s) {
      if s != [] {
        var init, last := s[..|s| - 1], s[|s| - 1];
        assert s == init + [last];
        DistinctIffSingletons(init);
        forall i | 0 <= i < |init| ensures init[i] != last {
          assert init[i] == s[i];
        }
      }
    } else {
      var i, j :| 0 <= i < j < |s| && s[i] == s[j];
      assert s == s[..j] + s[j..];
      assert s[i] in s[..j];
      assert s[j] in s[j..];
      assert multiset(s)[s[i]] == multiset(s[..j])[s[i]] + multiset(s[j..])[s[i]];
    }
  }

  /** A rearrangement of a sequence without repetitions has no repetitions. */
  lemma {:induction false} DistinctByMultiset<T>(a: seq<T>, b: seq<T>)
    requires multiset(a) == multiset(b) && Distinct(b)
    ensures Distinct(a)
  {
    DistinctIffSingletons(b);
    DistinctIffSingletons(a);
  }

  lemma {:induction false} DistinctCard<T>(s: seq<T>)
    requires Distinct(s)
    ensures |Elems(s)| == |s|
  {
    if s != [] {
      var init := s[..|s| - 1];
      DistinctCard(init);
      assert Elems(s) == Elems(init) + {s[|s| - 1]};
      forall i | 0 <= i < |init| ensures init[i] != s[|s| - 1] {
        assert init[i] == s[i];
      }
      assert s[|s| - 1] !in Elems(init);
    }
  }

  lemma {:induction false} SubsetSameCard<T>(a: set<T>, b: set<T>)
    requires a <= b && |a| == |b|
    ensures a == b
  {
    assert b * a == a;
    assert |b - a| == |b| - |b * a| == 0;
  }

  /** A code is exactly a sequence holding each of 1, 2, 3, 4 once. */
  lemma {:induction false} CodeIsPermutation(c: seq<int>)
    ensures IsCode(c) <==> multiset(c) == multiset(IDENTITY)
  {
    if IsCode(c) {
      CodeMultiset(c);
    }
    if multiset(c) == multiset(IDENTITY) {
      MultisetCode(c);
    }
  }

  lemma {:induction false} CodeMultiset(c: seq<int>)
    requires IsCode(c)
    ensures multiset(c) == multiset(IDENTITY)
  {
    DistinctCard(c);
    DistinctIffSingletons(c);
    assert Elems(c) <= {1, 2, 3, 4};
    SubsetSameCard(Elems(c), {1, 2, 3, 4});
    forall x ensures multiset(c)[x] == multiset(IDENTITY)[x] {
      assert x in multiset(c) <==> x in Elems(c);
      assert x in multiset(IDENTITY) <==> x in {1, 2, 3, 4};
    }
  }

  lemma {:induction false} MultisetCode(c: seq<int>)
    requires multiset(c) == multiset(IDENTITY)
    ensures IsCode(c)
  {
    assert Distinct(IDENTITY);
    assert |multiset(c)| == |c|;
    forall k | 0 <= k < |c| ensures 1 <= c[k] <= 4 {
      assert c[k] in multiset(c);
    }
    DistinctByMultiset(c, IDENTITY);
  }

  // ---------------------------------------------------------------------------
  // generateCode: the Fisher–Yates shuffle of [1, 2, 3, 4]

  /** `[s[i], s[j]] = [s[j], s[i]]` */
  function Swap<T>(s: seq<T>, i: nat, j: nat): (r: seq<T>)
    requires i < |s| && j < |s|
    ensures |r| == |s|
  {
    s[i := s[j]][j := s[i]]
  }

  lemma {:induction false} SwapPermutes<T>(s: seq<T>, i: nat, j: nat)
    requires i < |s| && j < |s|
    ensures multiset(Swap(s, i, j)) == multiset(s)
  {
  }

  /** The draws for positions below n are in range. */
  predicate DrawsBelow(draws: seq<int>, n: nat) {
    n <= |draws| && forall i :: 0 <= i < n ==> 0 <= draws[i] <= i
  }

  /** One draw vector of `generateCode`. */
  predicate ValidDraws(draws: seq<int>) {
    |draws| == 4 && DrawsBelow(draws, 4)
  }

  /** The swaps of the Fisher–Yates loop for positions n-1 down to 1, in that order. */
  function Shuffle<T>(s: seq<T>, draws: seq<int>, n: nat): (r: seq<T>)
    requires n <= |s| && DrawsBelow(draws, n)
    ensures |r| == |s|
    decreases n
  {
    if n <= 1 then s else Shuffle(Swap(s, n - 1, draws[n - 1]), draws, n - 1)
  }

  lemma {:induction false} SwapDistinct(s: seq<int>, i: nat, j: nat)
    requires i < |s| && j < |s| && Distinct(s)
    ensures Distinct(Swap(s, i, j))
  {
    var r := Swap(s, i, j);
    forall a, b | 0 <= a < b < |r| ensures r[a] != r[b] {
      var pa := if a == i then j else if a == j then i else a;
      var pb := if b == i then j else if b == j then i else b;
      assert r[a] == s[pa] && r[b] == s[pb] && pa != pb;
    }
  }

  lemma {:induction false} ShufflePermutes<T>(s: seq<T>, draws: seq<int>, n: nat)
    requires n <= |s| && DrawsBelow(draws, n)
    ensures multiset(Shuffle(s, draws, n)) == multiset(s)
    decreases n
  {
    if n > 1 {
      SwapPermutes(s, n - 1, draws[n - 1]);
      ShufflePermutes(Swap(s, n - 1, draws[n - 1]), draws, n - 1);
    }
  }

  /** The code a draw vector produces. */
  function CodeOf(draws: seq<int>): (c: Code)
    requires ValidDraws(draws)
    ensures IsCode(c)
  {
    ShufflePermutes(IDENTITY, draws, 4);
    CodeIsPermutation(Shuffle(IDENTITY, draws, 4));
    Shuffle(IDENTITY, draws, 4)
  }

  /** `generateCode`: the in-place Fisher–Yates loop over `[1, 2, 3, 4]`. */
  method GenerateCode(draws: seq<int>) returns (code: Code)
    requires ValidDraws(draws)
    ensures code == CodeOf(draws)
  {
    var a := new int[4];
    a[0], a[1], a[2], a[3] := 1, 2, 3, 4;
    assert a[..] == IDENTITY;
    var i := 3;
    while i > 0
      invariant 0 <= i <= 3
      invariant Shuffle(a[..], draws, i + 1) == Shuffle(IDENTITY, draws, 4)
    {
      var j := draws[i];
      ghost var before := a[..];
      a[i], a[j] := a[j], a[i];
      assert a[..] == Swap(before, i, j);
      i := i - 1;
    }
    code := a[..];
  }

  /** Shuffle only reads the draws below n. */
  lemma {:induction false} ShuffleDrawsPrefix(s: seq<int>, d1: seq<int>, d2: seq<int>, n: nat)
    requires n <= |s| && DrawsBelow(d1, n) && DrawsBelow(d2, n) && d1[..n] == d2[..n]
    ensures Shuffle(s, d1, n) == Shuffle(s, d2, n)
    decreases n
  {
    if n > 1 {
      assert d1[n - 1] == d1[..n][n - 1] == d2[..n][n - 1] == d2[n - 1];
      assert d1[..n - 1] == d1[..n][..n - 1];
      assert d2[..n - 1] == d2[..n][..n - 1];
      ShuffleDrawsPrefix(Swap(s, n - 1, d1[n - 1]), d1, d2, n - 1);
    }
  }

  /** Shuffle leaves the positions from n on alone. */
  lemma {:induction false} ShuffleKeepsTail(s: seq<int>, draws: seq<int>, n: nat)
    requires n <= |s| && DrawsBelow(draws, n)
    ensures Shuffle(s, draws, n)[n..] == s[n..]
    decreases n
  {
    if n > 1 {
      var s1 := Swap(s, n - 1, draws[n - 1]);
      ShuffleKeepsTail(s1, draws, n - 1);
      assert s1[n..] == s[n..];
    }
  }

  lemma {:induction false} CancelLast(a: seq<int>, b: seq<int>, x: int)
    requires multiset(a + [x]) == multiset(b + [x])
    ensures multiset(a) == multiset(b)
  {
    assert multiset(a + [x]) == multiset(a) + multiset([x]);
    assert multiset(b + [x]) == multiset(b) + multiset([x]);
    forall y ensures multiset(a)[y] == multiset(b)[y] {
      assert multiset(a + [x])[y] == multiset(a)[y] + multiset([x])[y];
      assert multiset(b + [x])[y] == multiset(b)[y] + multiset([x])[y];
    }
  }

  /** Any rearrangement of the first n entries is reached by some draws. */
  lemma {:induction false} Reachable(s: seq<int>, t: seq<int>, n: nat) returns (d: seq<int>)
    requires n <= |s| == |t|
    requires multiset(s[..n]) == multiset(t[..n]) && s[n..] == t[n..]
    ensures |d| == n && DrawsBelow(d, n) && Shuffle(s, d, n) == t
    decreases n
  {
    if n == 0 {
      assert s == s[0..] && t == t[0..];
      d := [];
    } else if n == 1 {
      assert s[..1] == [s[0]] && t[..1] == [t[0]];
      assert s[0] in multiset(t[..1]);
      assert s == [s[0]] + s[1..] && t == [t[0]] + t[1..];
      d := [0];
    } else {
      var j := ReachableStep(s, t, n);
      var s1 := Swap(s, n - 1, j);
      var d1 := Reachable(s1, t, n - 1);
      d := d1 + [j];
      assert d[..n - 1] == d1;
      ShuffleDrawsPrefix(s1, d, d1, n - 1);
    }
  }

  /** The Fisher–Yates step at position n-1 can bring the entry t wants there. */
  lemma {:induction false} ReachableStep(s: seq<int>, t: seq<int>, n: nat) returns (j: nat)
    requires 2 <= n <= |s| == |t|
    requires multiset(s[..n]) == multiset(t[..n]) && s[n..] == t[n..]
    ensures j < n
    ensures multiset(Swap(s, n - 1, j)[..n - 1]) == multiset(t[..n - 1])
    ensures Swap(s, n - 1, j)[n - 1..] == t[n - 1..]
  {
    var p, q := s[..n], t[..n];
    j := IndexOfLast(p, q);
    SwapPrefix(s, n, j);
    LastCancel(p, q, j);
    var s1 := Swap(s, n - 1, j);
    assert s1[..n - 1] == Swap(p, n - 1, j)[..n - 1];
    assert t[..n - 1] == q[..n - 1];
    assert s1[n - 1..] == [s1[n - 1]] + s1[n..];
    assert t[n - 1..] == [t[n - 1]] + t[n..];
  }

  /** An entry of q is somewhere in any rearrangement p of q. */
  lemma {:induction false} IndexOfLast(p: seq<int>, q: seq<int>) returns (j: nat)
    requires 1 <= |q| && multiset(p) == multiset(q)
    ensures j < |p| && p[j] == q[|q| - 1]
  {
    var x := q[|q| - 1];
    assert x in multiset(q);
    assert x in p;
    var k :| 0 <= k < |p| && p[k] == x;
    j := k;
  }

  lemma {:induction false} SwapPrefix(s: seq<int>, n: nat, j: nat)
    requires j < n <= |s|
    ensures Swap(s, n - 1, j)[..n] == Swap(s[..n], n - 1, j)
    ensures Swap(s, n - 1, j)[n..] == s[n..]
  {
  }

  lemma {:induction false} LastCancel(p: seq<int>, q: seq<int>, j: nat)
    requires 1 <= |p| == |q| && multiset(p) == multiset(q) && j < |p| && p[j] == q[|q| - 1]
    ensures Swap(p, |p| - 1, j)[|p| - 1] == q[|q| - 1]
    ensures multiset(Swap(p, |p| - 1, j)[..|p| - 1]) == multiset(q[..|q| - 1])
  {
    var r := Swap(p, |p| - 1, j);
    assert multiset(r) == multiset(q) by { SwapPermutes(p, |p| - 1, j); }
    assert r[|r| - 1] == q[|q| - 1];
    CancelTail(r, q);
  }

  /** Two rearrangements of each other that end alike are rearrangements of each other without the end. */
  lemma {:induction false} CancelTail(a: seq<int>, b: seq<int>)
    requires 1 <= |a| == |b| && multiset(a) == multiset(b) && a[|a| - 1] == b[|b| - 1]
    ensures multiset(a[..|a| - 1]) == multiset(b[..|b| - 1])
  {
    var n, x := |a|, a[|a| - 1];
    assert a == a[..n - 1] + [x];
    assert b == b[..n - 1] + [x];
    CancelLast(a[..n - 1], b[..n - 1], x);
  }

  /** Draws that shuffle a sequence without repetitions to the same result are the same draws. */
  lemma {:induction false} ShuffleInjective(s: seq<int>, d1: seq<int>, d2: seq<int>, n: nat)
    requires n <= |s| && Distinct(s) && DrawsBelow(d1, n) && DrawsBelow(d2, n)
    requires Shuffle(s, d1, n) == Shuffle(s, d2, n)
    ensures d1[..n] == d2[..n]
    decreases n
  {
    if n == 1 {
      assert d1[..1] == [d1[0]] && d2[..1] == [d2[0]];
    } else if n > 1 {
      ShuffleLast(s, d1, n);
      ShuffleLast(s, d2, n);
      assert d1[n - 1] == d2[n - 1];
      var a1 := Swap(s, n - 1, d1[n - 1]);
      SwapDistinct(s, n - 1, d1[n - 1]);
      ShuffleInjective(a1, d1, d2, n - 1);
      assert d1[..n] == d1[..n - 1] + [d1[n - 1]];
      assert d2[..n] == d2[..n - 1] + [d2[n - 1]];
    }
  }

  /** The last position the loop visits keeps the entry drawn for it. */
  lemma {:induction false} ShuffleLast(s: seq<int>, d: seq<int>, n: nat)
    requires 2 <= n <= |s| && DrawsBelow(d, n)
    ensures Shuffle(s, d, n)[n - 1] == s[d[n - 1]]
  {
    var a := Swap(s, n - 1, d[n - 1]);
    ShuffleKeepsTail(a, d, n - 1);
    assert Shuffle(a, d, n - 1)[n - 1..][0] == a[n - 1..][0];
  }

  /**
   * The draws-to-code map is a bijection between the 1 * 2 * 3 * 4 = 24 draw
   * vectors and the 24 codes: every code is produced by exactly one draw vector,
   * so with independent uniform draws every code is equally likely.
   */
  lemma {:induction false} CodeOfBijective()
    ensures forall c :: IsCode(c) ==> exists d :: ValidDraws(d) && CodeOf(d) == c
    ensures forall d1, d2 :: ValidDraws(d1) && ValidDraws(d2) && CodeOf(d1) == CodeOf(d2) ==> d1 == d2
  {
    forall c | IsCode(c) ensures exists d :: ValidDraws(d) && CodeOf(d) == c {
      var d := DrawsFor(c);
    }
    forall d1, d2 | ValidDraws(d1) && ValidDraws(d2) && CodeOf(d1) == CodeOf(d2) ensures d1 == d2 {
      CodeOfInjective(d1, d2);
    }
  }

  /** The draws that make `generateCode` return a given code. */
  lemma {:induction false} DrawsFor(c: Code) returns (d: seq<int>)
    requires IsCode(c)
    ensures ValidDraws(d) && CodeOf(d) == c
  {
    CodeIsPermutation(c);
    assert IDENTITY[..4] == IDENTITY && c[..4] == c;
    d := Reachable(IDENTITY, c, 4);
  }

  lemma {:induction false} CodeOfInjective(d1: seq<int>, d2: seq<int>)
    requires ValidDraws(d1) && ValidDraws(d2) && CodeOf(d1) == CodeOf(d2)
    ensures d1 == d2
  {
    assert Distinct(IDENTITY);
    ShuffleInjective(IDENTITY, d1, d2, 4);
    assert d1 == d1[..4] && d2 == d2[..4];
  }

  // ---------------------------------------------------------------------------
  // applyPermutation

  /** `code.map(p => items[p - 1])` */
  function ApplyPermutation<T>(items: seq<T>, code: seq<int>): seq<T>
    requires InRange(code, |items|)
  {
    seq(|code|, k requires 0 <= k < |code| => items[code[k] - 1])
  }

  /** The identity code leaves the row unchanged. */
  lemma {:induction false} ApplyIdentity<T>(items: seq<T>)
    requires |items| == 4
    ensures ApplyPermutation(items, IDENTITY) == items
  {
  }

  /** The code [4, 3, 2, 1] reverses the row. */
  lemma {:induction false} ApplyReverse<T>(items: seq<T>)
    requires |items| == 4
    ensures ApplyPermutation(items, [4, 3, 2, 1]) == [items[3], items[2], items[1], items[0]]
  {
  }

  /** Applying a code and then another is applying the second code to the first. */
  lemma {:induction false} ApplyCompose<T>(items: seq<T>, a: seq<int>, b: seq<int>)
    requires InRange(a, |items|) && InRange(b, |a|)
    ensures InRange(ApplyPermutation(a, b), |items|)
    ensures ApplyPermutation(ApplyPermutation(items, a), b) == ApplyPermutation(items, ApplyPermutation(a, b))
  {
  }

  lemma {:induction false} ApplySwap<T>(items: seq<T>, c: seq<int>, i: nat, j: nat)
    requires InRange(c, |items|) && i < |c| && j < |c|
    ensures InRange(Swap(c, i, j), |items|)
    ensures ApplyPermutation(items, Swap(c, i, j)) == Swap(ApplyPermutation(items, c), i, j)
  {
  }

  lemma {:induction false} ApplyShuffle<T>(items: seq<T>, c: seq<int>, draws: seq<int>, n: nat)
    requires InRange(c, |items|) && n <= |c| && DrawsBelow(draws, n)
    ensures InRange(Shuffle(c, draws, n), |items|)
    ensures ApplyPermutation(items, Shuffle(c, draws, n)) == Shuffle(ApplyPermutation(items, c), draws, n)
    decreases n
  {
    if n > 1 {
      ApplySwap(items, c, n - 1, draws[n - 1]);
      ApplyShuffle(items, Swap(c, n - 1, draws[n - 1]), draws, n - 1);
    }
  }

  /** A code rearranges a row of four: the output holds the same items, as often. */
  lemma {:induction false} ApplyPermutes<T>(items: seq<T>, c: Code)
    requires |items| == 4 && IsCode(c)
    ensures InRange(c, |items|)
    ensures multiset(ApplyPermutation(items, c)) == multiset(items)
  {
    var d := DrawsFor(c);
    ApplyShuffle(items, IDENTITY, d, 4);
    ApplyIdentity(items);
    assert ApplyPermutation(items, c) == Shuffle(items, d, 4);
    ShufflePermutes(items, d, 4);
  }

  /** A code is a bijection on rows of four: different rows give different outputs. */
  lemma {:induction false} ApplyInjective<T>(x: seq<T>, y: seq<T>, c: Code)
    requires |x| == 4 && |y| == 4 && IsCode(c)
    ensures InRange(c, 4)
    ensures ApplyPermutation(x, c) == ApplyPermutation(y, c) ==> x == y
  {
    CodeIsPermutation(c);
    if ApplyPermutation(x, c) == ApplyPermutation(y, c) {
      forall p | 0 <= p < 4 ensures x[p] == y[p] {
        assert p + 1 in multiset(IDENTITY);
        assert p + 1 in c;
        var k :| 0 <= k < 4 && c[k] == p + 1;
        assert ApplyPermutation(x, c)[k] == ApplyPermutation(y, c)[k];
      }
    }
  }

  /** Comparing codes by `join('')`, as the source does, is comparing them as sequences. */
  lemma {:induction false} CodesCompareByJoin(a: Code, b: Code)
    requires IsCode(a) && IsCode(b)
    ensures Join(a) == Join(b) <==> a == b
  {
    JoinEqualIffSame(a, b);
  }

  // ---------------------------------------------------------------------------
  // generateShapes

  function Min(a: int, b: int): int {
    if a <= b then a else b
  }

  /**
   * `[...SHAPES].sort(random).slice(0, count)`, where `shuffled` is the order the
   * random sort produced.
   */
  function GenerateShapes(shuffled: seq<ShapeType>, count: nat): (r: seq<ShapeType>)
    requires multiset(shuffled) == multiset(SHAPES)
  {
    shuffled[..Min(count, |shuffled|)]
  }

  /** Up to six shapes can be sampled: they are pairwise distinct shapes of the alphabet. */
  lemma {:induction false} ShapesSample(shuffled: seq<ShapeType>, count: nat)
    requires multiset(shuffled) == multiset(SHAPES) && count <= |SHAPES|
    ensures |GenerateShapes(shuffled, count)| == count
    ensures Distinct(GenerateShapes(shuffled, count))
    ensures forall x :: x in GenerateShapes(shuffled, count) ==> x in SHAPES
  {
    ShapesAlphabet();
    assert |multiset(shuffled)| == |shuffled|;
    DistinctByMultiset(shuffled, SHAPES);
    var r := GenerateShapes(shuffled, count);
    forall x | x in r ensures x in SHAPES {
      assert x in multiset(shuffled);
    }
  }

  // ---------------------------------------------------------------------------
  // The options of a mystery layer: the true code, three decoys, shuffled

  /** Every draw vector of a stream of `generateCode` calls is valid. */
  predicate ValidStream(stream: seq<seq<int>>) {
    forall i :: 0 <= i < |stream| ==> ValidDraws(stream[i])
  }

  /** The codes the decoy loop's `generateCode()` calls would return, in order. */
  function Candidates(stream: seq<seq<int>>): seq<Code>
    requires ValidStream(stream)
  {
    seq(|stream|, i requires 0 <= i < |stream| => CodeOf(stream[i]))
  }

  /** The true code followed by every decoy the stream would draw. */
  function Pool(code: Code, stream: seq<seq<int>>): seq<Code>
    requires ValidStream(stream)
  {
    [code] + Candidates(stream)
  }

  /** Every entry is a code. */
  predicate AllCodes(cs: seq<Code>) {
    forall i :: 0 <= i < |cs| ==> IsCode(cs[i])
  }

  /**
   * The first occurrences of the entries of s, in order: what a list becomes when
   * each entry is pushed only if it is not there yet.
   */
  function Dedup<T(==)>(s: seq<T>): (r: seq<T>)
    ensures |r| <= |s|
    decreases |s|
  {
    if s == [] then []
    else
      var r0 := Dedup(s[..|s| - 1]);
      var x := s[|s| - 1];
      if x in r0 then r0 else r0 + [x]
  }

  /** The deduplicated list has no repetitions and holds exactly the entries of s. */
  lemma {:induction false} DedupSpec<T>(s: seq<T>)
    ensures Distinct(Dedup(s)) && Elems(Dedup(s)) == Elems(s)
    decreases |s|
  {
    if s != [] {
      var init, x := s[..|s| - 1], s[|s| - 1];
      var r0 := Dedup(init);
      DedupSpec(init);
      ElemsSnoc(init, x);
      assert s == init + [x];
      if x !in r0 {
        ElemsSnoc(r0, x);
        assert forall i :: 0 <= i < |r0| ==> r0[i] != x;
      }
    }
  }

  lemma {:induction false} ElemsSnoc<T>(s: seq<T>, x: T)
    ensures Elems(s + [x]) == Elems(s) + {x}
  {
    assert forall y :: y in s + [x] <==> y in s || y == x;
  }

  /** One more entry of s is pushed if and only if it is new. */
  lemma {:induction false} DedupExtend<T>(s: seq<T>, n: nat)
    requires n < |s|
    ensures Dedup(s[..n + 1]) == if s[n] in Dedup(s[..n]) then Dedup(s[..n]) else Dedup(s[..n]) + [s[n]]
  {
    assert s[..n + 1][..n] == s[..n];
  }

  /** Deduplicating a longer prefix only appends. */
  lemma {:induction false} DedupPrefix<T>(s: seq<T>, n: nat)
    requires n <= |s|
    ensures Dedup(s[..n]) <= Dedup(s)
    decreases |s| - n
  {
    if n < |s| {
      DedupPrefix(s, n + 1);
      assert s[..n + 1][..n] == s[..n];
    } else {
      assert s[..n] == s;
    }
  }

  /** The first entry is always kept, in first place. */
  lemma {:induction false} DedupHead<T>(s: seq<T>)
    requires s != []
    ensures Dedup(s) != [] && Dedup(s)[0] == s[0]
  {
    DedupPrefix(s, 1);
    assert s[..1] == [s[0]];
    assert s[..1][..0] == [];
  }

  /** The true code and the stream produce at least four different codes. */
  predicate EnoughDecoys(code: Code, stream: seq<seq<int>>) {
    ValidStream(stream) && |Elems(Pool(code, stream))| >= 4
  }

  /** The pool of candidates deduplicates to at least four codes. */
  lemma {:induction false} PoolLarge(code: Code, stream: seq<seq<int>>)
    requires EnoughDecoys(code, stream)
    ensures |Dedup(Pool(code, stream))| >= 4
  {
    DedupSpec(Pool(code, stream));
    DistinctCard(Dedup(Pool(code, stream)));
  }

  /**
   * The options of a mystery layer: `[code]` extended by each new decoy until
   * there are four, then put in the order the random sort produced.
   */
  function OptionsOf(code: Code, stream: seq<seq<int>>, order: Code): seq<Code>
    requires EnoughDecoys(code, stream) && IsCode(order)
  {
    var pool := Dedup(Pool(code, stream));
    PoolLarge(code, stream);
    ApplyPermutation(pool[..4], order)
  }

  /** The pool of candidates holds codes only. */
  lemma {:induction false} PoolCodes(code: Code, stream: seq<seq<int>>)
    requires IsCode(code) && ValidStream(stream)
    ensures AllCodes(Pool(code, stream))
  {
    var pool := Pool(code, stream);
    forall i | 0 <= i < |pool| ensures IsCode(pool[i]) {
      if i > 0 {
        assert pool[i] == CodeOf(stream[i - 1]);
      }
    }
  }

  /**
   * Every mystery layer has four pairwise distinct options, each a code, one of
   * them the true code.
   */
  lemma {:induction false} OptionsValid(code: Code, stream: seq<seq<int>>, order: Code)
    requires IsCode(code) && EnoughDecoys(code, stream) && IsCode(order)
    ensures |OptionsOf(code, stream, order)| == 4
    ensures Distinct(OptionsOf(code, stream, order))
    ensures code in OptionsOf(code, stream, order)
    ensures AllCodes(OptionsOf(code, stream, order))
  {
    var all := Pool(code, stream);
    var pool := Dedup(all);
    PoolLarge(code, stream);
    DedupSpec(all);
    var first := pool[..4];
    DedupHead(all);
    assert first[0] == code;
    PoolCodes(code, stream);
    forall i | 0 <= i < 4 ensures IsCode(first[i]) {
      assert first[i] in Elems(all);
    }
    assert Distinct(first);
    var r := OptionsOf(code, stream, order);
    ApplyPermutes(first, order);
    DistinctByMultiset(r, first);
    assert code in multiset(first);
    forall i | 0 <= i < 4 ensures IsCode(r[i]) {
      assert r[i] in multiset(first);
    }
  }

  /**
   * The decoy loop of `generatePuzzle` for one mystery layer, then the shuffle of
   * the options. `stream[i]` drives the i-th decoy `generateCode()`; `order` is
   * the permutation the random sort produced.
   */
  method GenerateOptions(code: Code, stream: seq<seq<int>>, order: Code) returns (options: seq<Code>)
    requires IsCode(code) && EnoughDecoys(code, stream) && IsCode(order)
    ensures options == OptionsOf(code, stream, order)
  {
    options := CollectDecoys(code, stream);
    options := ApplyPermutation(options, order);
  }

  /** The options the decoy loop holds once it has drawn n decoys. */
  function Collected(code: Code, stream: seq<seq<int>>, n: nat): seq<Code>
    requires ValidStream(stream) && n <= |stream|
  {
    Dedup(Pool(code, stream)[..n + 1])
  }

  /** The `while (options.length < 4)` loop: push each decoy not yet among the options. */
  method CollectDecoys(code: Code, stream: seq<seq<int>>) returns (options: seq<Code>)
    requires IsCode(code) && EnoughDecoys(code, stream)
    ensures |Dedup(Pool(code, stream))| >= 4
    ensures options == Dedup(Pool(code, stream))[..4]
  {
    options := [code];
    var i := 0;
    CollectStart(code, stream);
    while |options| < 4
      invariant 0 <= i <= |stream|
      invariant options == Collected(code, stream, i) && |options| <= 4
      invariant |options| < 4 ==> i < |stream|
      decreases |stream| - i
    {
      options := PushDecoy(code, stream, i, options);
      i := i + 1;
    }
    CollectDone(code, stream, i);
  }

  /** One turn of the decoy loop: draw a decoy and push it if it is new. */
  method PushDecoy(code: Code, stream: seq<seq<int>>, i: nat, options: seq<Code>) returns (next: seq<Code>)
    requires EnoughDecoys(code, stream) && i < |stream| && options == Collected(code, stream, i)
    ensures next == Collected(code, stream, i + 1) && |next| <= |options| + 1
    ensures |next| < 4 ==> i + 1 < |stream|
  {
    var decoy := GenerateCode(stream[i]);
    CollectStep(code, stream, i, decoy, options);
    next := options;
    if decoy !in next {
      next := next + [decoy];
    }
  }

  lemma {:induction false} CollectStart(code: Code, stream: seq<seq<int>>)
    requires EnoughDecoys(code, stream)
    ensures Collected(code, stream, 0) == [code]
    ensures 0 < |stream|
  {
    assert Pool(code, stream)[..1] == [code];
    PoolLarge(code, stream);
  }

  /**
   * One turn of the decoy loop pushes the decoy exactly when it is new, and the
   * stream does not run out before four options are held.
   */
  lemma {:induction false} CollectStep(code: Code, stream: seq<seq<int>>, i: nat, decoy: Code, before: seq<Code>)
    requires EnoughDecoys(code, stream) && i < |stream|
    requires decoy == CodeOf(stream[i]) && before == Collected(code, stream, i)
    ensures Collected(code, stream, i + 1) == if decoy in before then before else before + [decoy]
    ensures |Collected(code, stream, i + 1)| < 4 ==> i + 1 < |stream|
  {
    var all := Pool(code, stream);
    assert Collected(code, stream, i + 1) == if decoy in before then before else before + [decoy] by {
      assert all[i + 1] == decoy;
      DedupExtend(all, i + 1);
    }
    if i + 1 == |stream| {
      assert Collected(code, stream, i + 1) == Dedup(all) by {
        assert all[..i + 2] == all;
      }
      PoolLarge(code, stream);
    }
  }

  /** When the loop stops, it holds the first four distinct codes of the pool. */
  lemma {:induction false} CollectDone(code: Code, stream: seq<seq<int>>, i: nat)
    requires EnoughDecoys(code, stream) && i <= |stream|
    requires |Collected(code, stream, i)| == 4
    ensures |Dedup(Pool(code, stream))| >= 4
    ensures Collected(code, stream, i) == Dedup(Pool(code, stream))[..4]
  {
    DedupPrefix(Pool(code, stream), i + 1);
  }

  // ---------------------------------------------------------------------------
  // generatePuzzle

  /** A layer of a puzzle (`Layer` in types.ts). `options` is `None` for a fixed layer. */
  datatype Layer = Layer(kind: LayerKind, code: Code, options: Option<seq<Code>>, isSolved: bool, userSelected: Option<Code>)

  /** A puzzle (`Puzzle` in types.ts, without its `Date.now()` id). */
  datatype Puzzle = Puzzle(input: seq<ShapeType>, output: seq<ShapeType>, layers: seq<Layer>, totalMystery: int, level: LevelConfig)

  /**
   * The random draws of one layer: the draw vector of its code; for a mystery
   * layer also the stream of decoy draws and the order the options were sorted into.
   */
  datatype LayerDraws = LayerDraws(code: seq<int>, decoys: seq<seq<int>>, order: Code)

  predicate ValidLayerDraws(kind: LayerKind, d: LayerDraws) {
    ValidDraws(d.code) &&
    (kind == M ==> EnoughDecoys(CodeOf(d.code), d.decoys) && IsCode(d.order))
  }

  /** `Math.min(Math.max(0, levelIndex), LEVELS.length - 1)` */
  function ClampLevel(levelIndex: int): (r: int)
    ensures 0 <= r < |LEVELS|
    ensures 0 <= levelIndex < |LEVELS| ==> r == levelIndex
    ensures levelIndex < 0 ==> r == 0
    ensures levelIndex >= |LEVELS| ==> r == |LEVELS| - 1
  {
    var low := if 0 <= levelIndex then levelIndex else 0;
    if low <= |LEVELS| - 1 then low else |LEVELS| - 1
  }

  /** One valid draw record per entry of a structure. */
  predicate ValidDrawsFor(structure: seq<LayerKind>, layerDraws: seq<LayerDraws>) {
    |layerDraws| == |structure| &&
    forall k :: 0 <= k < |structure| ==> ValidLayerDraws(structure[k], layerDraws[k])
  }

  /**
   * The draws of a whole `generatePuzzle` call: the order the shape sort produced
   * and one record per layer of the clamped level.
   */
  predicate ValidPuzzleDraws(levelIndex: int, shuffled: seq<ShapeType>, layerDraws: seq<LayerDraws>) {
    multiset(shuffled) == multiset(SHAPES) &&
    ValidDrawsFor(LEVELS[ClampLevel(levelIndex)].structure, layerDraws)
  }

  /** The layer built for one entry of the structure. */
  function LayerOf(kind: LayerKind, d: LayerDraws): Layer
    requires ValidLayerDraws(kind, d)
  {
    var code := CodeOf(d.code);
    Layer(kind, code, if kind == M then Some(OptionsOf(code, d.decoys, d.order)) else None, false, None)
  }

  /** `levelConfig.structure.map(...)`: one layer per entry of the structure. */
  function LayersOf(structure: seq<LayerKind>, layerDraws: seq<LayerDraws>): seq<Layer>
    requires ValidDrawsFor(structure, layerDraws)
  {
    seq(|structure|, k requires 0 <= k < |structure| => LayerOf(structure[k], layerDraws[k]))
  }

  /** The codes of a list of layers, in order. */
  function Codes(layers: seq<Layer>): seq<Code> {
    seq(|layers|, k requires 0 <= k < |layers| => layers[k].code)
  }

  /** The row after passing `s` through each code in turn. */
  function Chain<T>(s: seq<T>, codes: seq<Code>): (r: seq<T>)
    requires |s| == 4 && AllCodes(codes)
    ensures |r| == 4
  {
    if codes == [] then s
    else ApplyPermutation(Chain(s, codes[..|codes| - 1]), codes[|codes| - 1])
  }

  /** The puzzle `generatePuzzle(levelIndex)` returns for the given draws. */
  function PuzzleOf(levelIndex: int, shuffled: seq<ShapeType>, layerDraws: seq<LayerDraws>): Puzzle
    requires ValidPuzzleDraws(levelIndex, shuffled, layerDraws)
  {
    var level := LEVELS[ClampLevel(levelIndex)];
    var input := GenerateShapes(shuffled, 4);
    var layers := LayersOf(level.structure, layerDraws);
    ShapesSample(shuffled, 4);
    LayerCodes(layers);
    Puzzle(input, Chain(input, Codes(layers)), layers, MysteryCount(level.structure), level)
  }

  lemma {:induction false} LayerCodes(layers: seq<Layer>)
    requires forall k :: 0 <= k < |layers| ==> IsCode(layers[k].code)
    ensures AllCodes(Codes(layers))
  {
  }

  lemma {:induction false} CodesSnoc(layers: seq<Layer>, l: Layer)
    ensures Codes(layers + [l]) == Codes(layers) + [l.code]
  {
  }

  /** Passing through one more code applies it to the row so far. */
  lemma {:induction false} ChainSnoc<T>(s: seq<T>, layers: seq<Layer>, l: Layer, before: seq<T>)
    requires |s| == 4 && AllCodes(Codes(layers)) && IsCode(l.code)
    requires before == Chain(s, Codes(layers))
    ensures AllCodes(Codes(layers + [l]))
    ensures Chain(s, Codes(layers + [l])) == ApplyPermutation(before, l.code)
  {
    CodesSnoc(layers, l);
    var cs := Codes(layers + [l]);
    assert cs[..|cs| - 1] == Codes(layers);
  }

  lemma {:induction false} LayersSnoc(structure: seq<LayerKind>, layerDraws: seq<LayerDraws>, k: nat, layer: Layer)
    requires ValidDrawsFor(structure, layerDraws) && k < |structure|
    requires layer == LayerOf(structure[k], layerDraws[k])
    ensures LayersOf(structure, layerDraws)[..k + 1] == LayersOf(structure, layerDraws)[..k] + [layer]
  {
    var spec := LayersOf(structure, layerDraws);
    assert spec[k] == layer;
  }

  lemma {:induction false} MysteryCountSnoc(structure: seq<LayerKind>, k: nat)
    requires k < |structure|
    ensures MysteryCount(structure[..k + 1]) == MysteryCount(structure[..k]) + (if structure[k] == M then 1 else 0)
  {
    assert structure[..k + 1] == structure[..k] + [structure[k]];
  }

  /** One more layer keeps the loop of `generatePuzzle` in step with its specification. */
  lemma {:induction false} PuzzleStep(structure: seq<LayerKind>, layerDraws: seq<LayerDraws>, input: seq<ShapeType>, k: nat,
                                      layers: seq<Layer>, shapes: seq<ShapeType>, layer: Layer)
    requires ValidDrawsFor(structure, layerDraws) && k < |structure| && |input| == 4
    requires layers == LayersOf(structure, layerDraws)[..k]
    requires AllCodes(Codes(layers)) && shapes == Chain(input, Codes(layers))
    requires layer == LayerOf(structure[k], layerDraws[k])
    ensures layers + [layer] == LayersOf(structure, layerDraws)[..k + 1]
    ensures AllCodes(Codes(layers + [layer])) && Chain(input, Codes(layers + [layer])) == ApplyPermutation(shapes, layer.code)
    ensures MysteryCount(structure[..k + 1]) == MysteryCount(structure[..k]) + (if structure[k] == M then 1 else 0)
  {
    ChainSnoc(input, layers, layer, shapes);
    MysteryCountSnoc(structure, k);
    LayersSnoc(structure, layerDraws, k, layer);
  }

  /** The callback of `structure.map`: one layer with its code and, for a mystery layer, its options. */
  method GenerateLayer(kind: LayerKind, d: LayerDraws) returns (layer: Layer)
    requires ValidLayerDraws(kind, d)
    ensures layer == LayerOf(kind, d)
  {
    var code := GenerateCode(d.code);
    var options: Option<seq<Code>> := None;
    if kind == M {
      var opts := GenerateOptions(code, d.decoys, d.order);
      options := Some(opts);
    }
    layer := Layer(kind, code, options, false, None);
  }

  /**
   * `generatePuzzle`: walk the level's structure, drawing each layer's code,
   * threading the row of shapes through it, counting mystery layers and giving
   * each mystery layer its options.
   */
  method GeneratePuzzle(levelIndex: int, shuffled: seq<ShapeType>, layerDraws: seq<LayerDraws>) returns (p: Puzzle)
    requires ValidPuzzleDraws(levelIndex, shuffled, layerDraws)
    ensures p == PuzzleOf(levelIndex, shuffled, layerDraws)
  {
    var safeIndex := ClampLevel(levelIndex);
    var levelConfig := LEVELS[safeIndex];
    ShapesSample(shuffled, 4);
    var input := GenerateShapes(shuffled, 4);
    var layers, output, totalMystery := BuildLayers(levelConfig.structure, layerDraws, input);
    p := Puzzle(input, output, layers, totalMystery, levelConfig);
  }

  /**
   * The loop over `levelConfig.structure` in `generatePuzzle`: build each layer,
   * pass the row of shapes through its code and count the mystery layers.
   */
  method BuildLayers(structure: seq<LayerKind>, layerDraws: seq<LayerDraws>, input: seq<ShapeType>)
    returns (layers: seq<Layer>, output: seq<ShapeType>, totalMystery: int)
    requires ValidDrawsFor(structure, layerDraws) && |input| == 4
    ensures layers == LayersOf(structure, layerDraws)
    ensures AllCodes(Codes(layers)) && output == Chain(input, Codes(layers))
    ensures totalMystery == MysteryCount(structure)
  {
    output, totalMystery, layers := input, 0, [];
    ghost var spec := LayersOf(structure, layerDraws);
    var k := 0;
    while k < |structure|
      invariant 0 <= k <= |structure|
      invariant layers == spec[..k]
      invariant AllCodes(Codes(layers)) && output == Chain(input, Codes(layers))
      invariant totalMystery == MysteryCount(structure[..k])
    {
      var kind := structure[k];
      if kind == M {
        totalMystery := totalMystery + 1;
      }
      var layer := GenerateLayer(kind, layerDraws[k]);
      PuzzleStep(structure, layerDraws, input, k, layers, output, layer);
      output := ApplyPermutation(output, layer.code);
      layers := layers + [layer];
      k := k + 1;
    }
    assert structure[..k] == structure && spec[..k] == spec;
  }

  /** Threading a row through codes only rearranges it. */
  lemma {:induction false} ChainPermutes<T>(s: seq<T>, codes: seq<Code>)
    requires |s| == 4 && AllCodes(codes)
    ensures multiset(Chain(s, codes)) == multiset(s)
    decreases |codes|
  {
    if codes != [] {
      ChainPermutes(s, codes[..|codes| - 1]);
      ApplyPermutes(Chain(s, codes[..|codes| - 1]), codes[|codes| - 1]);
    }
  }

  /**
   * A chain of layers acts as one code: the code `Chain(IDENTITY, codes)`
   * applied to the input gives the output.
   */
  lemma {:induction false} ChainIsOneCode<T>(s: seq<T>, codes: seq<Code>)
    requires |s| == 4 && AllCodes(codes)
    ensures IsCode(Chain(IDENTITY, codes))
    ensures Chain(s, codes) == ApplyPermutation(s, Chain(IDENTITY, codes))
    decreases |codes|
  {
    ChainPermutes(IDENTITY, codes);
    CodeIsPermutation(Chain(IDENTITY, codes));
    if codes == [] {
      ApplyIdentity(s);
    } else {
      var init, c := codes[..|codes| - 1], codes[|codes| - 1];
      ChainIsOneCode(s, init);
      ApplyCompose(s, Chain(IDENTITY, init), c);
    }
  }

  /**
   * The layers of a generated puzzle follow the level's structure one to one:
   * same kinds, fresh (unsolved, unselected), options exactly on mystery layers.
   */
  lemma {:induction false} PuzzleLayers(levelIndex: int, shuffled: seq<ShapeType>, layerDraws: seq<LayerDraws>)
    requires ValidPuzzleDraws(levelIndex, shuffled, layerDraws)
    ensures var p := PuzzleOf(levelIndex, shuffled, layerDraws);
      p.level == LEVELS[ClampLevel(levelIndex)] &&
      |p.layers| == |p.level.structure| &&
      forall k :: 0 <= k < |p.layers| ==>
        p.layers[k].kind == p.level.structure[k] && IsCode(p.layers[k].code) &&
        !p.layers[k].isSolved && p.layers[k].userSelected == None &&
        (p.layers[k].options == None <==> p.layers[k].kind == F)
  {
    var p := PuzzleOf(levelIndex, shuffled, layerDraws);
    LayersFresh(p.level.structure, layerDraws);
  }

  lemma {:induction false} LayersFresh(structure: seq<LayerKind>, layerDraws: seq<LayerDraws>)
    requires ValidDrawsFor(structure, layerDraws)
    ensures var layers := LayersOf(structure, layerDraws);
      |layers| == |structure| &&
      forall k :: 0 <= k < |layers| ==>
        layers[k].kind == structure[k] && IsCode(layers[k].code) &&
        !layers[k].isSolved && layers[k].userSelected == None &&
        (layers[k].options == None <==> layers[k].kind == F)
  {
  }

  /**
   * Every mystery layer of a generated puzzle offers four distinct codes, one of
   * them its own code.
   */
  lemma {:induction false} PuzzleOptions(levelIndex: int, shuffled: seq<ShapeType>, layerDraws: seq<LayerDraws>)
    requires ValidPuzzleDraws(levelIndex, shuffled, layerDraws)
    ensures var p := PuzzleOf(levelIndex, shuffled, layerDraws);
      forall k :: 0 <= k < |p.layers| && p.layers[k].kind == M ==>
        p.layers[k].options.Some? && OptionsOk(p.layers[k].code, p.layers[k].options.value)
  {
    var p := PuzzleOf(levelIndex, shuffled, layerDraws);
    var structure := p.level.structure;
    forall k | 0 <= k < |p.layers| && p.layers[k].kind == M
      ensures p.layers[k].options.Some? && OptionsOk(p.layers[k].code, p.layers[k].options.value)
    {
      var d := layerDraws[k];
      assert p.layers[k] == LayerOf(structure[k], d);
      OptionsValid(CodeOf(d.code), d.decoys, d.order);
    }
  }

  /** Four distinct options, all codes, the true code among them. */
  predicate OptionsOk(code: Code, options: seq<Code>) {
    |options| == 4 && Distinct(options) && code in options && AllCodes(options)
  }

  /**
   * The rows of a generated puzzle: four distinct shapes as input, the output is
   * the input passed through every layer's code in order (so a rearrangement of
   * it), and `totalMystery` counts the mystery layers, at least one.
   */
  lemma {:induction false} PuzzleRows(levelIndex: int, shuffled: seq<ShapeType>, layerDraws: seq<LayerDraws>)
    requires ValidPuzzleDraws(levelIndex, shuffled, layerDraws)
    ensures var p := PuzzleOf(levelIndex, shuffled, layerDraws);
      |p.input| == 4 && Distinct(p.input) && (forall x :: x in p.input ==> x in SHAPES) &&
      AllCodes(Codes(p.layers)) &&
      p.output == Chain(p.input, Codes(p.layers)) &&
      multiset(p.output) == multiset(p.input) &&
      p.totalMystery == MysteryCount(p.level.structure) && p.totalMystery >= 1
  {
    var p := PuzzleOf(levelIndex, shuffled, layerDraws);
    ShapesSample(shuffled, 4);
    LayerCodes(p.layers);
    ChainPermutes(p.input, Codes(p.layers));
    LevelStructure(ClampLevel(levelIndex));
  }

  // ---------------------------------------------------------------------------
  // formatTime

  /**
   * JavaScript's `%`: the remainder of the division whose quotient is truncated
   * toward zero, so it takes the sign of the dividend.
   */
  function JsRemainder(a: int, b: int): (r: int)
    requires b > 0
    ensures a >= 0 ==> r == a % b
    ensures a < 0 ==> -b < r <= 0 && a == b * -((-a) / b) + r
  {
    if a >= 0 then a % b
    else
      var q := (-a) / b;
      assert -a == b * q + (-a) % b;
      assert b * -q == -(b * q);
      -((-a) % b)
  }

  /** `${Math.floor(seconds / 60)}:${(seconds % 60).toString().padStart(2, '0')}` */
  function FormatTime(seconds: int): string {
    IntToString(seconds / 60) + ":" + PadStart(IntToString(JsRemainder(seconds, 60)), 2, '0')
  }

  /**
   * For a non-negative time, the text is the minutes in decimal, a colon and
   * exactly two digits of seconds, and reading them back gives the time.
   */
  lemma {:induction false} FormatTimeShape(seconds: int)
    requires seconds >= 0
    ensures var r := FormatTime(seconds);
      var i := |r| - 3;
      i >= 1 && r[i] == ':' &&
      (forall k :: 0 <= k < |r| && k != i ==> IsDigit(r[k])) &&
      r[..i] == NatToString(seconds / 60) &&
      DigitsValue(r[..i]) * 60 + DigitsValue(r[i + 1..]) == seconds &&
      DigitsValue(r[i + 1..]) < 60
  {
    var mins, secs := seconds / 60, seconds % 60;
    var m := NatToString(mins);
    var t := PadStart(NatToString(secs), 2, '0');
    assert FormatTime(seconds) == m + ":" + t;
    NatToStringValue(mins);
    TwoDigits(secs);
    ColonJoin(m, t);
  }

  /** Minutes, a colon and two digits: the colon is third from the end and splits the text back. */
  lemma {:induction false} ColonJoin(m: string, t: string)
    requires |m| >= 1 && (forall k :: 0 <= k < |m| ==> IsDigit(m[k]))
    requires |t| == 2 && IsDigit(t[0]) && IsDigit(t[1])
    ensures var r := m + ":" + t;
      |r| - 3 == |m| && r[|m|] == ':' &&
      (forall k :: 0 <= k < |r| && k != |m| ==> IsDigit(r[k])) &&
      r[..|m|] == m && r[|m| + 1..] == t
  {
    var r := m + ":" + t;
    assert r[..|m|] == m && r[|m| + 1..] == t;
    forall k | 0 <= k < |r| && k != |m| ensures IsDigit(r[k]) {
      if k < |m| {
        assert r[k] == m[k];
      } else {
        assert r[k] == t[k - |m| - 1];
      }
    }
  }

  /** The seconds field: two digits whose value is the seconds. */
  lemma {:induction false} TwoDigits(secs: int)
    requires 0 <= secs < 60
    ensures var t := PadStart(NatToString(secs), 2, '0');
      |t| == 2 && IsDigit(t[0]) && IsDigit(t[1]) && DigitsValue(t) == secs
  {
    var t := PadStart(NatToString(secs), 2, '0');
    NatToStringValue(secs);
    if secs < 10 {
      assert t == ['0', DigitChar(secs)];
      assert t[..1] == ['0'];
      assert t[..1][..0] == [];
    } else {
      assert NatToString(secs) == NatToString(secs / 10) + [DigitChar(secs % 10)];
    }
  }

  /** Five minutes read "5:00"; 59 seconds read "0:59". */
  lemma {:induction false} FormatTimeExamples()
    ensures FormatTime(300) == "5:00"
    ensures FormatTime(59) == "0:59"
  {
    assert NatToString(5) == "5";
    assert NatToString(0) == "0";
    assert NatToString(59) == "59" by {
      assert NatToString(5) == "5";
    }
  }
}
