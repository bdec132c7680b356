/**
 * The selection step of a draw in ParticleCanvas.tsx: the candidate pool of
 * particle indices, sampling without replacement by removing the picked
 * index from the pool (`splice`), and the ascending sort of the drawn
 * numbers. Particles are addressed by their index in the particle array; the
 * particle at index j carries the number j + 1.
 */
module DrawSelection {

  /** No element occurs twice. */
  predicate Distinct<T(==)>(s: seq<T>) {
    forall i, j :: 0 <= i < j < |s| ==> s[i] != s[j]
  }

  predicate Ascending(s: seq<int>) {
    forall i, j :: 0 <= i < j < |s| ==> s[i] <= s[j]
  }

  predicate StrictlyAscending(s: seq<int>) {
    forall i, j :: 0 <= i < j < |s| ==> s[i] < s[j]
  }

  /** The indices 0, 1, ..., n - 1 in order: the whole pool after every flag is reset. */
  function Range(n: nat): (r: seq<nat>)
    ensures |r| == n
    ensures forall i :: 0 <= i < n ==> r[i] == i
  {
    if n == 0 then [] else Range(n - 1) + [n - 1]
  }

  /** `s.splice(k, 1)`: the sequence without its element at position k. */
  function RemoveAt(s: seq<nat>, k: nat): seq<nat>
    requires k < |s|
  {
    s[..k] + s[k + 1..]
  }

  lemma RemoveAtKeepsOthers(s: seq<nat>, k: nat)
    requires k < |s| && Distinct(s)
    ensures |RemoveAt(s, k)| == |s| - 1
    ensures Distinct(RemoveAt(s, k))
    ensures forall x :: x in RemoveAt(s, k) <==> x in s && x != s[k]
  {
    var r := RemoveAt(s, k);
    assert forall i :: 0 <= i < |r| ==> r[i] == if i < k then s[i] else s[i + 1];
    forall x | x in s && x != s[k]
      ensures x in r
    {
      var i :| 0 <= i < |s| && s[i] == x;
      if i < k { assert r[i] == x; } else { assert r[i - 1] == x; }
    }
  }

  /**
   * The injected random source: the i-th pick is an index into the pool as
   * it is before the i-th removal, so it lies below the pool size minus i
   * (what `Math.floor(Math.random() * availableParticles.length)` yields).
   */
  predicate ValidPicks(picks: seq<nat>, poolSize: nat) {
    |picks| <= poolSize && forall i :: 0 <= i < |picks| ==> picks[i] < poolSize - i
  }

  lemma ValidPicksPrefix(picks: seq<nat>, poolSize: nat, n: nat)
    requires ValidPicks(picks, poolSize) && n <= |picks|
    ensures ValidPicks(picks[..n], poolSize)
  {
  }

  /** The chosen indices in pick order and what is left of the pool. */
  datatype Selection = Selection(chosen: seq<nat>, remaining: seq<nat>)

  /** Sampling without replacement: each pick moves one pool entry to `chosen`. */
  function Sample(pool: seq<nat>, picks: seq<nat>): (r: Selection)
    requires ValidPicks(picks, |pool|)
    ensures |r.chosen| == |picks|
    ensures |r.remaining| == |pool| - |picks|
    decreases |picks|
  {
    if |picks| == 0 then Selection([], pool)
    else
      var prev := Sample(pool, picks[..|picks| - 1]);
      var k := picks[|picks| - 1];
      Selection(prev.chosen + [prev.remaining[k]], RemoveAt(prev.remaining, k))
  }

  /** Extending the picks by one pick extends the sampling by one step. */
  lemma SampleStep(pool: seq<nat>, picks: seq<nat>, i: nat)
    requires ValidPicks(picks, |pool|) && i < |picks|
    ensures ValidPicks(picks[..i], |pool|) && ValidPicks(picks[..i + 1], |pool|)
    ensures picks[i] < |Sample(pool, picks[..i]).remaining|
    ensures Sample(pool, picks[..i + 1])
         == Selection(Sample(pool, picks[..i]).chosen + [Sample(pool, picks[..i]).remaining[picks[i]]],
                      RemoveAt(Sample(pool, picks[..i]).remaining, picks[i]))
  {
    assert picks[..i + 1][..i] == picks[..i];
  }

  /** Sampling from a pool of distinct entries splits the pool into two disjoint parts. */
  lemma {:induction false} SampleIsPartition(pool: seq<nat>, picks: seq<nat>)
    requires Distinct(pool) && ValidPicks(picks, |pool|)
    ensures Distinct(Sample(pool, picks).chosen)
    ensures Distinct(Sample(pool, picks).remaining)
    ensures forall x :: x in Sample(pool, picks).chosen ==> x !in Sample(pool, picks).remaining
    ensures forall x :: x in pool <==> x in Sample(pool, picks).chosen || x in Sample(pool, picks).remaining
    decreases |picks|
  {
    if |picks| > 0 {
      var init := picks[..|picks| - 1];
      SampleIsPartition(pool, init);
      var prev := Sample(pool, init);
      var k := picks[|picks| - 1];
      RemoveAtKeepsOthers(prev.remaining, k);
      var x := prev.remaining[k];
      var chosen := prev.chosen + [x];
      forall i, j | 0 <= i < j < |chosen|
        ensures chosen[i] != chosen[j]
      {
        if j == |chosen| - 1 {
          assert chosen[i] in prev.chosen;
        }
      }
    }
  }

  /** Inserts x before the first element not below it. */
  function Insert(x: int, s: seq<int>): (r: seq<int>)
    ensures multiset(r) == multiset(s) + multiset{x}
    ensures forall y :: y in r <==> y == x || y in s
  {
    if s == [] || x <= s[0] then [x] + s
    else
      assert s == [s[0]] + s[1..];
      [s[0]] + Insert(x, s[1..])
  }

  /** Every element of an ascending sequence is at least its first one. */
  lemma AscendingHeadIsLeast(s: seq<int>, y: int, strict: bool)
    requires s != [] && y in s[1..]
    requires strict ==> StrictlyAscending(s)
    requires !strict ==> Ascending(s)
    ensures strict ==> s[0] < y
    ensures !strict ==> s[0] <= y
  {
    var k :| 0 <= k < |s[1..]| && s[1..][k] == y;
    assert s[k + 1] == y;
  }

  lemma {:induction false} InsertKeepsAscending(x: int, s: seq<int>)
    requires Ascending(s)
    ensures Ascending(Insert(x, s))
    decreases |s|
  {
    if s != [] && x > s[0] {
      var tail := s[1..];
      InsertKeepsAscending(x, tail);
      var t := Insert(x, tail);
      forall y | y in t ensures s[0] <= y {
        if y != x { AscendingHeadIsLeast(s, y, false); }
      }
      var r := [s[0]] + t;
      assert Insert(x, s) == r;
      forall i, j | 0 <= i < j < |r| ensures r[i] <= r[j] {
        assert r[j] == t[j - 1] && t[j - 1] in t;
        if i > 0 { assert r[i] == t[i - 1]; }
      }
    }
  }

  /** `drawnValues.sort((a, b) => a - b)`: numeric ascending order. */
  function SortAscending(s: seq<int>): (r: seq<int>)
    ensures Ascending(r)
    ensures multiset(r) == multiset(s)
  {
    if s == [] then []
    else
      assert s == [s[0]] + s[1..];
      InsertKeepsAscending(s[0], SortAscending(s[1..]));
      Insert(s[0], SortAscending(s[1..]))
  }

  lemma {:induction false} InsertFreshIsStrict(x: int, s: seq<int>)
    requires StrictlyAscending(s) && x !in s
    ensures StrictlyAscending(Insert(x, s))
    decreases |s|
  {
    if s != [] && x > s[0] {
      var tail := s[1..];
      InsertFreshIsStrict(x, tail);
      var t := Insert(x, tail);
      forall y | y in t ensures s[0] < y {
        if y != x { AscendingHeadIsLeast(s, y, true); }
      }
      var r := [s[0]] + t;
      assert Insert(x, s) == r;
      forall i, j | 0 <= i < j < |r| ensures r[i] < r[j] {
        assert r[j] == t[j - 1] && t[j - 1] in t;
        if i > 0 { assert r[i] == t[i - 1]; }
      }
    }
  }

  /** Sorting numbers that are pairwise different gives a strictly ascending sequence. */
  lemma {:induction false} SortDistinctIsStrict(s: seq<int>)
    requires Distinct(s)
    ensures StrictlyAscending(SortAscending(s))
    decreases |s|
  {
    if s != [] {
      var tail := s[1..];
      assert Distinct(tail) by {
        forall i, j | 0 <= i < j < |tail| ensures tail[i] != tail[j] {
          assert tail[i] == s[i + 1] && tail[j] == s[j + 1];
        }
      }
      SortDistinctIsStrict(tail);
      var sorted := SortAscending(tail);
      assert s[0] !in tail;
      assert s[0] !in multiset(sorted);
      InsertFreshIsStrict(s[0], sorted);
    }
  }

  /** The numbers carried by the particles at the given indices. */
  function NumbersAt(indices: seq<nat>): seq<int> {
    seq(|indices|, k requires 0 <= k < |indices| => indices[k] + 1)
  }

  /** The reported result of a draw from a pool of `poolSize` particles with the given picks. */
  function DrawResult(poolSize: nat, picks: seq<nat>): seq<int>
    requires ValidPicks(picks, poolSize)
  {
    SortAscending(NumbersAt(Sample(Range(poolSize), picks).chosen))
  }

  lemma RangeIsDistinct(n: nat)
    ensures Distinct(Range(n))
    ensures forall x: int :: x in Range(n) <==> 0 <= x < n
  {
    var r := Range(n);
    forall x: nat | x < n ensures x in r { assert r[x] == x; }
    forall x | x in r ensures 0 <= x < n { var i :| 0 <= i < n && r[i] == x; }
  }

  /**
   * What the sorted numbers of distinct indices below `poolSize` are like:
   * as many as indices, strictly ascending, each between 1 and `poolSize`.
   */
  lemma SortedNumbersOfDistinct(indices: seq<nat>, poolSize: nat)
    requires Distinct(indices)
    requires forall x :: x in indices ==> x < poolSize
    ensures |SortAscending(NumbersAt(indices))| == |indices|
    ensures StrictlyAscending(SortAscending(NumbersAt(indices)))
    ensures forall v :: v in SortAscending(NumbersAt(indices)) ==> 1 <= v <= poolSize
  {
    var numbers := NumbersAt(indices);
    var sorted := SortAscending(numbers);
    assert |sorted| == |multiset(sorted)| == |multiset(numbers)| == |numbers|;
    assert Distinct(numbers);
    SortDistinctIsStrict(numbers);
    forall v | v in sorted ensures 1 <= v <= poolSize {
      assert v in multiset(numbers);
      var k :| 0 <= k < |numbers| && numbers[k] == v;
      assert indices[k] in indices;
    }
  }

  /**
   * A draw with valid picks reports as many numbers as picks, strictly
   * ascending, each a particle number 1..poolSize.
   */
  lemma DrawResultIsStrictSubrange(poolSize: nat, picks: seq<nat>)
    requires ValidPicks(picks, poolSize)
    ensures |DrawResult(poolSize, picks)| == |picks|
    ensures StrictlyAscending(DrawResult(poolSize, picks))
    ensures forall v :: v in DrawResult(poolSize, picks) ==> 1 <= v <= poolSize
  {
    RangeIsDistinct(poolSize);
    SampleIsPartition(Range(poolSize), picks);
    SortedNumbersOfDistinct(Sample(Range(poolSize), picks).chosen, poolSize);
  }

  lemma {:induction false} StrictlyAscendingLower(r: seq<int>, i: nat)
    requires StrictlyAscending(r) && i < |r|
    ensures r[i] >= r[0] + i
  {
    if i > 0 { StrictlyAscendingLower(r, i - 1); }
  }

  lemma {:induction false} StrictlyAscendingUpper(r: seq<int>, i: nat)
    requires StrictlyAscending(r) && i < |r|
    ensures r[i] <= r[|r| - 1] - (|r| - 1 - i)
    decreases |r| - i
  {
    if i < |r| - 1 { StrictlyAscendingUpper(r, i + 1); }
  }

  /** n strictly ascending numbers within 1..n are exactly 1, 2, ..., n. */
  lemma StrictlyAscendingFillsRange(r: seq<int>, n: nat)
    requires StrictlyAscending(r) && |r| == n
    requires forall v :: v in r ==> 1 <= v <= n
    ensures r == NumbersAt(Range(n))
  {
    forall i | 0 <= i < n ensures r[i] == i + 1 {
      StrictlyAscendingLower(r, i);
      StrictlyAscendingUpper(r, i);
      assert r[0] in r && r[n - 1] in r;
    }
  }

  /** Drawing as many numbers as there are particles reports every number 1..poolSize in order. */
  lemma FullDrawReportsEveryNumber(poolSize: nat, picks: seq<nat>)
    requires ValidPicks(picks, poolSize) && |picks| == poolSize
    ensures DrawResult(poolSize, picks) == NumbersAt(Range(poolSize))
  {
    DrawResultIsStrictSubrange(poolSize, picks);
    StrictlyAscendingFillsRange(DrawResult(poolSize, picks), poolSize);
  }
}
