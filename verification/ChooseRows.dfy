/** The duration-stratified sample: rows are sorted by duration, cut into ten bins, and the same
    quota is drawn from each bin in the order of a hash. */
module ChooseRows {
  import opened Sorting

  datatype Row = Row(numSamples: int, id: int, transcription: string)

  datatype Result<T> = Success(value: T) | ValueError

  const BINS: nat := 10

  const BY_KEY := (a: Row, b: Row) => a.numSamples < b.numSamples || (a.numSamples == b.numSamples && a.id <= b.id)

  /** The hash of split and row id, as the number its hexadecimal digits spell. */
  type Rank = int -> nat

  function ByRank(rank: Rank): (Row, Row) -> bool {
    (a: Row, b: Row) => rank(a.id) <= rank(b.id)
  }

  /** Python's s[:count]. */
  function PrefixSlice<T>(s: seq<T>, count: int): seq<T> {
    if count >= 0 then s[..if count < |s| then count else |s|]
    else s[..if |s| + count > 0 then |s| + count else 0]
  }

  /** The first index whose bin is k or later, among n rows. */
  function BinStart(k: nat, n: nat): nat {
    (k * n + 9) / 10
  }

  /** Bin k of the sorted rows is a run of consecutive rows. */
  function Bin(sorted: seq<Row>, k: nat): seq<Row>
    requires k < BINS
  {
    BinsAreRuns(k, |sorted|);
    sorted[BinStart(k, |sorted|)..BinStart(k + 1, |sorted|)]
  }

  /** The runs tile the rows, and their lengths differ by at most one. */
  lemma BinsAreRuns(k: nat, n: nat)
    requires k < BINS
    ensures BinStart(0, n) == 0 && BinStart(BINS, n) == n
    ensures BinStart(k, n) <= BinStart(k + 1, n) <= n
    ensures n / 10 <= BinStart(k + 1, n) - BinStart(k, n) <= (n + 9) / 10
  {
    assert (k + 1) * n == k * n + n;
    assert (k + 1) * n <= 10 * n;
  }

  /** The bin the loop puts a row into. */
  function BinOf(index: nat, n: nat): nat
    requires index < n
  {
    if 9 < index * 10 / n then 9 else index * 10 / n
  }

  lemma QuotientBelow(b: nat, n: nat, m: nat)
    requires b * n <= m < 10 * n
    ensures b < 10
  {
    assert b >= 10 ==> b * n >= 10 * n;
  }

  lemma RowLandsInBin(index: nat, n: nat)
    requires index < n
    ensures var b := BinOf(index, n); b < BINS && BinStart(b, n) <= index < BinStart(b + 1, n)
  {
    var b := index * 10 / n;
    assert index * 10 == b * n + index * 10 % n;
    QuotientBelow(b, n, index * 10);
    assert (b + 1) * n == b * n + n;
  }

  /** Row i of n is in bin k exactly if k tenths of the rows, and not k + 1 tenths, come before it. */
  lemma BinsAreTenths(k: nat, index: nat, n: nat)
    requires k < 10 && index < n
    ensures BinOf(index, n) == k <==> k * n <= 10 * index < (k + 1) * n
    ensures BinStart(k, n) <= index < BinStart(k + 1, n) <==> k * n <= 10 * index < (k + 1) * n
  {
    hide BinOf, BinStart;
    RowLandsInBin(index, n);
    TenthOf(index, n);
    StartIsCeiling(k, index, n);
    StartIsCeiling(k + 1, index, n);
    var b := BinOf(index, n);
    OneQuotient(k, b, 10 * index, n);
  }

  lemma TenthOf(index: nat, n: nat)
    requires index < n
    ensures var b := BinOf(index, n); b * n <= 10 * index < (b + 1) * n
  {
    var b := index * 10 / n;
    assert index * 10 == b * n + index * 10 % n;
    QuotientBelow(b, n, index * 10);
    assert (b + 1) * n == b * n + n;
  }

  lemma StartIsCeiling(k: nat, index: nat, n: nat)
    ensures BinStart(k, n) <= index <==> k * n <= 10 * index
  {
  }

  lemma OneQuotient(k: nat, b: nat, m: nat, n: nat)
    requires b * n <= m < (b + 1) * n
    ensures k == b <==> k * n <= m < (k + 1) * n
  {
    if k < b { assert (k + 1) * n <= b * n; }
    if b < k { assert (b + 1) * n <= k * n; }
  }

  lemma StartsAreMonotone(j: nat, k: nat, n: nat)
    requires j <= k
    ensures BinStart(j, n) <= BinStart(k, n)
  {
    assert j * n <= k * n;
  }

  /** The rows drawn from bin k. */
  function Draw(sorted: seq<Row>, k: nat, rank: Rank, quota: int): seq<Row>
    requires k < BINS
  {
    PrefixSlice(SortBy(Bin(sorted, k), ByRank(rank)), quota)
  }

  function DrawFirst(sorted: seq<Row>, bins: nat, rank: Rank, quota: int): seq<Row>
    requires bins <= BINS
  {
    if bins == 0 then [] else DrawFirst(sorted, bins - 1, rank, quota) + Draw(sorted, bins - 1, rank, quota)
  }

  method FillBins(sorted: seq<Row>) returns (bins: seq<seq<Row>>)
    ensures |bins| == BINS && forall k :: 0 <= k < BINS ==> bins[k] == Bin(sorted, k)
  {
    var n := |sorted|;
    bins := seq(BINS, _ => []);
    FilledEnds(sorted);
    hide Filled, Bin, BinStart, BinOf;
    for index := 0 to n
      invariant |bins| == BINS
      invariant forall k :: 0 <= k < BINS ==> bins[k] == Filled(sorted, k, index)
    {
      RowLandsInBin(index, n);
      var b := BinOf(index, n);
      FillAll(sorted, index, b);
      bins := bins[b := bins[b] + [sorted[index]]];
    }
  }

  lemma FilledEnds(sorted: seq<Row>)
    ensures forall k :: 0 <= k < BINS ==> Filled(sorted, k, 0) == [] && Filled(sorted, k, |sorted|) == Bin(sorted, k)
  {
    forall k | 0 <= k < BINS ensures Filled(sorted, k, 0) == [] && Filled(sorted, k, |sorted|) == Bin(sorted, k) {
      BinsAreRuns(k, |sorted|);
    }
  }

  lemma FillAll(sorted: seq<Row>, index: nat, b: nat)
    requires index < |sorted| && b == BinOf(index, |sorted|)
    ensures forall k :: 0 <= k < BINS ==>
              Filled(sorted, k, index + 1) == Filled(sorted, k, index) + if k == b then [sorted[index]] else []
  {
    hide Filled, BinOf, BinStart;
    forall k | 0 <= k < BINS
      ensures Filled(sorted, k, index + 1) == Filled(sorted, k, index) + if k == b then [sorted[index]] else []
    {
      FillOne(sorted, k, index, b);
    }
  }

  function AtMost(a: nat, b: nat): nat {
    if a < b then a else b
  }

  /** Bin k after the first `index` rows. */
  function Filled(sorted: seq<Row>, k: nat, index: nat): seq<Row>
    requires k < BINS && index <= |sorted|
  {
    BinsAreRuns(k, |sorted|);
    sorted[AtMost(BinStart(k, |sorted|), index)..AtMost(BinStart(k + 1, |sorted|), index)]
  }

  lemma FillOne(sorted: seq<Row>, k: nat, index: nat, b: nat)
    requires k < BINS && index < |sorted| && b == BinOf(index, |sorted|)
    ensures Filled(sorted, k, index + 1) == Filled(sorted, k, index) + if k == b then [sorted[index]] else []
  {
    var n := |sorted|;
    hide BinStart, BinOf;
    RowLandsInBin(index, n);
    BinsAreRuns(k, n);
    if k < b { StartsAreMonotone(k + 1, b, n); }
    if k > b { StartsAreMonotone(b + 1, k, n); }
  }

  method SortRows(rows: array<Row>)
    modifies rows
    ensures rows[..] == SortBy(old(rows[..]), BY_KEY)
  {
    ByKeyIsPreorder();
    SortBySorts(rows[..], BY_KEY);
    hide SortBy;
    var sorted := SortBy(rows[..], BY_KEY);
    for i := 0 to rows.Length
      invariant rows[..i] == sorted[..i]
    {
      rows[i] := sorted[i];
    }
    assert rows[..] == rows[..rows.Length] == sorted;
  }

  /** Sorts the caller's rows in place, also when the count is then refused. */
  method ChooseRows(rows: array<Row>, rank: Rank, count: int) returns (result: Result<seq<Row>>)
    modifies rows
    ensures rows[..] == SortBy(old(rows[..]), BY_KEY)
    ensures result == Chosen(old(rows[..]), rank, count)
  {
    hide SortBy, Bin, PrefixSlice;
    SortRows(rows);
    var sorted := rows[..];
    var bins := FillBins(sorted);
    var quota := count / 10;
    if quota * 10 != count { return ValueError; }
    var chosen: seq<Row> := [];
    for k := 0 to BINS
      invariant chosen == DrawFirst(sorted, k, rank, quota)
    {
      chosen := chosen + PrefixSlice(SortBy(bins[k], ByRank(rank)), quota);
    }
    return Success(SortBy(chosen, BY_KEY));
  }

  function Chosen(rows: seq<Row>, rank: Rank, count: int): Result<seq<Row>> {
    var quota := count / 10;
    if quota * 10 != count then ValueError
    else Success(SortBy(DrawFirst(SortBy(rows, BY_KEY), BINS, rank, quota), BY_KEY))
  }

  lemma ByKeyIsPreorder()
    ensures IsPreorder(BY_KEY)
  {
  }

  lemma ByRankIsPreorder(rank: Rank)
    ensures IsPreorder(ByRank(rank))
  {
  }

  /** A draw takes the quota, or the whole bin, of its bin's own rows. */
  lemma DrawTakes(sorted: seq<Row>, k: nat, rank: Rank, quota: int)
    requires k < BINS
    ensures var draw, bin := Draw(sorted, k, rank, quota), Bin(sorted, k);
            && |draw| == (if quota >= 0 then AtMost(quota, |bin|) else if |bin| + quota > 0 then |bin| + quota else 0)
            && multiset(draw) <= multiset(bin)
  {
    hide Bin, SortBy;
    var bin := Bin(sorted, k);
    var drawn := SortBy(bin, ByRank(rank));
    ByRankIsPreorder(rank);
    SortBySorts(bin, ByRank(rank));
    var draw := PrefixSlice(drawn, quota);
    assert drawn == draw + drawn[|draw|..];
  }

  ghost predicate RanksFirst(draw: seq<Row>, rest: seq<Row>, rank: Rank) {
    forall a, b :: a in draw && b in rest ==> rank(a.id) <= rank(b.id)
  }

  /** The rows a bin does not give are those of no lower rank. */
  lemma DrawTakesLowestRanks(sorted: seq<Row>, k: nat, rank: Rank, quota: int) returns (rest: seq<Row>)
    requires k < BINS
    ensures multiset(Bin(sorted, k)) == multiset(Draw(sorted, k, rank, quota)) + multiset(rest)
    ensures RanksFirst(Draw(sorted, k, rank, quota), rest, rank)
  {
    hide Bin, SortBy;
    var drawn, draw := SortBy(Bin(sorted, k), ByRank(rank)), Draw(sorted, k, rank, quota);
    ByRankIsPreorder(rank);
    SortBySorts(Bin(sorted, k), ByRank(rank));
    rest := drawn[|draw|..];
    assert drawn == draw + rest;
    forall a, b | a in draw && b in rest ensures rank(a.id) <= rank(b.id) {
      var i :| 0 <= i < |draw| && draw[i] == a;
      var j :| 0 <= j < |rest| && rest[j] == b;
      assert ByRank(rank)(drawn[i], drawn[|draw| + j]);
    }
  }

  lemma FrontGrows(sorted: seq<Row>, k: nat)
    requires k < BINS
    ensures BinStart(k, |sorted|) <= BinStart(k + 1, |sorted|) <= |sorted|
    ensures sorted[..BinStart(k + 1, |sorted|)] == sorted[..BinStart(k, |sorted|)] + Bin(sorted, k)
  {
    hide BinStart;
    BinsAreRuns(k, |sorted|);
  }

  lemma SubMultisetsConcat<T>(a: seq<T>, x: seq<T>, b: seq<T>, y: seq<T>)
    requires multiset(a) <= multiset(x) && multiset(b) <= multiset(y)
    ensures multiset(a + b) <= multiset(x + y)
  {
  }

  /** Draws together take rows from the front part of the sorted rows, each at most once. */
  lemma {:induction false} DrawsAreSubset(sorted: seq<Row>, bins: nat, rank: Rank, quota: int)
    requires bins <= BINS
    ensures BinStart(bins, |sorted|) <= |sorted|
    ensures multiset(DrawFirst(sorted, bins, rank, quota)) <= multiset(sorted[..BinStart(bins, |sorted|)])
  {
    hide BinStart, Draw, Bin;
    var n := |sorted|;
    BinsAreRuns(if bins == 0 then 0 else bins - 1, n);
    if bins > 0 {
      DrawsAreSubset(sorted, bins - 1, rank, quota);
      DrawTakes(sorted, bins - 1, rank, quota);
      var front, bin := sorted[..BinStart(bins - 1, n)], Bin(sorted, bins - 1);
      FrontGrows(sorted, bins - 1);
      SubMultisetsConcat(DrawFirst(sorted, bins - 1, rank, quota), front, Draw(sorted, bins - 1, rank, quota), bin);
    }
  }

  lemma FullBinGivesQuota(sorted: seq<Row>, k: nat, rank: Rank, quota: int)
    requires k < BINS && 0 <= quota <= |sorted| / 10
    ensures |Draw(sorted, k, rank, quota)| == quota
  {
    hide BinStart, Draw;
    DrawTakes(sorted, k, rank, quota);
    BinsAreRuns(k, |sorted|);
  }

  lemma {:induction false} DrawsLength(sorted: seq<Row>, bins: nat, rank: Rank, quota: int)
    requires bins <= BINS && 0 <= quota <= |sorted| / 10
    ensures |DrawFirst(sorted, bins, rank, quota)| == bins * quota
  {
    hide BinStart, Draw;
    if bins > 0 {
      DrawsLength(sorted, bins - 1, rank, quota);
      FullBinGivesQuota(sorted, bins - 1, rank, quota);
      assert bins * quota == (bins - 1) * quota + quota;
    }
  }

  /** By duration, and rows of one duration by identifier. */
  ghost predicate InOrder(rows: seq<Row>) {
    forall i, j :: 0 <= i < j < |rows| ==>
      rows[i].numSamples < rows[j].numSamples || (rows[i].numSamples == rows[j].numSamples && rows[i].id <= rows[j].id)
  }

  lemma AscendingIsInOrder(rows: seq<Row>)
    ensures Ascending(rows, BY_KEY) <==> InOrder(rows)
  {
    assert forall i, j :: 0 <= i < j < |rows| ==> (BY_KEY(rows[i], rows[j]) <==>
        || rows[i].numSamples < rows[j].numSamples
        || (rows[i].numSamples == rows[j].numSamples && rows[i].id <= rows[j].id));
  }

  /** For every input and count: a count that is not a multiple of ten is refused; otherwise the
      result is sorted and drawn from the rows, and it has `count` rows exactly when there are
      that many, each bin then giving the same number. */
  lemma ChosenMeetsCount(rows: seq<Row>, rank: Rank, count: int)
    ensures var result := Chosen(rows, rank, count);
      && (result.ValueError? <==> count % 10 != 0)
      && (result.Success? ==>
            && InOrder(result.value)
            && multiset(result.value) <= multiset(rows)
            && (|result.value| == count <==> 0 <= count <= |rows|))
    ensures count % 10 == 0 && 0 <= count <= |rows| ==>
              forall k :: 0 <= k < BINS ==> |Draw(SortBy(rows, BY_KEY), k, rank, count / 10)| == count / 10
  {
    hide SortBy, BinStart, Draw, DrawFirst, Sorting.Ascending;
    var quota := count / 10;
    if quota * 10 == count {
      ByKeyIsPreorder();
      SortBySorts(rows, BY_KEY);
      var sorted := SortBy(rows, BY_KEY);
      var chosen := DrawFirst(sorted, BINS, rank, quota);
      AllDrawsAreSubset(sorted, rank, quota);
      SortBySorts(chosen, BY_KEY);
      AscendingIsInOrder(SortBy(chosen, BY_KEY));
      SubMultisetLength(chosen, rows);
      if 0 <= count <= |rows| {
        DrawsLength(sorted, BINS, rank, quota);
        forall k | 0 <= k < BINS ensures |Draw(sorted, k, rank, quota)| == quota {
          FullBinGivesQuota(sorted, k, rank, quota);
        }
      }
    }
  }

  lemma AllDrawsAreSubset(sorted: seq<Row>, rank: Rank, quota: int)
    ensures multiset(DrawFirst(sorted, BINS, rank, quota)) <= multiset(sorted)
  {
    hide DrawFirst;
    DrawsAreSubset(sorted, BINS, rank, quota);
    BinsAreRuns(0, |sorted|);
    assert sorted[..|sorted|] == sorted;
  }

  lemma SubMultisetLength<T>(part: seq<T>, whole: seq<T>)
    requires multiset(part) <= multiset(whole)
    ensures |part| <= |whole|
  {
    var rest := multiset(whole) - multiset(part);
    assert multiset(whole) == multiset(part) + rest;
    assert |multiset(whole)| == |multiset(part)| + |rest|;
  }

  /** No two rows share both duration and id. */
  ghost predicate DistinctKeys(rows: seq<Row>) {
    forall a, b :: a in rows && b in rows && a.numSamples == b.numSamples && a.id == b.id ==> a == b
  }

  /** The order of the input does not matter. */
  lemma ChosenIgnoresOrder(rows: seq<Row>, shuffled: seq<Row>, rank: Rank, count: int)
    requires multiset(rows) == multiset(shuffled) && DistinctKeys(rows)
    ensures Chosen(rows, rank, count) == Chosen(shuffled, rank, count)
  {
    hide Sorting.SortBy;
    ByKeyIsPreorder();
    SortBySorts(rows, BY_KEY);
    SortBySorts(shuffled, BY_KEY);
    var s, t := SortBy(rows, BY_KEY), SortBy(shuffled, BY_KEY);
    SameElements(s, rows);
    forall a, b | a in s && b in s && BY_KEY(a, b) && BY_KEY(b, a) ensures a == b {
      assert a in rows && b in rows;
    }
    SortedUnique(s, t, BY_KEY);
  }
}
