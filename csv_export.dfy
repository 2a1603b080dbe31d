/**
 * CSV export of keyword ideas: the rows handed to the CSV writer, and the
 * stable selection of the K ideas with the highest search volume.
 */
module CsvExport {
  import opened Wrappers
  import opened Text
  import opened Keywords

  /** The header row, in the writer's fixed column order. */
  const Columns: seq<string> := [
    "keyword",
    "avg_monthly_searches",
    "competition",
    "competition_index",
    "low_top_of_page_bid_micros",
    "high_top_of_page_bid_micros"
  ]

  type Row = seq<string>

  /** The text of `value or ""`: an empty cell for a missing, None or zero value. */
  function OptionalCell(v: Option<int>): string {
    if v.Some? && v.value != 0 then IntToDecimal(v.value) else ""
  }

  /** The six cells written for one idea; every other key of the idea is ignored. */
  function FlattenRow(idea: KeywordIdea): (row: Row)
    ensures |row| == |Columns|
  {
    [ idea.keyword.GetOr(""),
      IntToDecimal(idea.avgMonthlySearches.GetOr(0)),
      idea.competition.GetOr("UNKNOWN"),
      OptionalCell(idea.competitionIndex),
      OptionalCell(idea.lowTopOfPageBidMicros),
      OptionalCell(idea.highTopOfPageBidMicros) ]
  }

  /**
   * The defaulting rules read back from a row: text cells hold the value or
   * its default, the volume cell reads back as the volume (0 when missing),
   * and an optional number cell is empty exactly when the value is falsy,
   * otherwise it reads back as the value.
   */
  lemma FlattenRowReadsBack(idea: KeywordIdea)
    requires Volume(idea) >= 0
    requires forall v :: v in [idea.competitionIndex, idea.lowTopOfPageBidMicros, idea.highTopOfPageBidMicros] && v.Some? ==> v.value >= 0
    ensures var row := FlattenRow(idea);
      && row[0] == (if idea.keyword.Some? then idea.keyword.value else "")
      && row[2] == (if idea.competition.Some? then idea.competition.value else "UNKNOWN")
      && IsDigits(row[1]) && DecimalValue(row[1]) == Volume(idea)
      && (forall k :: 3 <= k < 6 ==> OptionalCellReadsBack(row[k], [idea.competitionIndex, idea.lowTopOfPageBidMicros, idea.highTopOfPageBidMicros][k - 3]))
  {
    var opts := [idea.competitionIndex, idea.lowTopOfPageBidMicros, idea.highTopOfPageBidMicros];
    forall k | 3 <= k < 6
      ensures OptionalCellReadsBack(FlattenRow(idea)[k], opts[k - 3])
    {
      assert opts[k - 3] in opts;
    }
  }

  /** An optional number cell is empty iff the value is falsy, and otherwise holds its digits. */
  ghost predicate OptionalCellReadsBack(cell: string, v: Option<int>)
    requires v.Some? ==> v.value >= 0
  {
    && (cell == "" <==> (v == None || v.value == 0))
    && (v.Some? && v.value != 0 ==> IsDigits(cell) && DecimalValue(cell) == v.value)
  }

  /** Keys outside the six columns, such as `monthly_breakdown`, never reach a row. */
  lemma FlattenRowIgnoresBreakdown(idea: KeywordIdea, other: Option<seq<MonthlyVolume>>)
    ensures FlattenRow(idea.(monthlyBreakdown := other)) == FlattenRow(idea)
  {
  }

  /**
   * `keyword_ideas_to_csv`: no rows at all (the empty string) for no ideas,
   * otherwise the header followed by one row per idea, in input order.
   */
  method KeywordIdeasToCsv(ideas: seq<KeywordIdea>) returns (rows: seq<Row>)
    ensures ideas == [] ==> rows == []
    ensures ideas != [] ==> |rows| == |ideas| + 1 && rows[0] == Columns
    ensures ideas != [] ==> forall i :: 0 <= i < |ideas| ==> rows[i + 1] == FlattenRow(ideas[i])
  {
    if ideas == [] {
      return [];
    }
    rows := [Columns];
    var i := 0;
    while i < |ideas|
      invariant 0 <= i <= |ideas|
      invariant |rows| == i + 1 && rows[0] == Columns
      invariant forall j :: 0 <= j < i ==> rows[j + 1] == FlattenRow(ideas[j])
    {
      rows := rows + [FlattenRow(ideas[i])];
      i := i + 1;
    }
  }

  /** Position `i` comes before position `j` in Python's stable sort by descending volume. */
  predicate Precedes(ideas: seq<KeywordIdea>, i: nat, j: nat)
    requires i < |ideas| && j < |ideas|
  {
    Volume(ideas[i]) > Volume(ideas[j]) || (Volume(ideas[i]) == Volume(ideas[j]) && i < j)
  }

  predicate InRange(ideas: seq<KeywordIdea>, order: seq<nat>) {
    forall k :: 0 <= k < |order| ==> order[k] < |ideas|
  }

  /** Every position precedes every later one. */
  predicate SortedBy(ideas: seq<KeywordIdea>, order: seq<nat>)
    requires InRange(ideas, order)
  {
    forall a, b :: 0 <= a < b < |order| ==> Precedes(ideas, order[a], order[b])
  }

  /** The positions `0 .. n-1`, in order. */
  function Positions(n: nat): (r: seq<nat>)
    ensures |r| == n && forall k :: 0 <= k < n ==> r[k] == k
  {
    seq(n, k => k)
  }

  /** Insert position `k` before the first position it precedes. */
  function Insert(ideas: seq<KeywordIdea>, order: seq<nat>, k: nat): (r: seq<nat>)
    requires k < |ideas| && InRange(ideas, order)
    ensures InRange(ideas, r) && |r| == |order| + 1
    ensures forall x :: x in r <==> x in order || x == k
    decreases |order|
  {
    if order == [] then [k]
    else if Precedes(ideas, k, order[0]) then [k] + order
    else [order[0]] + Insert(ideas, order[1..], k)
  }

  lemma {:induction false} InsertMultiset(ideas: seq<KeywordIdea>, order: seq<nat>, k: nat)
    requires k < |ideas| && InRange(ideas, order)
    ensures multiset(Insert(ideas, order, k)) == multiset(order) + multiset{k}
    decreases |order|
  {
    if order != [] && !Precedes(ideas, k, order[0]) {
      InsertMultiset(ideas, order[1..], k);
      assert order == [order[0]] + order[1..];
    }
  }

  /** A position that precedes everything in a sorted order can go in front of it. */
  lemma ConsSorted(ideas: seq<KeywordIdea>, h: nat, t: seq<nat>)
    requires h < |ideas| && InRange(ideas, t) && SortedBy(ideas, t)
    requires forall i :: 0 <= i < |t| ==> Precedes(ideas, h, t[i])
    ensures InRange(ideas, [h] + t) && SortedBy(ideas, [h] + t)
  {
    var r := [h] + t;
    forall a, b | 0 <= a < b < |r| ensures Precedes(ideas, r[a], r[b]) {
      if a == 0 {
        assert r[b] == t[b - 1];
      } else {
        assert r[a] == t[a - 1] && r[b] == t[b - 1];
      }
    }
  }

  lemma {:induction false} InsertSorted(ideas: seq<KeywordIdea>, order: seq<nat>, k: nat)
    requires k < |ideas| && InRange(ideas, order) && SortedBy(ideas, order) && k !in order
    ensures SortedBy(ideas, Insert(ideas, order, k))
    decreases |order|
  {
    if order == [] {
    } else if Precedes(ideas, k, order[0]) {
      forall i | 0 <= i < |order| ensures Precedes(ideas, k, order[i]) {
        if i > 0 {
          assert Precedes(ideas, order[0], order[i]);
        }
      }
      ConsSorted(ideas, k, order);
    } else {
      var rest := order[1..];
      InsertSorted(ideas, rest, k);
      var tail := Insert(ideas, rest, k);
      forall i | 0 <= i < |tail| ensures Precedes(ideas, order[0], tail[i]) {
        var x := tail[i];
        assert x in tail;
        if x != k {
          var m :| 0 <= m < |rest| && rest[m] == x;
          assert order[m + 1] == x;
        }
      }
      ConsSorted(ideas, order[0], tail);
    }
  }

  /** The ideas at the given positions. */
  function Pick(ideas: seq<KeywordIdea>, order: seq<nat>): (picked: seq<KeywordIdea>)
    requires InRange(ideas, order)
    ensures |picked| == |order| && forall i :: 0 <= i < |order| ==> picked[i] == ideas[order[i]]
  {
    seq(|order|, i requires 0 <= i < |order| => ideas[order[i]])
  }

  lemma {:induction false} PickInsert(ideas: seq<KeywordIdea>, order: seq<nat>, k: nat)
    requires k < |ideas| && InRange(ideas, order)
    ensures multiset(Pick(ideas, Insert(ideas, order, k))) == multiset(Pick(ideas, order)) + multiset{ideas[k]}
    decreases |order|
  {
    var r := Insert(ideas, order, k);
    if order == [] {
    } else if Precedes(ideas, k, order[0]) {
      assert Pick(ideas, r) == [ideas[k]] + Pick(ideas, order) by {
        PickCons(ideas, r);
      }
    } else {
      var rest := Insert(ideas, order[1..], k);
      PickInsert(ideas, order[1..], k);
      assert Pick(ideas, r) == [ideas[order[0]]] + Pick(ideas, rest) by {
        PickCons(ideas, r);
      }
      assert Pick(ideas, order) == [ideas[order[0]]] + Pick(ideas, order[1..]) by {
        PickCons(ideas, order);
      }
    }
  }

  /** Picking along a non-empty order: its first position, then the rest. */
  lemma PickCons(ideas: seq<KeywordIdea>, order: seq<nat>)
    requires order != [] && InRange(ideas, order)
    ensures InRange(ideas, order[1..])
    ensures Pick(ideas, order) == [ideas[order[0]]] + Pick(ideas, order[1..])
  {
    assert forall k :: 0 <= k < |order| - 1 ==> order[1..][k] == order[k + 1];
  }

  /** The positions of `ideas[..n]` in the order Python's stable descending sort puts them. */
  function SortedPositions(ideas: seq<KeywordIdea>, n: nat): (order: seq<nat>)
    requires n <= |ideas|
    ensures InRange(ideas, order) && |order| == n
    ensures forall x :: x in order <==> 0 <= x < n
    ensures SortedBy(ideas, order)
    decreases n
  {
    if n == 0 then []
    else
      var prev := SortedPositions(ideas, n - 1);
      InsertSorted(ideas, prev, n - 1);
      Insert(ideas, prev, n - 1)
  }

  lemma {:induction false} SortedPositionsPermute(ideas: seq<KeywordIdea>, n: nat)
    requires n <= |ideas|
    ensures multiset(Pick(ideas, SortedPositions(ideas, n))) == multiset(ideas[..n])
    decreases n
  {
    if n > 0 {
      SortedPositionsPermute(ideas, n - 1);
      PermuteStep(ideas, SortedPositions(ideas, n - 1), n);
    }
  }

  lemma PermuteStep(ideas: seq<KeywordIdea>, prev: seq<nat>, n: nat)
    requires 0 < n <= |ideas| && InRange(ideas, prev)
    requires multiset(Pick(ideas, prev)) == multiset(ideas[..n - 1])
    ensures multiset(Pick(ideas, Insert(ideas, prev, n - 1))) == multiset(ideas[..n])
  {
    PickInsert(ideas, prev, n - 1);
    assert ideas[..n] == ideas[..n - 1] + [ideas[n - 1]];
  }

  /**
   * The order of the stable descending sort: every position exactly once,
   * each preceding the later ones, so that higher volumes come first and
   * equal volumes keep their input order. Picking the ideas in this order
   * reorders them without losing or adding any.
   */
  function StableOrder(ideas: seq<KeywordIdea>): (order: seq<nat>)
    ensures InRange(ideas, order) && |order| == |ideas|
    ensures forall x :: x in order <==> 0 <= x < |ideas|
    ensures SortedBy(ideas, order)
    ensures multiset(Pick(ideas, order)) == multiset(ideas)
  {
    SortedPositionsPermute(ideas, |ideas|);
    assert ideas[..|ideas|] == ideas;
    SortedPositions(ideas, |ideas|)
  }

  /** There is only one such order: two sorted orders of the same positions are equal. */
  lemma {:induction false} SortedOrderUnique(ideas: seq<KeywordIdea>, o1: seq<nat>, o2: seq<nat>)
    requires InRange(ideas, o1) && InRange(ideas, o2)
    requires |o1| == |o2| && forall x :: x in o1 <==> x in o2
    requires SortedBy(ideas, o1) && SortedBy(ideas, o2)
    ensures o1 == o2
    decreases |o1|
  {
    if o1 != [] {
      assert o1[0] in o1;
      assert o2 != [] && o2[0] in o2;
      if o1[0] != o2[0] {
        assert false;
      }
      forall x ensures x in o1[1..] <==> x in o2[1..] {
        NotInTail(ideas, o1, x);
        NotInTail(ideas, o2, x);
      }
      SortedOrderUnique(ideas, o1[1..], o2[1..]);
    }
  }

  /** In a sorted order, the tail holds the elements other than the head. */
  lemma NotInTail(ideas: seq<KeywordIdea>, o: seq<nat>, x: nat)
    requires InRange(ideas, o) && SortedBy(ideas, o) && o != []
    ensures x in o[1..] <==> x in o && x != o[0]
  {
    if x in o[1..] {
      var m :| 0 <= m < |o[1..]| && o[1..][m] == x;
      assert Precedes(ideas, o[0], o[m + 1]);
    }
    if x in o && x != o[0] {
      var m :| 0 <= m < |o| && o[m] == x;
      assert o[1..][m - 1] == x;
    }
  }

  /** The length of Python's `xs[:k]` for a list of length `n`. */
  function SliceLength(n: nat, k: int): (len: nat)
    ensures len <= n
    ensures k >= 0 ==> len == if k < n then k else n
    ensures k < 0 ==> len == if n + k > 0 then n + k else 0
  {
    if k >= n then n
    else if k >= 0 then k
    else if n + k > 0 then n + k
    else 0
  }

  /**
   * `get_top_keywords_by_volume`: the leading `top_k` ideas (Python slice
   * rules) of the stable sort by descending volume, missing volume counted as 0.
   */
  function TopKeywordsByVolume(ideas: seq<KeywordIdea>, topK: int): (top: seq<KeywordIdea>)
    ensures |top| == SliceLength(|ideas|, topK)
    ensures forall i, j :: 0 <= i < j < |top| ==> Volume(top[i]) >= Volume(top[j])
    ensures forall i :: 0 <= i < |top| ==> top[i] == ideas[StableOrder(ideas)[i]]
    ensures multiset(top) <= multiset(ideas)
  {
    var sorted := Pick(ideas, StableOrder(ideas));
    var top := sorted[..SliceLength(|ideas|, topK)];
    assert sorted == top + sorted[|top|..];
    top
  }
}
