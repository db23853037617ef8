/** Row-range arithmetic of `/scrape`: the optional 1-based `startIndex` and
    inclusive `lastIndex` of the request become the 0-based half-open range
    of rows processed in every table. A field arrives here already parsed:
    `None` stands for a field that is absent, falsy or not a number. */
module RowRange {
  import opened Common

  /** `startIdx`: the 1-based start minus one, never below 0; 0 when absent. */
  function StartIndex(start: Option<int>): (s: nat)
    ensures start.Some? && start.value >= 1 ==> s + 1 == start.value
    ensures start.None? || start.value <= 1 ==> s == 0
  {
    match start
    case None => 0
    case Some(n) => if n - 1 > 0 then n - 1 else 0
  }

  /** `endIdx`: a present, non-zero `lastIdx` caps the row count; a missing
      or zero one (zero is falsy) means "to the end of the table". */
  function EndIndex(last: Option<int>, rowCount: nat): (e: int)
    ensures e <= rowCount
    ensures last.None? || last.value == 0 ==> e == rowCount
    ensures last.Some? && last.value != 0 ==> e <= last.value && (e == last.value || e == rowCount)
  {
    match last
    case None => rowCount
    case Some(n) => if n == 0 then rowCount else if n < rowCount then n else rowCount
  }

  /** The indices the row loop `for (index = startIdx; index < endIdx; index++)` visits. */
  function Indices(from: int, to: int): (r: seq<int>)
    decreases to - from
    ensures forall j :: j in r ==> from <= j < to
  {
    if from >= to then [] else [from] + Indices(from + 1, to)
  }

  /** The loop visits every integer of [from, to) once, in increasing order. */
  lemma {:induction false} IndicesAreRange(from: int, to: int)
    decreases to - from
    ensures |Indices(from, to)| == (if from < to then to - from else 0)
    ensures forall k :: 0 <= k < |Indices(from, to)| ==> (Indices(from, to)[k] == from + k)
  {
    if from < to {
      IndicesAreRange(from + 1, to);
    }
  }

  function RowIndices(start: Option<int>, last: Option<int>, rowCount: nat): seq<int> {
    Indices(StartIndex(start), EndIndex(last, rowCount))
  }

  /** Every processed row exists in the table, and a row is processed exactly
      when its 1-based position lies between the requested start and last
      (both inclusive) and within the table. */
  lemma ProcessedRowsAreRequestedRange(start: Option<int>, last: Option<int>, rowCount: nat, index: int)
    ensures index in RowIndices(start, last, rowCount) ==> 0 <= index < rowCount
    ensures index in RowIndices(start, last, rowCount) <==>
              && 0 <= index < rowCount
              && (start.None? || start.value <= index + 1)
              && (last.None? || last.value == 0 || index + 1 <= last.value)
  {
    var s, e := StartIndex(start), EndIndex(last, rowCount);
    IndicesAreRange(s, e);
    if s <= index < e {
      assert Indices(s, e)[index - s] == index;
    }
  }

  /** Rows 5 to 20 of a 50-row table are the sixteen 0-based indices 4..19. */
  lemma RangeExample()
    ensures RowIndices(Some(5), Some(20), 50) == Indices(4, 20)
    ensures |RowIndices(Some(5), Some(20), 50)| == 16
    ensures RowIndices(Some(5), Some(20), 50)[0] == 4
    ensures RowIndices(Some(5), Some(20), 50)[15] == 19
  {
    IndicesAreRange(4, 20);
  }
}
