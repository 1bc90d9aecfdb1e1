/**
 * Request windows of the Monnit export job. Timestamps are whole seconds;
 * the date strings of the settings only carry these values.
 */
module Windows {

  /** `timedelta(weeks=1)` in seconds: the longest span one data request covers. */
  const WEEK: int := 604800

  /** A request window from `start` to `end`, in seconds. */
  datatype Range = Range(start: int, end: int)

  function Span(r: Range): int
  {
    r.end - r.start
  }

  /** `t` falls in the half-open window `[r.start, r.end)`. */
  predicate Holds(r: Range, t: int)
  {
    r.start <= t < r.end
  }

  /** The window is split exactly when it is strictly longer than one week. */
  predicate IsBig(start: int, end: int)
  {
    end - start > WEEK
  }

  /**
   * The cover ranges the splitting loop builds from cursor `cur`: steps of one
   * week, the last step clamped to `end`; nothing once the cursor reaches `end`.
   */
  function Cover(cur: int, end: int): (rs: seq<Range>)
    ensures rs == [] <==> end <= cur
    ensures rs != [] ==> rs[0].start == cur && rs[|rs| - 1].end == end
    decreases end - cur
  {
    if cur < end then
      var next := if cur + WEEK > end then end else cur + WEEK;
      [Range(cur, next)] + Cover(next, end)
    else
      []
  }

  /** One step of the splitting loop: the range from `cur` to `next`, then the cover from `next`. */
  lemma CoverStep(cur: int, next: int, end: int)
    requires cur < end && next == if cur + WEEK > end then end else cur + WEEK
    ensures Cover(cur, end) == [Range(cur, next)] + Cover(next, end)
  {
  }

  /**
   * A chain of contiguous, non-empty windows of at most a week each, all of
   * them but the last exactly a week long.
   */
  ghost predicate WeekChain(rs: seq<Range>)
  {
    && (forall i :: 0 <= i < |rs| ==> 0 < Span(rs[i]) <= WEEK)
    && (forall i :: 0 <= i < |rs| - 1 ==> Span(rs[i]) == WEEK)
    && (forall i, j :: 0 <= i < j < |rs| && j == i + 1 ==> rs[i].end == rs[j].start)
  }

  /** Every cover range is non-empty and at most a week; they follow each other without gap. */
  lemma {:induction false} CoverIsWeekChain(cur: int, end: int)
    ensures WeekChain(Cover(cur, end))
    decreases end - cur
  {
    if cur < end {
      var next := if cur + WEEK > end then end else cur + WEEK;
      var rs, tail := Cover(cur, end), Cover(next, end);
      CoverIsWeekChain(next, end);
      assert rs == [Range(cur, next)] + tail;
      forall i | 0 <= i < |rs| - 1
        ensures Span(rs[i]) == WEEK
      {
        if i > 0 {
          assert rs[i] == tail[i - 1];
        }
      }
      forall i, j | 0 <= i < j < |rs| && j == i + 1
        ensures rs[i].end == rs[j].start
      {
        assert rs[j] == tail[i];
        if i > 0 {
          assert rs[i] == tail[i - 1];
        }
      }
    }
  }

  /** Ranges built equal to the cover of `[start, end)` form a week chain. */
  lemma BuiltCoverIsWeekChain(rs: seq<Range>, start: int, end: int)
    requires rs == Cover(start, end)
    ensures WeekChain(rs)
  {
    CoverIsWeekChain(start, end);
  }

  /** All cover ranges lie within `[cur, end]`. */
  lemma {:induction false} CoverWithin(cur: int, end: int)
    ensures forall i :: 0 <= i < |Cover(cur, end)| ==>
      cur <= Cover(cur, end)[i].start < Cover(cur, end)[i].end <= end
    decreases end - cur
  {
    if cur < end {
      var next := if cur + WEEK > end then end else cur + WEEK;
      CoverWithin(next, end);
      assert Cover(cur, end) == [Range(cur, next)] + Cover(next, end);
    }
  }

  /** Cover ranges are in chronological order and never overlap. */
  lemma {:induction false} CoverOrdered(cur: int, end: int)
    ensures forall i, j :: 0 <= i < j < |Cover(cur, end)| ==>
      Cover(cur, end)[i].end <= Cover(cur, end)[j].start
    decreases end - cur
  {
    if cur < end {
      var next := if cur + WEEK > end then end else cur + WEEK;
      var rs, tail := Cover(cur, end), Cover(next, end);
      CoverOrdered(next, end);
      CoverWithin(next, end);
      assert rs == [Range(cur, next)] + tail;
      forall i, j | 0 <= i < j < |rs|
        ensures rs[i].end <= rs[j].start
      {
        assert rs[j] == tail[j - 1];
        if i > 0 {
          assert rs[i] == tail[i - 1];
        }
      }
    }
  }

  /** Every instant of `[cur, end)` falls in some cover range. */
  lemma {:induction false} CoverLocates(cur: int, end: int, t: int)
    requires cur <= t < end
    ensures exists i :: 0 <= i < |Cover(cur, end)| && Holds(Cover(cur, end)[i], t)
    decreases end - cur
  {
    var next := if cur + WEEK > end then end else cur + WEEK;
    var rs, tail := Cover(cur, end), Cover(next, end);
    assert rs == [Range(cur, next)] + tail;
    if t < next {
      assert Holds(rs[0], t);
    } else {
      CoverLocates(next, end, t);
      var k :| 0 <= k < |tail| && Holds(tail[k], t);
      assert rs[k + 1] == tail[k];
    }
  }

  /** The cover ranges partition `[start, end)`: each instant falls in exactly one of them. */
  lemma CoverPartitions(start: int, end: int, t: int)
    requires start <= t < end
    ensures exists i :: 0 <= i < |Cover(start, end)| && Holds(Cover(start, end)[i], t) &&
                        (forall j :: 0 <= j < |Cover(start, end)| && Holds(Cover(start, end)[j], t) ==> j == i)
  {
    var rs := Cover(start, end);
    CoverLocates(start, end, t);
    CoverOrdered(start, end);
    var i :| 0 <= i < |rs| && Holds(rs[i], t);
    assert forall j :: 0 <= j < |rs| && Holds(rs[j], t) ==> j == i;
  }

  /** There are ceil((end - start) / WEEK) cover ranges. */
  lemma {:induction false} CoverCount(cur: int, end: int)
    requires cur <= end
    ensures |Cover(cur, end)| == (end - cur + WEEK - 1) / WEEK
    decreases end - cur
  {
    if cur < end {
      var next := if cur + WEEK > end then end else cur + WEEK;
      CoverCount(next, end);
      assert Cover(cur, end) == [Range(cur, next)] + Cover(next, end);
      if next < end {
        assert end - cur + WEEK - 1 == (end - next + WEEK - 1) + WEEK;
      }
    }
  }

  /**
   * The first cover range is never longer than a week, so checking the window
   * again after a split finds nothing to split.
   */
  lemma FirstCoverIsSmall(start: int, end: int)
    requires start < end
    ensures !IsBig(Cover(start, end)[0].start, Cover(start, end)[0].end)
  {
    CoverIsWeekChain(start, end);
  }

  /**
   * The window 2023-12-01 16:30:00 to 2023-12-25 05:00:00 (in seconds since the
   * epoch, read as UTC) gives three full weeks and a last range of 2 days
   * 12 h 30 min.
   */
  lemma CoverOfDecemberWindow()
    ensures Cover(1701448200, 1703480400) == [
      Range(1701448200, 1702053000), Range(1702053000, 1702657800),
      Range(1702657800, 1703262600), Range(1703262600, 1703480400)]
  {
  }
}
