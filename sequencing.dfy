/**
 * The order of the data requests of an export and what follows each of them:
 * the CSV file for a non-empty answer, then the pacing wait. Requests,
 * writes and sleeps are events of a trace.
 */
module Sequencing {
  import opened Windows
  import FileNames

  type SensorId = nat

  /** One measurement row of a `SensorDataMessages` answer, passed through as is. */
  type Row = map<string, string>

  /** What one data request gives: a `RequestException`, or the rows of `Result`. */
  datatype FetchOutcome = Raised | Returned(rows: seq<Row>)

  /**
   * `not pd.DataFrame(rows).empty`: the frame has a row and a column, that is,
   * some row has at least one field. Rows that all lack fields give an empty frame.
   */
  predicate HasData(rows: seq<Row>)
  {
    exists i :: 0 <= i < |rows| && |rows[i]| > 0
  }

  /** One (sensor, window) pair: a data request and its export. */
  datatype WorkItem = WorkItem(sensor: SensorId, window: Range)

  datatype Event =
    | Fetch(sensor: SensorId, start: int, end: int)
    | WriteCsv(sensor: SensorId, startText: string, endText: string, rows: seq<Row>)
    | Sleep(seconds: nat)

  /** The file a `WriteCsv` event writes. */
  function PathOf(e: Event): string
    requires e.WriteCsv?
  {
    FileNames.CsvPath(e.sensor, e.startText, e.endText)
  }

  function FetchOf(item: WorkItem): Event
  {
    Fetch(item.sensor, item.window.start, item.window.end)
  }

  /** The number of 10-second sleeps of `progressbar`: `range(interval_seconds // 10)`. */
  function PauseSteps(intervalSeconds: int): nat
  {
    if intervalSeconds / 10 > 0 then intervalSeconds / 10 else 0
  }

  function Sleeps(n: nat): seq<Event>
  {
    if n == 0 then [] else Sleeps(n - 1) + [Sleep(10)]
  }

  /**
   * The events of one `get_data_for_sensor_id`: the request; unless it raised,
   * the CSV file when the answer makes a non-empty frame, then `pause` sleeps of 10 s.
   */
  function ItemEvents(item: WorkItem, outcome: FetchOutcome, pause: nat, dateText: int -> string): seq<Event>
  {
    [FetchOf(item)] +
    match outcome
    case Raised => []
    case Returned(rows) =>
      (if HasData(rows)
       then [WriteCsv(item.sensor, dateText(item.window.start), dateText(item.window.end), rows)]
       else [])
      + Sleeps(pause)
  }

  /** The events of the work items done in order, `outcomes[i]` answering `items[i]`. */
  function RunEvents(items: seq<WorkItem>, outcomes: seq<FetchOutcome>, pause: nat, dateText: int -> string): seq<Event>
    requires |outcomes| == |items|
  {
    if items == [] then []
    else
      var n := |items| - 1;
      RunEvents(items[..n], outcomes[..n], pause, dateText) + ItemEvents(items[n], outcomes[n], pause, dateText)
  }

  // Observations of a trace.

  /** The work items a trace requests, in order. */
  function Fetched(events: seq<Event>): seq<WorkItem>
  {
    if events == [] then []
    else
      (match events[0]
       case Fetch(sensor, start, end) => [WorkItem(sensor, Range(start, end))]
       case _ => [])
      + Fetched(events[1..])
  }

  /** The CSV files a trace writes, in order. */
  function Written(events: seq<Event>): seq<string>
  {
    if events == [] then []
    else (if events[0].WriteCsv? then [PathOf(events[0])] else []) + Written(events[1..])
  }

  /** The total time a trace sleeps, in seconds. */
  function Slept(events: seq<Event>): int
  {
    if events == [] then 0
    else (if events[0].Sleep? then events[0].seconds else 0) + Slept(events[1..])
  }

  /** The number of requests that did not raise. */
  function NotRaised(outcomes: seq<FetchOutcome>): nat
  {
    if outcomes == [] then 0
    else NotRaised(outcomes[..|outcomes| - 1]) + (if outcomes[|outcomes| - 1].Raised? then 0 else 1)
  }

  /** The number of requests whose answer made a non-empty frame. */
  function WithData(outcomes: seq<FetchOutcome>): nat
  {
    if outcomes == [] then 0
    else
      var last := outcomes[|outcomes| - 1];
      WithData(outcomes[..|outcomes| - 1]) + (if last.Returned? && HasData(last.rows) then 1 else 0)
  }

  /** The CSV file of each item whose answer made a non-empty frame, in item order. */
  function WrittenPaths(items: seq<WorkItem>, outcomes: seq<FetchOutcome>, dateText: int -> string): seq<string>
    requires |outcomes| == |items|
  {
    if items == [] then []
    else
      var n := |items| - 1;
      var item, outcome := items[n], outcomes[n];
      WrittenPaths(items[..n], outcomes[..n], dateText) +
      (if outcome.Returned? && HasData(outcome.rows)
       then [FileNames.CsvPath(item.sensor, dateText(item.window.start), dateText(item.window.end))]
       else [])
  }

  lemma {:induction false} FetchedAppend(a: seq<Event>, b: seq<Event>)
    ensures Fetched(a + b) == Fetched(a) + Fetched(b)
  {
    if a == [] {
      assert a + b == b;
    } else {
      assert (a + b)[1..] == a[1..] + b;
      FetchedAppend(a[1..], b);
      var head := Fetched([a[0]]);
      assert [a[0]][1..] == [];
      AppendAssoc(head, Fetched(a[1..]), Fetched(b));
    }
  }

  lemma {:induction false} WrittenAppend(a: seq<Event>, b: seq<Event>)
    ensures Written(a + b) == Written(a) + Written(b)
  {
    if a == [] {
      assert a + b == b;
    } else {
      assert (a + b)[1..] == a[1..] + b;
      WrittenAppend(a[1..], b);
      var head: seq<string> := if a[0].WriteCsv? then [PathOf(a[0])] else [];
      AppendAssoc(head, Written(a[1..]), Written(b));
    }
  }

  lemma {:induction false} SleptAppend(a: seq<Event>, b: seq<Event>)
    ensures Slept(a + b) == Slept(a) + Slept(b)
  {
    if a == [] {
      assert a + b == b;
    } else {
      assert (a + b)[1..] == a[1..] + b;
      SleptAppend(a[1..], b);
    }
  }

  /** Every observation of a trace works piecewise over a concatenation. */
  lemma ObserveAppend(a: seq<Event>, b: seq<Event>)
    ensures Fetched(a + b) == Fetched(a) + Fetched(b)
    ensures Written(a + b) == Written(a) + Written(b)
    ensures Slept(a + b) == Slept(a) + Slept(b)
  {
    FetchedAppend(a, b);
    WrittenAppend(a, b);
    SleptAppend(a, b);
  }

  lemma ObserveSingle(e: Event)
    ensures Fetched([e]) == if e.Fetch? then [WorkItem(e.sensor, Range(e.start, e.end))] else []
    ensures Written([e]) == if e.WriteCsv? then [PathOf(e)] else []
    ensures Slept([e]) == if e.Sleep? then e.seconds else 0
  {
    assert [e][1..] == [];
  }

  lemma {:induction false} ObserveSleeps(n: nat)
    ensures Fetched(Sleeps(n)) == [] && Written(Sleeps(n)) == []
    ensures Slept(Sleeps(n)) == 10 * n
  {
    if n > 0 {
      ObserveSleeps(n - 1);
      ObserveSingle(Sleep(10));
      ObserveAppend(Sleeps(n - 1), [Sleep(10)]);
    }
  }

  /** One work item requests exactly its own window. */
  lemma ItemFetches(item: WorkItem, outcome: FetchOutcome, pause: nat, dateText: int -> string)
    ensures Fetched(ItemEvents(item, outcome, pause, dateText)) == [item]
  {
    var fetch := FetchOf(item);
    ObserveSingle(fetch);
    if outcome.Returned? {
      var write := WriteCsv(item.sensor, dateText(item.window.start), dateText(item.window.end), outcome.rows);
      var csv: seq<Event> := if HasData(outcome.rows) then [write] else [];
      ObserveSingle(write);
      ObserveSleeps(pause);
      FetchedAppend(csv, Sleeps(pause));
      FetchedAppend([fetch], csv + Sleeps(pause));
    }
  }

  /** One work item writes its CSV file exactly when the answer has rows. */
  lemma ItemWrites(item: WorkItem, outcome: FetchOutcome, pause: nat, dateText: int -> string)
    ensures Written(ItemEvents(item, outcome, pause, dateText)) ==
            if outcome.Returned? && HasData(outcome.rows)
            then [FileNames.CsvPath(item.sensor, dateText(item.window.start), dateText(item.window.end))]
            else []
  {
    var fetch := FetchOf(item);
    ObserveSingle(fetch);
    if outcome.Returned? {
      var write := WriteCsv(item.sensor, dateText(item.window.start), dateText(item.window.end), outcome.rows);
      var csv: seq<Event> := if HasData(outcome.rows) then [write] else [];
      ObserveSingle(write);
      ObserveSleeps(pause);
      WrittenAppend(csv, Sleeps(pause));
      WrittenAppend([fetch], csv + Sleeps(pause));
    }
  }

  /** One work item waits `pause` steps of 10 s exactly when its request did not raise. */
  lemma ItemSleeps(item: WorkItem, outcome: FetchOutcome, pause: nat, dateText: int -> string)
    ensures Slept(ItemEvents(item, outcome, pause, dateText)) == if outcome.Raised? then 0 else 10 * pause
  {
    var fetch := FetchOf(item);
    ObserveSingle(fetch);
    if outcome.Returned? {
      var write := WriteCsv(item.sensor, dateText(item.window.start), dateText(item.window.end), outcome.rows);
      var csv: seq<Event> := if HasData(outcome.rows) then [write] else [];
      ObserveSingle(write);
      ObserveSleeps(pause);
      SleptAppend(csv, Sleeps(pause));
      SleptAppend([fetch], csv + Sleeps(pause));
    }
  }

  /**
   * Concatenation is associative; a method whose state grows by appending
   * calls this instead of proving the equality element by element.
   */
  lemma AppendAssoc<T>(a: seq<T>, b: seq<T>, c: seq<T>)
    ensures (a + b) + c == a + (b + c)
  {
  }

  /** Doing one more item appends its events. */
  lemma RunEventsSnoc(items: seq<WorkItem>, outcomes: seq<FetchOutcome>, item: WorkItem, outcome: FetchOutcome,
                      pause: nat, dateText: int -> string)
    requires |outcomes| == |items|
    ensures RunEvents(items + [item], outcomes + [outcome], pause, dateText) ==
            RunEvents(items, outcomes, pause, dateText) + ItemEvents(item, outcome, pause, dateText)
  {
    assert (items + [item])[..|items|] == items;
    assert (outcomes + [outcome])[..|items|] == outcomes;
  }

  /** Doing `a` then `b` gives the events of `a` followed by those of `b`. */
  lemma {:induction false} RunEventsAppend(a: seq<WorkItem>, oa: seq<FetchOutcome>, b: seq<WorkItem>, ob: seq<FetchOutcome>,
                                           pause: nat, dateText: int -> string)
    requires |oa| == |a| && |ob| == |b|
    ensures RunEvents(a + b, oa + ob, pause, dateText) == RunEvents(a, oa, pause, dateText) + RunEvents(b, ob, pause, dateText)
    decreases |b|
  {
    if b == [] {
      assert a + b == a && oa + ob == oa;
    } else {
      var n := |b| - 1;
      RunEventsAppend(a, oa, b[..n], ob[..n], pause, dateText);
      assert a + b == (a + b[..n]) + [b[n]];
      assert oa + ob == (oa + ob[..n]) + [ob[n]];
      RunEventsSnoc(a + b[..n], oa + ob[..n], b[n], ob[n], pause, dateText);
      AppendAssoc(RunEvents(a, oa, pause, dateText), RunEvents(b[..n], ob[..n], pause, dateText),
                  ItemEvents(b[n], ob[n], pause, dateText));
    }
  }

  /**
   * The trace of a run is, around the events of item `i`, the trace of the
   * items before it and of the items after it: an item that raised neither
   * stops the run nor changes what later items do.
   */
  lemma RunEventsAround(items: seq<WorkItem>, outcomes: seq<FetchOutcome>, pause: nat, dateText: int -> string, i: nat)
    requires |outcomes| == |items| && i < |items|
    ensures RunEvents(items, outcomes, pause, dateText) ==
            RunEvents(items[..i], outcomes[..i], pause, dateText)
            + ItemEvents(items[i], outcomes[i], pause, dateText)
            + RunEvents(items[i + 1..], outcomes[i + 1..], pause, dateText)
  {
    assert items[..i + 1] == items[..i] + [items[i]];
    assert outcomes[..i + 1] == outcomes[..i] + [outcomes[i]];
    RunEventsSnoc(items[..i], outcomes[..i], items[i], outcomes[i], pause, dateText);
    assert items == items[..i + 1] + items[i + 1..];
    assert outcomes == outcomes[..i + 1] + outcomes[i + 1..];
    RunEventsAppend(items[..i + 1], outcomes[..i + 1], items[i + 1..], outcomes[i + 1..], pause, dateText);
  }

  /** A run requests every work item once, in the given order, whatever the answers. */
  lemma {:induction false} RunFetchesInOrder(items: seq<WorkItem>, outcomes: seq<FetchOutcome>, pause: nat, dateText: int -> string)
    requires |outcomes| == |items|
    ensures Fetched(RunEvents(items, outcomes, pause, dateText)) == items
  {
    if items != [] {
      var n := |items| - 1;
      RunFetchesInOrder(items[..n], outcomes[..n], pause, dateText);
      ItemFetches(items[n], outcomes[n], pause, dateText);
      FetchedAppend(RunEvents(items[..n], outcomes[..n], pause, dateText), ItemEvents(items[n], outcomes[n], pause, dateText));
      assert items == items[..n] + [items[n]];
    }
  }

  /** A run waits `10 * pause` seconds per request that did not raise, and no more. */
  lemma {:induction false} RunPacing(items: seq<WorkItem>, outcomes: seq<FetchOutcome>, pause: nat, dateText: int -> string)
    requires |outcomes| == |items|
    ensures Slept(RunEvents(items, outcomes, pause, dateText)) == NotRaised(outcomes) * (10 * pause)
  {
    if items != [] {
      var n := |items| - 1;
      RunPacing(items[..n], outcomes[..n], pause, dateText);
      ItemSleeps(items[n], outcomes[n], pause, dateText);
      SleptAppend(RunEvents(items[..n], outcomes[..n], pause, dateText), ItemEvents(items[n], outcomes[n], pause, dateText));
      if !outcomes[n].Raised? {
        MulSucc(NotRaised(outcomes[..n]), 10 * pause);
      }
    }
  }

  lemma MulSucc(k: nat, c: nat)
    ensures (k + 1) * c == k * c + c
  {
  }

  /**
   * A run writes the CSV file of each request whose answer made a non-empty
   * frame, in request order, and no other file.
   */
  lemma {:induction false} RunWrites(items: seq<WorkItem>, outcomes: seq<FetchOutcome>, pause: nat, dateText: int -> string)
    requires |outcomes| == |items|
    ensures Written(RunEvents(items, outcomes, pause, dateText)) == WrittenPaths(items, outcomes, dateText)
    ensures |Written(RunEvents(items, outcomes, pause, dateText))| == WithData(outcomes)
  {
    if items != [] {
      var n := |items| - 1;
      RunWrites(items[..n], outcomes[..n], pause, dateText);
      ItemWrites(items[n], outcomes[n], pause, dateText);
      WrittenAppend(RunEvents(items[..n], outcomes[..n], pause, dateText), ItemEvents(items[n], outcomes[n], pause, dateText));
    }
  }

  /**
   * With `interval_seconds = interval_minutes * 60`, the pause of a request
   * lasts exactly `interval_minutes` minutes; a negative setting waits not at all.
   */
  lemma PauseIsInterval(intervalMinutes: int)
    ensures intervalMinutes >= 0 ==> 10 * PauseSteps(intervalMinutes * 60) == intervalMinutes * 60
    ensures intervalMinutes <= 0 ==> PauseSteps(intervalMinutes * 60) == 0
  {
    assert intervalMinutes * 60 == 10 * (intervalMinutes * 6);
  }

  // The order of the work items.

  /** One item per sensor, in list order, all on `window` (`get_data_for_sensor_list`). */
  function SensorItems(sensors: seq<SensorId>, window: Range): seq<WorkItem>
  {
    seq(|sensors|, j requires 0 <= j < |sensors| => WorkItem(sensors[j], window))
  }

  lemma SensorItemsSingle(sensor: SensorId, window: Range)
    ensures SensorItems([sensor], window) == [WorkItem(sensor, window)]
  {
  }

  /** Range-major, sensor-minor: all sensors on the first range, then on the next, and so on. */
  function RangeMajor(ranges: seq<Range>, sensors: seq<SensorId>): seq<WorkItem>
  {
    if ranges == [] then []
    else RangeMajor(ranges[..|ranges| - 1], sensors) + SensorItems(sensors, ranges[|ranges| - 1])
  }

  /**
   * The items of `process_data_for_sensor_list_based_on_window`: range-major
   * over the cover ranges when the window was split, otherwise every sensor on
   * the settings window.
   */
  function WindowItems(bigWindow: bool, coverRanges: seq<Range>, start: int, end: int, sensors: seq<SensorId>): seq<WorkItem>
  {
    if bigWindow then RangeMajor(coverRanges, sensors) else SensorItems(sensors, Range(start, end))
  }

  /**
   * The items of `run`: the window check first (which may split the settings
   * window), then the items of the window as the check left it.
   */
  function RunItems(bigWindow: bool, coverRanges: seq<Range>, start: int, end: int, sensors: seq<SensorId>): seq<WorkItem>
  {
    if IsBig(start, end) then RangeMajor(Cover(start, end), sensors)
    else WindowItems(bigWindow, coverRanges, start, end, sensors)
  }

  lemma {:induction false} RangeMajorLength(ranges: seq<Range>, sensors: seq<SensorId>)
    ensures |RangeMajor(ranges, sensors)| == |ranges| * |sensors|
  {
    if ranges != [] {
      RangeMajorLength(ranges[..|ranges| - 1], sensors);
      assert |ranges| * |sensors| == (|ranges| - 1) * |sensors| + |sensors|;
    }
  }

  /** The item at position `i * |sensors| + j` is sensor `j` on range `i`. */
  lemma {:induction false} RangeMajorAt(ranges: seq<Range>, sensors: seq<SensorId>, i: nat, j: nat)
    requires i < |ranges| && j < |sensors|
    ensures i * |sensors| + j < |RangeMajor(ranges, sensors)|
    ensures RangeMajor(ranges, sensors)[i * |sensors| + j] == WorkItem(sensors[j], ranges[i])
  {
    var m := |ranges| - 1;
    var front := RangeMajor(ranges[..m], sensors);
    assert RangeMajor(ranges, sensors) == front + SensorItems(sensors, ranges[m]);
    RangeMajorLength(ranges[..m], sensors);
    if i < m {
      RangeMajorAt(ranges[..m], sensors, i, j);
    }
  }

  /** Every item of a range-major order is on one of the ranges. */
  lemma {:induction false} RangeMajorWindows(ranges: seq<Range>, sensors: seq<SensorId>)
    ensures forall item :: item in RangeMajor(ranges, sensors) ==> item.window in ranges
  {
    if ranges != [] {
      var m := |ranges| - 1;
      RangeMajorWindows(ranges[..m], sensors);
      assert forall r :: r in ranges[..m] ==> r in ranges;
    }
  }

  /** Requesting sensor `i` on `window` extends the events of the first `i` sensors to those of the first `i + 1`. */
  lemma SensorItemsStep(sensors: seq<SensorId>, window: Range, i: nat, done: seq<FetchOutcome>, outcome: FetchOutcome,
                        pause: nat, dateText: int -> string)
    requires i < |sensors| && |done| == i
    ensures RunEvents(SensorItems(sensors[..i + 1], window), done + [outcome], pause, dateText) ==
            RunEvents(SensorItems(sensors[..i], window), done, pause, dateText)
            + ItemEvents(WorkItem(sensors[i], window), outcome, pause, dateText)
  {
    assert SensorItems(sensors[..i + 1], window) == SensorItems(sensors[..i], window) + [WorkItem(sensors[i], window)];
    RunEventsSnoc(SensorItems(sensors[..i], window), done, WorkItem(sensors[i], window), outcome, pause, dateText);
  }

  /** One item done alone gives its own events. */
  lemma RunEventsSingle(item: WorkItem, outcome: FetchOutcome, pause: nat, dateText: int -> string)
    ensures RunEvents([item], [outcome], pause, dateText) == ItemEvents(item, outcome, pause, dateText)
  {
    assert [item][..0] == [] && [outcome][..0] == [];
  }

  /** Requesting all sensors on range `i` extends the events of the first `i` ranges to those of the first `i + 1`. */
  lemma RangeMajorStep(ranges: seq<Range>, i: nat, sensors: seq<SensorId>, done: seq<FetchOutcome>, next: seq<FetchOutcome>,
                       pause: nat, dateText: int -> string)
    requires i < |ranges| && |done| == |RangeMajor(ranges[..i], sensors)| && |next| == |sensors|
    ensures |RangeMajor(ranges[..i + 1], sensors)| == |done| + |sensors|
    ensures RunEvents(RangeMajor(ranges[..i + 1], sensors), done + next, pause, dateText) ==
            RunEvents(RangeMajor(ranges[..i], sensors), done, pause, dateText)
            + RunEvents(SensorItems(sensors, Range(ranges[i].start, ranges[i].end)), next, pause, dateText)
  {
    assert ranges[..i + 1][..i] == ranges[..i];
    assert Range(ranges[i].start, ranges[i].end) == ranges[i];
    RunEventsAppend(RangeMajor(ranges[..i], sensors), done, SensorItems(sensors, ranges[i]), next, pause, dateText);
  }

  /** Requesting one sensor on range `i` extends its events on the first `i` ranges to those on the first `i + 1`. */
  lemma OneSensorStep(ranges: seq<Range>, i: nat, sensor: SensorId, done: seq<FetchOutcome>, outcome: FetchOutcome,
                      pause: nat, dateText: int -> string)
    requires i < |ranges| && |done| == i && |RangeMajor(ranges[..i], [sensor])| == i
    ensures |RangeMajor(ranges[..i + 1], [sensor])| == i + 1
    ensures RunEvents(RangeMajor(ranges[..i + 1], [sensor]), done + [outcome], pause, dateText) ==
            RunEvents(RangeMajor(ranges[..i], [sensor]), done, pause, dateText)
            + ItemEvents(WorkItem(sensor, Range(ranges[i].start, ranges[i].end)), outcome, pause, dateText)
  {
    assert ranges[..i + 1][..i] == ranges[..i];
    assert Range(ranges[i].start, ranges[i].end) == ranges[i];
    SensorItemsSingle(sensor, ranges[i]);
    RunEventsSnoc(RangeMajor(ranges[..i], [sensor]), done, WorkItem(sensor, ranges[i]), outcome, pause, dateText);
  }

  /**
   * A run over a window longer than a week issues ceil(span / WEEK) requests
   * per sensor, each on a window of at most a week.
   */
  lemma SplitRunShape(bigWindow: bool, coverRanges: seq<Range>, start: int, end: int, sensors: seq<SensorId>)
    requires IsBig(start, end)
    ensures |RunItems(bigWindow, coverRanges, start, end, sensors)| == (end - start + WEEK - 1) / WEEK * |sensors|
    ensures forall k :: 0 <= k < |RunItems(bigWindow, coverRanges, start, end, sensors)| ==>
      0 < Span(RunItems(bigWindow, coverRanges, start, end, sensors)[k].window) <= WEEK
  {
    var rs := Cover(start, end);
    CoverCount(start, end);
    CoverIsWeekChain(start, end);
    RangeMajorLength(rs, sensors);
    RangeMajorWindows(rs, sensors);
  }

  /**
   * A 10-day window and two sensors A and B give four requests:
   * week 1 for A, week 1 for B, the last 3 days for A, then for B.
   */
  lemma TenDaysTwoSensors(a: SensorId, b: SensorId)
    ensures RunItems(false, [], 0, 864000, [a, b]) ==
      [WorkItem(a, Range(0, WEEK)), WorkItem(b, Range(0, WEEK)),
       WorkItem(a, Range(WEEK, 864000)), WorkItem(b, Range(WEEK, 864000))]
  {
    var rs := Cover(0, 864000);
    assert rs == [Range(0, WEEK), Range(WEEK, 864000)];
    assert rs[..1] == [Range(0, WEEK)] && rs[..1][..0] == [];
    assert RangeMajor(rs[..1], [a, b]) == SensorItems([a, b], Range(0, WEEK));
  }
}
