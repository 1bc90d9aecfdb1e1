/**
 * The `Monnit` API manager: the state the export job keeps between calls
 * (settings window, split flag, cover ranges, sensor and network lists) and
 * the operations that change it.
 */
module ApiManager {
  import opened Windows
  import opened Sequencing
  import opened Catalog

  /** The fields of `settings.json` the job's core reads; `start`/`end` in seconds. */
  datatype Settings = Settings(sensorList: seq<SensorId>, intervalMinutes: int, start: int, end: int)

  /** `find_network_id` answers `k`: entry `k` is the first whose name is `name`. */
  predicate IsFirstMatch(networks: seq<Network>, name: string, k: int)
  {
    && 0 <= k < |networks|
    && networks[k].networkName == name
    && forall j :: 0 <= j < k ==> networks[j].networkName != name
  }

  /**
   * The splitting loop of `check_for_big_window`: from `start`, ranges of one
   * week each, the last one clamped to `end`.
   */
  method SplitWindow(start: int, end: int) returns (ranges: seq<Range>)
    ensures ranges == Cover(start, end)
  {
    ranges := [];
    var cur := start;
    while cur < end
      invariant ranges + Cover(cur, end) == Cover(start, end)
      decreases end - cur
    {
      var next := cur + WEEK;
      if next > end {
        next := end;
      }
      CoverStep(cur, next, end);
      AppendAssoc(ranges, [Range(cur, next)], Cover(next, end));
      ranges := ranges + [Range(cur, next)];
      cur := next;
    }
    assert ranges + Cover(cur, end) == ranges;
  }

  class Monnit {
    var settings: Settings
    var sensorList: seq<SensorId>
    var networkList: seq<Network>
    var bigWindow: bool
    var coverRanges: seq<Range>
    /** `interval_minutes * 60`, fixed when the object is built. */
    const intervalSeconds: int
    /** The `%Y-%m-%d %H:%M:%S` text of a timestamp. */
    const dateText: int -> string
    /** The answer the data request with that number gets. */
    const server: nat -> FetchOutcome
    /** The number of data requests issued so far. */
    var requests: nat
    /** Requests, CSV files written and sleeps, in order. */
    ghost var trace: seq<Event>

    /** Once the window has been split, the cover ranges form a chain of week-long steps. */
    ghost predicate Valid()
      reads this`bigWindow, this`coverRanges
    {
      bigWindow ==> |coverRanges| > 0 && WeekChain(coverRanges)
    }

    constructor (settings: Settings, dateText: int -> string, server: nat -> FetchOutcome)
      ensures this.settings == settings && sensorList == settings.sensorList && networkList == []
      ensures !bigWindow && coverRanges == []
      ensures intervalSeconds == settings.intervalMinutes * 60
      ensures this.dateText == dateText && this.server == server
      ensures requests == 0 && trace == []
      ensures Valid()
    {
      this.settings := settings;
      sensorList := settings.sensorList;
      networkList := [];
      bigWindow := false;
      coverRanges := [];
      intervalSeconds := settings.intervalMinutes * 60;
      this.dateText := dateText;
      this.server := server;
      requests := 0;
      trace := [];
    }

    /** The answers of `n` data requests from request number `k` on. */
    function Outcomes(k: nat, n: nat): seq<FetchOutcome>
    {
      seq(n, i requires 0 <= i < n => server(k + i))
    }

    /** The answers of `a + b` requests are those of the first `a`, then those of the next `b`. */
    lemma OutcomesSplit(k: nat, a: nat, b: nat)
      ensures Outcomes(k, a + b) == Outcomes(k, a) + Outcomes(k + a, b)
    {
      var whole, parts := Outcomes(k, a + b), Outcomes(k, a) + Outcomes(k + a, b);
      assert forall i :: 0 <= i < a + b ==> whole[i] == parts[i];
    }

    lemma OutcomesSnoc(k: nat, n: nat)
      ensures Outcomes(k, n + 1) == Outcomes(k, n) + [server(k + n)]
    {
      OutcomesSplit(k, n, 1);
      assert Outcomes(k + n, 1) == [server(k + n)];
    }

    /** The trace after one more sensor of `get_data_for_sensor_list`. */
    lemma SensorListStep(t0: seq<Event>, before: seq<Event>, after: seq<Event>, sensors: seq<SensorId>, window: Range,
                         i: nat, k0: nat, pause: nat)
      requires i < |sensors|
      requires before == t0 + RunEvents(SensorItems(sensors[..i], window), Outcomes(k0, i), pause, dateText)
      requires after == before + ItemEvents(WorkItem(sensors[i], window), server(k0 + i), pause, dateText)
      ensures after == t0 + RunEvents(SensorItems(sensors[..i + 1], window), Outcomes(k0, i + 1), pause, dateText)
    {
      OutcomesSnoc(k0, i);
      SensorItemsStep(sensors, window, i, Outcomes(k0, i), server(k0 + i), pause, dateText);
      AppendAssoc(t0, RunEvents(SensorItems(sensors[..i], window), Outcomes(k0, i), pause, dateText),
                  ItemEvents(WorkItem(sensors[i], window), server(k0 + i), pause, dateText));
    }

    /** The trace after one more cover range of `process_data_for_sensor_id_based_on_window`. */
    lemma OneSensorRangeStep(t0: seq<Event>, before: seq<Event>, after: seq<Event>, ranges: seq<Range>, i: nat,
                             sensor: SensorId, k0: nat, pause: nat)
      requires i < |ranges| && |RangeMajor(ranges[..i], [sensor])| == i
      requires before == t0 + RunEvents(RangeMajor(ranges[..i], [sensor]), Outcomes(k0, i), pause, dateText)
      requires after == before + ItemEvents(WorkItem(sensor, Range(ranges[i].start, ranges[i].end)), server(k0 + i), pause, dateText)
      ensures |RangeMajor(ranges[..i + 1], [sensor])| == i + 1
      ensures after == t0 + RunEvents(RangeMajor(ranges[..i + 1], [sensor]), Outcomes(k0, i + 1), pause, dateText)
    {
      OutcomesSnoc(k0, i);
      OneSensorStep(ranges, i, sensor, Outcomes(k0, i), server(k0 + i), pause, dateText);
      AppendAssoc(t0, RunEvents(RangeMajor(ranges[..i], [sensor]), Outcomes(k0, i), pause, dateText),
                  ItemEvents(WorkItem(sensor, Range(ranges[i].start, ranges[i].end)), server(k0 + i), pause, dateText));
    }

    /** The trace after all sensors on one more cover range of `process_data_for_sensor_list_based_on_window`. */
    lemma SensorListRangeStep(t0: seq<Event>, before: seq<Event>, after: seq<Event>, ranges: seq<Range>, i: nat,
                              sensors: seq<SensorId>, k0: nat, n: nat, pause: nat)
      requires i < |ranges| && n == |RangeMajor(ranges[..i], sensors)|
      requires before == t0 + RunEvents(RangeMajor(ranges[..i], sensors), Outcomes(k0, n), pause, dateText)
      requires after == before +
        RunEvents(SensorItems(sensors, Range(ranges[i].start, ranges[i].end)), Outcomes(k0 + n, |sensors|), pause, dateText)
      ensures n + |sensors| == |RangeMajor(ranges[..i + 1], sensors)|
      ensures after == t0 + RunEvents(RangeMajor(ranges[..i + 1], sensors), Outcomes(k0, n + |sensors|), pause, dateText)
    {
      OutcomesSplit(k0, n, |sensors|);
      RangeMajorStep(ranges, i, sensors, Outcomes(k0, n), Outcomes(k0 + n, |sensors|), pause, dateText);
      AppendAssoc(t0, RunEvents(RangeMajor(ranges[..i], sensors), Outcomes(k0, n), pause, dateText),
                  RunEvents(SensorItems(sensors, Range(ranges[i].start, ranges[i].end)), Outcomes(k0 + n, |sensors|), pause, dateText));
    }

    /**
     * With the object invariant, every request of a split plan is on a window of
     * more than zero seconds and at most a week.
     */
    lemma SplitPlanIsWeekly()
      requires Valid() && bigWindow
      ensures forall k :: 0 <= k < |WindowItems(bigWindow, coverRanges, settings.start, settings.end, sensorList)| ==>
        0 < Span(WindowItems(bigWindow, coverRanges, settings.start, settings.end, sensorList)[k].window) <= WEEK
    {
      RangeMajorWindows(coverRanges, sensorList);
    }

    /**
     * `check_for_big_window`: a window longer than a week is split into
     * week-long cover ranges, the flag is set and the settings window becomes
     * the first range; any other window leaves everything as it was (the flag
     * is never cleared).
     */
    method CheckForBigWindow()
      requires Valid()
      modifies this`bigWindow, this`coverRanges, this`settings
      ensures Valid()
      ensures IsBig(old(settings.start), old(settings.end)) ==>
        && bigWindow
        && coverRanges == Cover(old(settings.start), old(settings.end))
        && settings == old(settings).(start := coverRanges[0].start, end := coverRanges[0].end)
      ensures !IsBig(old(settings.start), old(settings.end)) ==>
        bigWindow == old(bigWindow) && coverRanges == old(coverRanges) && settings == old(settings)
    {
      var start, end := settings.start, settings.end;
      if end - start > WEEK {
        bigWindow := true;
        coverRanges := SplitWindow(start, end);
        BuiltCoverIsWeekChain(coverRanges, start, end);
        settings := settings.(start := coverRanges[0].start, end := coverRanges[0].end);
      }
    }

    /** `progressbar`: `seconds // 10` sleeps of 10 s (none for fewer than 10 s). */
    method Progressbar(seconds: int := 600)
      modifies this`trace
      ensures trace == old(trace) + Sleeps(PauseSteps(seconds))
    {
      var steps := seconds / 10;
      var i := 0;
      while i < steps
        invariant 0 <= i && (i <= steps || i == 0)
        invariant trace == old(trace) + Sleeps(i)
      {
        trace := trace + [Sleep(10)];
        i := i + 1;
      }
    }

    /**
     * `get_network_list`: the list is emptied, then, if the request succeeds,
     * becomes the id and name of each row of `Result`, in order.
     */
    method GetNetworkList(reply: Reply<NetworkRow>)
      modifies this`networkList
      ensures reply.RequestFailed? ==> networkList == []
      ensures reply.Answered? ==>
        && |networkList| == |ResultRows(reply)|
        && forall i :: 0 <= i < |networkList| ==> networkList[i] == ToNetwork(ResultRows(reply)[i])
    {
      networkList := [];
      if reply.Answered? {
        var rows := ResultRows(reply);
        networkList := seq(|rows|, i requires 0 <= i < |rows| => ToNetwork(rows[i]));
      }
    }

    /**
     * `find_network_id`: the id of the first network called `name`, or `None`
     * when no network has that name.
     */
    method FindNetworkId(networks: seq<Network>, name: string) returns (id: Option<NetworkId>)
      ensures id.None? <==> forall k :: 0 <= k < |networks| ==> networks[k].networkName != name
      ensures id.Some? ==> exists k :: IsFirstMatch(networks, name, k) && id.value == networks[k].networkId
    {
      for i := 0 to |networks|
        invariant forall k :: 0 <= k < i ==> networks[k].networkName != name
      {
        if networks[i].networkName == name {
          assert IsFirstMatch(networks, name, i);
          return Some(networks[i].networkId);
        }
      }
      return None;
    }

    /**
     * `get_sensor_list`: the list is emptied, then, if the request succeeds,
     * becomes the `SensorID` of each row of `Result`, in order.
     */
    method GetSensorList(reply: Reply<SensorRow>)
      modifies this`sensorList
      ensures reply.RequestFailed? ==> sensorList == []
      ensures reply.Answered? ==>
        && |sensorList| == |ResultRows(reply)|
        && forall i :: 0 <= i < |sensorList| ==> sensorList[i] == ResultRows(reply)[i].sensorId
    {
      sensorList := [];
      if reply.Answered? {
        var rows := ResultRows(reply);
        sensorList := seq(|rows|, i requires 0 <= i < |rows| => rows[i].sensorId);
      }
    }

    /**
     * `get_data_for_sensor_id`: one data request; a raised request is only
     * logged; otherwise a non-empty answer is written to its CSV file and the
     * pacing wait follows, empty answer or not.
     */
    method GetDataForSensorId(sensor: SensorId, start: int, end: int)
      modifies this`trace, this`requests
      ensures requests == old(requests) + 1
      ensures trace == old(trace) +
        ItemEvents(WorkItem(sensor, Range(start, end)), server(old(requests)), PauseSteps(intervalSeconds), dateText)
    {
      trace := trace + [Fetch(sensor, start, end)];
      var outcome := server(requests);
      requests := requests + 1;
      match outcome
      case Raised =>
      case Returned(rows) =>
        if HasData(rows) {
          trace := trace + [WriteCsv(sensor, dateText(start), dateText(end), rows)];
        }
        Progressbar(intervalSeconds);
    }

    /** `get_data_for_sensor_list`: every sensor of the list, in order, on one window. */
    method GetDataForSensorList(start: int, end: int)
      modifies this`trace, this`requests
      ensures requests == old(requests) + |sensorList|
      ensures trace == old(trace) +
        RunEvents(SensorItems(sensorList, Range(start, end)), Outcomes(old(requests), |sensorList|),
                  PauseSteps(intervalSeconds), dateText)
    {
      var sensors := sensorList;
      ghost var k0, t0 := requests, trace;
      ghost var pause := PauseSteps(intervalSeconds);
      for i := 0 to |sensors|
        invariant requests == k0 + i
        invariant trace == t0 + RunEvents(SensorItems(sensors[..i], Range(start, end)), Outcomes(k0, i), pause, dateText)
      {
        ghost var before := trace;
        GetDataForSensorId(sensors[i], start, end);
        SensorListStep(t0, before, trace, sensors, Range(start, end), i, k0, pause);
      }
      assert sensors[..|sensors|] == sensors;
    }

    /**
     * `process_data_for_sensor_id_based_on_window`: one sensor on every cover
     * range in order when the window was split, otherwise on the settings window.
     */
    method ProcessDataForSensorIdBasedOnWindow(sensor: SensorId)
      modifies this`trace, this`requests
      ensures var items := WindowItems(bigWindow, coverRanges, settings.start, settings.end, [sensor]);
        && requests == old(requests) + |items|
        && trace == old(trace) + RunEvents(items, Outcomes(old(requests), |items|), PauseSteps(intervalSeconds), dateText)
    {
      ghost var k0, t0 := requests, trace;
      ghost var pause := PauseSteps(intervalSeconds);
      if bigWindow {
        var ranges := coverRanges;
        for i := 0 to |ranges|
          invariant requests == k0 + i && |RangeMajor(ranges[..i], [sensor])| == i
          invariant trace == t0 + RunEvents(RangeMajor(ranges[..i], [sensor]), Outcomes(k0, i), pause, dateText)
        {
          ghost var before := trace;
          GetDataForSensorId(sensor, ranges[i].start, ranges[i].end);
          OneSensorRangeStep(t0, before, trace, ranges, i, sensor, k0, pause);
        }
        assert ranges[..|ranges|] == ranges;
        RangeMajorLength(ranges, [sensor]);
      } else {
        GetDataForSensorId(sensor, settings.start, settings.end);
        SensorItemsSingle(sensor, Range(settings.start, settings.end));
        RunEventsSingle(WorkItem(sensor, Range(settings.start, settings.end)), server(k0), pause, dateText);
        assert Outcomes(k0, 1) == [server(k0)];
      }
    }

    /**
     * `process_data_for_sensor_list_based_on_window`: all sensors on the first
     * cover range, then on the next, and so on, when the window was split;
     * otherwise all sensors on the settings window.
     */
    method ProcessDataForSensorListBasedOnWindow()
      modifies this`trace, this`requests
      ensures var items := WindowItems(bigWindow, coverRanges, settings.start, settings.end, sensorList);
        && requests == old(requests) + |items|
        && trace == old(trace) + RunEvents(items, Outcomes(old(requests), |items|), PauseSteps(intervalSeconds), dateText)
    {
      ghost var k0, t0 := requests, trace;
      ghost var pause := PauseSteps(intervalSeconds);
      if bigWindow {
        var ranges := coverRanges;
        ghost var n := 0;
        for i := 0 to |ranges|
          invariant n == |RangeMajor(ranges[..i], sensorList)| && requests == k0 + n
          invariant trace == t0 + RunEvents(RangeMajor(ranges[..i], sensorList), Outcomes(k0, n), pause, dateText)
        {
          ghost var before := trace;
          GetDataForSensorList(ranges[i].start, ranges[i].end);
          SensorListRangeStep(t0, before, trace, ranges, i, sensorList, k0, n, pause);
          n := n + |sensorList|;
        }
        assert ranges[..|ranges|] == ranges;
      } else {
        GetDataForSensorList(settings.start, settings.end);
      }
    }

    /** `run`: the window check, then every sensor on every window of the plan. */
    method Run()
      requires Valid()
      modifies this`bigWindow, this`coverRanges, this`settings, this`trace, this`requests
      ensures Valid()
      ensures IsBig(old(settings.start), old(settings.end)) ==>
        && bigWindow
        && coverRanges == Cover(old(settings.start), old(settings.end))
        && settings == old(settings).(start := coverRanges[0].start, end := coverRanges[0].end)
      ensures !IsBig(old(settings.start), old(settings.end)) ==>
        bigWindow == old(bigWindow) && coverRanges == old(coverRanges) && settings == old(settings)
      ensures var items := RunItems(old(bigWindow), old(coverRanges), old(settings.start), old(settings.end), sensorList);
        && requests == old(requests) + |items|
        && trace == old(trace) + RunEvents(items, Outcomes(old(requests), |items|), PauseSteps(intervalSeconds), dateText)
    {
      CheckForBigWindow();
      ProcessDataForSensorListBasedOnWindow();
    }
  }

  /**
   * Checking the window twice in a row leaves the state of one check: after a
   * split the settings window is the first cover range, at most a week long.
   */
  method CheckForBigWindowTwice(m: Monnit)
    requires m.Valid()
    modifies m`bigWindow, m`coverRanges, m`settings
    ensures m.Valid()
    ensures IsBig(old(m.settings.start), old(m.settings.end)) ==>
      && m.bigWindow
      && m.coverRanges == Cover(old(m.settings.start), old(m.settings.end))
      && m.settings == old(m.settings).(start := m.coverRanges[0].start, end := m.coverRanges[0].end)
    ensures !IsBig(old(m.settings.start), old(m.settings.end)) ==>
      m.bigWindow == old(m.bigWindow) && m.coverRanges == old(m.coverRanges) && m.settings == old(m.settings)
  {
    m.CheckForBigWindow();
    if IsBig(old(m.settings.start), old(m.settings.end)) {
      FirstCoverIsSmall(old(m.settings.start), old(m.settings.end));
    }
    m.CheckForBigWindow();
  }
}
