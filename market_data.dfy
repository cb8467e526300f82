/**
 * `SessionSchedule.is_open` and `MarketDataTypeManager`: finds the trading
 * hours of a contract's exchange for today, caches them in one slot, and
 * asks the broker to switch the market data type only when the wanted type
 * differs from the one last requested.
 *
 * Broker calls are inputs (the contract details a lookup returned) or a
 * record of outputs (the `reqMarketDataType` calls issued, in order). A
 * clock is a function from a zone name to the wall-clock time in that zone.
 */
module MarketData {
  import opened Results
  import opened Calendar
  import opened HoursParser
  import opened HoursProperties

  /** `MarketDataType`, an `int` enum as IB numbers the types. */
  datatype MarketDataType = Live | Frozen | Delayed | DelayedFrozen
  {
    function Code(): (c: int)
      ensures 1 <= c <= 4
    {
      match this
      case Live => 1
      case Frozen => 2
      case Delayed => 3
      case DelayedFrozen => 4
    }
  }

  type Clock = string -> DateTime

  // ---------------------------------------------------------------------
  // SessionSchedule

  datatype SessionSchedule = SessionSchedule(tz: string, intervals: seq<Interval>)

  /** `start <= now <= end`, both ends included. */
  predicate Covers(iv: Interval, now: DateTime) {
    NotAfter(iv.start, now) && NotAfter(now, iv.end)
  }

  /**
   * `is_open` with `now` the clock reading in the schedule's zone:
   * `any(start <= now <= end for start, end in intervals)`.
   */
  function IsOpen(s: SessionSchedule, now: DateTime): (r: bool)
    ensures r <==> exists k :: 0 <= k < |s.intervals| && Covers(s.intervals[k], now)
    decreases |s.intervals|
  {
    if |s.intervals| == 0 then false
    else
      var rest := SessionSchedule(s.tz, s.intervals[1..]);
      assert forall k :: 0 <= k < |rest.intervals| ==> rest.intervals[k] == s.intervals[k + 1];
      Covers(s.intervals[0], now) || IsOpen(rest, now)
  }

  /** Both ends of a session count as open. */
  lemma OpenAtSessionEnds(s: SessionSchedule, k: nat)
    requires k < |s.intervals| && NotAfter(s.intervals[k].start, s.intervals[k].end)
    ensures IsOpen(s, s.intervals[k].start) && IsOpen(s, s.intervals[k].end)
  {
    var iv := s.intervals[k];
    NotAfterTotalOrder(iv.start, iv.end, iv.end);
    assert Covers(iv, iv.start) && Covers(iv, iv.end);
  }

  /** `a < b` */
  predicate Before(a: DateTime, b: DateTime) {
    !NotAfter(b, a)
  }

  /** Sessions as IB lists them: each one non-empty, and each ending before the next starts. */
  predicate Ordered(ivs: seq<Interval>) {
    && (forall k :: 0 <= k < |ivs| ==> NotAfter(ivs[k].start, ivs[k].end))
    && (forall i, j :: 0 <= i < j < |ivs| ==> Before(ivs[i].end, ivs[j].start))
  }

  /** Between two sessions, such as over a lunch break, the market is closed. */
  lemma ClosedBetweenSessions(s: SessionSchedule, k: nat, now: DateTime)
    requires Ordered(s.intervals) && k + 1 < |s.intervals|
    requires Before(s.intervals[k].end, now) && Before(now, s.intervals[k + 1].start)
    ensures !IsOpen(s, now)
  {
    var ivs := s.intervals;
    forall i | 0 <= i < |ivs|
      ensures !Covers(ivs[i], now)
    {
      if i < k {
        NotAfterTotalOrder(ivs[i].end, ivs[k].start, ivs[k].end);
        NotAfterTotalOrder(ivs[i].end, ivs[k].end, now);
        NotAfterTotalOrder(now, ivs[i].end, ivs[k].end);
      } else if i > k + 1 {
        NotAfterTotalOrder(ivs[k + 1].start, ivs[k + 1].end, ivs[i].start);
        NotAfterTotalOrder(now, ivs[k + 1].start, ivs[i].start);
        NotAfterTotalOrder(ivs[i].start, now, ivs[k + 1].start);
      }
    }
  }

  /** A wall-clock reading on the minute; the zone is the schedule's. */
  function WallClock(year: nat, month: nat, day: nat, hour: nat, minute: nat): DateTime {
    DateTime(year, month, day, hour, minute, 0, 0)
  }

  function TestSchedule(): SessionSchedule {
    SessionSchedule("UTC", [Interval(WallClock(2025, 1, 3, 10, 0), WallClock(2025, 1, 3, 12, 0)),
                            Interval(WallClock(2025, 1, 3, 14, 0), WallClock(2025, 1, 3, 16, 0))])
  }

  /** `test_session_schedule_is_open`: 11:00 lies in the first session. */
  lemma ExampleOpen()
    ensures IsOpen(TestSchedule(), WallClock(2025, 1, 3, 11, 0))
  {
    assert Covers(TestSchedule().intervals[0], WallClock(2025, 1, 3, 11, 0));
  }

  /** `test_session_schedule_is_closed`: 13:00 lies between the sessions. */
  lemma ExampleClosed()
    ensures !IsOpen(TestSchedule(), WallClock(2025, 1, 3, 13, 0))
  {
    ClosedBetweenSessions(TestSchedule(), 0, WallClock(2025, 1, 3, 13, 0));
  }

  // ---------------------------------------------------------------------
  // _get_schedule: the single-slot cache

  /** The contract after qualification; `getattr(contract, "conId", None)`. */
  datatype Contract = Contract(conId: Option<int>)

  /** The fields of IB's contract details that the lookup reads; `None` is a missing value. */
  datatype ContractDetails = ContractDetails(timeZoneId: Option<string>,
                                             tradingHours: Option<string>,
                                             liquidHours: Option<string>)

  datatype CacheKey = CacheKey(conId: Option<int>, day: string, preferLiquidHours: bool)

  datatype ScheduleError =
    | NoContractDetails       // `ValueError("No contract details returned")`
    | BadHours(error: ParseError)

  /** `ZoneInfo(d.timeZoneId) if d.timeZoneId else self.tz`, zones by name. */
  function ZoneOf(d: ContractDetails, defaultTz: string): (tz: string)
    ensures d.timeZoneId.Some? && d.timeZoneId.value != "" ==> tz == d.timeZoneId.value
    ensures d.timeZoneId.None? || d.timeZoneId.value == "" ==> tz == defaultTz
  {
    match d.timeZoneId
    case Some(z) => if z != "" then z else defaultTz
    case None => defaultTz
  }

  /** `(d.liquidHours if prefer_liquid_hours else d.tradingHours) or ""` */
  function HoursText(d: ContractDetails, preferLiquidHours: bool): (h: string)
    ensures var field := if preferLiquidHours then d.liquidHours else d.tradingHours;
            h == (if field.Some? then field.value else "")
  {
    var field := if preferLiquidHours then d.liquidHours else d.tradingHours;
    match field
    case Some(text) => text
    case None => ""
  }

  /** `datetime.now(tz).strftime("%Y%m%d")` */
  function Today(clock: Clock, tz: string): (day: string)
    ensures DayText(day)
  {
    FormatYmd(clock(tz).CalendarDate())
  }

  /** What a lookup returns and the cache slot it leaves behind. */
  datatype Lookup = Lookup(result: Result<SessionSchedule, ScheduleError>,
                           key: Option<CacheKey>, cache: Option<SessionSchedule>)

  /**
   * `_get_schedule`, from the cache slot `(key, cache)` and the contract
   * details the broker returned for `contract`.
   */
  function LookupSchedule(key: Option<CacheKey>, cache: Option<SessionSchedule>,
                          contract: Contract, details: seq<ContractDetails>,
                          clock: Clock, defaultTz: string, preferLiquidHours: bool): (l: Lookup)
    ensures l.result == Failure(NoContractDetails) <==> |details| == 0
    ensures l.result.Failure? ==> l.key == key && l.cache == cache
    ensures l.result.Success? ==>
              && l.cache == Some(l.result.value)
              && l.key.Some? && l.key.value.conId == contract.conId
              && l.key.value.preferLiquidHours == preferLiquidHours
  {
    if |details| == 0 then Lookup(Failure(NoContractDetails), key, cache)
    else
      var d := details[0];
      var tz := ZoneOf(d, defaultTz);
      var today := Today(clock, tz);
      var wanted := CacheKey(contract.conId, today, preferLiquidHours);
      if key == Some(wanted) && cache.Some? then Lookup(Success(cache.value), key, cache)
      else
        match ParsedHours(HoursText(d, preferLiquidHours), today)
        case Failure(e) => Lookup(Failure(BadHours(e)), key, cache)
        case Success(intervals) =>
          var schedule := SessionSchedule(tz, intervals);
          Lookup(Success(schedule), Some(wanted), Some(schedule))
  }

  /** The slot is filled or empty as a whole, and a cached schedule lies on its key's day. */
  predicate CacheConsistent(key: Option<CacheKey>, cache: Option<SessionSchedule>) {
    && (key.Some? <==> cache.Some?)
    && (cache.Some? ==> DayText(key.value.day) && AllWithinDay(cache.value.intervals, key.value.day))
  }

  /**
   * A lookup keeps the slot consistent and every schedule it returns holds
   * only intervals of today in the exchange's zone; a failed lookup leaves
   * the slot as it was.
   */
  lemma LookupKeepsCacheConsistent(key: Option<CacheKey>, cache: Option<SessionSchedule>,
                                   contract: Contract, details: seq<ContractDetails>,
                                   clock: Clock, defaultTz: string, preferLiquidHours: bool)
    requires CacheConsistent(key, cache)
    ensures var l := LookupSchedule(key, cache, contract, details, clock, defaultTz, preferLiquidHours);
            && CacheConsistent(l.key, l.cache)
            && (l.result.Failure? ==> l.key == key && l.cache == cache)
            && (l.result.Success? ==>
                  && |details| > 0
                  && AllWithinDay(l.result.value.intervals, Today(clock, ZoneOf(details[0], defaultTz))))
  {
    if |details| > 0 {
      var tz := ZoneOf(details[0], defaultTz);
      ParsedHoursOnDay(HoursText(details[0], preferLiquidHours), Today(clock, tz));
    }
  }

  /**
   * On a miss the lookup parses the preferred hours field (`""` when it is
   * missing) for today and fills the slot with the new key and schedule.
   */
  lemma LookupMissParses(key: Option<CacheKey>, cache: Option<SessionSchedule>,
                         contract: Contract, details: seq<ContractDetails>,
                         clock: Clock, defaultTz: string, preferLiquidHours: bool)
    requires |details| > 0
    requires var tz := ZoneOf(details[0], defaultTz);
             key != Some(CacheKey(contract.conId, Today(clock, tz), preferLiquidHours)) || cache.None?
    ensures var tz := ZoneOf(details[0], defaultTz);
            var today := Today(clock, tz);
            var parsed := ParsedHours(HoursText(details[0], preferLiquidHours), today);
            var l := LookupSchedule(key, cache, contract, details, clock, defaultTz, preferLiquidHours);
            && (parsed.Failure? ==> l.result == Failure(BadHours(parsed.error)))
            && (parsed.Success? ==>
                  && l.result == Success(SessionSchedule(tz, parsed.value))
                  && l.key == Some(CacheKey(contract.conId, today, preferLiquidHours))
                  && l.cache == Some(l.result.value))
  {
  }

  /**
   * Only the first details record is read, and of its two hours fields
   * only the preferred one: the other field and any further records may
   * be anything.
   */
  lemma LookupReadsPreferredHoursOnly(key: Option<CacheKey>, cache: Option<SessionSchedule>,
                                      contract: Contract, d: ContractDetails, rest: seq<ContractDetails>,
                                      other: Option<string>, clock: Clock, defaultTz: string, preferLiquidHours: bool)
    ensures var d' := if preferLiquidHours then d.(tradingHours := other) else d.(liquidHours := other);
            LookupSchedule(key, cache, contract, [d] + rest, clock, defaultTz, preferLiquidHours) ==
            LookupSchedule(key, cache, contract, [d'], clock, defaultTz, preferLiquidHours)
  {
  }

  /** A missing hours field reads as the empty text, which has no sessions. */
  lemma MissingHoursReadAsEmpty(key: Option<CacheKey>, cache: Option<SessionSchedule>,
                                contract: Contract, d: ContractDetails,
                                clock: Clock, defaultTz: string, preferLiquidHours: bool)
    requires if preferLiquidHours then d.liquidHours.None? else d.tradingHours.None?
    ensures var e := if preferLiquidHours then d.(liquidHours := Some("")) else d.(tradingHours := Some(""));
            var l := LookupSchedule(key, cache, contract, [d], clock, defaultTz, preferLiquidHours);
            && l == LookupSchedule(key, cache, contract, [e], clock, defaultTz, preferLiquidHours)
            && (l.result.Success? ==> l.result.value.intervals == [] || Some(l.result.value) == cache)
  {
    TrailingSeparatorIgnored("", Today(clock, ZoneOf(d, defaultTz)));
  }

  /**
   * The default zone is used only when the details name no zone or an
   * empty one, and then a missing and an empty zone name behave alike; a
   * freshly parsed schedule carries the zone it was read in.
   */
  lemma LookupZone(key: Option<CacheKey>, cache: Option<SessionSchedule>,
                   contract: Contract, d: ContractDetails,
                   clock: Clock, defaultTz: string, otherTz: string, preferLiquidHours: bool)
    ensures d.timeZoneId.Some? && d.timeZoneId.value != "" ==>
              LookupSchedule(key, cache, contract, [d], clock, defaultTz, preferLiquidHours) ==
              LookupSchedule(key, cache, contract, [d], clock, otherTz, preferLiquidHours)
    ensures LookupSchedule(key, cache, contract, [d.(timeZoneId := None)], clock, defaultTz, preferLiquidHours) ==
            LookupSchedule(key, cache, contract, [d.(timeZoneId := Some(""))], clock, defaultTz, preferLiquidHours)
    ensures var l := LookupSchedule(key, cache, contract, [d], clock, defaultTz, preferLiquidHours);
            l.key != key && l.result.Success? ==>
              l.result.value.tz == (if d.timeZoneId.Some? && d.timeZoneId.value != "" then d.timeZoneId.value else defaultTz)
  {
    if d.timeZoneId.Some? && d.timeZoneId.value != "" {
      LookupByZone(key, cache, contract, d, d, clock, defaultTz, otherTz, preferLiquidHours);
    }
    var missing, empty := d.(timeZoneId := None), d.(timeZoneId := Some(""));
    LookupByZone(key, cache, contract, missing, empty, clock, defaultTz, defaultTz, preferLiquidHours);
  }

  /** Two details records with the same hours and the same resolved zone look up alike. */
  lemma LookupByZone(key: Option<CacheKey>, cache: Option<SessionSchedule>,
                     contract: Contract, d1: ContractDetails, d2: ContractDetails,
                     clock: Clock, tz1: string, tz2: string, preferLiquidHours: bool)
    requires ZoneOf(d1, tz1) == ZoneOf(d2, tz2)
    requires HoursText(d1, preferLiquidHours) == HoursText(d2, preferLiquidHours)
    ensures LookupSchedule(key, cache, contract, [d1], clock, tz1, preferLiquidHours) ==
            LookupSchedule(key, cache, contract, [d2], clock, tz2, preferLiquidHours)
  {
  }

  /**
   * On a hit, with a schedule in the slot under today's key, that schedule
   * is returned as it is and the slot is left alone: the hours text of the
   * new details is not read, so a schedule parsed earlier in the day stays
   * in use even if the broker now reports other hours.
   */
  lemma LookupHit(key: Option<CacheKey>, cache: Option<SessionSchedule>,
                  contract: Contract, details: seq<ContractDetails>,
                  clock: Clock, defaultTz: string, preferLiquidHours: bool)
    requires |details| > 0 && cache.Some?
    requires key == Some(CacheKey(contract.conId, Today(clock, ZoneOf(details[0], defaultTz)), preferLiquidHours))
    ensures LookupSchedule(key, cache, contract, details, clock, defaultTz, preferLiquidHours) ==
            Lookup(Success(cache.value), key, cache)
  {
  }

  /**
   * A second lookup with the same contract, details and day hits the slot
   * the first one filled: the same schedule comes back and nothing is
   * parsed or overwritten.
   */
  lemma LookupTwiceHits(key: Option<CacheKey>, cache: Option<SessionSchedule>,
                        contract: Contract, details: seq<ContractDetails>,
                        clock: Clock, defaultTz: string, preferLiquidHours: bool)
    requires LookupSchedule(key, cache, contract, details, clock, defaultTz, preferLiquidHours).result.Success?
    ensures var l := LookupSchedule(key, cache, contract, details, clock, defaultTz, preferLiquidHours);
            LookupSchedule(l.key, l.cache, contract, details, clock, defaultTz, preferLiquidHours) == l
  {
  }

  // ---------------------------------------------------------------------
  // ensure_md_type_for_now: switch only on change

  /** The `reqMarketDataType` call a switch issues: none when `desired` is the recorded type. */
  function Switch(current: Option<int>, desired: int): (issued: seq<int>)
    ensures issued == [] <==> current == Some(desired)
    ensures issued != [] ==> issued == [desired]
  {
    if current == Some(desired) then [] else [desired]
  }

  /** `_current_md_type` after the calls that wanted `desireds`, starting from `current`. */
  function After(current: Option<int>, desireds: seq<int>): (r: Option<int>)
    ensures |desireds| > 0 ==> r == Some(desireds[|desireds| - 1])
  {
    if |desireds| == 0 then current else Some(desireds[|desireds| - 1])
  }

  /** Every `reqMarketDataType` call issued by a run of calls that wanted `desireds`. */
  function Requests(current: Option<int>, desireds: seq<int>): seq<int>
    decreases |desireds|
  {
    if |desireds| == 0 then []
    else
      var before := desireds[..|desireds| - 1];
      Requests(current, before) + Switch(After(current, before), desireds[|desireds| - 1])
  }

  /** How often the wanted type changes along `desireds`; the first call counts as a change from none. */
  function Changes(desireds: seq<int>): nat
    decreases |desireds|
  {
    if |desireds| == 0 then 0
    else
      var n := |desireds|;
      Changes(desireds[..n - 1]) + (if n == 1 || desireds[n - 2] != desireds[n - 1] then 1 else 0)
  }

  /**
   * Starting from no recorded type, the first call always issues a request
   * and later calls issue one exactly when the wanted type changes.
   */
  lemma {:induction false} RequestsCountChanges(desireds: seq<int>)
    ensures |Requests(None, desireds)| == Changes(desireds)
    ensures |desireds| > 0 ==> |Requests(None, desireds)| > 0 && Requests(None, desireds)[0] == desireds[0]
    decreases |desireds|
  {
    if |desireds| > 0 {
      var before := desireds[..|desireds| - 1];
      RequestsCountChanges(before);
      if |before| > 0 {
        assert before[|before| - 1] == desireds[|desireds| - 2];
        assert before[0] == desireds[0];
      }
    }
  }

  /** No request repeats the one just before it. */
  ghost predicate NoRepeats(r: seq<int>) {
    forall i, j :: 0 <= i < j < |r| && j == i + 1 ==> r[i] != r[j]
  }

  /**
   * The requests never repeat the type just requested, the first differs
   * from the type recorded before, the last is the type recorded now, and
   * with no request at all the recorded type is unchanged.
   */
  lemma {:induction false} RequestsNeverRepeat(current: Option<int>, desireds: seq<int>)
    ensures var r := Requests(current, desireds);
            && NoRepeats(r)
            && (|r| > 0 && current.Some? ==> r[0] != current.value)
            && (|r| > 0 ==> After(current, desireds) == Some(r[|r| - 1]))
            && (|r| == 0 ==> After(current, desireds) == current)
    decreases |desireds|
  {
    if |desireds| > 0 {
      var before := desireds[..|desireds| - 1];
      var d := desireds[|desireds| - 1];
      RequestsNeverRepeat(current, before);
      var r0, a := Requests(current, before), After(current, before);
      assert Requests(current, desireds) == r0 + Switch(a, d);
      assert After(current, desireds) == Some(d);
      if a != Some(d) {
        var r := r0 + [d];
        assert |r0| > 0 ==> r0[|r0| - 1] != d;
        forall i, j | 0 <= i < j < |r| && j == i + 1
          ensures r[i] != r[j]
        {
          if j < |r0| {
            assert r[i] == r0[i] && r[j] == r0[j];
          }
        }
      } else {
        assert Requests(current, desireds) == r0;
      }
    }
  }

  /** Further calls that want the type already recorded issue nothing. */
  lemma {:induction false} SteadyStateIssuesNothing(current: Option<int>, desireds: seq<int>, more: seq<int>)
    requires After(current, desireds).Some?
    requires forall i :: 0 <= i < |more| ==> more[i] == After(current, desireds).value
    ensures Requests(current, desireds + more) == Requests(current, desireds)
    decreases |more|
  {
    if |more| > 0 {
      var all := desireds + more;
      assert all[..|all| - 1] == desireds + more[..|more| - 1];
      SteadyStateIssuesNothing(current, desireds, more[..|more| - 1]);
      assert After(current, desireds + more[..|more| - 1]) == After(current, desireds);
    } else {
      assert desireds + more == desireds;
    }
  }

  /** A run's requests extend by what the next call issues. */
  lemma RequestsAppend(current: Option<int>, desireds: seq<int>, desired: int)
    ensures Requests(current, desireds + [desired]) ==
            Requests(current, desireds) + Switch(After(current, desireds), desired)
  {
    assert (desireds + [desired])[..|desireds|] == desireds;
  }

  // ---------------------------------------------------------------------
  // The manager

  class MarketDataTypeManager {
    /** `self.tz` of the strategy context, by zone name. */
    const defaultTz: string
    const preferLiquidHours: bool
    var cacheKey: Option<CacheKey>
    var cache: Option<SessionSchedule>
    var currentMdType: Option<int>
    /** The `reqMarketDataType` calls issued so far, in order. */
    var mdTypeRequests: seq<int>
    /** The type each completed `ensure_md_type_for_now` wanted, in order. */
    ghost var desiredHistory: seq<int>

    ghost predicate Valid()
      reads this
    {
      && CacheConsistent(cacheKey, cache)
      && (cacheKey.Some? ==> cacheKey.value.preferLiquidHours == preferLiquidHours)
      && mdTypeRequests == Requests(None, desiredHistory)
      && currentMdType == After(None, desiredHistory)
    }

    constructor(defaultTz: string, preferLiquidHours: bool := true)
      ensures Valid()
      ensures this.defaultTz == defaultTz && this.preferLiquidHours == preferLiquidHours
      ensures cacheKey == None && cache == None && currentMdType == None
      ensures mdTypeRequests == [] && desiredHistory == []
    {
      this.defaultTz := defaultTz;
      this.preferLiquidHours := preferLiquidHours;
      cacheKey := None;
      cache := None;
      currentMdType := None;
      mdTypeRequests := [];
      desiredHistory := [];
    }

    /** `_get_schedule(contract)`, with `details` what `reqContractDetailsAsync` returned. */
    method GetSchedule(contract: Contract, details: seq<ContractDetails>, clock: Clock)
      returns (r: Result<SessionSchedule, ScheduleError>)
      requires Valid()
      modifies this
      ensures Valid()
      ensures var l := LookupSchedule(old(cacheKey), old(cache), contract, details, clock, defaultTz, preferLiquidHours);
              r == l.result && cacheKey == l.key && cache == l.cache
      ensures currentMdType == old(currentMdType) && mdTypeRequests == old(mdTypeRequests)
      ensures desiredHistory == old(desiredHistory)
    {
      LookupKeepsCacheConsistent(cacheKey, cache, contract, details, clock, defaultTz, preferLiquidHours);
      if |details| == 0 {
        return Failure(NoContractDetails);
      }
      var d := details[0];
      var tz := ZoneOf(d, defaultTz);
      var today := Today(clock, tz);
      var wanted := CacheKey(contract.conId, today, preferLiquidHours);
      if cacheKey == Some(wanted) && cache.Some? {
        return Success(cache.value);
      }
      var hoursText := HoursText(d, preferLiquidHours);
      var parsed := ParseHours(hoursText, today);
      if parsed.Failure? {
        return Failure(BadHours(parsed.error));
      }
      var schedule := SessionSchedule(tz, parsed.value);
      cacheKey := Some(wanted);
      cache := Some(schedule);
      return Success(schedule);
    }

    /**
     * `ensure_md_type_for_now(contract, open_type=..., closed_type=...)`:
     * `lookupClock` is read for today's date and `checkClock` by `is_open`.
     */
    method EnsureMdTypeForNow(contract: Contract, details: seq<ContractDetails>,
                              lookupClock: Clock, checkClock: Clock,
                              openType: int := MarketDataType.Live.Code(),
                              closedType: int := MarketDataType.Frozen.Code())
      returns (r: Result<int, ScheduleError>)
      requires Valid()
      modifies this
      ensures Valid()
      ensures var l := LookupSchedule(old(cacheKey), old(cache), contract, details, lookupClock, defaultTz, preferLiquidHours);
              && cacheKey == l.key && cache == l.cache
              && (l.result.Failure? ==>
                    && r == Failure(l.result.error)
                    && currentMdType == old(currentMdType) && mdTypeRequests == old(mdTypeRequests))
              && (l.result.Success? ==>
                    var schedule := l.result.value;
                    var desired := if IsOpen(schedule, checkClock(schedule.tz)) then openType else closedType;
                    && r == Success(desired)
                    && currentMdType == Some(desired)
                    && mdTypeRequests == old(mdTypeRequests) + Switch(old(currentMdType), desired))
      ensures r.Success? ==> r.value == openType || r.value == closedType
    {
      var found := GetSchedule(contract, details, lookupClock);
      if found.Failure? {
        return Failure(found.error);
      }
      var schedule := found.value;
      var desired := if IsOpen(schedule, checkClock(schedule.tz)) then openType else closedType;
      SwitchTo(desired);
      return Success(desired);
    }

    /** The switch-on-change step: request `desired` unless it is the type recorded. */
    method SwitchTo(desired: int)
      requires Valid()
      modifies this
      ensures Valid()
      ensures currentMdType == Some(desired)
      ensures mdTypeRequests == old(mdTypeRequests) + Switch(old(currentMdType), desired)
      ensures desiredHistory == old(desiredHistory) + [desired]
      ensures cacheKey == old(cacheKey) && cache == old(cache)
    {
      RequestsAppend(None, desiredHistory, desired);
      if Some(desired) != currentMdType {
        mdTypeRequests := mdTypeRequests + [desired];
        currentMdType := Some(desired);
      }
      desiredHistory := desiredHistory + [desired];
    }

    /**
     * Switch only on change: no request repeats the one before it, a type
     * is recorded exactly when a request was issued, and the recorded type
     * is the last one requested.
     */
    lemma IssuedOnlyOnChange()
      requires Valid()
      ensures NoRepeats(mdTypeRequests)
      ensures currentMdType.Some? <==> |mdTypeRequests| > 0
      ensures currentMdType.Some? ==> currentMdType.value == mdTypeRequests[|mdTypeRequests| - 1]
    {
      RequestsNeverRepeat(None, desiredHistory);
    }
  }
}
