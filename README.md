# spox core, modelled in Dafny

spox is a small trading library built on Interactive Brokers (IB). This
project models the parts of it that decide things from data:

- **Trading hours.** `MarketDataTypeManager._parse_hours` reads IB's
  `tradingHours` / `liquidHours` text, for example
  `20250102:0930-1600;20250103:CLOSED`, and returns the sessions of one day
  as `(start, end)` datetimes. The model states its Python exceptions as
  `Failure` values.
- **Whether the market is open.** `SessionSchedule.is_open` answers this
  for a given now.
- **The market data type.** `MarketDataTypeManager` looks up today's
  schedule through a one-slot cache. It then asks IB to switch the market
  data type (live or frozen) only when the wanted type differs from the
  last one requested.
- **History length.** `BAR_SECONDS` and `HistorySpec.duration_str` turn a
  bar count into IB's duration text (`"3 M"`, `"3300 S"`).
- **Spread legs.** `Right`, `Spread._offset_strike`, and the order of
  contract requests in `Spread.build`, which picks the two legs of a
  vertical spread.
- **Time of day.** `total_seconds` on a `datetime.time`.

## Modules

One module per file, no module nested in another:

| file | module | what |
|---|---|---|
| `results.dfy` | `Results` | `Option` and `Result` |
| `text.dfy` | `Text` | Python's `str.split(sep)`, `str.split(sep, 1)`, slicing, `int()` of digits, zero-padded and plain decimal formatting |
| `calendar.dfy` | `Calendar` | `datetime` fields, their validity, comparison in one zone, `strftime("%Y%m%d")` |
| `hours.dfy` | `HoursParser` | `_parse_hours`: a specification function (`ParsedHours`) and the imperative loops (`ParseHours`, `AppendSessions`) proved equal to it |
| `hours_properties.dfy` | `HoursProperties` | see the list below |
| `market_data.dfy` | `MarketData` | `MarketDataType`, `SessionSchedule.is_open`, `_get_schedule` as a pure step `LookupSchedule`, switch-on-change as `Requests`, and the `MarketDataTypeManager` class whose methods are proved against these |
| `filter.dfy` | `HistoryFilter` | `BarSize`, `BAR_SECONDS`, `HistorySpec.duration_str` |
| `options_core.dfy` | `OptionsCore` | `Right` |
| `spread.dfy` | `Spread` | `SpreadType`, `_offset_strike`, `build` |
| `helper.dfy` | `Helper` | `total_seconds` |

`hours_properties.dfy` holds what is proved about the hours parser:

- a round trip from structured day entries, rendered as IB text and parsed back;
- that every interval lies on the requested day;
- rules that hold on any text;
- the four parser tests, proved as lemmas.

## Model

| member | source | states |
|---|---|---|
| `MarketData.MarketDataType.Code` | src/spox/core/market_data.py:10-14 | the four market data types are numbered 1 to 4 |
| `MarketData.IsOpen` | src/spox/core/market_data.py:22-24 | open iff some interval has `start <= now <= end` |
| `MarketData.OpenAtSessionEnds` | src/spox/core/market_data.py:24 | both ends of a session count as open |
| `MarketData.ClosedBetweenSessions` | src/spox/core/market_data.py:22-24 | for sessions in order, a time strictly between two sessions is closed |
| `MarketData.ExampleOpen` | tests/test_market_data.py:51-69 | 11:00 is open for sessions 10:00-12:00 and 14:00-16:00 |
| `MarketData.ExampleClosed` | tests/test_market_data.py:72-90 | 13:00 is closed for the same sessions |
| `MarketData.LookupZone` | src/spox/core/market_data.py:65 | the default zone matters only when the details name no zone or an empty one, and a missing and an empty zone name act alike; a freshly parsed schedule carries the details' zone, else the default |
| `MarketData.LookupReadsPreferredHoursOnly` | src/spox/core/market_data.py:64-72 | only the first details record is read, and of it only the preferred hours field (liquid or trading); the other field and later records may be anything |
| `MarketData.MissingHoursReadAsEmpty` | src/spox/core/market_data.py:72-73 | a missing preferred hours field acts as the empty text, so a freshly parsed schedule has no sessions |
| `MarketData.Today` | src/spox/core/market_data.py:66 | today's date in the zone is eight digits |
| `MarketData.LookupSchedule` | src/spox/core/market_data.py:54-78 | fails with "no contract details" exactly when none were returned; any failure leaves the cache slot as it was; a returned schedule is the one in the slot, under a key with the contract's id and the hours preference |
| `MarketData.LookupKeepsCacheConsistent` | src/spox/core/market_data.py:54-78 | after a lookup the key and the schedule are set together, and a cached schedule holds only intervals on its key's day; a failed lookup leaves the cache slot unchanged; a returned schedule lies on today in the exchange zone |
| `MarketData.LookupMissParses` | src/spox/core/market_data.py:72-78 | on a miss: a parse error is raised, or the parsed schedule is returned and stored under the new key |
| `MarketData.LookupHit` | src/spox/core/market_data.py:67-70 | with a schedule in the slot under today's key, that schedule is returned and the slot kept, whatever hours the new details carry |
| `MarketData.LookupTwiceHits` | src/spox/core/market_data.py:67-70 | a second lookup with the same contract, details and day hits the cache and changes nothing |
| `MarketData.RequestsCountChanges` | src/spox/core/market_data.py:44-47 | starting from no recorded type, the requests number the changes of the wanted type, and the first request is the first wanted type |
| `MarketData.RequestsNeverRepeat` | src/spox/core/market_data.py:45-47 | no request repeats the previous one; the first differs from the type recorded before; the last is the recorded type |
| `MarketData.SteadyStateIssuesNothing` | src/spox/core/market_data.py:49-50 | further calls that want the recorded type issue no request |
| `MarketData.RequestsAppend` | src/spox/core/market_data.py:44-47 | a run's requests grow by exactly what the next call issues |
| `MarketData.MarketDataTypeManager.constructor` | src/spox/core/market_data.py:33-38 | an empty cache, no recorded type, no requests |
| `MarketData.MarketDataTypeManager.GetSchedule` | src/spox/core/market_data.py:54-78 | result and new cache slot are those of `LookupSchedule` on the old slot; the market data type state is untouched |
| `MarketData.MarketDataTypeManager.EnsureMdTypeForNow` | src/spox/core/market_data.py:40-52 | returns the open type if the looked-up schedule is open, the closed type otherwise; records it and issues a request only on a change; a lookup error changes neither type nor requests |
| `MarketData.MarketDataTypeManager.SwitchTo` | src/spox/core/market_data.py:44-47 | records the wanted type and appends its request only when it differs from the recorded one |
| `MarketData.MarketDataTypeManager.IssuedOnlyOnChange` | src/spox/core/market_data.py:44-50 | in every reachable state no request repeats the previous one; a type is recorded iff a request was issued; the recorded type is the last request |
| `HoursParser.MakeDateTime` | src/spox/core/market_data.py:102-111 | a built datetime has valid fields and zero seconds |
| `HoursParser.ParseHours` | src/spox/core/market_data.py:81-114 | the loop's result equals `ParsedHours`, the segment-by-segment specification |
| `HoursParser.AppendSessions` | src/spox/core/market_data.py:98-112 | the inner loop appends every session's interval in order, or fails with the first session's error |
| `HoursParser.ScanSegmentsAppend` | src/spox/core/market_data.py:89-97 | the outer loop over `a + b` continues from where `a` left it; a return or raise is final |
| `HoursParser.SessionIntervalsAppendFailure` | src/spox/core/market_data.py:99-100 | a failing session hides every later one |
| `HoursParser.ScanStep` | src/spox/core/market_data.py:89-97 | one pass of the outer loop; a return or raise in it is the whole result |
| `HoursParser.SessionStep` | src/spox/core/market_data.py:99-112 | one pass of the inner loop extends the intervals or is the inner loop's result |
| `HoursProperties.ParseRenderedHours` | src/spox/core/market_data.py:81-114 | parsing the IB text of well-formed day entries gives `[]` if the day is CLOSED in any entry; otherwise it gives every session of the day's entries, in textual order |
| `HoursProperties.RenderedEntriesScan` | src/spox/core/market_data.py:89-97 | the outer loop over rendered entries stops on a CLOSED day, otherwise it collects the day's sessions |
| `HoursProperties.RenderedEntryScans` | src/spox/core/market_data.py:89-112 | one rendered entry is skipped for another day, stops on CLOSED, and otherwise adds its sessions |
| `HoursProperties.RenderedSessionsParse` | src/spox/core/market_data.py:99-112 | rendered sessions parse back to their intervals, in order |
| `HoursProperties.RenderedSessionParses` | src/spox/core/market_data.py:100-112 | one rendered `HHMM-HHMM` parses back to its interval |
| `HoursProperties.RenderedTimeParses` | src/spox/core/market_data.py:102-106 | a rendered date and time parse back to that datetime |
| `HoursProperties.ParsedHoursOnDay` | src/spox/core/market_data.py:93-111 | every interval returned for an eight-digit day starts and ends on that day |
| `HoursProperties.ScanSegmentsOnDay` | src/spox/core/market_data.py:89-112 | the outer loop only ever collects intervals on the requested day |
| `HoursProperties.SessionIntervalsOnDay` | src/spox/core/market_data.py:99-112 | the inner loop only builds intervals on its segment's date |
| `HoursProperties.MakeDateTimeOnDay` | src/spox/core/market_data.py:102-106 | a datetime built from an eight-digit date falls on that date |
| `HoursProperties.PassedSegmentIgnored` | src/spox/core/market_data.py:90-94 | an empty segment or one for another day can be removed without changing the result |
| `HoursProperties.OtherDaySegmentIgnored` | src/spox/core/market_data.py:93-94 | a segment for another day contributes nothing, wherever it stands |
| `HoursProperties.EmptySegmentIgnored` | src/spox/core/market_data.py:90-91 | `;;` is read as `;` |
| `HoursProperties.TrailingSeparatorIgnored` | src/spox/core/market_data.py:89-91 | a trailing `;` changes nothing, and the empty text has no intervals |
| `HoursProperties.MissingColonFails` | src/spox/core/market_data.py:89-92 | a non-empty segment without `:` raises at any position the loop reaches, even when it is for another day |
| `HoursProperties.MissingDashFails` | src/spox/core/market_data.py:93-100 | in a segment of the requested day, at any position the loop reaches, a session without `-` raises once the sessions before it have parsed |
| `HoursProperties.ClosedSegmentStops` | src/spox/core/market_data.py:95-96 | `CLOSED` for the requested day ends the loop |
| `HoursProperties.ClosedDiscardsEverything` | src/spox/core/market_data.py:95-96 | a `CLOSED` segment for the day discards intervals collected before it and ignores all later segments |
| `HoursProperties.ExampleSingleSessionSameDay` | tests/test_market_data.py:8-17 | exactly the one session of 2025-01-03, 09:30 to 16:00 |
| `HoursProperties.ExampleMultipleSessions` | tests/test_market_data.py:20-34 | the two sessions 09:30-12:00 and 13:00-16:00, in order |
| `HoursProperties.ExampleClosedDay` | tests/test_market_data.py:37-41 | a CLOSED day gives no intervals |
| `HoursProperties.ExampleOtherDay` | tests/test_market_data.py:44-48 | another day's hours give no intervals |
| `Text.Split` | src/spox/core/market_data.py:89 | `str.split`: at least one part, none containing the separator, joined back to the text |
| `Text.SplitJoin` | src/spox/core/market_data.py:89 | splitting the join of separator-free parts gives those parts back |
| `Text.SplitConcat` | src/spox/core/market_data.py:89 | splitting `a + sep + b` is the split of `a` followed by the split of `b` |
| `Text.SplitOnce` | src/spox/core/market_data.py:92 | `str.split(sep, 1)`: no split iff no separator; otherwise the text is head, separator, tail with no separator in the head |
| `Text.SplitOnceAt` | src/spox/core/market_data.py:92 | the split happens at the first separator |
| `Text.ParseNat` | src/spox/core/market_data.py:103-104 | `int()` succeeds iff the text is non-empty and all digits |
| `Text.ParsePad` | src/spox/core/market_data.py:66 | a zero-padded number parses back to itself |
| `Text.PadParseNat` | src/spox/core/market_data.py:103 | a digit string is the zero-padding of its value |
| `Text.FormatIntRoundTrip` | src/spox/core/filter.py:75 | `str(n)` parses back to `n` |
| `Calendar.NotAfterTotalOrder` | src/spox/core/market_data.py:24 | comparing datetimes in one zone is a total order |
| `Calendar.FormatYmd` | src/spox/core/market_data.py:66 | `strftime("%Y%m%d")` is eight digits |
| `Calendar.FormatYmdFields` | src/spox/core/market_data.py:66 | the digit positions of the formatted date read back as year, month and day |
| `Calendar.FormatYmdInjective` | src/spox/core/market_data.py:66-67 | two valid dates format alike iff they are equal, so the cache key's day names one date |
| `HistoryFilter.BarSize.Seconds` | src/spox/core/filter.py:41-49 | every bar lasts 5 to 86400 seconds and divides a day |
| `HistoryFilter.BarSecondsAscending` | src/spox/core/filter.py:32-49 | bar sizes last longer in the order the enum lists them |
| `HistoryFilter.CeilDiv` | src/spox/core/filter.py:77 | `math.ceil(a / b)` is the least `q` with `a <= b * q` |
| `HistoryFilter.PaddedDays` | src/spox/core/filter.py:77-79 | the padded day count is at least 3, and covers the needed seconds with two days to spare |
| `HistoryFilter.Estimate` | src/spox/core/filter.py:68-90 | seconds exactly when the bars need at most an hour; otherwise 3 to 6 days, 1 to 9 weeks, 3 to 13 months, or at least 2 years |
| `HistoryFilter.DurationStr` | src/spox/core/filter.py:60-90 | the text reads back as the estimated count and unit |
| `HistoryFilter.ParseRender` | src/spox/core/filter.py:75-90 | a duration's text `"<n> <U>"` determines the duration |
| `HistoryFilter.ShortHistoryInSeconds` | src/spox/core/filter.py:73-75 | up to an hour is asked for in seconds, exactly as many as needed |
| `HistoryFilter.UnitByPaddedDays` | src/spox/core/filter.py:77-90 | beyond an hour the unit is days up to 6 padded days, weeks up to 60, months up to 365, years beyond |
| `HistoryFilter.EstimateCovers` | src/spox/core/filter.py:60-90 | the span asked for is never shorter than the bars need, and names at least one unit when a bar is needed |
| `HistoryFilter.DaySpanCovers` | src/spox/core/filter.py:81-90 | rounding the padded days up to whole weeks, months or years never asks for fewer days |
| `HistoryFilter.SpanMonotone` | src/spox/core/filter.py:60-90 | needing more time never asks for a shorter span |
| `HistoryFilter.DaySpanMonotone` | src/spox/core/filter.py:81-90 | the span in days grows with the padded day count, across the unit boundaries |
| `HistoryFilter.CeilDivMonotone` | src/spox/core/filter.py:84-89 | rounding up a quotient is monotone |
| `HistoryFilter.DefaultFilterHistory` | src/spox/core/filter.py:95 | the default history (one daily bar) is asked for as `"3 M"` |
| `HistoryFilter.MinuteBarsInSeconds` | src/spox/core/filter.py:68-75 | five one-minute bars with the default warm-up are `"3300 S"` |
| `HistoryFilter.FourHundredDailyBars` | src/spox/core/filter.py:77-90 | 400 daily bars without warm-up are `"2 Y"` |
| `OptionsCore.RightOfCode` | src/spox/options/core.py:8-10 | a right looked up by code has that code |
| `OptionsCore.CodeRoundTrip` | src/spox/options/core.py:8-10 | each right is found by its code, and only `"C"` and `"P"` name a right |
| `Spread.OffsetStrike` | src/spox/options/spread.py:58-67 | the legs are one width apart; for a positive width the long leg is lower exactly for a put credit or a call debit |
| `Spread.OffsetPutMirrorsCall` | src/spox/options/spread.py:64-67 | a put spread offsets as the call spread of the other type does |
| `Spread.OffsetBack` | src/spox/options/spread.py:64-67 | offsetting back with the other spread type returns the short strike |
| `Spread.Build` | src/spox/options/spread.py:69-97 | fails on an empty ticker list and only then; returns `(None, None)` exactly when the spot price is missing, with no contract requested; at most two requests; a returned pair is the delta-selected short leg and a contract the venue returned for the second request |
| `Spread.NoSpotNoRequests` | src/spox/options/spread.py:70-74 | without a spot price the result is `(None, None)`, with no contract requested |
| `Spread.RequestOrder` | src/spox/options/spread.py:76-97 | the short-leg request comes first; the long-leg request for the offset strike comes only after a short leg was selected; the pair is that short leg and the first long contract |
| `Spread.BuiltLegsOneWidthApart` | src/spox/options/spread.py:84-97 | when the venue answers only at the strikes asked for, the built legs are one width apart |
| `Helper.TotalSeconds` | src/spox/core/helper.py:3-4 | the result is the time's microseconds since midnight divided by one million |
| `Helper.WholeSecondsWithoutMicros` | src/spox/core/helper.py:4 | without microseconds the result is a whole number |
| `Helper.WithinOneDay` | src/spox/core/helper.py:3-4 | a valid time gives 0 up to, not including, 86400 |
| `Helper.OrderPreserved` | src/spox/core/helper.py:3-4 | for valid times, a larger result means exactly a later time |
| `Helper.FromMicros` | src/spox/core/helper.py:3-4 | every microsecond count below one day is a valid time with that count |
| `Helper.TotalSecondsInjective` | src/spox/core/helper.py:3-4 | valid times with the same result are equal |

## Behaviour of the code worth knowing

- **Spot price.** `build` tests the spot only for `None`
  (`src/spox/options/spread.py:72`), so a NaN spot goes on to strike
  selection. The model's spot is `None` or a real. It also models the
  code's other ways to end early:
  - an empty ticker list, where `spot_ticker[0]` raises;
  - no short leg selected, where `short.strike` raises;
  - no long contract, where `long_contracts[0]` raises.
- **Interval order.** `_parse_hours` keeps sessions in textual order and
  checks neither that they are sorted nor that they do not overlap
  (`src/spox/core/market_data.py:99-112`). `ClosedBetweenSessions`
  therefore takes the order as a hypothesis, and `ParseRenderedHours`
  states the textual order.
- **CLOSED with earlier sessions.** `return []` at
  `src/spox/core/market_data.py:95-96` discards sessions collected before
  it in the text (`ClosedDiscardsEverything`).
- **Cache key and zone.** The cache key
  (`src/spox/core/market_data.py:67`) has no time zone. A hit can
  therefore return a schedule in the zone of an earlier lookup, so
  `LookupZone` and `LookupKeepsCacheConsistent` make no claim about the
  zone on a hit.

## Left out

- Broker calls (`qualifyContractsAsync`, `reqContractDetailsAsync`,
  `reqTickersAsync`, `reqMarketDataType`) and logging are I/O. The model
  takes their answers as parameters (`details`, `Venue`). It records the
  issued market data type requests as the sequence `mdTypeRequests`.
- The source methods are `async`. Each call is modelled as one atomic
  step. Nothing is lost by this: in `_get_schedule`
  (`market_data.py:61-78`) and `ensure_md_type_for_now`
  (`market_data.py:42-52`) no `await` falls between the reads and writes
  of the manager's fields.
- Clocks are parameters: a `Clock` maps a zone name to the wall-clock time
  there. `ensure_md_type_for_now` reads the clock twice, once in
  `_get_schedule` for today's date and once in `is_open`. The model gives it
  two clocks (`lookupClock`, `checkClock`). The unused
  `now = datetime.now(self.tz)` (`market_data.py:42`) has no effect and is
  not modelled.
- Zones are names. `ZoneInfo` lookup, UTC offsets and daylight-saving folds
  are not modelled. `is_open` compares the clock reading in the schedule's
  own zone with intervals in that zone, and the model compares wall-clock
  fields.
- `Text.ParseNat` models Python's `int()` on plain ASCII digits only. The
  signs, whitespace, underscores and non-ASCII digits that `int()` also
  accepts count as errors. An IB hours text with those is not modelled.
- `Calendar.FormatYmd` always pads the year to four digits. `strftime("%Y")`
  depends on the platform's C library, and glibc does not pad years below
  1000, so for those years the model and the code may differ.
- Floating point is modelled with reals:
  - `Helper.TotalSeconds` is exact, where Python rounds `microsecond / 1_000_000`;
  - strikes and widths are reals;
  - `math.ceil(seconds / 86400)` on integers is exact `CeilDiv`; float
    rounding for counts beyond 2^53 is not modelled;
  - `int(days * 1.6)` is `(8 * days) / 5`, which agrees with the float
    product for the day counts that occur.
- `Spread` takes `_get_strike_candidates`, `_get_contracts` and
  `_select_strike_delta` as uninterpreted functions of a `Venue`. Their code is
  not part of this model. Nor are the `VerticalSpec` fields that `build`
  does not read, or the log line at `spread.py:95`.
- The filter evaluators (`filter.py:99-187`: `_req_historical_data`, moving
  averages through talib) are numeric library calls. They are not modelled.
- `strategy.py`, `orders.py`, `OptionFactory.make`, `component.py`,
  `context.py` and `__init__.py` are not part of this model. They hold:
  - the connection-retry loop (`strategy.py:91-103`);
  - the registration of scheduler jobs (`strategy.py:132-154`);
  - a single `placeOrder` call (`orders.py:23-31`);
  - context and component wiring.
- `MarketData.MarketDataType.Code`: the enum's `int` mixin is modelled only
  as the codes 1 to 4.
