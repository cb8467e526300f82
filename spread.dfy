/**
 * `Spread`: a vertical option spread. `OffsetStrike` places the long leg
 * one spread width from the short leg, on the side the right and the
 * spread type call for; `Build` is the order of broker requests that picks
 * the two legs.
 *
 * Strike-candidate generation, contract lookup and delta selection are not
 * part of this model: they are the functions of a `Venue`, about which
 * nothing is assumed.
 */
module Spread {
  import opened Results
  import opened OptionsCore

  datatype SpreadType = Credit | Debit

  function Flip(t: SpreadType): SpreadType {
    match t
    case Credit => Debit
    case Debit => Credit
  }

  /** The fields of `VerticalSpec` that `Spread` reads. */
  datatype VerticalSpec = VerticalSpec(width: real, inc: real, shortDte: int, longDte: int)

  function Abs(x: real): real {
    if x < 0.0 then -x else x
  }

  /**
   * `_offset_strike(short_strike)`. The legs are always exactly one width
   * apart. For a positive width the long leg lies below the short one for
   * a put credit or a call debit spread, and above it for a put debit or a
   * call credit spread.
   */
  function OffsetStrike(right: Right, kind: SpreadType, width: real, shortStrike: real): (longStrike: real)
    ensures Abs(longStrike - shortStrike) == Abs(width)
    ensures width > 0.0 ==>
              (longStrike < shortStrike <==> (right == Put && kind == Credit) || (right == Call && kind == Debit))
  {
    match (right, kind)
    case (Put, Credit) => shortStrike - width
    case (Put, Debit) => shortStrike + width
    case (Call, Credit) => shortStrike + width
    case (Call, Debit) => shortStrike - width
  }

  /** A put credit spread offsets as a call debit spread does, and a put debit as a call credit. */
  lemma OffsetPutMirrorsCall(kind: SpreadType, width: real, shortStrike: real)
    ensures OffsetStrike(Put, kind, width, shortStrike) == OffsetStrike(Call, Flip(kind), width, shortStrike)
  {
  }

  /** Offsetting back from the long leg with the other spread type returns the short strike. */
  lemma OffsetBack(right: Right, kind: SpreadType, width: real, shortStrike: real)
    ensures OffsetStrike(right, Flip(kind), width, OffsetStrike(right, kind, width, shortStrike)) == shortStrike
  {
  }

  /** An option contract as far as `build` looks at it. */
  datatype OptionContract = OptionContract(localSymbol: string, strike: real)

  /** One `_get_contracts(dte=..., right=..., strikes=...)` call. */
  datatype ContractRequest = ContractRequest(dte: int, right: Right, strikes: seq<real>)

  /**
   * What the broker and the helpers outside this model answer:
   * `tickers` is what `reqTickersAsync(underlying)` returns, each ticker by
   * its `marketPrice()`.
   */
  datatype Venue = Venue(tickers: seq<Option<real>>,
                         strikeCandidates: (real, Right, real) -> seq<real>,
                         contracts: ContractRequest -> seq<OptionContract>,
                         selectByDelta: seq<OptionContract> -> Option<OptionContract>)

  /** Python exceptions that end `build` early. */
  datatype BuildError =
    | NoTicker          // `spot_ticker[0]` on an empty list
    | NoShortLeg        // `short.strike` when the delta selection found nothing
    | NoLongContract    // `long_contracts[0]` on an empty list

  /**
   * The return value of `build`, `Success(None)` for `(None, None)` and
   * `Success(Some((short, long)))` for a pair, and every contract request
   * it made, in order.
   */
  datatype BuildRun = BuildRun(result: Result<Option<(OptionContract, OptionContract)>, BuildError>,
                               requests: seq<ContractRequest>)

  /**
   * `Spread.build()`. It fails only as the Python code raises; it returns
   * `(None, None)` exactly when the first ticker has no price, and then
   * requests nothing; a returned pair is a short leg the delta selection
   * picked and a long contract the venue returned for the second request.
   */
  function Build(right: Right, kind: SpreadType, spec: VerticalSpec, venue: Venue): (run: BuildRun)
    ensures run.result == Failure(NoTicker) <==> |venue.tickers| == 0
    ensures run.result == Success(None) <==> |venue.tickers| > 0 && venue.tickers[0].None?
    ensures run.result == Success(None) ==> run.requests == []
    ensures |run.requests| <= 2
    ensures run.result.Success? && run.result.value.Some? ==>
              && |run.requests| == 2
              && venue.selectByDelta(venue.contracts(run.requests[0])) == Some(run.result.value.value.0)
              && run.result.value.value.1 in venue.contracts(run.requests[1])
  {
    if |venue.tickers| == 0 then BuildRun(Failure(NoTicker), [])
    else
      match venue.tickers[0]
      case None => BuildRun(Success(None), [])
      case Some(spot) =>
        var strikes := venue.strikeCandidates(spot, right, spec.inc);
        var shortRequest := ContractRequest(spec.shortDte, right, strikes);
        match venue.selectByDelta(venue.contracts(shortRequest))
        case None => BuildRun(Failure(NoShortLeg), [shortRequest])
        case Some(short) =>
          var longRequest := ContractRequest(spec.longDte, right, [OffsetStrike(right, kind, spec.width, short.strike)]);
          var longContracts := venue.contracts(longRequest);
          if |longContracts| == 0 then BuildRun(Failure(NoLongContract), [shortRequest, longRequest])
          else BuildRun(Success(Some((short, longContracts[0]))), [shortRequest, longRequest])
  }

  /** Without a spot price `build` returns `(None, None)` before asking for any contract. */
  lemma NoSpotNoRequests(right: Right, kind: SpreadType, spec: VerticalSpec, venue: Venue)
    requires |venue.tickers| > 0 && venue.tickers[0].None?
    ensures Build(right, kind, spec, venue) == BuildRun(Success(None), [])
  {
  }

  /**
   * With a spot price, the first request asks for the short-leg candidates
   * at the short expiry, and the second, made only once a short leg was
   * selected, asks for the single offset strike at the long expiry; both
   * are for the spread's right. A returned pair is the selected short leg
   * and the first long contract.
   */
  lemma RequestOrder(right: Right, kind: SpreadType, spec: VerticalSpec, venue: Venue)
    requires |venue.tickers| > 0 && venue.tickers[0].Some?
    ensures var run := Build(right, kind, spec, venue);
            var spot := venue.tickers[0].value;
            var shortRequest := ContractRequest(spec.shortDte, right, venue.strikeCandidates(spot, right, spec.inc));
            var selected := venue.selectByDelta(venue.contracts(shortRequest));
            && 1 <= |run.requests| <= 2
            && run.requests[0] == shortRequest
            && (|run.requests| == 2 <==> selected.Some?)
            && (selected.Some? ==>
                  run.requests[1] == ContractRequest(spec.longDte, right,
                                                     [OffsetStrike(right, kind, spec.width, selected.value.strike)]))
            && (run.result.Success? ==>
                  && run.result.value.Some?
                  && run.result.value.value.0 == selected.value
                  && run.result.value.value.1 == venue.contracts(run.requests[1])[0])
  {
  }

  /** A venue that only ever returns contracts at the strikes asked for. */
  ghost predicate HonoursStrikes(venue: Venue) {
    forall req: ContractRequest, k: int :: 0 <= k < |venue.contracts(req)| ==> venue.contracts(req)[k].strike in req.strikes
  }

  /** At a venue that honours the strikes asked for, the built legs are exactly one width apart. */
  lemma BuiltLegsOneWidthApart(right: Right, kind: SpreadType, spec: VerticalSpec, venue: Venue)
    requires HonoursStrikes(venue)
    requires Build(right, kind, spec, venue).result.Success?
    requires Build(right, kind, spec, venue).result.value.Some?
    ensures var (short, long) := Build(right, kind, spec, venue).result.value.value;
            Abs(long.strike - short.strike) == Abs(spec.width)
  {
    var run := Build(right, kind, spec, venue);
    var (short, long) := run.result.value.value;
    RequestOrder(right, kind, spec, venue);
    assert long.strike in run.requests[1].strikes;
  }
}
