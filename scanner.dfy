/** The threshold scan (tp_sl_app.py lines 54-66): the first candle whose high
    reaches the take-profit level or whose low reaches the stop-loss level.
    The scan starts at index 0, over every candle of the payload, including
    those before the entry candle. */
module Scanner {
  import opened Wrappers
  import opened Candles

  datatype Outcome = NotHitYet | HitTakeProfit | HitStopLoss

  /** The candle reaches either level. */
  predicate Crosses(c: Candle, tp: real, sl: real)
  {
    c.high >= tp || c.low <= sl
  }

  /** The index of the first crossing candle, if there is one. */
  function FirstCrossing(klines: seq<Candle>, tp: real, sl: real): (r: Option<nat>)
    ensures r.None? <==> forall j :: 0 <= j < |klines| ==> !Crosses(klines[j], tp, sl)
    ensures r.Some? ==> r.value < |klines| && Crosses(klines[r.value], tp, sl)
    ensures r.Some? ==> forall j :: 0 <= j < r.value ==> !Crosses(klines[j], tp, sl)
  {
    if klines == [] then None
    else if Crosses(klines[0], tp, sl) then Some(0)
    else
      match FirstCrossing(klines[1..], tp, sl)
      case None => None
      case Some(i) => Some(i + 1)
  }

  datatype ScanResult = ScanResult(outcome: Outcome, hitIdx: Option<nat>)

  /** What the scan reports: the first crossing candle, take-profit if its
      high reaches the target even when its low also reaches the stop. */
  function Scan(klines: seq<Candle>, tp: real, sl: real): (r: ScanResult)
    ensures r.hitIdx == FirstCrossing(klines, tp, sl)
    ensures r.outcome == NotHitYet <==> r.hitIdx.None?
    ensures r.outcome == HitTakeProfit <==> r.hitIdx.Some? && klines[r.hitIdx.value].high >= tp
    ensures r.outcome == HitStopLoss <==>
              r.hitIdx.Some? && klines[r.hitIdx.value].high < tp && klines[r.hitIdx.value].low <= sl
  {
    match FirstCrossing(klines, tp, sl)
    case None => ScanResult(NotHitYet, None)
    case Some(i) =>
      if klines[i].high >= tp then ScanResult(HitTakeProfit, Some(i))
      else ScanResult(HitStopLoss, Some(i))
  }

  /** The loop of lines 56-66: take-profit is tested before stop-loss in
      each candle, and the first hit ends the scan. */
  method ScanThresholds(klines: seq<Candle>, tp: real, sl: real) returns (outcome: Outcome, hitIdx: Option<nat>)
    ensures ScanResult(outcome, hitIdx) == Scan(klines, tp, sl)
  {
    hitIdx := None;
    outcome := NotHitYet;
    for idx := 0 to |klines|
      invariant outcome == NotHitYet && hitIdx == None
      invariant forall j :: 0 <= j < idx ==> !Crosses(klines[j], tp, sl)
    {
      var high := klines[idx].high;
      var low := klines[idx].low;
      if high >= tp {
        outcome := HitTakeProfit;
        hitIdx := Some(idx);
        break;
      }
      if low <= sl {
        outcome := HitStopLoss;
        hitIdx := Some(idx);
        break;
      }
    }
  }

  /** Candles appended after a crossing never change the scan's report. */
  lemma {:induction false} ScanIgnoresLaterCandles(klines: seq<Candle>, more: seq<Candle>, tp: real, sl: real)
    requires FirstCrossing(klines, tp, sl).Some?
    ensures Scan(klines + more, tp, sl) == Scan(klines, tp, sl)
  {
    var i := FirstCrossing(klines, tp, sl).value;
    assert (klines + more)[i] == klines[i];
    forall j | 0 <= j < i ensures !Crosses((klines + more)[j], tp, sl) {
      assert (klines + more)[j] == klines[j];
    }
  }
}
