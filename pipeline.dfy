/** The `Analyze` handler of tp_sl_app.py (lines 16-69) without its user
    interface: from the typed symbol, the entry time and the price API's answer
    to the reported outcome, or to the error at which the page stops. */
module Pipeline {
  import opened Wrappers
  import opened Symbols
  import opened Candles
  import opened EntryLocator
  import opened TpSl
  import opened Scanner

  /** Why a run stops before reporting (each `st.stop()` and the catch-all). */
  datatype Error =
    | FetchFailed(status: int)   // a status other than 200
    | NoData                     // an empty payload
    | MalformedPayload           // a row too short for the comprehension
    | EntryNotFound              // no candle covers the entry time

  /** The price API's answer: HTTP status and decoded JSON rows. */
  datatype Response = Response(status: int, payload: seq<Row>)

  /** What a successful run shows. */
  datatype Report = Report(entry: real, tp: real, sl: real, outcome: Outcome, hitIdx: Option<nat>, current: real)

  /** `klines[-1][4]`: the close of the last candle. */
  function CurrentPrice(klines: seq<Candle>): real
    requires |klines| > 0
  {
    klines[|klines| - 1].close
  }

  /** The run once the price API has answered: every step after the fetch. */
  function AnalyzeResponse(response: Response, target: int): (r: Result<Report, Error>)
    ensures response.status != 200 ==> r == Failure(FetchFailed(response.status))
    ensures response.status == 200 && response.payload == [] ==> r == Failure(NoData)
    ensures response.status == 200 && response.payload != [] && !WellFormed(response.payload) ==>
              r == Failure(MalformedPayload)
    ensures response.status == 200 && response.payload != [] && WellFormed(response.payload) &&
            (forall i :: 0 <= i < |response.payload| ==> !Covers(NormalizeRow(response.payload[i]), target)) ==>
              r == Failure(EntryNotFound)
    ensures r.Success? ==>
              var rows := response.payload;
              && |rows| > 0 && WellFormed(rows)
              && r.value.current == rows[|rows| - 1][4]
              && (exists i :: && 0 <= i < |rows| && Covers(NormalizeRow(rows[i]), target)
                              && (forall j :: 0 <= j < i ==> !Covers(NormalizeRow(rows[j]), target))
                              && r.value.entry == rows[i][1])
              && r.value.tp == r.value.entry * 1.022 && r.value.sl == r.value.entry * 0.978
              && (r.value.entry > 0.0 ==> r.value.sl < r.value.entry < r.value.tp)
              && (r.value.hitIdx.Some? ==> r.value.hitIdx.value < |rows|)
  {
    if response.status != 200 then Failure(FetchFailed(response.status))
    else if response.payload == [] then Failure(NoData)
    else
      match NormalizeKlines(response.payload)
      case None => Failure(MalformedPayload)
      case Some(klines) =>
        match EntryPrice(klines, target)
        case None => Failure(EntryNotFound)
        case Some(entry) =>
          var levels := LevelsFor(entry);
          var scan := Scan(klines, levels.tp, levels.sl);
          Success(Report(entry, levels.tp, levels.sl, scan.outcome, scan.hitIdx, CurrentPrice(klines)))
  }

  /** The handler, with the two loops as in the source. `fetch` stands for the
      HTTP call: it is asked for the CoinGecko id of the normalised symbol,
      and its answer is analysed as `AnalyzeResponse` describes. */
  method Analyze(input: string, target: int, fetch: string -> Response) returns (r: Result<Report, Error>)
    ensures r == AnalyzeResponse(fetch(CoinIdFor(input)), target)
  {
    var symbol := NormalizeSymbol(input);
    var coinId := CoinGeckoId(symbol);
    var response := fetch(coinId);
    if response.status != 200 {
      return Failure(FetchFailed(response.status));
    }
    if response.payload == [] {
      return Failure(NoData);
    }
    var normalized := NormalizeKlines(response.payload);
    if normalized.None? {
      return Failure(MalformedPayload);
    }
    var klines := normalized.value;
    var entry := LocateEntry(klines, target);
    if entry.None? {
      return Failure(EntryNotFound);
    }
    var levels := LevelsFor(entry.value);
    var outcome, hitIdx := ScanThresholds(klines, levels.tp, levels.sl);
    r := Success(Report(entry.value, levels.tp, levels.sl, outcome, hitIdx, CurrentPrice(klines)));
  }

  /** The current price of line 68 is the close field of the payload's last row. */
  lemma CurrentPriceIsLastRowClose(rows: seq<Row>)
    requires rows != [] && WellFormed(rows)
    ensures CurrentPrice(NormalizeKlines(rows).value) == rows[|rows| - 1][4]
  {
  }

  /** A run reports a result exactly when the fetch succeeds with a non-empty,
      well-formed payload and some candle covers the entry time; otherwise it
      stops before the levels are computed or any candle is scanned. */
  lemma ResponseSucceedsExactly(response: Response, target: int)
    ensures var rows := response.payload;
            AnalyzeResponse(response, target).Success? <==>
              && response.status == 200
              && rows != []
              && WellFormed(rows)
              && exists i :: 0 <= i < |rows| && Covers(NormalizeRow(rows[i]), target)
  {

  }

  /** The facts of `Scan` restated over the payload rows the candles come from. */
  lemma ScanInPayloadTerms(rows: seq<Row>, tp: real, sl: real)
    requires WellFormed(rows)
    ensures var scan := Scan(NormalizeKlines(rows).value, tp, sl);
            && (scan.hitIdx.None? ==> forall j :: 0 <= j < |rows| ==> rows[j][2] < tp && rows[j][3] > sl)
            && (scan.hitIdx.Some? ==>
                  && scan.hitIdx.value < |rows|
                  && (forall j :: 0 <= j < scan.hitIdx.value ==> rows[j][2] < tp && rows[j][3] > sl)
                  && (scan.outcome == HitTakeProfit <==> rows[scan.hitIdx.value][2] >= tp)
                  && (scan.outcome == HitStopLoss <==> rows[scan.hitIdx.value][2] < tp && rows[scan.hitIdx.value][3] <= sl))
  {

  }

  /** The outcome of a successful run: the hit is the first candle of the
      whole payload, from index 0, that reaches either level, and
      take-profit wins when both are reached in that candle. */
  lemma ReportedHitIsFirstCrossing(response: Response, target: int)
    ensures AnalyzeResponse(response, target).Success? ==>
            var rep := AnalyzeResponse(response, target).value;
            var rows := response.payload;
            && (rep.hitIdx.None? <==> rep.outcome == NotHitYet)
            && (rep.hitIdx.None? ==> forall j :: 0 <= j < |rows| ==> rows[j][2] < rep.tp && rows[j][3] > rep.sl)
            && (rep.hitIdx.Some? ==>
                  && rep.hitIdx.value < |rows|
                  && (forall j :: 0 <= j < rep.hitIdx.value ==> rows[j][2] < rep.tp && rows[j][3] > rep.sl)
                  && (rep.outcome == HitTakeProfit <==> rows[rep.hitIdx.value][2] >= rep.tp)
                  && (rep.outcome == HitStopLoss <==> rows[rep.hitIdx.value][2] < rep.tp && rows[rep.hitIdx.value][3] <= rep.sl))
  {
    // The payload-level facts are stated once, in ScanInPayloadTerms; naming
    // the run's stages here keeps the proof well inside the resource limit.
    var r := AnalyzeResponse(response, target);
    if r.Success? {
      var rows := response.payload;
      var klines := NormalizeKlines(rows).value;
      var entry := EntryPrice(klines, target).value;
      var levels := LevelsFor(entry);
      var scan := Scan(klines, levels.tp, levels.sl);
      assert r == Success(Report(entry, levels.tp, levels.sl, scan.outcome, scan.hitIdx, CurrentPrice(klines)));
      ScanInPayloadTerms(rows, levels.tp, levels.sl);
    }
  }

  /** The worked example: entry at the first candle's open time, the second
      candle reaches both levels, and take-profit is reported at index 1. */
  lemma BothLevelsInOneCandleReportTakeProfit(t0: int)
    ensures var rows := [[t0 as real, 100.0, 100.0, 100.0, 100.0],
                         [(t0 + 60000) as real, 100.0, 105.0, 95.0, 100.0]];
            AnalyzeResponse(Response(200, rows), t0)
              == Success(Report(100.0, 102.2, 97.8, HitTakeProfit, Some(1), 100.0))
  {

  }

  /** The scan starts at index 0, so a candle before the entry candle can be
      reported as the hit: here the entry is candle 1 and the hit is candle 0. */
  lemma HitCanPrecedeEntryCandle()
    ensures var rows := [[0.0, 100.0, 200.0, 100.0, 100.0],
                         [60000.0, 100.0, 100.0, 100.0, 100.0]];
            var klines := [Candle(0, 100.0, 200.0, 100.0, 100.0), Candle(60000, 100.0, 100.0, 100.0, 100.0)];
            && NormalizeKlines(rows) == Some(klines)
            && EntryIndex(klines, 60000) == Some(1)
            && AnalyzeResponse(Response(200, rows), 60000)
                 == Success(Report(100.0, 102.2, 97.8, HitTakeProfit, Some(0), 100.0))
  {
    var rows := [[0.0, 100.0, 200.0, 100.0, 100.0],
                 [60000.0, 100.0, 100.0, 100.0, 100.0]];
    var klines := [Candle(0, 100.0, 200.0, 100.0, 100.0), Candle(60000, 100.0, 100.0, 100.0, 100.0)];
    TruncOfWhole(0);
    TruncOfWhole(60000);
    assert NormalizeRow(rows[0]) == klines[0] && NormalizeRow(rows[1]) == klines[1];
    assert |rows[0]| == 5 && |rows[1]| == 5;
    assert WellFormed(rows);
    var v := NormalizeKlines(rows).value;
    assert v[0] == klines[0] && v[1] == klines[1];
    assert v == klines;
    EntryIndexUnique(klines, 60000, 1);
    assert LevelsFor(100.0) == Levels(102.2, 97.8);
    assert FirstCrossing(klines, 102.2, 97.8) == Some(0);
  }
}
