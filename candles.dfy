/** OHLC candles, each treated as covering one minute (tp_sl_app.py line 43),
    and the normalisation of the price API's payload rows into them (line 38).
    A payload row is a JSON array of numbers; only its first five fields are
    kept. */
module Candles {
  import opened Wrappers

  /** A payload row as decoded from JSON: [open time, open, high, low, close, ...]. */
  type Row = seq<real>

  datatype Candle = Candle(openTime: int, open: real, high: real, low: real, close: real)

  /** Python's `int(x)` on a number: truncation toward zero. */
  function TruncToInt(x: real): (n: int)
    ensures x >= 0.0 ==> 0 <= n && n as real <= x < n as real + 1.0
    ensures x < 0.0 ==> n <= 0 && n as real - 1.0 < x <= n as real
  {
    if x >= 0.0 then x.Floor else -((-x).Floor)
  }

  /** `[int(k[0]), k[1], k[2], k[3], k[4]]` for one row `k`. */
  function NormalizeRow(row: Row): (c: Candle)
    requires |row| >= 5
    ensures CandleRow(c)[1..] == row[1..5]
    ensures row[0] - 1.0 < c.openTime as real < row[0] + 1.0
  {
    Candle(TruncToInt(row[0]), row[1], row[2], row[3], row[4])
  }

  /** The five-field row a candle is written back as. */
  function CandleRow(c: Candle): (row: Row)
    ensures |row| == 5
  {
    [c.openTime as real, c.open, c.high, c.low, c.close]
  }

  /** Every row has the five fields the comprehension indexes. */
  predicate WellFormed(payload: seq<Row>)
  {
    forall i :: 0 <= i < |payload| ==> |payload[i]| >= 5
  }

  /** The list comprehension of line 38. A row with fewer than five fields
      raises an index error in the source, which ends the run: here `None`. */
  function NormalizeKlines(payload: seq<Row>): (r: Option<seq<Candle>>)
    ensures r.Some? <==> WellFormed(payload)
    ensures r.Some? ==> |r.value| == |payload|
    ensures r.Some? ==> forall i :: 0 <= i < |payload| ==> r.value[i] == NormalizeRow(payload[i])
  {
    if payload == [] then Some([])
    else if |payload[0]| < 5 then None
    else
      match NormalizeKlines(payload[1..])
      case None => None
      case Some(rest) => Some([NormalizeRow(payload[0])] + rest)
  }

  /** `int` leaves a whole number unchanged. */
  lemma TruncOfWhole(n: int)
    ensures TruncToInt(n as real) == n
  {
  }

  /** A candle survives being written as a row and read back. */
  lemma CandleRowRoundTrip(c: Candle)
    ensures NormalizeRow(CandleRow(c)) == c
  {
  }

  /** Reading a row keeps exactly its first five fields, when the open time
      is a whole number of milliseconds (as the API sends it). */
  lemma NormalizeRowKeepsFirstFive(row: Row)
    requires |row| >= 5
    requires row[0] == row[0].Floor as real
    ensures CandleRow(NormalizeRow(row)) == row[..5]
  {
    var n := row[0].Floor;
    assert TruncToInt(row[0]) == n by {
      if row[0] < 0.0 {
        assert (-row[0]).Floor == -n;
      }
    }
    var r := CandleRow(NormalizeRow(row));
    assert r[0] == row[0];
    assert forall k :: 0 <= k < 5 ==> r[k] == row[..5][k];
  }
}
