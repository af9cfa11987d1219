# TP/SL tracker: the analysis behind the `Analyze` button

`tp_sl_app.py` is a Streamlit page. A user types a coin symbol and an entry
time. The page fetches OHLC candles for the last day (`days=1`) from CoinGecko
and treats each one as covering one minute (line 43). It finds the candle
that contains the entry time. Its open price becomes the entry price.
The page then sets a take-profit level 2.2% above it and a stop-loss level
2.2% below it, and reports which level the price reached first. This project
models that analysis in Dafny, without the user interface, the HTTP call, the
clock or the chart:

- `Symbols` (symbols.dfy): the pair symbol is the input upper-cased, with
  `USDT` appended unless it already ends with it. The CoinGecko id is that
  symbol with every `USDT` deleted (Python's `str.replace`, left to right,
  without rescanning), then lower-cased. Case changes are ASCII only.
- `Candles` (candles.dfy): a payload row `[t, o, h, l, c, ...]` becomes a
  `Candle` with `int(t)` (truncation toward zero) and the four prices. A row
  with fewer than five fields stops the run.
- `EntryLocator` (entry.dfy): `EntryIndex` and `EntryPrice` are the
  specification: the first candle, in payload order, whose minute
  `[t, t + 60000)` contains the target. No order of the candles is assumed.
  `LocateEntry` is the source's loop with `break`, proved against that
  specification.
- `TpSl` (levels.dfy): `tp = entry * (1 + 0.022)` and
  `sl = entry * (1 - 0.022)`, in exact `real` arithmetic.
- `Scanner` (scanner.dfy): `FirstCrossing` and `Scan` are the specification:
  the first candle whose high reaches `tp` or whose low reaches `sl`.
  Take-profit wins when both happen in the same candle. `ScanThresholds` is
  the source's loop, proved against `Scan`.
- `Pipeline` (pipeline.dfy): `AnalyzeResponse` is every step after the
  fetch, as a function. `Analyze` is the handler as a method: it normalises
  the symbol, asks the parameter `fetch` (the HTTP call) for the CoinGecko
  id, and analyses the answer. Both return either a `Report` or the `Error`
  at which the page stops (`st.stop()` or the catch-all `except`): a status
  other than 200, an empty payload, a malformed row, or no candle at the entry
  time. The entry time is
  the parameter `target`, in milliseconds since the epoch.

The scan starts at index 0 and covers the whole payload (tp_sl_app.py:56),
not only the candles from the entry candle on. The model keeps the code's
behaviour. `Pipeline.HitCanPrecedeEntryCandle` shows what follows: a candle
earlier than the entry candle can be reported as the take-profit hit.

## Model

| member | source | states |
|---|---|---|
| Symbols.ToUpper | tp_sl_app.py:18 | `upper()` maps each character to its upper-case counterpart (`a`-`z` to `A`-`Z`, anything else unchanged), so it keeps the length, leaves no lower-case ASCII letter, and leaves text without one unchanged |
| Symbols.ToLower | tp_sl_app.py:25 | `lower()` maps each character to its lower-case counterpart (`A`-`Z` to `a`-`z`, anything else unchanged), so it keeps the length, leaves no upper-case ASCII letter, and leaves text without one unchanged |
| Symbols.NormalizeSymbol | tp_sl_app.py:18 | the symbol always ends with `USDT` and has no lower-case letter; it is `upper(input)` when that ends with `USDT`, and `upper(input) + "USDT"` otherwise |
| Symbols.NormalizeIdempotent | tp_sl_app.py:18 | normalising an already normalised symbol leaves it unchanged |
| Symbols.NormalizeIgnoresCase | tp_sl_app.py:18 | typing the symbol in lower or upper case gives the same pair symbol |
| Symbols.RemoveQuote | tp_sl_app.py:25 | `replace("USDT", "")` never lengthens the text |
| Symbols.RemoveQuoteKeepsPlainText | tp_sl_app.py:25 | text without `USDT` comes out of `replace` unchanged |
| Symbols.RemoveQuoteDropsWholeOccurrences | tp_sl_app.py:25 | `replace` shortens the text by a multiple of four: only whole occurrences go |
| Symbols.RemoveQuoteSplits | tp_sl_app.py:25 | `replace` deletes EVERY occurrence: the text before the first `USDT` is kept, that `USDT` is deleted, and the rest is processed the same way; with `RemoveQuoteKeepsPlainText` this fixes the result on every input |
| Symbols.RemoveQuoteBothSides | tp_sl_app.py:18-25 | a symbol with `USDT` on both sides of a base without `USDT` (`USDTBTCUSDT`, which typing `usdtbtc` gives) loses both occurrences and becomes the base |
| Symbols.RemoveQuoteAppended | tp_sl_app.py:25 | deleting `USDT` from `a + "USDT"` gives back `a` when `a` has no `USDT` of its own: no occurrence can span the join |
| Symbols.CoinGeckoId | tp_sl_app.py:25 | the id has no upper-case ASCII letter and is no longer than the symbol |
| Symbols.CoinIdFor | tp_sl_app.py:18-25 | the id requested for what the user typed has no upper-case ASCII letter and is at most four characters longer than the input; `CoinIdOfBase` and `CoinIdOfPair` give its value |
| Symbols.CoinIdOfBase | tp_sl_app.py:18-25 | for a base name without `USDT` in it, the id is the base name in lower case |
| Symbols.CoinIdOfPair | tp_sl_app.py:18-25 | typing `btcusdt` gives the same id as typing `btc` |
| Candles.TruncToInt | tp_sl_app.py:38 | `int(x)` truncates toward zero: the result lies within one unit of `x`, on the side of zero |
| Candles.TruncOfWhole | tp_sl_app.py:38 | `int(x)` of a whole number is that number |
| Candles.NormalizeRow | tp_sl_app.py:38 | the row expression `[int(k[0]), k[1], k[2], k[3], k[4]]`: the four prices are the row's fields 1 to 4 in order, and the open time is within one millisecond of field 0 |
| Candles.NormalizeKlines | tp_sl_app.py:38 | the comprehension succeeds exactly when every row has five fields; the result then has one candle per row, in order, built from that row's first five fields |
| Candles.CandleRowRoundTrip | tp_sl_app.py:38 | a candle written as a five-field row is read back unchanged |
| Candles.NormalizeRowKeepsFirstFive | tp_sl_app.py:38 | reading a row with a whole-millisecond time keeps exactly its first five fields; trailing fields are dropped |
| EntryLocator.EntryIndex | tp_sl_app.py:42-45 | absent exactly when no candle's minute contains the target; otherwise a covering candle with no covering candle before it |
| EntryLocator.EntryPrice | tp_sl_app.py:41-47 | absent exactly when no candle covers the target; otherwise the open of a covering candle |
| EntryLocator.LocateEntry | tp_sl_app.py:41-45 | the loop with `break` returns the open of the first covering candle, or nothing |
| EntryLocator.EntryIndexUnique | tp_sl_app.py:42-45 | a covering candle with no covering candle before it is the one picked, whatever follows it |
| EntryLocator.EntryIgnoresLaterCandles | tp_sl_app.py:42-45 | appending candles never changes an entry already found |
| TpSl.LevelsFor | tp_sl_app.py:51-52 | with `TP_SL_PERCENT = 0.022` (line 8): `tp = 1.022 * entry` and `sl = 0.978 * entry`, symmetric around the entry; `sl < entry < tp` for a positive entry, reversed for a negative one |
| Scanner.FirstCrossing | tp_sl_app.py:56-66 | absent exactly when no candle reaches either level; otherwise a crossing candle with no crossing candle before it, counting from index 0 |
| Scanner.Scan | tp_sl_app.py:54-66 | the hit index is the first crossing; the outcome is "not hit" exactly when there is none, take-profit exactly when the hit candle's high reaches `tp`, and stop-loss exactly when its high stays below `tp` and its low reaches `sl` |
| Scanner.ScanThresholds | tp_sl_app.py:54-66 | the loop with `break`, checking take-profit before stop-loss in each candle, reports the same outcome and index as `Scan` |
| Scanner.ScanIgnoresLaterCandles | tp_sl_app.py:56-66 | appending candles after a crossing never changes the report |
| Pipeline.AnalyzeResponse | tp_sl_app.py:28-68 | a status other than 200 stops with that status; an empty payload stops with `NoData`; a short row with `MalformedPayload`; no covering row with `EntryNotFound`. A report has the last row's close as current price, the open of the FIRST row covering the target as entry price, `tp = 1.022 * entry` and `sl = 0.978 * entry` (so `sl < entry < tp` for a positive entry), and a hit index inside the payload |
| Pipeline.Analyze | tp_sl_app.py:16-68 | the handler, with both loops, fetches for the CoinGecko id of the normalised symbol and returns exactly what `AnalyzeResponse` gives for the answer, so two runs that get the same API answer give the same result |
| Pipeline.CurrentPriceIsLastRowClose | tp_sl_app.py:68 | `klines[-1][4]` is the close field of the payload's last row |
| Pipeline.ResponseSucceedsExactly | tp_sl_app.py:28-49 | a run reports a result exactly when the status is 200, the payload is non-empty and well-formed, and some candle covers the entry time; otherwise it stops before the levels or the scan |
| Pipeline.ScanInPayloadTerms | tp_sl_app.py:56-66 | the scan's report restated over the payload rows: the high and low it compares are fields 2 and 3 of each row |
| Pipeline.ReportedHitIsFirstCrossing | tp_sl_app.py:54-66 | for a run that reports, in payload terms: no row before the hit reaches either level; take-profit exactly when the hit row's high reaches `tp`; with no hit, no row reaches either level |
| Pipeline.BothLevelsInOneCandleReportTakeProfit | tp_sl_app.py:59-66 | candles (t0, 100, 100, 100, 100) and (t0 + 60000, 100, 105, 95, 100), entry at t0: entry 100, tp 102.2, sl 97.8, take-profit at index 1 |
| Pipeline.HitCanPrecedeEntryCandle | tp_sl_app.py:56 | the entry candle is index 1, yet take-profit is reported at index 0, because the scan starts at 0 |

## Left out

- Streamlit calls (page setup, inputs, button, messages, `st.pyplot`): presentation only. Each `st.stop()` is an `Error` value.
- The HTTP request, its URL and JSON decoding (lines 26-32): network I/O. The response is the result of the `fetch` parameter, called with the CoinGecko id. Payloads that are not a list of numeric rows (a JSON object, strings) are not modelled.
- Time resolution (lines 19-22 and 40): it reads the wall clock and uses the `Asia/Ho_Chi_Minh` zone of pytz. The entry time comes in as `target`, in milliseconds, so the parse error for a bad time string is not modelled.
- The chart (lines 72-92), including the marker at the hit candle: rendering only.
- The catch-all `except Exception` (lines 94-95): host error reporting. Only the error it catches from a short row is modelled, as `MalformedPayload`.
- IEEE floating point in `float(...)` and the two multiplications: prices are exact `real` values.
- Symbols.ToUpper: only ASCII letters change case. Python's `upper()` and `lower()` also map other Unicode letters.
- Symbols.ToLower: only ASCII letters change case, for the same reason.
