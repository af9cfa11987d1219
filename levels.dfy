/** Take-profit and stop-loss levels around the entry price (tp_sl_app.py
    lines 8, 51 and 52), in exact arithmetic. */
module TpSl {

  /** TP_SL_PERCENT: 2.2 percent. */
  const TpSlPercent: real := 0.022

  datatype Levels = Levels(tp: real, sl: real)

  function LevelsFor(entry: real): (l: Levels)
    ensures l.tp == entry * 1.022 && l.sl == entry * 0.978
    ensures l.tp - entry == entry - l.sl == entry * TpSlPercent
    ensures entry > 0.0 ==> l.sl < entry < l.tp
    ensures entry < 0.0 ==> l.tp < entry < l.sl
  {
    Levels(entry * (1.0 + TpSlPercent), entry * (1.0 - TpSlPercent))
  }
}
