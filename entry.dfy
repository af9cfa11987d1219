/** Locating the entry candle (tp_sl_app.py lines 40-49): the first candle, in
    the order the payload lists them, whose minute contains the entry time. */
module EntryLocator {
  import opened Wrappers
  import opened Candles

  /** Length of a candle in milliseconds. */
  const CandleMillis: int := 60000

  /** The half-open minute [openTime, openTime + 60000) contains `target`. */
  predicate Covers(c: Candle, target: int)
  {
    c.openTime <= target < c.openTime + CandleMillis
  }

  /** The index of the first candle covering `target`, if there is one. No
      order of the candles is assumed. */
  function EntryIndex(klines: seq<Candle>, target: int): (r: Option<nat>)
    ensures r.None? <==> forall j :: 0 <= j < |klines| ==> !Covers(klines[j], target)
    ensures r.Some? ==> r.value < |klines| && Covers(klines[r.value], target)
    ensures r.Some? ==> forall j :: 0 <= j < r.value ==> !Covers(klines[j], target)
  {
    if klines == [] then None
    else if Covers(klines[0], target) then Some(0)
    else
      match EntryIndex(klines[1..], target)
      case None => None
      case Some(i) => Some(i + 1)
  }

  /** The entry price: the open of the first covering candle. */
  function EntryPrice(klines: seq<Candle>, target: int): (r: Option<real>)
    ensures r.None? <==> forall j :: 0 <= j < |klines| ==> !Covers(klines[j], target)
    ensures r.Some? ==> exists i :: 0 <= i < |klines| && Covers(klines[i], target) && r.value == klines[i].open
  {
    match EntryIndex(klines, target)
    case None => None
    case Some(i) => Some(klines[i].open)
  }

  /** The loop of lines 41-45, which stops at the first covering candle. */
  method LocateEntry(klines: seq<Candle>, target: int) returns (entry: Option<real>)
    ensures entry == EntryPrice(klines, target)
  {
    entry := None;
    for i := 0 to |klines|
      invariant entry == None
      invariant forall j :: 0 <= j < i ==> !Covers(klines[j], target)
    {
      var k := klines[i];
      if k.openTime <= target < k.openTime + CandleMillis {
        entry := Some(k.open);
        assert EntryIndex(klines, target) == Some(i);
        break;
      }
    }
  }

  /** A candle that covers the target and follows no other covering candle
      is the one the locator picks. */
  lemma EntryIndexUnique(klines: seq<Candle>, target: int, i: nat)
    requires i < |klines| && Covers(klines[i], target)
    requires forall j :: 0 <= j < i ==> !Covers(klines[j], target)
    ensures EntryIndex(klines, target) == Some(i)
    ensures EntryPrice(klines, target) == Some(klines[i].open)
  {
  }

  /** Candles appended after a found entry never change it. */
  lemma {:induction false} EntryIgnoresLaterCandles(klines: seq<Candle>, more: seq<Candle>, target: int)
    requires EntryIndex(klines, target).Some?
    ensures EntryIndex(klines + more, target) == EntryIndex(klines, target)
  {
    var i := EntryIndex(klines, target).value;
    assert (klines + more)[i] == klines[i];
    forall j | 0 <= j < i ensures !Covers((klines + more)[j], target) {
      assert (klines + more)[j] == klines[j];
    }
    EntryIndexUnique(klines + more, target, i);
  }
}
