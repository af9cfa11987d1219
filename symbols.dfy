/** The trading-pair symbol typed by the user and the CoinGecko coin id derived
    from it (tp_sl_app.py lines 18 and 25). Only ASCII letters change case:
    every other character is left as it is. */
module Symbols {

  /** The quote currency every pair is traded against. */
  const Quote: string := "USDT"

  predicate IsLowerAscii(c: char) { 'a' <= c <= 'z' }

  predicate IsUpperAscii(c: char) { 'A' <= c <= 'Z' }

  function UpperChar(c: char): char
  {
    if IsLowerAscii(c) then (c as int - 32) as char else c
  }

  function LowerChar(c: char): char
  {
    if IsUpperAscii(c) then (c as int + 32) as char else c
  }

  /** No lower-case ASCII letter occurs in `s`. */
  predicate NoLower(s: string) { forall i :: 0 <= i < |s| ==> !IsLowerAscii(s[i]) }

  /** No upper-case ASCII letter occurs in `s`. */
  predicate NoUpper(s: string) { forall i :: 0 <= i < |s| ==> !IsUpperAscii(s[i]) }

  /** Python's `str.upper()` on ASCII. */
  function ToUpper(s: string): (r: string)
    ensures |r| == |s|
    ensures forall i :: 0 <= i < |s| ==> r[i] == UpperChar(s[i])
    ensures NoLower(r)
    ensures NoLower(s) ==> r == s
  {
    if s == [] then [] else [UpperChar(s[0])] + ToUpper(s[1..])
  }

  /** Python's `str.lower()` on ASCII. */
  function ToLower(s: string): (r: string)
    ensures |r| == |s|
    ensures forall i :: 0 <= i < |s| ==> r[i] == LowerChar(s[i])
    ensures NoUpper(r)
    ensures NoUpper(s) ==> r == s
  {
    if s == [] then [] else [LowerChar(s[0])] + ToLower(s[1..])
  }

  predicate EndsWith(s: string, suffix: string)
  {
    |suffix| <= |s| && s[|s| - |suffix|..] == suffix
  }

  /** The symbol sent to the exchange: the input upper-cased, with "USDT"
      appended unless it is already there. */
  function NormalizeSymbol(input: string): (r: string)
    ensures EndsWith(r, Quote)
    ensures NoLower(r)
    ensures EndsWith(ToUpper(input), Quote) ==> r == ToUpper(input)
    ensures !EndsWith(ToUpper(input), Quote) ==> r == ToUpper(input) + Quote
  {
    var up := ToUpper(input);
    if !EndsWith(up, Quote) then up + Quote else up
  }

  /** "USDT" occurs somewhere in `s`, checked position by position. */
  predicate ContainsQuote(s: string)
  {
    |s| >= |Quote| && (s[..|Quote|] == Quote || ContainsQuote(s[1..]))
  }

  /** Python's `s.replace("USDT", "")`: scanning left to right, every
      non-overlapping occurrence of "USDT" is deleted, and the text that is
      left is not scanned again. */
  function RemoveQuote(s: string): (r: string)
    ensures |r| <= |s|
  {
    if |s| < |Quote| then s
    else if s[..|Quote|] == Quote then RemoveQuote(s[|Quote|..])
    else [s[0]] + RemoveQuote(s[1..])
  }

  /** Text without "USDT" passes through `replace` unchanged. */
  lemma {:induction false} RemoveQuoteKeepsPlainText(s: string)
    requires !ContainsQuote(s)
    ensures RemoveQuote(s) == s
  {
    if |s| >= |Quote| {
      RemoveQuoteKeepsPlainText(s[1..]);
      assert s == [s[0]] + s[1..];
    }
  }

  /** Only whole occurrences are deleted: the text shrinks by a multiple of four. */
  lemma {:induction false} RemoveQuoteDropsWholeOccurrences(s: string)
    ensures (|s| - |RemoveQuote(s)|) % |Quote| == 0
  {
    if |s| >= |Quote| {
      if s[..|Quote|] == Quote {
        RemoveQuoteDropsWholeOccurrences(s[|Quote|..]);
      } else {
        RemoveQuoteDropsWholeOccurrences(s[1..]);
      }
    }
  }

  /** The CoinGecko id of line 25: every "USDT" deleted, then lower-cased. */
  function CoinGeckoId(symbol: string): (r: string)
    ensures NoUpper(r)
    ensures |r| <= |symbol|
  {
    ToLower(RemoveQuote(symbol))
  }

  /** The id the page asks CoinGecko for, given what the user typed. */
  function CoinIdFor(input: string): (r: string)
    ensures NoUpper(r)
    ensures |r| <= |input| + |Quote|
  {
    CoinGeckoId(NormalizeSymbol(input))
  }

  lemma CaseCharRoundTrip(c: char)
    ensures UpperChar(LowerChar(c)) == UpperChar(c)
    ensures LowerChar(UpperChar(c)) == LowerChar(c)
  {
  }

  lemma {:induction false} ToUpperOfLower(s: string)
    ensures ToUpper(ToLower(s)) == ToUpper(s)
  {
    if s != [] {
      var l := ToLower(s);
      assert l[0] == LowerChar(s[0]) && l[1..] == ToLower(s[1..]);
      CaseCharRoundTrip(s[0]);
      ToUpperOfLower(s[1..]);
      assert ToUpper(l) == [UpperChar(l[0])] + ToUpper(l[1..]);
    }
  }

  lemma {:induction false} ToLowerOfUpper(s: string)
    ensures ToLower(ToUpper(s)) == ToLower(s)
  {
    if s != [] {
      var u := ToUpper(s);
      assert u[0] == UpperChar(s[0]) && u[1..] == ToUpper(s[1..]);
      CaseCharRoundTrip(s[0]);
      ToLowerOfUpper(s[1..]);
      assert ToLower(u) == [LowerChar(u[0])] + ToLower(u[1..]);
    }
  }

  lemma {:induction false} ToUpperAppend(a: string, b: string)
    ensures ToUpper(a + b) == ToUpper(a) + ToUpper(b)
  {
    if a == [] {
      assert a + b == b;
    } else {
      assert (a + b)[0] == a[0];
      assert (a + b)[1..] == a[1..] + b;
      ToUpperAppend(a[1..], b);
    }
  }

  /** Normalising an already normalised symbol leaves it unchanged. */
  lemma NormalizeIdempotent(input: string)
    ensures NormalizeSymbol(NormalizeSymbol(input)) == NormalizeSymbol(input)
  {
  }

  /** The case the user types the symbol in does not matter. */
  lemma NormalizeIgnoresCase(input: string)
    ensures NormalizeSymbol(ToLower(input)) == NormalizeSymbol(input)
    ensures NormalizeSymbol(ToUpper(input)) == NormalizeSymbol(input)
  {
    ToUpperOfLower(input);
  }

  /** "USDT" has no proper prefix that is also a suffix, so text without
      "USDT" followed by "USDT" does not begin with "USDT". */
  lemma NoQuoteAtJoin(a: string, b: string)
    requires a != [] && !ContainsQuote(a)
    ensures (a + Quote + b)[..|Quote|] != Quote
  {
    var s := a + Quote + b;
    if |a| >= |Quote| {
      assert s[..|Quote|] == a[..|Quote|];
    } else {
      assert s[..|Quote|][|a|] == 'U';
      assert Quote[|a|] != 'U';
    }
  }

  /** "USDT" has no proper prefix that is also a suffix, so an occurrence
      cannot start inside `a` and run on into an appended "USDT": the scan
      keeps `a` and deletes the "USDT". */
  lemma {:induction false} RemoveQuoteAppended(a: string)
    requires !ContainsQuote(a)
    ensures RemoveQuote(a + Quote) == a
  {
    var s := a + Quote;
    if a == [] {
      assert s[..|Quote|] == Quote && s[|Quote|..] == [];
    } else {
      NoQuoteAtJoin(a, []);
      assert a + Quote + [] == s;
      RemoveQuoteAppended(a[1..]);
      assert s[1..] == a[1..] + Quote;
      assert a == [a[0]] + a[1..];
    }
  }

  /** A leading "USDT" is deleted and the scan goes on after it. */
  lemma RemoveQuoteHead(b: string)
    ensures RemoveQuote(Quote + b) == RemoveQuote(b)
  {
    var s := Quote + b;
    assert s[..|Quote|] == Quote && s[|Quote|..] == b;
  }

  /** A first character that cannot start "USDT" is kept, even when "USDT"
      follows the text it begins, and the rest of that text has no "USDT" either. */
  lemma RemoveQuoteStep(a: string, b: string)
    requires a != [] && !ContainsQuote(a)
    ensures !ContainsQuote(a[1..])
    ensures RemoveQuote(a + Quote + b) == [a[0]] + RemoveQuote(a[1..] + Quote + b)
  {
    var s := a + Quote + b;
    NoQuoteAtJoin(a, b);
    assert s[0] == a[0];
    assert s[1..] == a[1..] + Quote + b;
  }

  lemma ConsAppend(a: string, t: string)
    requires a != []
    ensures [a[0]] + (a[1..] + t) == a + t
  {
    assert a == [a[0]] + a[1..];
  }

  /** Deleting every "USDT": the text before the first occurrence is kept,
      that occurrence goes, and the rest is treated the same way. With
      `RemoveQuoteKeepsPlainText` this fixes the result on every input. */
  lemma {:induction false} RemoveQuoteSplits(a: string, b: string)
    requires !ContainsQuote(a)
    ensures RemoveQuote(a + Quote + b) == a + RemoveQuote(b)
  {
    if a == [] {
      assert a + Quote + b == Quote + b;
      RemoveQuoteHead(b);
    } else {
      RemoveQuoteStep(a, b);
      RemoveQuoteSplits(a[1..], b);
      ConsAppend(a, RemoveQuote(b));
    }
  }

  lemma {:induction false} EndsWithQuoteContains(s: string)
    requires EndsWith(s, Quote)
    ensures ContainsQuote(s)
  {
    if |s| > |Quote| {
      assert s[1..][|s| - 1 - |Quote|..] == s[|s| - |Quote|..];
      EndsWithQuoteContains(s[1..]);
    } else {
      assert s[..|Quote|] == s[|s| - |Quote|..];
    }
  }

  lemma NoQuoteNotEndsWith(s: string)
    requires !ContainsQuote(s)
    ensures !EndsWith(s, Quote)
  {
    if EndsWith(s, Quote) {
      EndsWithQuoteContains(s);
    }
  }

  lemma UpperOfLowerQuote()
    ensures ToUpper("usdt") == Quote
  {
  }

  /** For a base asset whose name does not itself contain "USDT", the id is
      the base name in lower case. */
  lemma CoinIdOfBase(base: string)
    requires !ContainsQuote(ToUpper(base))
    ensures CoinIdFor(base) == ToLower(base)
  {
    var up := ToUpper(base);
    NoQuoteNotEndsWith(up);
    assert NormalizeSymbol(base) == up + Quote;
    RemoveQuoteAppended(up);
    ToLowerOfUpper(base);
  }

  /** Typing the pair ("btcusdt") gives the same id as typing the base. */
  lemma CoinIdOfPair(base: string)
    requires !ContainsQuote(ToUpper(base))
    ensures CoinIdFor(base + "usdt") == ToLower(base)
  {
    var up := ToUpper(base);
    ToUpperAppend(base, "usdt");
    UpperOfLowerQuote();
    assert ToUpper(base + "usdt") == up + Quote;
    assert EndsWith(up + Quote, Quote);
    assert NormalizeSymbol(base + "usdt") == up + Quote;
    RemoveQuoteAppended(up);
    ToLowerOfUpper(base);
  }

  /** A symbol with "USDT" on both sides of a base ("USDTBTCUSDT", which is
      what typing "usdtbtc" gives) loses both occurrences. */
  lemma RemoveQuoteBothSides(base: string)
    requires !ContainsQuote(base)
    ensures RemoveQuote(Quote + base + Quote) == base
  {
    RemoveQuoteSplits([], base + Quote);
    assert [] + Quote + (base + Quote) == Quote + base + Quote;
    RemoveQuoteAppended(base);
  }
}
