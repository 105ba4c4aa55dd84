/**
  Valuation of share holdings, shared by both account variants.

  Holdings map a ticker symbol to a share count. A price table is passed in
  as a function, so the same sum serves both variants' tables.
 */
module Portfolio {

  type Holdings = map<string, int>

  /** The share count held for `symbol`, 0 when the symbol is absent (Python's `dict.get(symbol, 0)`). */
  function Owned(h: Holdings, symbol: string): (n: int)
    ensures symbol in h ==> n == h[symbol]
    ensures symbol !in h ==> n == 0
  {
    if symbol in h then h[symbol] else 0
  }

  /** The holdings after buying `q` shares of `symbol`: the count becomes `Owned + q`, even when that is zero. */
  function AddShares(h: Holdings, symbol: string, q: int): (r: Holdings)
    ensures symbol in r && r[symbol] == Owned(h, symbol) + q
    ensures r - {symbol} == h - {symbol}
  {
    h[symbol := Owned(h, symbol) + q]
  }

  /** The holdings after selling `q` shares of `symbol`: an entry that reaches zero is deleted, not kept. */
  function RemoveShares(h: Holdings, symbol: string, q: int): (r: Holdings)
    ensures Owned(r, symbol) == Owned(h, symbol) - q
    ensures symbol in r <==> Owned(h, symbol) != q
    ensures r - {symbol} == h - {symbol}
  {
    var left := Owned(h, symbol) - q;
    if left == 0 then h - {symbol} else h[symbol := left]
  }

  /** Every symbol present in the holdings has a positive share count. */
  predicate HoldingsPositive(h: Holdings)
  {
    forall s :: s in h ==> h[s] > 0
  }

  /** Some symbol of non-empty holdings; fixed per map, so proofs can name the one `MarketValue` peels off. */
  ghost function Pick(h: Holdings): (s: string)
    requires h != map[]
    ensures s in h
  {
    var s :| s in h; s
  }

  /**
    The worth of `n` shares at price `p`, which is `p * n` (`WorthIsProduct`);
    it is spelled out as repeated addition so that sums of worths are plain
    linear arithmetic.
   */
  ghost function Worth(p: real, n: int): real
    decreases if n < 0 then -n else n
  {
    if n == 0 then 0.0
    else if n > 0 then Worth(p, n - 1) + p
    else Worth(p, n + 1) - p
  }

  lemma {:induction false} WorthIsProduct(p: real, n: int)
    ensures Worth(p, n) == p * n as real
    decreases if n < 0 then -n else n
  {
    if n > 0 {
      WorthIsProduct(p, n - 1);
      assert p * (n - 1) as real + p == p * n as real;
    } else if n < 0 {
      WorthIsProduct(p, n + 1);
      assert p * (n + 1) as real - p == p * n as real;
    }
  }

  /** Adding `q` shares to `n` adds the worth of `q` shares at the price. */
  lemma WorthShift(p: real, n: int, q: int)
    ensures Worth(p, n + q) - Worth(p, n) == p * q as real
  {
    WorthIsProduct(p, n + q);
    WorthIsProduct(p, n);
    assert p * (n + q) as real == p * n as real + p * q as real;
  }

  /** The market value of the holdings: the sum of price(symbol) * count over every entry. */
  ghost function MarketValue(h: Holdings, price: string -> real): real
    decreases h.Keys
  {
    if h == map[] then 0.0
    else
      var s := Pick(h);
      Worth(price(s), h[s]) + MarketValue(h - {s}, price)
  }

  /** Any entry can be split off the sum, not only the one `MarketValue` happens to pick. */
  lemma {:induction false} MarketValueRemove(h: Holdings, price: string -> real, s: string)
    requires s in h
    ensures MarketValue(h, price) == Worth(price(s), h[s]) + MarketValue(h - {s}, price)
    decreases h.Keys
  {
    var t := Pick(h);
    if t != s {
      MarketValueRemove(h - {t}, price, s);
      MarketValueRemove(h - {s}, price, t);
      assert h - {t} - {s} == h - {s} - {t};
    }
  }

  /** Deleting a symbol lowers the value by exactly that holding's worth. */
  lemma MarketValueDelete(h: Holdings, price: string -> real, s: string)
    ensures MarketValue(h - {s}, price) == MarketValue(h, price) - Worth(price(s), Owned(h, s))
  {
    if s in h {
      MarketValueRemove(h, price, s);
    } else {
      assert h - {s} == h;
    }
  }

  /** Setting the count of one symbol to `q` changes the value by the worth of `q` shares less that of the old count. */
  lemma MarketValueUpdate(h: Holdings, price: string -> real, s: string, q: int)
    ensures MarketValue(h[s := q], price)
         == MarketValue(h, price) + Worth(price(s), q) - Worth(price(s), Owned(h, s))
  {
    MarketValueRemove(h[s := q], price, s);
    assert h[s := q] - {s} == h - {s};
    MarketValueDelete(h, price, s);
  }

  /** Buying `q` shares raises the market value by exactly their price. */
  lemma ValueAfterBuying(h: Holdings, price: string -> real, symbol: string, q: int)
    ensures MarketValue(AddShares(h, symbol, q), price) == MarketValue(h, price) + price(symbol) * q as real
  {
    var o := Owned(h, symbol);
    MarketValueUpdate(h, price, symbol, o + q);
    WorthShift(price(symbol), o, q);
  }

  /** Selling `q` shares lowers the market value by exactly their price, whether or not the entry is deleted. */
  lemma ValueAfterSelling(h: Holdings, price: string -> real, symbol: string, q: int)
    ensures MarketValue(RemoveShares(h, symbol, q), price) == MarketValue(h, price) - price(symbol) * q as real
  {
    var o := Owned(h, symbol);
    WorthShift(price(symbol), o - q, q);
    if o == q {
      MarketValueDelete(h, price, symbol);
    } else {
      MarketValueUpdate(h, price, symbol, o - q);
    }
  }

  /** Positive holdings at non-negative prices are worth at least nothing. */
  lemma {:induction false} MarketValueNonNegative(h: Holdings, price: string -> real)
    requires HoldingsPositive(h)
    requires forall s :: s in h ==> price(s) >= 0.0
    ensures MarketValue(h, price) >= 0.0
    decreases h.Keys
  {
    if h != map[] {
      var s := Pick(h);
      MarketValueNonNegative(h - {s}, price);
      WorthIsProduct(price(s), h[s]);
      assert price(s) * h[s] as real >= 0.0;
    }
  }
}
