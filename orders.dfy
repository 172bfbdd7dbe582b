/** An order of the trade history and the cash flow it contributes to
    profit and loss (get_profit_and_loss.py, class Order). */
module Orders {
  /** Python's `int(x)` on a float: truncation toward zero. */
  function Trunc(x: real): (n: int)
    ensures 0.0 <= x ==> 0 <= n && n as real <= x < n as real + 1.0
    ensures x < 0.0 ==> n <= 0 && n as real - 1.0 < x <= n as real
  {
    if x >= 0.0 then x.Floor else -((-x).Floor)
  }

  /** One row of the order history. `shares` is the filled quantity and
      `price` the average fill price; `date` is a timestamp. */
  datatype Order = Order(side: string, symbol: string, shares: real, price: real, date: int, state: string)

  /** Only the exact side "buy" counts as buying; every other side sells. */
  predicate IsBuy(o: Order)
  {
    o.side == "buy"
  }

  /** The cash the order moves: paid out (negative) for a buy, received for
      anything else. Only whole shares are counted. */
  function Pl(o: Order): real
  {
    if IsBuy(o) then -((Trunc(o.shares) as real) * o.price)
    else (Trunc(o.shares) as real) * o.price
  }

  /** How the order moves the share count; fractional shares count here. */
  function ShareDelta(o: Order): real
  {
    if IsBuy(o) then o.shares else -o.shares
  }

  /** The nominal cash flow, shares times price without truncation. */
  function Notional(o: Order): real
  {
    if IsBuy(o) then -(o.shares * o.price) else o.shares * o.price
  }

  /** Truncating a non-negative share count loses less than one share's
      worth at a non-negative price, and nothing when the count is whole. */
  lemma TruncatedValue(shares: real, price: real)
    requires 0.0 <= shares && 0.0 <= price
    ensures 0.0 <= (Trunc(shares) as real) * price <= shares * price
    ensures shares == Trunc(shares) as real ==> shares * price == (Trunc(shares) as real) * price
  {
    var n := Trunc(shares) as real;
    assert shares * price - n * price == (shares - n) * price;
    assert 0.0 <= n * price;
    assert 0.0 <= (shares - n) * price;
  }

  lemma TruncationGap(shares: real, price: real)
    requires 0.0 <= shares && 0.0 < price
    ensures shares * price - (Trunc(shares) as real) * price < price
  {
    var n := Trunc(shares) as real;
    var frac := shares - n;
    assert shares * price - n * price == frac * price;
    assert price - frac * price == (1.0 - frac) * price;
    assert 0.0 < (1.0 - frac) * price;
  }

  /** A buy never brings cash in and a sale never pays cash out; with whole
      shares the flow is exactly the nominal one. */
  lemma PlBounds(o: Order)
    requires 0.0 <= o.shares && 0.0 <= o.price
    ensures IsBuy(o) ==> Notional(o) <= Pl(o) <= 0.0
    ensures !IsBuy(o) ==> 0.0 <= Pl(o) <= Notional(o)
    ensures o.shares == Trunc(o.shares) as real ==> Pl(o) == Notional(o)
  {
    TruncatedValue(o.shares, o.price);
  }

  /** Dropping the fractional part of the share count moves the flow toward
      zero by less than one share's price. */
  lemma PlTruncationGap(o: Order)
    requires 0.0 <= o.shares && 0.0 < o.price
    ensures IsBuy(o) ==> Pl(o) - Notional(o) < o.price
    ensures !IsBuy(o) ==> Notional(o) - Pl(o) < o.price
  {
    if IsBuy(o) {
      calc {
        Pl(o) - Notional(o);
        -((Trunc(o.shares) as real) * o.price) - -(o.shares * o.price);
        o.shares * o.price - (Trunc(o.shares) as real) * o.price;
      < { TruncationGap(o.shares, o.price); }
        o.price;
      }
    } else {
      calc {
        Notional(o) - Pl(o);
        o.shares * o.price - (Trunc(o.shares) as real) * o.price;
      < { TruncationGap(o.shares, o.price); }
        o.price;
      }
    }
  }
}
