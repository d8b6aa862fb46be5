/** Position sizing, gain and stop placement for one trade (trade_helper.py).

    Prices and amounts of money are `real`; Python's float rounding is not modelled.
    A division by zero that Python would raise as ZeroDivisionError is a `requires`
    on the pure helpers and read-only methods, and an `Err` result on `Risk`, which
    changes the calculator's state before it can raise. */
module TradeHelper {

  const DefaultCommission: real := 5.0
  const DefaultRisk: real := 50.0
  const DefaultMoney: real := 4000.0

  datatype Option<T> = None | Some(value: T)

  /** The only failure the calculator can raise. */
  datatype Fault = ZeroDivisionError

  datatype Result<T> = Ok(value: T) | Err(fault: Fault)

  /** What `gain` returns: the profit of the round trip and the share count it assumed. */
  datatype GainShares = GainShares(gain: real, shares: int)

  /** What `risk` returns: where to put the stop, and how far below the entry that is. */
  datatype Stop = Stop(exit: real, move: real)

  // ---------------------------------------------------------------------------
  // Numeric helpers
  // ---------------------------------------------------------------------------

  /** Moving-average period of `days` days expressed in bars of `mins` minutes. */
  function EmaConv(days: real, mins: real): (bars: real)
    requires mins != 0.0
    ensures bars * mins == days * 1440.0
    ensures mins == 1440.0 ==> bars == days
  {
    days * 24.0 * 60.0 / mins
  }

  /** `price` lowered by the fraction `perc`. */
  function LossPrice(price: real, perc: real): (lowered: real)
    ensures price - lowered == price * perc
    ensures perc == 0.0 ==> lowered == price
  {
    price - price * perc
  }

  /** The fraction of `a` lost by going from price `a` to price `b`. */
  function LossPerc(a: real, b: real): (perc: real)
    requires a != 0.0
    ensures perc * a == a - b
    ensures (perc == 0.0) <==> (a == b)
  {
    (a - b) / a
  }

  /** Losing `LossPerc(a, b)` of `a` lands on `b`, and losing a fraction `p` of `a`
      is a loss of exactly `p`. */
  lemma LossRoundTrip(a: real, b: real, p: real)
    requires a != 0.0
    ensures LossPrice(a, LossPerc(a, b)) == b
    ensures LossPerc(a, LossPrice(a, p)) == p
    ensures LossPerc(a, a) == 0.0
  {
    var q := LossPerc(a, LossPrice(a, p));
    assert q * a == p * a;
  }

  /** The stop level an ATR below the EMA. */
  function StopLoss(ema: real, atr: real): (stop: real)
    ensures stop + atr == ema
    ensures (stop <= ema) <==> (atr >= 0.0)
  {
    ema - atr
  }

  /** Python's `int()` applied to a float: truncation toward zero. */
  function Trunc(x: real): (n: int)
    ensures x >= 0.0 ==> 0 <= n && n as real <= x < n as real + 1.0
    ensures x < 0.0 ==> n <= 0 && n as real - 1.0 < x <= n as real
  {
    if x >= 0.0 then x.Floor else -((-x).Floor)
  }

  // ---------------------------------------------------------------------------
  // The calculator's formulas, over explicit values
  // ---------------------------------------------------------------------------

  /** Number of whole shares that `money` buys at price `buy` (`num_shares`). */
  function Shares(money: real, buy: real): (n: int)
    requires buy != 0.0
    ensures n == Trunc(money / buy)
    ensures buy > 0.0 && money >= 0.0 ==>
              0 <= n && n as real * buy <= money < (n as real + 1.0) * buy
  {
    var q := money / buy;
    var n := Trunc(q);
    if buy > 0.0 && money >= 0.0 then
      WholeUnits(money, buy, q, n as real);
      n
    else
      n
  }

  /** If q = money / buy lies in [n, n + 1), then n units of `buy` fit in `money`
      and n + 1 do not. */
  lemma WholeUnits(money: real, buy: real, q: real, n: real)
    requires buy > 0.0 && money >= 0.0 && q == money / buy
    requires q >= 0.0 ==> n <= q < n + 1.0
    ensures n * buy <= money < (n + 1.0) * buy
  {
    assert q * buy == money;
    assert q >= 0.0;
    var m := n + 1.0;
    PositiveProduct(m - q, buy);
    assert (m - q) * buy == m * buy - q * buy;
    assert (q - n) * buy >= 0.0;
    assert (q - n) * buy == q * buy - n * buy;
  }

  // Dafny proves this with an empty body; it is a separate lemma so that
  // WholeUnits verifies on every solver seed.
  lemma PositiveProduct(x: real, y: real)
    requires x > 0.0 && y > 0.0
    ensures x * y > 0.0
  {
  }

  /** The gain of buying at `buy` and selling at `sell` with as many shares as
      `money` buys, paying the commission `comm` on entry and on exit. */
  function GainOf(money: real, comm: real, sell: real, buy: real): (g: GainShares)
    requires buy != 0.0
    ensures g.shares == Shares(money, buy)
    ensures g.gain == sell * g.shares as real - buy * g.shares as real - 2.0 * comm
    ensures g.shares > 0 ==> (g.gain > -2.0 * comm <==> sell > buy)
  {
    var shares := Shares(money, buy);
    GainShares((sell - buy) * shares as real - comm * 2.0, shares)
  }

  /** The stop that caps the loss of the position `money` buys at `buy` to the risk
      tolerance `risk` net of both commissions. This is what `risk` returns; unlike
      `risk` it leaves the tolerance alone (see GainRiskCalc.Risk). */
  function StopOf(money: real, comm: real, risk: real, buy: real): (r: Result<Stop>)
    ensures r.Ok? <==> buy != 0.0 && Shares(money, buy) != 0
    ensures r.Err? ==> r.fault == ZeroDivisionError
    ensures r.Ok? ==> r.value.move * Shares(money, buy) as real == risk - 2.0 * comm
    ensures r.Ok? ==> r.value.exit == buy - r.value.move
  {
    if buy == 0.0 then Err(ZeroDivisionError)
    else
      var shares := Shares(money, buy);
      if shares == 0 then Err(ZeroDivisionError)
      else
        var move := (risk - 2.0 * comm) / shares as real;
        Ok(Stop(buy - move, move))
  }

  /** The money to play so that, entering at `buy` with a stop at `stop`, the loss
      at the stop is the risk tolerance `risk` net of both commissions (`risk_stop`). */
  function CapitalFor(comm: real, risk: real, buy: real, stop: real): (capital: real)
    requires stop != buy
    ensures buy != 0.0 ==> (capital / buy) * (buy - stop) == risk - 2.0 * comm
    ensures buy == 0.0 ==> capital == 0.0
  {
    var delta := stop - buy;
    var commTotal := 2.0 * comm;
    var capital := buy * (commTotal - risk) / delta;
    assert capital * delta == buy * (commTotal - risk);
    capital
  }

  // ---------------------------------------------------------------------------
  // Properties of the formulas
  // ---------------------------------------------------------------------------

  /** Raising the sell price by `d` raises the gain by exactly `d` per share. */
  lemma GainLinearInSell(money: real, comm: real, sell: real, buy: real, d: real)
    requires buy != 0.0
    ensures GainOf(money, comm, sell + d, buy).gain - GainOf(money, comm, sell, buy).gain
            == d * Shares(money, buy) as real
    ensures GainOf(money, comm, buy, buy).gain == -2.0 * comm
  {
  }

  /** With 4000 to play and commission 5, buying at 20 and selling at 22 gains 390 on 200 shares. */
  lemma GainExample()
    ensures GainOf(4000.0, 5.0, 22.0, 20.0) == GainShares(390.0, 200)
  {
    assert Shares(4000.0, 20.0) == 200;
  }

  /** Feeding the stop that `risk` computes into `risk_stop`, with the tolerance that
      `risk` started from, gives back the money the whole shares cost: never more
      than `money`, and exactly `money` when it buys a whole number of shares. This
      is the sense in which `risk_stop` is the more conservative of the two. */
  lemma StopThenCapital(money: real, comm: real, risk: real, buy: real)
    requires buy != 0.0 && Shares(money, buy) != 0
    requires risk != 2.0 * comm
    ensures StopOf(money, comm, risk, buy).value.exit != buy
    ensures CapitalFor(comm, risk, buy, StopOf(money, comm, risk, buy).value.exit)
            == buy * Shares(money, buy) as real
    ensures buy > 0.0 && money >= 0.0 ==>
              CapitalFor(comm, risk, buy, StopOf(money, comm, risk, buy).value.exit) <= money
    ensures Shares(money, buy) as real * buy == money ==>
              CapitalFor(comm, risk, buy, StopOf(money, comm, risk, buy).value.exit) == money
  {
    var n := Shares(money, buy) as real;
    var s := StopOf(money, comm, risk, buy).value;
    var net := risk - 2.0 * comm;
    assert s.move * n == net;
    assert s.move != 0.0;
    var c := CapitalFor(comm, risk, buy, s.exit);
    assert c * (s.exit - buy) == buy * (2.0 * comm - risk);
    assert c * s.move == buy * net;
    assert c * s.move == buy * n * s.move;
  }

  /** The other way round: sizing the position with `risk_stop` for a stop below the
      entry and then asking `risk` where the stop goes puts it at or below the stop
      asked for, since whole shares never exceed the capital. */
  lemma CapitalThenStop(comm: real, risk: real, buy: real, stop: real)
    requires 0.0 < stop < buy
    requires risk > 2.0 * comm
    requires Shares(CapitalFor(comm, risk, buy, stop), buy) != 0
    ensures StopOf(CapitalFor(comm, risk, buy, stop), comm, risk, buy).Ok?
    ensures StopOf(CapitalFor(comm, risk, buy, stop), comm, risk, buy).value.exit <= stop
  {
    var capital := CapitalFor(comm, risk, buy, stop);
    var net := risk - 2.0 * comm;
    var want := buy - stop;
    assert (capital / buy) * want == net;
    var n := Shares(capital, buy) as real;
    assert capital > 0.0 by {
      assert capital / buy > 0.0;
    }
    assert n * buy <= capital;
    assert n <= capital / buy;
    var s := StopOf(capital, comm, risk, buy).value;
    assert s.move * n == net;
    assert n > 0.0;
    assert s.move * n >= want * n by {
      assert want * n <= want * (capital / buy);
    }
    assert s.move >= want;
  }

  /** With the defaults and an entry at 20, `risk` puts the stop at 19.8, and
      `risk_stop` for that stop gives back the 4000. */
  lemma RiskExample()
    ensures StopOf(4000.0, 5.0, 50.0, 20.0) == Ok(Stop(19.8, 0.2))
    ensures CapitalFor(5.0, 50.0, 20.0, 19.8) == 4000.0
  {
    assert Shares(4000.0, 20.0) == 200;
  }

  /** Python's `x or default` for a numeric argument that may be None: both None and
      zero are falsy and give way to the default. */
  predicate Falsy(x: Option<real>) {
    x == None || x == Some(0.0)
  }

  function OrDefault(x: Option<real>, default: real): (r: real)
    ensures Falsy(x) ==> r == default
    ensures !Falsy(x) ==> r == x.value
    ensures default != 0.0 ==> r != 0.0
  {
    if Falsy(x) then default else x.value
  }

  // ---------------------------------------------------------------------------
  // The calculator object
  // ---------------------------------------------------------------------------

  /** `GainRiskCalc`: money to play, commission per side, and risk tolerance (1R).
      The Python `risk` property and its setter are shadowed by the later method
      `risk`, so the tolerance is only reachable as the field. */
  class GainRiskCalc {
    var money: real
    var comm: real
    var risk: real

    /** Any argument that is None or zero is replaced by its default. */
    constructor (money0: Option<real>, comm0: Option<real>, risk0: Option<real>)
      ensures money == OrDefault(money0, DefaultMoney)
      ensures comm == OrDefault(comm0, DefaultCommission)
      ensures risk == OrDefault(risk0, DefaultRisk)
      ensures money != 0.0 && comm != 0.0 && risk != 0.0
    {
      money := OrDefault(money0, DefaultMoney);
      comm := OrDefault(comm0, DefaultCommission);
      risk := OrDefault(risk0, DefaultRisk);
    }

    /** The `money` setter stores its argument as given, zero included. */
    method SetMoney(m: real)
      modifies this`money
      ensures money == m
      ensures comm == old(comm) && risk == old(risk)
    {
      money := m;
    }

    /** The `comm` setter stores its argument as given, zero included. */
    method SetComm(c: real)
      modifies this`comm
      ensures comm == c
      ensures money == old(money) && risk == old(risk)
    {
      comm := c;
    }

    /** `num_shares`: whole shares that `money` buys at `buy`. */
    method NumShares(buy: real) returns (n: int)
      requires buy != 0.0
      ensures n == Shares(money, buy)
      ensures buy > 0.0 && money >= 0.0 ==> n as real * buy <= money < (n as real + 1.0) * buy
    {
      n := Trunc(money / buy);
      assert n == Shares(money, buy);
    }

    /** `gain(sell, buy)`; the sell price comes first. The source obtains the share
        count from a free function `num_shares(buy, money)` that the module does not
        define; the share count here is that of the method `num_shares`. */
    method Gain(sell: real, buy: real) returns (g: GainShares)
      requires buy != 0.0
      ensures g == GainOf(money, comm, sell, buy)
      ensures g.shares == Shares(money, buy)
    {
      var shares := NumShares(buy);
      g := GainShares((sell - buy) * shares as real - comm * 2.0, shares);
    }

    /** `risk(buy)` as written: it first lowers the stored tolerance by both
        commissions, for good, and then computes the stop from the lowered value.
        Its result is that of StopOf on the tolerance in force before the call.
        The share count comes from the method `num_shares`. The source calls an
        undefined free function here too, which fails only after the tolerance has
        been lowered. */
    method Risk(buy: real) returns (r: Result<Stop>)
      modifies this`risk
      ensures risk == old(risk) - 2.0 * old(comm)
      ensures money == old(money) && comm == old(comm)
      ensures r == StopOf(old(money), old(comm), old(risk), buy)
    {
      risk := risk - 2.0 * comm;
      if buy == 0.0 {
        return Err(ZeroDivisionError);
      }
      var shares := NumShares(buy);
      if shares == 0 {
        return Err(ZeroDivisionError);
      }
      var move := risk / shares as real;
      r := Ok(Stop(buy - move, move));
    }

    /** `risk_stop(buy, stop)`: the money to play for a stop at `stop`; reads the
        fields and changes none. */
    method RiskStop(buy: real, stop: real) returns (capital: real)
      requires stop != buy
      ensures capital == CapitalFor(comm, risk, buy, stop)
      ensures buy != 0.0 ==> (capital / buy) * (buy - stop) == risk - 2.0 * comm
    {
      var delta := stop - buy;
      var commTotal := 2.0 * comm;
      capital := buy * (commTotal - risk) / delta;
    }
  }

  /** The defaults, entry at 20: `risk_stop(20, 19.8)` gives 4000; two calls of
      `risk(20)` give different stops, 19.8 and then 19.85, because the first call
      lowered the tolerance; and after them `risk_stop(20, 19.8)` gives 2000, no
      longer the 4000 that StopThenCapital promises for the untouched tolerance. */
  method RiskDrift() returns (before: real, first: Result<Stop>, second: Result<Stop>, after: real)
    ensures before == 4000.0
    ensures first == Ok(Stop(19.8, 0.2))
    ensures second == Ok(Stop(19.85, 0.15))
    ensures after == 2000.0
  {
    var c := new GainRiskCalc(None, None, None);
    assert Shares(4000.0, 20.0) == 200;
    before := c.RiskStop(20.0, 19.8);
    first := c.Risk(20.0);
    second := c.Risk(20.0);
    after := c.RiskStop(20.0, 19.8);
  }
}
