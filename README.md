# TradeHelper in Dafny

A Dafny model of the core of TradeHelper, a small intraday-trading toolkit. It has three parts,
one module and one file each:

- `TradeHelper` (`trade_helper.dfy`). The numeric helpers `ema_conv`, `loss_price`, `loss_perc`
  and `stoploss`, and the class `GainRiskCalc`. The class holds the money to play, the commission
  per side and the risk tolerance (1R). It gives the share count, the gain of a trade, where to put
  the stop (`risk`) and how much money to play for a given stop (`risk_stop`). The formulas are
  pure functions over explicit values (`Shares`, `GainOf`, `StopOf`, `CapitalFor`), and the
  class's methods are proved against them.
- `MovingAverage` (`ema.dfy`). The streaming EMA of `ema.py`. The class `Ema` carries one value and
  moves it toward each close by `K = 2 / (period + 1)`. Its ghost history ties the carried value to
  the left fold `Fold` of the update `Step` over all closes fed so far.
- `Timer` (`timer_event.dfy`). The clock-aligned firing rule of `TimerEvent.every_n_min`. The
  callback fires when the minute is a multiple of the frequency and the second is zero. The wall
  clock is a finite sequence of readings, one per poll. The callback's effect is modelled as
  appending the timestamp it receives to the field `fired`. `Fires` gives the timestamps the
  callback receives, in order, for a given run of readings.

Prices and money are `real`, so the concrete figures (390, 19.8, 0.2, 4000) hold exactly.

Python's `int()` on a float truncates toward zero, and `Trunc` models it that way. Python's `/`
is true division. `minute % freq` is zero exactly when `freq` divides `minute`. That holds for
Python's floored `%` and for Dafny's Euclidean `%` alike, whatever the sign of `freq`.

A division by zero raises ZeroDivisionError in Python, and nothing in the code catches it. Each
such point is a `requires` (`mins != 0`, `a != 0`, `buy != 0`, `stop != buy`, `period != -1`,
`freq != 0`). `GainRiskCalc.Risk` is the exception. It has already lowered the stored tolerance
when it divides, so it returns `Err(ZeroDivisionError)` for `buy == 0` or for a zero share count,
and its state change happens in either case.

Points of the code's behaviour that the model keeps:

- The share count is truncated toward zero, not floored.
- A zero entry price, a zero share count in `risk`, and a stop equal to the entry all raise the
  same ZeroDivisionError. There is no distinct "invalid input" error. With a zero share count,
  `gain` does not fail: it returns a gain of `-2 * comm` on 0 shares.
- A period of -1 is accepted by the EMA constructor and fails only in `next`.
- A negative commission or tolerance is accepted.
- A negative scheduler frequency is accepted. Only zero fails.
- The constructor replaces zero arguments by the defaults. The setters do not.

`gain` and `risk` obtain the share count by calling a free function `num_shares(buy, money)`
(trade_helper.py:95 and :115). The module does not define it, so as written both raise NameError.
`gain` fails before computing anything. `risk` fails only after line 114 has lowered the stored
tolerance, so that change persists.
The model uses the method `num_shares(self, buy)` (trade_helper.py:98-103) in its place. That is
evidently what was meant, and the comments on `GainRiskCalc.Gain` and `GainRiskCalc.Risk` record it.

## Model

| member | source | states |
|---|---|---|
| `TradeHelper.EmaConv` | trade_helper.py:7-12 | the period in bars of `mins` minutes times `mins` equals the period in days times 1440; with 1440-minute bars it is the number of days |
| `TradeHelper.LossPrice` | trade_helper.py:14-17 | the price falls by exactly `price * perc`; a zero fraction leaves it unchanged |
| `TradeHelper.LossPerc` | trade_helper.py:19-22 | the fraction times `a` is the drop `a - b`; it is zero exactly when the prices are equal; `a == 0` is a division error |
| `TradeHelper.LossRoundTrip` | trade_helper.py:14-22 | `loss_price(a, loss_perc(a, b)) == b`, `loss_perc(a, loss_price(a, p)) == p` and `loss_perc(a, a) == 0` for `a != 0` |
| `TradeHelper.StopLoss` | trade_helper.py:24-30 | the stop lies `atr` below the EMA; it is at or below the EMA exactly when `atr >= 0` |
| `TradeHelper.Trunc` | trade_helper.py:103 | Python's `int()`: for `x >= 0` the largest whole number not above `x`, for `x < 0` the smallest not below it (truncation toward zero) |
| `TradeHelper.Shares` | trade_helper.py:98-103 | the share count is `int(money / buy)`; for `buy > 0` and `money >= 0`, `shares * buy <= money < (shares + 1) * buy` |
| `TradeHelper.GainOf` | trade_helper.py:88-96 | the gain is the proceeds `sell * shares` minus the cost `buy * shares` minus two commissions, with the share count of `num_shares`; with at least one share, the trade beats the bare commissions exactly when it sells above the buy price |
| `TradeHelper.StopOf` | trade_helper.py:105-117 | fails with ZeroDivisionError exactly when `buy == 0` or no whole share is affordable; otherwise `move * shares` equals the tolerance net of two commissions and the stop is `buy - move` |
| `TradeHelper.CapitalFor` | trade_helper.py:119-131 | a position of `capital / buy` shares loses exactly the tolerance net of two commissions if it is stopped out at `stop`; `stop == buy` is a division error |
| `TradeHelper.GainLinearInSell` | trade_helper.py:88-96 | raising the sell price by `d` raises the gain by exactly `d * shares`; selling at the buy price loses the two commissions |
| `TradeHelper.GainExample` | trade_helper.py:88-96 | money 4000, commission 5, buy 20, sell 22 gives a gain of 390 on 200 shares |
| `TradeHelper.StopThenCapital` | trade_helper.py:119-131 | "risk_stop is slightly more conservative": `risk_stop(buy, exit)` on the stop `risk` gives, with the tolerance before `risk` ran, returns `buy * shares`; that is at most `money`, and exactly `money` when `money` buys a whole number of shares |
| `TradeHelper.CapitalThenStop` | trade_helper.py:105-131 | the other direction: sizing with `risk_stop` for a stop below the entry, then asking `risk`, puts the stop at or below the one asked for |
| `TradeHelper.RiskExample` | trade_helper.py:113-131 | money 4000, commission 5, tolerance 50, buy 20 gives the stop 19.8 with move 0.2, and `risk_stop(20, 19.8)` gives back 4000 |
| `TradeHelper.OrDefault` | trade_helper.py:42-44 | Python `x or default`: None and 0 give the default, any other value is kept; with a non-zero default the result is never 0 |
| `TradeHelper.GainRiskCalc.constructor` | trade_helper.py:35-44 | each of money, commission and tolerance is the argument, or the default 4000, 5 or 50 when the argument is None or 0; none of them is 0 |
| `TradeHelper.GainRiskCalc.SetMoney` | trade_helper.py:58-62 | the `money` setter stores its argument, zero included, and changes no other field |
| `TradeHelper.GainRiskCalc.SetComm` | trade_helper.py:70-74 | the `comm` setter stores its argument, zero included, and changes no other field |
| `TradeHelper.GainRiskCalc.NumShares` | trade_helper.py:98-103 | returns `Shares(money, buy)`, so for `buy > 0` and `money >= 0` the largest count whose cost fits in `money`; changes nothing |
| `TradeHelper.GainRiskCalc.Gain` | trade_helper.py:88-96 | returns `GainOf` on the stored money and commission, `sell` first; changes nothing |
| `TradeHelper.GainRiskCalc.Risk` | trade_helper.py:105-117 | as written: lowers the stored tolerance by two commissions for good, leaves money and commission alone, and returns `StopOf` on the tolerance that was in force before the call (an error for a zero price or share count, after the tolerance was lowered) |
| `TradeHelper.GainRiskCalc.RiskStop` | trade_helper.py:119-131 | returns `CapitalFor` on the stored commission and tolerance; its frame is empty, so it changes no field |
| `TradeHelper.RiskDrift` | trade_helper.py:113-131 | defaults, buy 20: `risk_stop(20, 19.8)` is 4000; `risk(20)` twice gives 19.8 then 19.85; afterwards `risk_stop(20, 19.8)` is 2000 |
| `MovingAverage.K` | ema.py:6-7 | `K * (period + 1) == 2`; for `period >= 1`, `0 < K <= 1`; `period == 1` gives `K == 1`; `period == -1` is a division error |
| `MovingAverage.Step` | ema.py:9-10 | the new distance to the close is the old distance scaled by `1 - K`; a close equal to the average leaves it unchanged; for `period >= 1` the new average lies between the old one and the close, inclusive; `period == 1` yields the close |
| `MovingAverage.Fold` | ema.py:9-12 | the value after feeding the closes in order to `next`, starting from the seed; with period 1 it is the last close fed |
| `MovingAverage.FoldWithinRange` | ema.py:9-12 | for `period >= 1`, the average stays within any range that holds the seed and every close fed |
| `MovingAverage.FoldSnoc` | ema.py:9-12 | folding the update over the closes followed by one more close is one more update of the folded value |
| `MovingAverage.ConstantFeed` | ema.py:10 | feeding the same close `c` n times scales the distance to `c` by `(1 - K)^n` |
| `MovingAverage.ConstantFeedBounded` | ema.py:10 | for `period >= 1`, feeding a constant close never moves the average away from it and never past it |
| `MovingAverage.ConstantFeedCloser` | ema.py:10 | for `period >= 1`, each further feed of the same close leaves the average no farther from it and on the same side |
| `MovingAverage.Ema.constructor` | ema.py:2-4 | stores the period and the seed; the history is empty |
| `MovingAverage.Ema.Next` | ema.py:9-12 | returns exactly the value it stores; that value is one `Step` from the old one; after any number of calls the stored value is the left fold of the update over all closes from the seed; the period is outside the frame and never changes |
| `Timer.OnSchedule` | timer_event.py:13 | fires exactly when the second is zero and the minute is a whole multiple of `freq`; with frequency 1, at second zero of every minute; `freq == 0` is a division error |
| `Timer.Fires` | timer_event.py:10-14 | at most one callback per reading; every timestamp passed to the callback was read and satisfies `minute % freq == 0 and second == 0` |
| `Timer.FiresAppend` | timer_event.py:10-15 | polling two stretches of readings one after the other fires the callbacks of the first, then those of the second |
| `Timer.FiresExactlyOnce` | timer_event.py:13-14 | each timestamp reaches the callback exactly as many times as it is read while on schedule, and never when it is off schedule |
| `Timer.FiresComplete` | timer_event.py:13-14 | every on-schedule reading reaches the callback |
| `Timer.NoneFire` | timer_event.py:13 | readings none of which is at second zero fire nothing |
| `Timer.HourReadingsAt` | timer_event.py:11-15 | the simulated hour advances one second per poll: reading i is minute `i / 60`, second `i % 60` |
| `Timer.MinuteFires` | timer_event.py:13 | the sixty readings of one minute fire once, at second 0, if the minute is a multiple of `freq`, and otherwise never |
| `Timer.HourFiresCount` | timer_event.py:13 | polling the first m minutes second by second fires once per on-schedule minute |
| `Timer.HourFiresSixtyOverFreq` | timer_event.py:13 | over an hour polled every second with `freq` dividing 60, the callback fires exactly `60 / freq` times (60 times, once per minute at second 0, for the frequency 1 of timer_event_test.py) |
| `Timer.TwoHoursEveryFifteen` | timer_event.py:13 | two hours polled every second with frequency 15 fire exactly 8 times |
| `Timer.TimerEvent.constructor` | timer_event.py:5-7 | stores the frequency; no callback has fired yet |
| `Timer.TimerEvent.EveryNMin` | timer_event.py:9-15 | after polling the readings, the callback log has grown by exactly `Fires(freq, readings)`; the loop invariant is that the log holds the firings of the readings polled so far; the frequency is outside the frame and never changes |

## Findings

| source | as written | input that shows it | evidently intended | confidence | as-written member | corrected member |
|---|---|---|---|---|---|---|
| trade_helper.py:114 | `risk()` writes the tolerance net of two commissions back into `self._risk`, so every call lowers the stored 1R for good | a default calculator (4000, 5, 50): `risk(20)` twice gives the stop 19.8, then 19.85; `risk_stop(20, 19.8)` gives 4000 before the calls and 2000 after them | `risk()` is a query: it computes the net risk locally and leaves `_risk` alone, so repeated calls agree and `risk_stop` on its stop returns `buy * shares` | medium, not executed | `TradeHelper.GainRiskCalc.Risk`, `TradeHelper.RiskDrift` | `TradeHelper.StopOf`, `TradeHelper.StopThenCapital` |

## Left out

- The asyncio event loop, `asyncio.sleep(1)`, `run()` and `loop.close()` (timer_event.py:15-20) are asynchronous plumbing. The polling loop runs over a finite sequence of readings instead of forever.
- `datetime.datetime.now()` (timer_event.py:11) is wall-clock input. It becomes the sequence of readings. A reading keeps the hour, the minute and the second, which are all the rule and the log need.
- The callback object `_cb` is not stored. Calling it is modelled as appending the timestamp to `fired`, so a callback that raises or takes time is not modelled.
- timer_event_test.py only prints timestamps. Its frequency 1 is covered by `Timer.HourFiresSixtyOverFreq`.
- `GainRiskCalc.__repr__` (trade_helper.py:46-50) is string formatting.
- The `money` and `comm` getters (trade_helper.py:52-56, 64-68) only return a field. The model reads the fields directly.
- The `risk` property and its setter (trade_helper.py:76-86) are shadowed by the later method `risk`, so they cannot be called. The tolerance is a plain field.
- Python float rounding and overflow are not modelled. Every price and amount is an exact `real`.
- TradeHelper.GainRiskCalc.Gain and TradeHelper.GainRiskCalc.Risk use the method `num_shares` where the source calls an undefined free function. As written, both raise NameError: `gain` before computing anything, `risk` after it has lowered the stored tolerance.
