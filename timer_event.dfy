/** The clock-aligned firing rule of timer_event.py. The wall clock is a finite
    sequence of readings, one per poll, and the callback's effect is to record
    the timestamp it was called with. */
module Timer {

  /** A clock reading; only the minute and the second take part in the rule. */
  datatype Timestamp = Timestamp(hour: int, minute: int, second: int)

  /** The firing rule: the minute is a multiple of `freq` and the second is zero.
      Python raises ZeroDivisionError for `minute % 0`. */
  predicate OnSchedule(freq: int, t: Timestamp): (fires: bool)
    requires freq != 0
    ensures fires <==> t.second == 0 && t.minute == (t.minute / freq) * freq
    ensures freq == 1 ==> (fires <==> t.second == 0)
  {
    t.minute % freq == 0 && t.second == 0
  }

  /** The timestamps the callback is called with, in order, when the loop polls
      the readings of `clock` one after the other. */
  function Fires(freq: int, clock: seq<Timestamp>): (fired: seq<Timestamp>)
    requires freq != 0
    ensures |fired| <= |clock|
    ensures forall t :: t in fired ==> t in clock && OnSchedule(freq, t)
    decreases |clock|
  {
    if clock == [] then []
    else (if OnSchedule(freq, clock[0]) then [clock[0]] else []) + Fires(freq, clock[1..])
  }

  /** Polling two stretches of clock one after the other fires the callbacks of each. */
  lemma {:induction false} FiresAppend(freq: int, a: seq<Timestamp>, b: seq<Timestamp>)
    requires freq != 0
    ensures Fires(freq, a + b) == Fires(freq, a) + Fires(freq, b)
    decreases |a|
  {
    if a == [] {
      assert a + b == b;
    } else {
      assert (a + b)[0] == a[0];
      assert (a + b)[1..] == a[1..] + b;
      FiresAppend(freq, a[1..], b);
    }
  }

  /** Exactly once: each timestamp is passed to the callback as many times as it is
      read while on schedule, and never when it is read off schedule. */
  lemma {:induction false} FiresExactlyOnce(freq: int, clock: seq<Timestamp>, t: Timestamp)
    requires freq != 0
    ensures multiset(Fires(freq, clock))[t] == if OnSchedule(freq, t) then multiset(clock)[t] else 0
    decreases |clock|
  {
    if clock != [] {
      FiresExactlyOnce(freq, clock[1..], t);
      assert clock == [clock[0]] + clock[1..];
    }
  }

  /** Every on-schedule reading fires the callback. */
  lemma FiresComplete(freq: int, clock: seq<Timestamp>, i: int)
    requires freq != 0
    requires 0 <= i < |clock| && OnSchedule(freq, clock[i])
    ensures clock[i] in Fires(freq, clock)
  {
    FiresExactlyOnce(freq, clock, clock[i]);
    assert clock[i] in multiset(clock);
  }

  /** The sixty readings, one per second, of minute `minute`. */
  function MinuteReadings(hour: int, minute: int): (readings: seq<Timestamp>)
    ensures |readings| == 60
    ensures forall s :: 0 <= s < 60 ==> readings[s] == Timestamp(hour, minute, s)
  {
    seq(60, s => Timestamp(hour, minute, s))
  }

  /** The readings, one per second, of the first `minutes` minutes of hour `hour`. */
  function HourReadings(hour: int, minutes: nat): (readings: seq<Timestamp>)
    ensures |readings| == 60 * minutes
  {
    if minutes == 0 then [] else HourReadings(hour, minutes - 1) + MinuteReadings(hour, minutes - 1)
  }

  /** HourReadings is a clock that advances by one second per reading. */
  lemma {:induction false} HourReadingsAt(hour: int, minutes: nat, i: int)
    requires 0 <= i < 60 * minutes
    ensures HourReadings(hour, minutes)[i] == Timestamp(hour, i / 60, i % 60)
  {
    if i < 60 * (minutes - 1) {
      HourReadingsAt(hour, minutes - 1, i);
    }
  }

  /** A minute fires once, on its first second, if it is on schedule, else never. */
  lemma MinuteFires(freq: int, hour: int, minute: int)
    requires freq != 0
    ensures Fires(freq, MinuteReadings(hour, minute))
            == if minute % freq == 0 then [Timestamp(hour, minute, 0)] else []
  {
    var m := MinuteReadings(hour, minute);
    assert m == [m[0]] + m[1..];
    NoneFire(freq, m[1..]);
  }

  /** Readings none of which falls on second zero fire nothing. */
  lemma {:induction false} NoneFire(freq: int, clock: seq<Timestamp>)
    requires freq != 0
    requires forall i :: 0 <= i < |clock| ==> clock[i].second != 0
    ensures Fires(freq, clock) == []
    decreases |clock|
  {
    if clock != [] {
      NoneFire(freq, clock[1..]);
    }
  }

  /** How many of the minutes 0 .. minutes-1 are multiples of `freq`. */
  function OnScheduleMinutes(freq: int, minutes: nat): (count: nat)
    requires freq != 0
    ensures count <= minutes
  {
    if minutes == 0 then 0
    else OnScheduleMinutes(freq, minutes - 1) + (if (minutes - 1) % freq == 0 then 1 else 0)
  }

  /** Polling the first `minutes` minutes second by second fires once per
      on-schedule minute. */
  lemma {:induction false} HourFiresCount(freq: int, hour: int, minutes: nat)
    requires freq != 0
    ensures |Fires(freq, HourReadings(hour, minutes))| == OnScheduleMinutes(freq, minutes)
  {
    if minutes > 0 {
      HourFiresCount(freq, hour, minutes - 1);
      FiresAppend(freq, HourReadings(hour, minutes - 1), MinuteReadings(hour, minutes - 1));
      MinuteFires(freq, hour, minutes - 1);
    }
  }

  // Dafny proves this with an empty body; it is a separate lemma so that
  // ModAfterMultiples verifies on every solver seed.
  lemma MulAtLeast(k: int, f: int)
    requires k >= 1 && f > 0
    ensures k * f >= f
  {
  }

  /** The remainder of q * f + r by f is r, for 0 <= r < f. */
  lemma ModAfterMultiples(q: nat, f: int, r: int)
    requires 0 < f && 0 <= r < f
    ensures (q * f + r) % f == r
  {
    var x := q * f + r;
    var d := x / f;
    var m := x % f;
    assert x == d * f + m;
    var k := q - d;
    assert k * f == q * f - d * f;
    assert k * f == m - r;
    if k >= 1 {
      MulAtLeast(k, f);
    } else if k <= -1 {
      MulAtLeast(-k, f);
    }
  }

  /** Of the minutes q * f .. q * f + j - 1, for 1 <= j <= f, only the first is a
      multiple of f. */
  lemma {:induction false} BlockCount(f: int, q: nat, j: int)
    requires f > 0 && 1 <= j <= f
    ensures OnScheduleMinutes(f, q * f + j) == OnScheduleMinutes(f, q * f) + 1
    decreases j
  {
    ModAfterMultiples(q, f, j - 1);
    if j > 1 {
      BlockCount(f, q, j - 1);
    }
  }

  // Dafny proves this with an empty body; it is a separate lemma so that
  // MultiplesCount verifies on every solver seed.
  lemma NextMultiple(q: int, f: int)
    ensures (q - 1) * f + f == q * f
  {
  }

  /** Among the first q * f minutes, exactly q are multiples of f. */
  lemma {:induction false} MultiplesCount(f: int, q: nat)
    requires f > 0
    ensures OnScheduleMinutes(f, q * f) == q
  {
    if q > 0 {
      MultiplesCount(f, q - 1);
      BlockCount(f, q - 1, f);
      NextMultiple(q, f);
    }
  }

  /** Over a simulated hour, polled every second, with `freq` dividing 60, the
      callback fires exactly 60 / freq times; with freq 1, once per minute. */
  lemma HourFiresSixtyOverFreq(freq: int, hour: int)
    requires 0 < freq && 60 % freq == 0
    ensures |Fires(freq, HourReadings(hour, 60))| == 60 / freq
  {
    HourFiresCount(freq, hour, 60);
    assert (60 / freq) * freq == 60;
    MultiplesCount(freq, 60 / freq);
  }

  /** Two hours polled every second with frequency 15 fire eight times. */
  lemma TwoHoursEveryFifteen()
    ensures |Fires(15, HourReadings(0, 60) + HourReadings(1, 60))| == 8
  {
    FiresAppend(15, HourReadings(0, 60), HourReadings(1, 60));
    HourFiresSixtyOverFreq(15, 0);
    HourFiresSixtyOverFreq(15, 1);
  }

  /** `TimerEvent`: the frequency, and the timestamps the callback has received. */
  class TimerEvent {
    var freq: int
    var fired: seq<Timestamp>

    constructor (freq: int)
      ensures this.freq == freq && fired == []
    {
      this.freq := freq;
      fired := [];
    }

    /** `every_n_min`, over the finite run of readings `clock`: each iteration reads
        the clock once and calls back at most once. */
    method EveryNMin(clock: seq<Timestamp>)
      requires freq != 0
      modifies this`fired
      ensures fired == old(fired) + Fires(freq, clock)
    {
      var i := 0;
      while i < |clock|
        invariant 0 <= i <= |clock|
        invariant fired == old(fired) + Fires(freq, clock[..i])
      {
        var now := clock[i];
        if OnSchedule(freq, now) {
          fired := fired + [now];
        }
        assert clock[..i + 1] == clock[..i] + [now];
        FiresAppend(freq, clock[..i], [now]);
        i := i + 1;
      }
      assert clock[..i] == clock;
    }
  }
}
