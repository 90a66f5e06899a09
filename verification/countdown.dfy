/**
 The wedding page's countdown: once a second the time left until the
 target date is split into days, hours, minutes and seconds, and the
 display keeps its previous values once the target has passed. Times are
 integers of milliseconds; the clock reading is an input.
 */
module Countdown {

  const MsPerSecond := 1000
  const MsPerMinute := 60 * MsPerSecond
  const MsPerHour := 60 * MsPerMinute
  const MsPerDay := 24 * MsPerHour

  datatype TimeLeft = TimeLeft(days: int, hours: int, minutes: int, seconds: int)

  /** The state before the first tick. */
  const Initial := TimeLeft(0, 0, 0, 0)

  /** The milliseconds a display stands for. */
  function Total(t: TimeLeft): int {
    t.days * MsPerDay + t.hours * MsPerHour + t.minutes * MsPerMinute + t.seconds * MsPerSecond
  }

  /** A display whose hours, minutes and seconds are within their clock
      ranges. */
  predicate InRange(t: TimeLeft) {
    t.days >= 0 && 0 <= t.hours < 24 && 0 <= t.minutes < 60 && 0 <= t.seconds < 60
  }

  lemma MulAtLeast(k: int, d: int)
    requires k >= 1 && d > 0
    ensures k * d >= d
  {
    assert k * d == d + (k - 1) * d;
  }

  /** Division with remainder has one answer. */
  lemma DivModUnique(a: int, d: int, q: int, r: int)
    requires d > 0 && 0 <= r < d && a == q * d + r
    ensures q == a / d && r == a % d
  {
    var q0, r0 := a / d, a % d;
    if q > q0 {
      MulAtLeast(q - q0, d);
    } else if q < q0 {
      MulAtLeast(q0 - q, d);
    }
  }

  /** The remainder by a multiple of `m` keeps the remainder by `m`. */
  lemma ModOfMod(a: nat, k: nat, m: nat)
    requires k > 0 && m > 0
    ensures (a % (k * m)) % m == a % m
    ensures (a % (k * m)) / m < k
  {
    var q, r := a / (k * m), a % (k * m);
    assert a == q * (k * m) + r;
    DivModUnique(r, m, r / m, r % m);
    DivModUnique(a, m, q * k + r / m, r % m) by {
      assert a == (q * k + r / m) * m + r % m by {
        assert q * (k * m) == (q * k) * m;
        assert r == (r / m) * m + r % m;
      }
    }
  }

  /** `diff` milliseconds as days, hours, minutes and seconds, each the
      floor of its quotient (`Math.floor` of a positive number is integer
      division). */
  function Decompose(diff: nat): (t: TimeLeft)
    ensures InRange(t)
    ensures t.days == diff / MsPerDay
    ensures Total(t) <= diff < Total(t) + MsPerSecond
  {
    var t := TimeLeft(diff / MsPerDay, (diff % MsPerDay) / MsPerHour,
                      (diff % MsPerHour) / MsPerMinute, (diff % MsPerMinute) / MsPerSecond);
    ModOfMod(diff, 24, MsPerHour);
    ModOfMod(diff, 60, MsPerMinute);
    ModOfMod(diff, 60, MsPerSecond);
    assert diff == t.days * MsPerDay + diff % MsPerDay;
    assert diff % MsPerDay == t.hours * MsPerHour + diff % MsPerHour;
    assert diff % MsPerHour == t.minutes * MsPerMinute + diff % MsPerMinute;
    assert diff % MsPerMinute == t.seconds * MsPerSecond + diff % MsPerSecond;
    t
  }

  /** One tick of the interval timer: a new display while the target is
      ahead, the previous one otherwise. */
  function Tick(prev: TimeLeft, target: int, now: int): (t: TimeLeft)
    ensures target - now <= 0 ==> t == prev
    ensures target - now > 0 ==> InRange(t) && Total(t) <= target - now < Total(t) + MsPerSecond
  {
    var diff := target - now;
    if diff > 0 then Decompose(diff) else prev
  }

  /** The whole seconds a display stands for. */
  function Seconds(t: TimeLeft): int {
    ((t.days * 24 + t.hours) * 60 + t.minutes) * 60 + t.seconds
  }

  lemma TotalIsSeconds(t: TimeLeft)
    ensures Total(t) == Seconds(t) * MsPerSecond
  {
  }

  /** Two in-range displays of the same number of seconds are the same. */
  lemma InRangeUnique(t: TimeLeft, u: TimeLeft)
    requires InRange(t) && InRange(u) && Seconds(t) == Seconds(u)
    ensures t == u
  {
    var m := (t.days * 24 + t.hours) * 60 + t.minutes;
    var n := (u.days * 24 + u.hours) * 60 + u.minutes;
    DivModUnique(Seconds(t), 60, m, t.seconds);
    DivModUnique(Seconds(u), 60, n, u.seconds);
    DivModUnique(m, 60, t.days * 24 + t.hours, t.minutes);
    DivModUnique(n, 60, u.days * 24 + u.hours, u.minutes);
    DivModUnique(t.days * 24 + t.hours, 24, t.days, t.hours);
    DivModUnique(u.days * 24 + u.hours, 24, u.days, u.hours);
  }

  /** The decomposition is the only in-range display within a second below
      `diff`. */
  lemma DecomposeUnique(diff: nat, t: TimeLeft)
    requires InRange(t) && Total(t) <= diff < Total(t) + MsPerSecond
    ensures t == Decompose(diff)
  {
    var s := Decompose(diff);
    TotalIsSeconds(t);
    TotalIsSeconds(s);
    DivModUnique(diff, MsPerSecond, Seconds(t), diff - Total(t));
    DivModUnique(diff, MsPerSecond, Seconds(s), diff - Total(s));
    InRangeUnique(t, s);
  }

  /** The display rounds the time left down to the whole second. */
  lemma TotalOfDecompose(diff: nat)
    ensures Total(Decompose(diff)) == diff - diff % MsPerSecond
  {
    var t := Decompose(diff);
    TotalIsSeconds(t);
    DivModUnique(diff, MsPerSecond, Seconds(t), diff - Total(t));
  }

  /** As the clock advances toward the target the display never goes up;
      after the target has passed it stays where it was. */
  lemma TickNeverIncreases(prev: TimeLeft, target: int, now: int, later: int)
    requires now <= later
    ensures Total(Tick(Tick(prev, target, now), target, later)) <= Total(Tick(prev, target, now))
  {
    var first := Tick(prev, target, now);
    if target - later > 0 {
      TotalOfDecompose(target - now);
      TotalOfDecompose(target - later);
      var a, b := target - later, target - now;
      assert a / MsPerSecond <= b / MsPerSecond;
      assert a - a % MsPerSecond == (a / MsPerSecond) * MsPerSecond;
      assert b - b % MsPerSecond == (b / MsPerSecond) * MsPerSecond;
    }
  }

  /** In the last second before the target every tick shows zero. */
  lemma LastSecondShowsZero(prev: TimeLeft, target: int, now: int)
    requires 0 < target - now < MsPerSecond
    ensures Tick(prev, target, now) == Initial
  {
    DecomposeUnique(target - now, Initial);
  }
}
