/**
 The retry policy of conflicting commits: a bound on retries, growing waits with a random share, and
 a bound on the total. Durations are nanoseconds; the clock is an object that moves on by itself.
 */
module CommitRetry {
  import opened NullRate

  const MILLI: nat := 1_000_000
  const MAX_MILLIS: nat := 0x1_0000_0000_0000_0000 - 1
  /** The longest duration there is: 2^64 seconds less one nanosecond. */
  const MAX_DURATION: nat := 0x1_0000_0000_0000_0000 * 1_000_000_000 - 1

  function Min(a: nat, b: nat): nat {
    if a <= b then a else b
  }

  function Saturating(n: nat): nat {
    Min(n, MAX_DURATION)
  }

  function Pow2(n: nat): nat {
    if n == 0 then 1 else 2 * Pow2(n - 1)
  }

  function Clamp(unit: real): real {
    if unit < 0.0 then 0.0 else if unit > 1.0 then 1.0 else unit
  }

  /** To the nearest whole number, a half to the even one. */
  function ToEven(x: real): int {
    var below := x - x.Floor as real;
    if below < 0.5 || (below == 0.5 && x.Floor % 2 == 0) then x.Floor else x.Floor + 1
  }

  /** A duration in seconds, as it is computed: its seconds, and its nanoseconds over 10^9. */
  function Seconds(fl: real -> real, n: nat): real {
    fl(fl((n / 1_000_000_000) as real) + fl((n % 1_000_000_000) as real / 1000000000.0))
  }

  /** A share of a duration: a product of seconds, then to the nearest nanosecond. */
  function Share(fl: real -> real, base: nat, unit: real): int {
    ToEven(fl(Times(unit, Seconds(fl, base))) * 1000000000.0)
  }

  /** The most that a share can come out above its whole: nothing up to 2^50 nanoseconds (thirteen
      days), and one part in 2^51 and a nanosecond beyond. */
  function Excess(base: nat): nat {
    if base < 0x4_0000_0000_0000 then 0 else base / 0x8_0000_0000_0000 + 1
  }

  /** The table's retry properties, given in milliseconds of 64 bits. */
  datatype Policy = Policy(retries: nat, minWait: nat, maxWait: nat, total: nat) {
    ghost predicate InMillis() {
      minWait <= MAX_MILLIS * MILLI && maxWait <= MAX_MILLIS * MILLI && total <= MAX_MILLIS * MILLI
    }

    function Doubled(retried: nat): nat {
      minWait * Pow2(Min(retried, 31))
    }

    /** The wait before retry `retried + 1`, without its random share. */
    function Base(retried: nat): nat {
      Min(Saturating(Doubled(retried)), maxWait)
    }

    function WaitFor(fl: real -> real, retried: nat, unit: real): nat
      requires Rounds(fl)
    {
      var base := Base(retried);
      ShareBounds(fl, base, Clamp(unit));
      Min(Saturating(base + Share(fl, base, Clamp(unit))), maxWait)
    }
  }

  lemma RoundedUp(fl: real -> real, x: real)
    requires Rounds(fl) && x >= 0.0
    ensures 0.0 <= fl(x) && fl(x) * 9007199254740992.0 <= x * 9007199254740993.0
  {
    assert Within(fl(x), x);
  }

  lemma NotBelow(a: real, b: real)
    requires a >= 0.0 && b >= 0.0
    ensures a * b >= 0.0
  {
  }

  lemma PartOf(unit: real, x: real)
    requires 0.0 <= unit <= 1.0 && x >= 0.0
    ensures 0.0 <= Times(unit, x) <= x
  {
    NotBelow(unit, x);
    NotBelow(1.0 - unit, x);
    assert unit * x == x - (1.0 - unit) * x;
  }

  lemma SecondsBound(fl: real -> real, n: nat)
    requires Rounds(fl)
    ensures 0.0 <= Seconds(fl, n)
    ensures Seconds(fl, n) * 9007199254740992.0 * 9007199254740992.0
            <= (n as real / 1000000000.0) * 9007199254740993.0 * 9007199254740993.0
  {
    var (s, r) := ((n / 1_000_000_000) as real, (n % 1_000_000_000) as real / 1000000000.0);
    assert s + r == n as real / 1000000000.0 by {
      assert n == n / 1_000_000_000 * 1_000_000_000 + n % 1_000_000_000;
    }
    RoundedUp(fl, s);
    RoundedUp(fl, r);
    RoundedUp(fl, fl(s) + fl(r));
  }

  /** A share is not below nothing, and above its whole by no more than the excess. */
  lemma ShareBounds(fl: real -> real, base: nat, unit: real)
    requires Rounds(fl) && 0.0 <= unit <= 1.0
    ensures 0 <= Share(fl, base, unit) <= base + Excess(base)
  {
    var (a, b) := (Seconds(fl, base), base as real);
    SecondsBound(fl, base);
    PartOf(unit, a);
    RoundedUp(fl, Times(unit, a));
    var x := fl(Times(unit, a)) * 1000000000.0;
    ProductBound(a, fl(Times(unit, a)), b);
    NearestBound(x, base);
  }

  lemma ProductBound(a: real, p: real, b: real)
    requires b >= 0.0 && p * 9007199254740992.0 <= a * 9007199254740993.0
    requires a * 9007199254740992.0 * 9007199254740992.0 <= (b / 1000000000.0) * 9007199254740993.0 * 9007199254740993.0
    ensures p * 1000000000.0 <= b + b / 2251799813685248.0
  {
  }

  lemma NearestBound(x: real, base: nat)
    requires 0.0 <= x <= base as real + base as real / 2251799813685248.0
    ensures 0 <= ToEven(x) <= base + Excess(base)
  {
    var q := base / 0x8_0000_0000_0000;
    assert base as real / 2251799813685248.0 < (q + 1) as real;
    assert ToEven(x) as real <= x + 0.5;
  }

  lemma RoundedDown(fl: real -> real, x: real)
    requires Rounds(fl) && x >= 0.0
    ensures fl(x) * 9007199254740992.0 >= x * 9007199254740991.0
  {
    assert Within(fl(x), x);
  }

  lemma SecondsAtLeast(fl: real -> real, n: nat)
    requires Rounds(fl)
    ensures Seconds(fl, n) * 9007199254740992.0 * 9007199254740992.0
            >= (n as real / 1000000000.0) * 9007199254740991.0 * 9007199254740991.0
  {
    var (s, r) := ((n / 1_000_000_000) as real, (n % 1_000_000_000) as real / 1000000000.0);
    assert s + r == n as real / 1000000000.0 by {
      assert n == n / 1_000_000_000 * 1_000_000_000 + n % 1_000_000_000;
    }
    RoundedUp(fl, s);
    RoundedUp(fl, r);
    RoundedDown(fl, s);
    RoundedDown(fl, r);
    RoundedDown(fl, fl(s) + fl(r));
  }

  lemma PartsInOrder(unit: real, x: real, y: real, k: real, l: real)
    requires 0.0 <= unit && x * k <= y * l
    ensures Times(unit, x) * k <= Times(unit, y) * l
  {
    assert Times(unit, x) * k == unit * (x * k) && Times(unit, y) * l == unit * (y * l);
    assert unit * (y * l - x * k) >= 0.0;
  }

  /** The product a share is rounded from, `t`, and what it stands for, `u`. */
  lemma PartOfSeconds(fl: real -> real, base: nat, unit: real) returns (t: real, u: real)
    requires Rounds(fl) && 0.0 <= unit <= 1.0
    ensures Share(fl, base, unit) == ToEven(fl(t) * 1000000000.0)
    ensures u * 1000000000.0 == Times(unit, base as real)
    ensures t * (9007199254740992.0 * 9007199254740992.0) <= u * (9007199254740993.0 * 9007199254740993.0)
    ensures u * (9007199254740991.0 * 9007199254740991.0) <= t * (9007199254740992.0 * 9007199254740992.0)
    ensures 0.0 <= t && 0.0 <= u <= base as real / 1000000000.0
  {
    var (a, b) := (Seconds(fl, base), base as real / 1000000000.0);
    t, u := Times(unit, a), Times(unit, b);
    SecondsBound(fl, base);
    SecondsAtLeast(fl, base);
    PartBetween(unit, a, b);
    InSeconds(unit, base as real);
  }

  lemma PartBetween(unit: real, a: real, b: real)
    requires 0.0 <= unit <= 1.0 && 0.0 <= a && 0.0 <= b
    requires a * 9007199254740992.0 * 9007199254740992.0 <= b * 9007199254740993.0 * 9007199254740993.0
    requires b * 9007199254740991.0 * 9007199254740991.0 <= a * 9007199254740992.0 * 9007199254740992.0
    ensures var (t, u) := (Times(unit, a), Times(unit, b));
      && t * (9007199254740992.0 * 9007199254740992.0) <= u * (9007199254740993.0 * 9007199254740993.0)
      && u * (9007199254740991.0 * 9007199254740991.0) <= t * (9007199254740992.0 * 9007199254740992.0)
      && 0.0 <= t && 0.0 <= u <= b
  {
    PartsInOrder(unit, a, b, 9007199254740992.0 * 9007199254740992.0, 9007199254740993.0 * 9007199254740993.0);
    PartsInOrder(unit, b, a, 9007199254740991.0 * 9007199254740991.0, 9007199254740992.0 * 9007199254740992.0);
    PartOf(unit, a);
    PartOf(unit, b);
  }

  lemma InSeconds(unit: real, x: real)
    ensures Times(unit, x / 1000000000.0) * 1000000000.0 == Times(unit, x)
  {
    var y := x / 1000000000.0;
    assert unit * x == unit * (y * 1000000000.0) == (unit * y) * 1000000000.0;
  }

  /** A share is that part of its whole, to the half nanosecond it is rounded by and one part in 2^51
      of the whole. */
  lemma ShareNear(fl: real -> real, base: nat, unit: real)
    requires Rounds(fl) && 0.0 <= unit <= 1.0
    ensures Abs(Share(fl, base, unit) as real - Times(unit, base as real)) <= 0.5 + base as real / 2251799813685248.0
  {
    var t, u := PartOfSeconds(fl, base, unit);
    NearOnceRounded(fl, t, u, base as real);
  }

  lemma NearOnceRounded(fl: real -> real, t: real, u: real, base: real)
    requires Rounds(fl) && 0.0 <= t && 0.0 <= u <= base / 1000000000.0
    requires t * (9007199254740992.0 * 9007199254740992.0) <= u * (9007199254740993.0 * 9007199254740993.0)
    requires u * (9007199254740991.0 * 9007199254740991.0) <= t * (9007199254740992.0 * 9007199254740992.0)
    ensures Abs(ToEven(fl(t) * 1000000000.0) as real - u * 1000000000.0) <= 0.5 + base / 2251799813685248.0
  {
    RoundedUp(fl, t);
    RoundedDown(fl, t);
    RoundedNear(fl(t), t, u, base);
  }

  lemma RoundedNear(p: real, t: real, u: real, base: real)
    requires 0.0 <= t && 0.0 <= u && u * 1000000000.0 <= base
    requires t * 9007199254740991.0 <= p * 9007199254740992.0 <= t * 9007199254740993.0
    requires t * (9007199254740992.0 * 9007199254740992.0) <= u * (9007199254740993.0 * 9007199254740993.0)
    requires u * (9007199254740991.0 * 9007199254740991.0) <= t * (9007199254740992.0 * 9007199254740992.0)
    ensures Abs(ToEven(p * 1000000000.0) as real - u * 1000000000.0) <= 0.5 + base / 2251799813685248.0
  {
    var x := p * 1000000000.0;
    assert Abs(ToEven(x) as real - x) <= 0.5;
  }

  /** Every wait is at least its base and at most twice it, to the excess of a share above its whole,
      and never more than the maximum. */
  lemma WaitBounds(p: Policy, fl: real -> real, retried: nat, unit: real)
    requires p.InMillis() && Rounds(fl)
    ensures p.Base(retried) == Min(p.minWait * Pow2(Min(retried, 31)), p.maxWait)
    ensures p.Base(retried) <= p.WaitFor(fl, retried, unit)
    ensures p.WaitFor(fl, retried, unit) <= Min(2 * p.Base(retried) + Excess(p.Base(retried)), p.maxWait)
  {
    ShareBounds(fl, p.Base(retried), Clamp(unit));
  }

  /** A wait below the maximum is the base and the random share of it, to within `near`; one that is
      the maximum would have been no shorter than that but for `near`. */
  lemma WaitNear(p: Policy, fl: real -> real, retried: nat, unit: real)
    requires p.InMillis() && Rounds(fl) && 0.0 <= unit <= 1.0
    ensures var (wait, base) := (p.WaitFor(fl, retried, unit), p.Base(retried) as real);
            var (whole, near) := (base + Times(unit, base), 0.5 + base / 2251799813685248.0);
            if wait < p.maxWait then Abs(wait as real - whole) <= near else whole >= p.maxWait as real - near
  {
    ShareBounds(fl, p.Base(retried), unit);
    ShareNear(fl, p.Base(retried), unit);
  }

  /** Doubles from 2^23 up to 2^24 are the multiples of 2^-29; nothing else is rounded here. */
  function OnGrid(x: real): real {
    if 8388608.0 <= x < 16777216.0 then ToEven(x * 536870912.0) as real / 536870912.0 else x
  }

  lemma OnGridRounds()
    ensures Rounds(OnGrid)
  {
    forall x
      ensures Within(OnGrid(x), x)
    {
      var y := ToEven(x * 536870912.0) as real;
      assert -0.5 <= y - x * 536870912.0 <= 0.5;
    }
  }

  /** A base of 2^23 seconds and four milliseconds, with the whole of it as its random share, makes a
      wait of more than twice the base. */
  lemma WaitPastTwice()
    ensures Rounds(OnGrid)
    ensures var p := Policy(1, 8_388_608_004 * MILLI, MAX_MILLIS * MILLI, MAX_MILLIS * MILLI);
            p.InMillis() && p.WaitFor(OnGrid, 0, 1.0) == 2 * p.Base(0) + 1
  {
    OnGridRounds();
    var base := 8_388_608_004 * MILLI;
    var x := 8388608.0 + 2147484.0 / 536870912.0;
    assert base / 1_000_000_000 == 8_388_608 && base % 1_000_000_000 == 4_000_000;
    assert OnGrid(8388608.0) == 8388608.0;
    assert OnGrid(8388608.0 + 0.004) == x;
    assert OnGrid(x) == x;
    assert Seconds(OnGrid, base) == x;
    assert Times(1.0, x) == x;
    assert Share(OnGrid, base, 1.0) == base + 1;
    assert Pow2(0) == 1;
  }

  lemma {:induction false} Pow2Grows(a: nat, b: nat)
    requires a <= b
    ensures 1 <= Pow2(a) <= Pow2(b)
    decreases b
  {
    if b > 0 {
      if a == b {
        Pow2Grows(a - 1, b - 1);
      } else {
        Pow2Grows(a, b - 1);
      }
    }
  }

  lemma ProductGrows(m: nat, x: nat, y: nat)
    requires x <= y
    ensures m * x <= m * y
  {
    assert m * y == m * x + m * (y - x);
  }

  lemma DoubledGrows(p: Policy, a: nat, b: nat)
    requires a <= b
    ensures p.Doubled(a) <= p.Doubled(b)
  {
    Pow2Grows(Min(a, 31), Min(b, 31));
    ProductGrows(p.minWait, Pow2(Min(a, 31)), Pow2(Min(b, 31)));
  }

  /** It is the minimum wait, doubled for each of the first 31 retries, and never above the maximum. */
  lemma BaseDoubles(p: Policy, retried: nat)
    requires p.InMillis()
    ensures p.Base(0) == Min(p.minWait, p.maxWait)
    ensures p.Base(retried + 1) == if retried < 31 then Min(2 * p.Base(retried), p.maxWait) else p.Base(retried)
  {
    var n := Min(retried, 31);
    assert Pow2(0) == 1;
    if retried < 31 {
      assert Pow2(n + 1) == 2 * Pow2(n);
      assert p.minWait * (2 * Pow2(n)) == 2 * (p.minWait * Pow2(n));
    }
  }

  lemma CappedGrows(x: nat, y: nat, most: nat)
    requires x <= y
    ensures Min(Saturating(x), most) <= Min(Saturating(y), most)
  {
  }

  /** The base never decreases as retries are used. */
  lemma BaseGrows(p: Policy, a: nat, b: nat)
    requires a <= b
    ensures p.Base(a) <= p.Base(b)
  {
    DoubledGrows(p, a, b);
    CappedGrows(p.Doubled(a), p.Doubled(b), p.maxWait);
  }

  function SumOf(delays: seq<nat>): nat {
    if delays == [] then 0 else delays[0] + SumOf(delays[1..])
  }

  /** The random share drawn for a retry. */
  function UnitAt(units: seq<real>, retried: nat): real {
    if retried < |units| then units[retried] else 0.0
  }

  /** A clock: it moves on by some delay whenever it is read, and by at least what is slept. */
  class Clock {
    var now: nat
    var delays: seq<nat>

    constructor (now: nat, delays: seq<nat>)
      ensures this.now == now && this.delays == delays
    {
      this.now, this.delays := now, delays;
    }

    /** The latest it can come to show, if nothing sleeps: now, and every delay still to come. */
    ghost function Horizon(): nat
      reads this
    {
      now + SumOf(delays)
    }

    method Read() returns (t: nat)
      modifies this
      ensures t == now && now >= old(now) && Horizon() == old(Horizon())
    {
      Pass();
      t := now;
    }

    method Sleep(wait: nat)
      modifies this
      ensures now >= old(now) + wait && Horizon() == old(Horizon()) + wait
    {
      now := now + wait;
      Pass();
    }

    method Pass()
      modifies this
      ensures now >= old(now) && Horizon() == old(Horizon())
    {
      if delays != [] {
        now, delays := now + delays[0], delays[1..];
      }
    }
  }

  /** The wait before each retry a policy allows. */
  ghost function Waits(p: Policy, fl: real -> real, units: seq<real>): seq<nat>
    requires Rounds(fl)
  {
    seq(p.retries, k requires 0 <= k < p.retries => p.WaitFor(fl, k, UnitAt(units, k)))
  }

  lemma SumFrom(waits: seq<nat>, k: nat)
    requires k < |waits|
    ensures SumOf(waits[k..]) == waits[k] + SumOf(waits[k + 1..])
  {
    assert waits[k..][1..] == waits[k + 1..];
  }

  /** One commit's use of a policy, from its first attempt on. `waited` is the sum of its waits. */
  class Retrying {
    const policy: Policy
    const started: nat
    const clock: Clock
    const fl: real -> real
    var retried: nat
    ghost var waited: nat

    ghost predicate Valid()
      reads this, clock
    {
      && policy.InMillis()
      && Rounds(fl)
      && retried <= policy.retries
      && started + waited <= clock.now
      && waited <= policy.total
    }

    constructor (policy: Policy, clock: Clock, fl: real -> real)
      requires policy.InMillis() && Rounds(fl)
      ensures Valid() && this.policy == policy && this.clock == clock && this.fl == fl && retried == 0 && waited == 0
    {
      this.policy, this.clock, this.fl, started := policy, clock, fl, clock.now;
      retried, waited := 0, 0;
    }

    /** Decides whether to try again, and if so sleeps first. It does exactly when a retry is left and
        the time spent by the moment it looks at the clock (`read`), with the wait, is within the
        policy's total. */
    method Wait(unit: real) returns (again: bool, ghost read: nat)
      requires Valid()
      modifies this, clock
      ensures Valid()
      ensures again ==> retried == old(retried) + 1
      ensures again ==> waited == old(waited) + policy.WaitFor(fl, old(retried), unit)
      ensures !again ==> retried == old(retried) && waited == old(waited)
      ensures old(clock.now) <= read <= clock.now
      ensures again <==> old(retried) < policy.retries
                         && (read - started) + policy.WaitFor(fl, old(retried), unit) <= policy.total
      ensures again ==> clock.now >= read + policy.WaitFor(fl, old(retried), unit)
      ensures !again ==> clock.now == read
      ensures clock.Horizon() ==
              old(clock.Horizon()) + if again then policy.WaitFor(fl, old(retried), unit) else 0
    {
      read := clock.now;
      if retried >= policy.retries {
        return false, read;
      }
      var wait := policy.WaitFor(fl, retried, unit);
      WaitBounds(policy, fl, retried, unit);
      var now := clock.Read();
      read := now;
      if Saturating((now - started) + wait) > policy.total {
        return false, read;
      }
      retried := retried + 1;
      waited := waited + wait;
      clock.Sleep(wait);
      again := true;
    }

    /** No retry is left, or the time spent with the wait for the next is over the policy's total. */
    ghost predicate Exhausted(units: seq<real>)
      requires Rounds(fl)
      reads this, clock
    {
      retried == policy.retries
      || (clock.now - started) + policy.WaitFor(fl, retried, UnitAt(units, retried)) > policy.total
    }

    /** Every wait still allowed fits in the policy's total, whatever the delays. */
    ghost predicate OnTime(units: seq<real>)
      requires Rounds(fl)
      reads this, clock
    {
      retried <= policy.retries
      && (clock.Horizon() - started) + SumOf(Waits(policy, fl, units)[retried..]) <= policy.total
    }

    /** Waits for the next retry, if there is one: refused only when exhausted, and never while every
        wait fits and a retry is left. */
    method WaitNext(units: seq<real>) returns (again: bool)
      requires Valid()
      modifies this, clock
      ensures Valid()
      ensures retried == old(retried) + if again then 1 else 0
      ensures !again ==> Exhausted(units)
      ensures old(OnTime(units)) ==> OnTime(units) && (again <==> old(retried) < policy.retries)
    {
      if retried < policy.retries {
        SumFrom(Waits(policy, fl, units), retried);
      }
      var more, _ := Wait(UnitAt(units, retried));
      again := more;
    }

    /** How many attempts there have been. */
    function Attempts(): nat
      reads this
    {
      retried + 1
    }
  }
}
