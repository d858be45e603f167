/** The throttle that keeps a goroutine to a share r of the time. Times are nanoseconds. */
module Throttle {

  /** A clock that never goes back, and a sleep that lasts at least as long as asked. */
  class Clock {
    var now: int
    ghost var asked: seq<int>  // the sleeps asked for so far

    constructor (start: int)
      ensures now == start && asked == []
    {
      now := start;
      asked := [];
    }

    method Now() returns (t: int)
      modifies `now
      ensures t == now >= old(now)
    {
      var passed :| 0 <= passed;
      now := now + passed;
      t := now;
    }

    method Sleep(d: int)
      requires d > 0
      modifies this
      ensures now >= old(now) + d && asked == old(asked) + [d]
    {
      asked := asked + [d];
      var late :| 0 <= late;
      now := now + d + late;
    }
  }

  /** The factor between running and sleeping; negative for "always sleep". */
  function Factor(r: real): real {
    if r <= 0.0 then -1.0 else if r >= 1.0 then 0.0 else (1.0 - r) / r
  }

  /** A truncated share of a time. */
  function Share(tr: int, f: real): int {
    (tr as real * f).Floor
  }

  class Throttle {
    const f: real
    const dt: int
    var trg: bool
    var tr: int   // accumulated time running
    var ts: int   // accumulated time stopped
    var tt: int   // earliest throttle time
    ghost const created: int

    /** All time since creation, up to the last return that slept or might have, is accounted
        for, and enough of it was spent sleeping. */
    ghost predicate Valid()
      reads this
    {
      dt >= 0 && tr >= 0 && ts >= 0 &&
      tr + ts == tt - dt - created &&
      (f >= 0.0 ==> ts as real > f * (tr as real) - 1.0)
    }

    constructor (r: real, dt: int, clock: Clock)
      modifies clock
      ensures Valid() && f == Factor(r) && this.dt == (if dt < 0 then 0 else dt) && !trg
      ensures created == clock.now >= old(clock.now) && tr == ts == 0 && clock.asked == old(clock.asked)
    {
      var slice := if dt < 0 then 0 else dt;
      var now := clock.Now();
      f := Factor(r);
      this.dt := slice;
      trg, tr, ts, tt := false, 0, 0, now + slice;
      created := now;
    }

    /** Give way if the time slice is used up. The result is false if it never returns. */
    method Call(clock: Clock) returns (comesBack: bool)
      requires Valid()
      modifies this, clock
      ensures Valid() && clock.now >= old(clock.now)
      ensures comesBack <==> f >= 0.0
      ensures trg <==> !comesBack
      // asleep for ever, or before the end of the time slice: nothing changes
      ensures f < 0.0 || clock.now < old(tt) ==>
                tr == old(tr) && ts == old(ts) && tt == old(tt) && clock.asked == old(clock.asked)
      // otherwise the time since the last return is accounted for, and the sleep asked for
      // is what brings the shares of running and sleeping to r and 1 - r
      ensures f >= 0.0 && old(clock.now) >= old(tt) ==>
                tt == clock.now + dt && tr >= old(tr) + dt && ts >= old(ts) && Share(tr, f) <= ts &&
                clock.asked == old(clock.asked) + (if Share(tr, f) > old(ts) then [Share(tr, f) - old(ts)] else [])
    {
      trg := true;
      if f < 0.0 {
        return false;
      }
      var t0 := clock.Now();
      if t0 < tt {
        trg := false;
        return true;
      }
      tr := tr + (t0 - tt) + dt;
      var ds := Share(tr, f) - ts;
      if ds > 0 {
        clock.Sleep(ds);
      }
      var t1 := clock.Now();
      ts := ts + (t1 - t0);
      tt := t1 + dt;
      trg := false;
      return true;
    }
  }

  /** The duty bound: whenever it is looked at, the time running is at most the share r of
      the time accounted for, but for less than a nanosecond. */
  lemma DutyBound(t: Throttle, r: real)
    requires t.Valid() && 0.0 < r < 1.0 && t.f == Factor(r)
    ensures t.tr as real < r * (t.tr as real + t.ts as real + 1.0)
  {
    var tr, ts := t.tr as real, t.ts as real;
    assert r * t.f == 1.0 - r;
    Scale(r, ts, t.f * tr - 1.0);
    assert r * (t.f * tr) == (1.0 - r) * tr;
  }

  /** A share of nothing or less never returns; one of all or more never asks for sleep; and any
      other is the share of running in running and sleeping. */
  lemma FactorIs(r: real, tr: nat)
    ensures Factor(r) < 0.0 <==> r <= 0.0
    ensures r >= 1.0 ==> Share(tr, Factor(r)) == 0
    ensures 0.0 < r < 1.0 ==> Factor(r) > 0.0 && r * (1.0 + Factor(r)) == 1.0
  {
    if 0.0 < r < 1.0 {
      assert Factor(r) == (1.0 - r) / r > 0.0;
      assert r * Factor(r) == 1.0 - r;
    }
  }

  lemma Scale(r: real, a: real, b: real)
    requires r > 0.0 && a > b
    ensures r * a > r * b
  {
  }
}
