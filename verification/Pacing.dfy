/** Spacing of requests to Forgejo.

    Callers reserve their start times one after another under a mutex, so any
    interleaving of callers is some sequence of reservations; their clock
    readings may come in any order. */
module Pacing {

  /** Times in nanoseconds; `last` is the latest reserved start. */
  class Pacer {
    const interval: int
    var last: int

    constructor (interval: int, last: int)
      ensures this.interval == interval && this.last == last
    {
      this.interval, this.last := interval, last;
    }

    /** Reserves a start and says how long to sleep before it; without pacing, no wait at all. */
    method Reserve(now: int) returns (wait: int)
      modifies this
      ensures interval <= 0 ==> wait == 0 && last == old(last)
      ensures interval > 0 ==> wait >= 0 && last == now + wait && last == NextSlot(old(last), now, interval)
      ensures interval > 0 ==> last >= old(last) + interval && (last == now || last == old(last) + interval)
    {
      if interval <= 0 { return 0; }
      wait := interval - (now - last);
      if wait > 0 {
        last := now + wait;
      } else {
        last := now;
        wait := 0;
      }
    }
  }

  /** The later of the clock and one interval after the previous start. */
  function NextSlot(last: int, now: int, interval: int): int
  {
    if last + interval > now then last + interval else now
  }

  /** The earliest start that is not in the past and one interval after the previous one. */
  lemma NextSlotIsEarliest(last: int, now: int, interval: int, t: int)
    ensures NextSlot(last, now, interval) <= t <==> now <= t && last + interval <= t
  {
  }

  /** The starts reserved by any sequence of callers. */
  ghost predicate AreSlots(slots: seq<int>, clock: seq<int>, first: int, interval: int)
  {
    && |slots| == |clock|
    && forall i :: 0 <= i < |slots| ==> slots[i] == NextSlot(if i == 0 then first else slots[i - 1], clock[i], interval)
  }

  lemma {:induction false} SlotsAreApart(slots: seq<int>, clock: seq<int>, first: int, interval: int, i: nat, j: nat)
    requires AreSlots(slots, clock, first, interval) && interval > 0 && i <= j < |slots|
    ensures slots[j] >= slots[i] + (j - i) * interval
    decreases j
  {
    if i < j {
      SlotsAreApart(slots, clock, first, interval, i, j - 1);
      assert (j - i) * interval == (j - 1 - i) * interval + interval;
    }
  }

  /** The reservations that start in the window of this length. */
  ghost function InWindow(slots: seq<int>, start: int, length: int): set<int>
  {
    set i | 0 <= i < |slots| && start <= slots[i] < start + length
  }

  lemma {:induction false} RangeSize(s: set<int>, low: int, high: int)
    requires low <= high && forall i :: i in s ==> low <= i < high
    ensures |s| <= high - low
    decreases high - low
  {
    if low < high {
      RangeSize(s - {high - 1}, low, high - 1);
      assert |s| <= |s - {high - 1}| + 1 by {
        if high - 1 in s { assert s == (s - {high - 1}) + {high - 1}; } else { assert s == s - {high - 1}; }
      }
    } else {
      assert s == {};
    }
  }

  lemma {:induction false} Least(s: set<int>) returns (m: int)
    requires exists i :: i in s
    ensures m in s && forall i :: i in s ==> m <= i
    decreases |s|
  {
    m :| m in s;
    assert forall i :: i in s && i != m ==> i in s - {m};
    if i :| i in s - {m} {
      var n := Least(s - {m});
      assert s == (s - {m}) + {m};
      if n < m { m := n; }
    }
  }

  function CeilDiv(a: int, b: int): int
    requires a >= 0 && b > 0
  {
    (a + b - 1) / b
  }

  lemma BelowCeil(k: int, length: int, interval: int)
    requires length > 0 && interval > 0 && k >= 0 && k * interval < length
    ensures k + 1 <= CeilDiv(length, interval)
  {
    var q := (length + interval - 1) / interval;
    var r := (length + interval - 1) % interval;
    assert length + interval - 1 == q * interval + r;
    if q <= k {
      assert q * interval <= k * interval by { Monotone(q, k, interval); }
    }
  }

  lemma Monotone(a: int, b: int, c: int)
    requires a <= b && c > 0
    ensures a * c <= b * c
  {
  }

  /** Whatever the clocks show and however callers interleave, a half-open window of any length
      holds at most length / interval reserved starts, rounded up. */
  lemma WindowHoldsFew(slots: seq<int>, clock: seq<int>, first: int, interval: int, start: int, length: int)
    requires AreSlots(slots, clock, first, interval) && interval > 0 && length > 0
    ensures |InWindow(slots, start, length)| <= CeilDiv(length, interval)
  {
    var s: set<int> := InWindow(slots, start, length);
    var q := CeilDiv(length, interval);
    BelowCeil(0, length, interval);
    if s != {} {
      assert exists i :: i in s;
      var m := Least(s);
      forall i | i in s ensures m <= i < m + q {
        SlotsAreApart(slots, clock, first, interval, m, i);
        BelowCeil(i - m, length, interval);
      }
      RangeSize(s, m, m + q);
    }
  }
}
