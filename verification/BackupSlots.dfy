/** Schedule slots and the time checks of a backup receipt. */
module BackupSlots {
  import opened Outcomes

  const DAY := 86_400
  const CLOCK_TOLERANCE := 300.0

  /** An instant is a number of seconds since 1970-01-01T00:00:00Z. */
  type Instant = real

  predicate IntervalOk(interval: int)
  {
    300 <= interval <= DAY && DAY % interval == 0
  }

  /** The conversion of a timestamp to an integer cuts the fraction off toward zero. */
  function Epoch(now: Instant): int
  {
    if 0.0 <= now then now.Floor else -(-now).Floor
  }

  /** The start of the slot of an instant. */
  function SlotOf(now: Instant, interval: int): int
    requires IntervalOk(interval)
  {
    Epoch(now) - Epoch(now) % interval
  }

  function ScheduleSlot(now: Instant, interval: int): (slot: Result<int>)
    ensures slot.Ok? <==> IntervalOk(interval)
  {
    if IntervalOk(interval) then Ok(SlotOf(now, interval)) else Err("INVALID_SCHEDULE_INTERVAL")
  }

  /** `slot` is a slot boundary and its window holds the instant. */
  predicate Holds(slot: int, interval: int, now: Instant)
    requires IntervalOk(interval)
  {
    slot % interval == 0 && slot as real <= now < (slot + interval) as real
  }

  lemma AlignedApart(a: int, b: int, interval: int)
    requires 0 < interval && a % interval == 0 && b % interval == 0 && a < b
    ensures a + interval <= b
  {
    assert a == a / interval * interval && b == b / interval * interval;
    if b / interval <= a / interval {
      MultiplyMonotone(b / interval, a / interval, interval);
    }
    MultiplyMonotone(a / interval + 1, b / interval, interval);
  }

  lemma MultiplyMonotone(m: int, n: int, k: int)
    requires m <= n && 0 <= k
    ensures m * k <= n * k
  {
  }

  lemma AlignedSlot(epoch: int, interval: int)
    requires 0 < interval
    ensures (epoch - epoch % interval) % interval == 0
    ensures epoch - epoch % interval <= epoch < epoch - epoch % interval + interval
  {
    assert epoch - epoch % interval == epoch / interval * interval;
    MultipleAligned(epoch / interval, interval);
  }

  lemma MultipleAligned(m: int, k: int)
    requires 0 < k
    ensures m * k % k == 0
  {
    var q, r := m * k / k, m * k % k;
    assert (m - q) * k == r;
    if q < m {
      MultiplyMonotone(1, m - q, k);
    } else if m < q {
      MultiplyMonotone(m - q, -1, k);
    }
  }

  /** Slots tile the time since 1970: each instant lies in its slot and in no other one. */
  lemma SlotsTile(now: Instant, interval: int, slot: int)
    requires IntervalOk(interval) && 0.0 <= now
    ensures Holds(slot, interval, now) <==> slot == SlotOf(now, interval)
  {
    var own := SlotOf(now, interval);
    AlignedSlot(Epoch(now), interval);
    if Holds(slot, interval, now) {
      if slot < own {
        AlignedApart(slot, own, interval);
      } else if own < slot {
        AlignedApart(own, slot, interval);
      }
    }
  }

  /** Before 1970 an instant can fall out of its slot, exactly when cutting off its fraction moved it
      onto the next boundary. */
  lemma SlotHoldsExactly(now: Instant, interval: int)
    requires IntervalOk(interval)
    ensures Holds(SlotOf(now, interval), interval, now)
            <==> 0.0 <= now || Epoch(now) as real == now || Epoch(now) % interval != 0
  {
    AlignedSlot(Epoch(now), interval);
  }

  /** Every UTC midnight starts a slot. */
  lemma MidnightStartsSlot(day: nat, interval: int)
    requires IntervalOk(interval)
    ensures SlotOf((day * DAY) as real, interval) == day * DAY
  {
    assert DAY == DAY / interval * interval;
    assert day * DAY == (day * (DAY / interval)) * interval by {
      assert day * (DAY / interval * interval) == (day * (DAY / interval)) * interval;
    }
    MultipleAligned(day * (DAY / interval), interval);
  }

  /** Two instants have the same slot exactly when one lies in the window of the other. */
  lemma SameSlotIff(now: Instant, later: Instant, interval: int)
    requires IntervalOk(interval) && 0.0 <= now && 0.0 <= later
    ensures SlotOf(now, interval) == SlotOf(later, interval) <==> Holds(SlotOf(now, interval), interval, later)
  {
    SlotsTile(later, interval, SlotOf(now, interval));
  }

  // ---- The time checks of a receipt ----

  predicate TimesInSlot(started: Instant, completed: Instant, slot: int, interval: int, observed: Instant)
  {
    && slot as real <= started <= completed
    && completed < (slot + interval) as real
    && completed <= observed + CLOCK_TOLERANCE
  }
}
