/**
 * The inbox watch (impl/lib/inbox.ts): the decoy schedule that keeps its topic from
 * being evicted, and the two sliding-window caps on incoming frames.
 */
module Inbox {

  const DECOY_EVERY_MS := 45_000
  const TICK_MS := 1_000
  const RELAY_IDLE_MS := 120_000

  // ------------------------------------------------------------------------
  // the schedule
  // ------------------------------------------------------------------------

  /** The slot planned last (-1 before the first), its instant, and whether it has been paid. */
  datatype Plan = Plan(slot: int, fireAt: int, fired: bool)

  const UNPLANNED := Plan(-1, 0, false)

  /** `h` is the per-slot hash, any numbers at all. */
  function PlanSlot(h: nat -> nat, every: nat, n: nat): Plan
    requires every > 0
  {
    Plan(n, n * every + h(n) % every, false)
  }

  /** One tick: the plan after it, and how many decoys went out. */
  function Tick(h: nat -> nat, every: nat, p: Plan, t: nat): (Plan, nat)
    requires every > 0
  {
    var n := t / every;
    var overdue := n != p.slot && p.slot >= 0 && !p.fired;
    var q := if n != p.slot then PlanSlot(h, every, n) else p;
    var due := !q.fired && t >= q.fireAt;
    (if due then q.(fired := true) else q, (if overdue then 1 else 0) + (if due then 1 else 0))
  }

  function Times(t: nat, k: nat): seq<nat> {
    seq(k, _ => t)
  }

  /** When the decoys of a run went out. */
  function Decoys(h: nat -> nat, every: nat, p: Plan, ticks: seq<nat>): seq<nat>
    requires every > 0
    decreases |ticks|
  {
    if ticks == [] then [] else
      var (q, k) := Tick(h, every, p, ticks[0]);
      Times(ticks[0], k) + Decoys(h, every, q, ticks[1..])
  }

  /** Ticks move forward, at most `apart` at a time. */
  predicate Regular(ticks: seq<nat>, apart: nat) {
    forall i :: 0 < i < |ticks| ==> ticks[i - 1] <= ticks[i] <= ticks[i - 1] + apart
  }

  // ------------------------------------------------------------------------
  // what a tick keeps
  // ------------------------------------------------------------------------

  /**
   * After a tick at t, the last decoy at `last` (-1 for none yet): a paid slot was
   * paid inside itself; an unpaid one is still ahead, and the one before was paid.
   */
  predicate OnSchedule(h: nat -> nat, every: nat, p: Plan, t: nat, last: int)
    requires every > 0
  {
    && p.slot == t / every
    && p == PlanSlot(h, every, t / every).(fired := p.fired)
    && last <= t
    && (p.fired ==> last >= p.slot * every)
    && (!p.fired ==> t < p.fireAt && (last >= 0 ==> last >= (p.slot - 1) * every))
  }

  lemma SlotBounds(t: nat, every: nat)
    requires every > 0
    ensures t / every * every <= t < t / every * every + every
  {
  }

  lemma NextSlot(t: nat, u: nat, every: nat)
    requires every > 0 && t <= u <= t + every
    ensures u / every == t / every || u / every == t / every + 1
  {
    SlotBounds(t, every);
    SlotBounds(u, every);
    if u / every < t / every {
      Farther(u / every, t / every, every);
    }
    if u / every > t / every + 1 {
      Farther(t / every + 1, u / every, every);
      OneMore(t / every, every);
    }
  }

  lemma {:induction false} Farther(a: nat, b: nat, every: nat)
    requires a < b
    ensures a * every + every <= b * every
  {
    OneMore(b - 1, every);
    if a < b - 1 {
      Farther(a, b - 1, every);
    }
  }

  lemma OneMore(a: int, every: nat)
    ensures (a + 1) * every == a * every + every
  {
  }

  lemma FirstTick(h: nat -> nat, every: nat, t: nat)
    requires every > 0
    ensures var (q, k) := Tick(h, every, UNPLANNED, t);
            k <= 1 && OnSchedule(h, every, q, t, if k > 0 then t else -1)
  {
    SlotBounds(t, every);
  }

  /** A tick keeps the schedule, and a decoy it sends is at most 2 * every + apart - 2 after the last. */
  lemma TickKeeps(h: nat -> nat, every: nat, p: Plan, t: nat, last: int, u: nat, apart: nat)
    requires every > 0 && 1 <= apart <= every && OnSchedule(h, every, p, t, last) && t <= u <= t + apart
    ensures var (q, k) := Tick(h, every, p, u);
            && OnSchedule(h, every, q, u, if k > 0 then u else last)
            && (k > 0 && last >= 0 ==> u - last <= 2 * every + apart - 2)
  {
    NextSlot(t, u, every);
    SlotBounds(t, every);
    SlotBounds(u, every);
    OneMore(t / every, every);
    OneMore(t / every - 1, every);
  }

  /** The newest decoy after these, `last` if there are none. */
  function Newest(last: int, times: seq<nat>): int {
    if times == [] then last else times[|times| - 1]
  }

  /** Since the newest decoy, or since `start` when there is none yet, at most so long has passed. */
  predicate InTime(every: nat, apart: nat, start: nat, last: int, u: nat) {
    if last >= 0 then u - last <= 2 * every + apart - 2 else u - start <= every + apart - 2
  }

  /** Before the first decoy the first slot is still unpaid. */
  predicate FirstSlotOpen(every: nat, p: Plan, start: nat, t: nat, last: int)
    requires every > 0
  {
    last < 0 ==> start <= t && p.slot == start / every && !p.fired
  }

  lemma NextTickInTime(h: nat -> nat, every: nat, p: Plan, start: nat, t: nat, last: int, u: nat, apart: nat)
    requires every > 0 && 1 <= apart <= every && OnSchedule(h, every, p, t, last) && t <= u <= t + apart
    requires FirstSlotOpen(every, p, start, t, last)
    ensures InTime(every, apart, start, last, u)
  {
    SlotBounds(t, every);
    SlotBounds(start, every);
    OneMore(t / every - 1, every);
  }

  /** Before the first decoy no tick leaves the first slot. */
  lemma FirstSlotStays(h: nat -> nat, every: nat, p: Plan, start: nat, t: nat, last: int, u: nat)
    requires every > 0 && OnSchedule(h, every, p, t, last) && t <= u && FirstSlotOpen(every, p, start, t, last)
    ensures var (q, k) := Tick(h, every, p, u); FirstSlotOpen(every, q, start, u, if k > 0 then u else last)
  {
  }

  lemma {:induction false} TicksInTime(h: nat -> nat, every: nat, p: Plan, start: nat, t: nat, last: int, ticks: seq<nat>, apart: nat, k: nat)
    requires every > 0 && 1 <= apart <= every && OnSchedule(h, every, p, t, last) && Regular([t] + ticks, apart)
    requires FirstSlotOpen(every, p, start, t, last) && k < |ticks|
    ensures InTime(every, apart, start, Newest(last, Decoys(h, every, p, ticks[..k])), ticks[k])
    decreases |ticks|
  {
    var u := ticks[0];
    assert ([t] + ticks)[1] == u && ([t] + ticks)[0] == t;
    NextTickInTime(h, every, p, start, t, last, u, apart);
    if k > 0 {
      var (q, n) := Tick(h, every, p, u);
      FirstSlotStays(h, every, p, start, t, last, u);
      TickKeeps(h, every, p, t, last, u, apart);
      RegularTail(t, ticks, apart);
      TicksInTime(h, every, q, start, u, if n > 0 then u else last, ticks[1..], apart, k - 1);
      assert ticks[..k][0] == u && ticks[..k][1..] == ticks[1..][..k - 1];
    }
  }

  lemma RegularTail(t: nat, ticks: seq<nat>, apart: nat)
    requires Regular([t] + ticks, apart) && ticks != []
    ensures [ticks[0]] + ticks[1..] == ticks && Regular(ticks, apart)
  {
    forall i | 0 < i < |ticks| ensures ticks[i - 1] <= ticks[i] <= ticks[i - 1] + apart {
      assert ([t] + ticks)[i + 1] == ticks[i] && ([t] + ticks)[i] == ticks[i - 1];
    }
  }

  /**
   * At every tick of every regular run the newest decoy is at most two slots and one tick
   * old, and before the first decoy the run is at most one slot and one tick old: decoys
   * keep coming, however the hash falls.
   */
  lemma DecoysKeepComing(h: nat -> nat, every: nat, ticks: seq<nat>, apart: nat, k: nat)
    requires every > 0 && 1 <= apart <= every && Regular(ticks, apart) && k < |ticks|
    ensures InTime(every, apart, ticks[0], Newest(-1, Decoys(h, every, UNPLANNED, ticks[..k])), ticks[k])
  {
    if k > 0 {
      var t := ticks[0];
      var (q, n) := Tick(h, every, UNPLANNED, t);
      FirstTick(h, every, t);
      assert [t] + ticks[1..] == ticks;
      TicksInTime(h, every, q, t, t, if n > 0 then t else -1, ticks[1..], apart, k - 1);
      assert ticks[..k][0] == t && ticks[..k][1..] == ticks[1..][..k - 1];
    }
  }

  /** At the default slot and tick the topic is never idle long enough for the relay to evict it, from the first tick on. */
  lemma NeverEvicted(h: nat -> nat, ticks: seq<nat>, k: nat)
    requires Regular(ticks, TICK_MS) && k < |ticks|
    ensures var last := Newest(-1, Decoys(h, DECOY_EVERY_MS, UNPLANNED, ticks[..k]));
            ticks[k] - (if last >= 0 then last else ticks[0]) < RELAY_IDLE_MS
  {
    DecoysKeepComing(h, DECOY_EVERY_MS, ticks, TICK_MS, k);
  }

  // ------------------------------------------------------------------------
  // the bound is met
  // ------------------------------------------------------------------------

  /** Slot 0 at its first instant, every other slot at its last. */
  function EarlyThenLate(every: nat): nat -> nat
    requires every > 0
  {
    n => if n == 0 then 0 else every - 1
  }

  /** A tick every millisecond up to two short of slot 2, then one `apart` later. */
  function Ticks(every: nat, apart: nat): seq<nat>
    requires every > 0
  {
    Upward(1, 2 * every - 2) + [2 * every - 2 + apart]
  }

  function Upward(lo: nat, hi: nat): seq<nat> {
    seq(if hi >= lo then hi - lo + 1 else 0, i requires 0 <= i => lo + i)
  }

  lemma {:induction false} QuietUntil(every: nat, t: nat, hi: nat, apart: nat, p: Plan)
    requires every >= 2 && t <= hi == 2 * every - 2
    requires p == (if t < every then Plan(0, 0, true) else Plan(1, 2 * every - 1, false))
    ensures Decoys(EarlyThenLate(every), every, p, Upward(t + 1, hi) + [hi + apart])
         == Decoys(EarlyThenLate(every), every, Plan(1, 2 * every - 1, false), [hi + apart])
    decreases hi - t
  {
    var h := EarlyThenLate(every);
    if t == hi {
      assert Upward(t + 1, hi) + [hi + apart] == [hi + apart];
    } else {
      var run := Upward(t + 1, hi) + [hi + apart];
      assert run[0] == t + 1 && run[1..] == Upward(t + 2, hi) + [hi + apart];
      SmallSlot(t, every);
      SmallSlot(t + 1, every);
      var (q, k) := Tick(h, every, p, t + 1);
      assert k == 0 && Times(t + 1, 0) == [];
      QuietUntil(every, t + 1, hi, apart, q);
    }
  }

  lemma SmallSlot(t: nat, every: nat)
    requires every > 0 && t < 3 * every
    ensures t / every == (if t < every then 0 else if t < 2 * every then 1 else 2)
  {
  }

  lemma TicksRegular(every: nat, apart: nat)
    requires 2 <= apart <= every
    ensures Regular([0] + Ticks(every, apart), apart)
  {
    var run := [0] + Ticks(every, apart);
    forall i | 0 < i < |run| ensures run[i - 1] <= run[i] <= run[i - 1] + apart {
      assert run[i - 1] == i - 1;
    }
  }

  lemma LastTick(every: nat, apart: nat)
    requires 2 <= apart <= every
    ensures Decoys(EarlyThenLate(every), every, Plan(1, 2 * every - 1, false), [2 * every - 2 + apart]) == [2 * every - 2 + apart]
  {
    var h, last := EarlyThenLate(every), 2 * every - 2 + apart;
    SmallSlot(last, every);
    OneMore(2, every);
    assert h(2) % every == every - 1;
    var (r, m) := Tick(h, every, Plan(1, 2 * every - 1, false), last);
    assert m == 1;
    assert [last][1..] == [];
  }

  /** The bound cannot be lowered: for every slot length and tick distance some run meets it. */
  lemma BoundIsMet(every: nat, apart: nat)
    requires 2 <= apart <= every
    ensures var run := [0] + Ticks(every, apart);
            && Regular(run, apart)
            && Decoys(EarlyThenLate(every), every, UNPLANNED, run) == [0, 2 * every + apart - 2]
  {
    hide Regular;
    TicksRegular(every, apart);
    var h := EarlyThenLate(every);
    var run, last := [0] + Ticks(every, apart), 2 * every - 2 + apart;
    var (q, k) := Tick(h, every, UNPLANNED, 0);
    assert q == Plan(0, 0, true) && k == 1;
    assert run[0] == 0 && run[1..] == Upward(1, 2 * every - 2) + [last];
    QuietUntil(every, 0, 2 * every - 2, apart, q);
    LastTick(every, apart);
  }

  class Schedule {
    const every: nat
    const h: nat -> nat
    var curSlot: int
    var fireAt: int
    var fired: bool

    ghost function Value(): Plan
      reads this
    {
      Plan(curSlot, fireAt, fired)
    }

    constructor (every: nat, h: nat -> nat)
      ensures this.every == every && this.h == h && Value() == UNPLANNED
    {
      this.every, this.h := every, h;
      curSlot, fireAt, fired := -1, 0, false;
    }

    method PlanNext(n: nat)
      requires every > 0
      modifies this
      ensures curSlot == n && !fired && fireAt == n * every + h(n) % every
      ensures n * every <= fireAt < (n + 1) * every
      ensures Value() == PlanSlot(h, every, n)
    {
      OneMore(n, every);
      curSlot, fireAt, fired := n, n * every + h(n) % every, false;
    }

    method Step(t: nat) returns (published: nat)
      requires every > 0
      modifies this
      ensures (Value(), published) == Tick(h, every, old(Value()), t)
    {
      published := 0;
      var n := t / every;
      if n != curSlot {
        var overdue := curSlot >= 0 && !fired;
        PlanNext(n);
        if overdue {
          published := published + 1;
        }
      }
      if !fired && t >= fireAt {
        fired := true;
        published := published + 1;
      }
    }
  }

  // ------------------------------------------------------------------------
  // the caps
  // ------------------------------------------------------------------------

  const MINUTE := 60_000

  function Recent(times: seq<nat>, t: nat): seq<nat> {
    if times == [] then [] else (if t - times[0] < MINUTE then [times[0]] else []) + Recent(times[1..], t)
  }

  /** One frame against the cap: what is remembered afterwards, and whether it passed. */
  function Cap(times: seq<nat>, max: nat, t: nat): (seq<nat>, bool) {
    var r := Recent(times, t);
    if |r| >= max then (r, false) else (r + [t], true)
  }

  /** The times of the frames that passed. */
  function Passed(times: seq<nat>, max: nat, arrivals: seq<nat>): seq<nat>
    decreases |arrivals|
  {
    if arrivals == [] then [] else
      var (r, ok) := Cap(times, max, arrivals[0]);
      (if ok then [arrivals[0]] else []) + Passed(r, max, arrivals[1..])
  }

  predicate Ascending(s: seq<nat>) {
    forall i, j :: 0 <= i < j < |s| ==> s[i] <= s[j]
  }

  /** In an ascending list the recent times are a tail. */
  lemma {:induction false} RecentIsTail(s: seq<nat>, t: nat) returns (k: nat)
    requires Ascending(s)
    ensures k <= |s| && Recent(s, t) == s[k..]
    ensures forall i :: 0 <= i < k ==> t - s[i] >= MINUTE
    ensures forall i :: k <= i < |s| ==> t - s[i] < MINUTE
  {
    if s == [] {
      k := 0;
    } else {
      var rest := s[1..];
      assert forall i :: 0 <= i < |rest| ==> rest[i] == s[i + 1];
      assert Ascending(rest) && (rest != [] ==> rest[0] >= s[0]);
      hide Ascending;
      var j := RecentIsTail(rest, t);
      assert rest[j..] == s[j + 1..];
      if t - s[0] < MINUTE {
        assert j == 0;
        k := 0;
      } else {
        k := j + 1;
      }
    }
  }

  /** What is remembered is a tail of everything that passed, and what fell off it is a minute old. */
  predicate Tracks(times: seq<nat>, all: seq<nat>, t: nat) {
    && Ascending(all)
    && |times| <= |all| && times == all[|all| - |times|..]
    && (forall i :: 0 <= i < |all| ==> all[i] <= t)
    && (forall i :: 0 <= i < |all| - |times| ==> t - all[i] >= MINUTE)
  }

  /** No more than `max` of these within any minute. */
  ghost predicate Spaced(all: seq<nat>, max: nat) {
    forall i, j :: 0 <= i && j == i + max && j < |all| ==> all[j] - all[i] >= MINUTE
  }

  lemma TailAscends(all: seq<nat>, gone: nat)
    requires Ascending(all) && gone <= |all|
    ensures Ascending(all[gone..])
  {
  }

  lemma TailOfTail(all: seq<nat>, gone: nat, k: nat)
    requires gone + k <= |all|
    ensures all[gone..][k..] == all[gone + k..]
    ensures forall i :: gone <= i < |all| ==> all[i] == all[gone..][i - gone]
  {
  }

  /** The remembered tail after old entries have fallen off. */
  lemma TailTracks(times: seq<nat>, all: seq<nat>, now: nat, t: nat)
    requires Tracks(times, all, now) && now <= t
    ensures Tracks(Recent(times, t), all, t)
    ensures forall i :: |all| - |Recent(times, t)| <= i < |all| ==> t - all[i] < MINUTE
  {
    hide Ascending, Recent;
    var gone := |all| - |times|;
    TailAscends(all, gone);
    var k := RecentIsTail(times, t);
    TailOfTail(all, gone, k);
    assert |Recent(times, t)| == |all| - (gone + k);
    forall i | 0 <= i < |all| ensures if i < gone + k then t - all[i] >= MINUTE else t - all[i] < MINUTE {
      if i >= gone {
        assert all[i] == times[i - gone];
      }
    }
  }

  lemma PassKeeps(r: seq<nat>, all: seq<nat>, max: nat, t: nat)
    requires Tracks(r, all, t) && Spaced(all, max) && |r| < max
    ensures Tracks(r + [t], all + [t], t) && Spaced(all + [t], max)
  {
    var more := all + [t];
    assert r + [t] == more[|all| - |r|..];
    forall i, j | 0 <= i && j == i + max && j < |more| ensures more[j] - more[i] >= MINUTE {
      assert more[i] == all[i];
      if j < |all| {
        assert more[j] == all[j];
      }
    }
  }

  lemma CapTracks(times: seq<nat>, all: seq<nat>, now: nat, max: nat, t: nat)
    requires Tracks(times, all, now) && Spaced(all, max) && now <= t
    ensures var (r, ok) := Cap(times, max, t);
            var more := if ok then all + [t] else all;
            Tracks(r, more, t) && Spaced(more, max)
  {
    hide Tracks, Spaced, Recent;
    TailTracks(times, all, now, t);
    if |Recent(times, t)| < max {
      PassKeeps(Recent(times, t), all, max, t);
    }
  }

  lemma AscendingTail(t: nat, arrivals: seq<nat>)
    requires Ascending([t] + arrivals)
    ensures Ascending(arrivals) && (arrivals != [] ==> t <= arrivals[0])
  {
    var s := [t] + arrivals;
    assert forall i :: 0 <= i < |arrivals| ==> arrivals[i] == s[i + 1];
    assert s[0] == t;
  }

  lemma {:induction false} PassedTracks(times: seq<nat>, all: seq<nat>, now: nat, max: nat, arrivals: seq<nat>)
    requires Tracks(times, all, now) && Spaced(all, max) && Ascending([now] + arrivals)
    ensures Spaced(all + Passed(times, max, arrivals), max)
    decreases |arrivals|
  {
    hide Tracks, Spaced, Ascending;
    if arrivals == [] {
      assert all + [] == all;
    } else {
      var t := arrivals[0];
      AscendingTail(now, arrivals);
      var (r, ok) := Cap(times, max, t);
      CapTracks(times, all, now, max, t);
      var more := if ok then all + [t] else all;
      assert [t] + arrivals[1..] == arrivals;
      PassedTracks(r, more, t, max, arrivals[1..]);
      assert more + Passed(r, max, arrivals[1..]) == all + Passed(times, max, arrivals);
    }
  }

  /** Under a clock that does not go back, no minute ever sees more than `max` frames pass. */
  lemma CapHolds(max: nat, arrivals: seq<nat>)
    requires Ascending(arrivals)
    ensures Spaced(Passed([], max, arrivals), max)
  {
    if arrivals != [] {
      assert Ascending([arrivals[0]] + arrivals) by {
        var s := [arrivals[0]] + arrivals;
        assert forall i :: 0 < i < |s| ==> s[i] == arrivals[i - 1];
      }
      PassedTracks([], [], arrivals[0], max, arrivals);
      assert [] + Passed([], max, arrivals) == Passed([], max, arrivals);
    }
  }

  /** And a frame is turned away only when `max` passed within the last minute. */
  lemma TurnedAwayOnlyWhenFull(times: seq<nat>, all: seq<nat>, now: nat, max: nat, t: nat)
    requires Tracks(times, all, now) && now <= t
    ensures !Cap(times, max, t).1 <==> |all| >= max && (max > 0 ==> t - all[|all| - max] < MINUTE)
  {
    TailTracks(times, all, now, t);
  }
}
