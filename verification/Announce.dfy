/**
 * The rendezvous announce (impl/lib/announce.ts): what verifies, and the pruned
 * cache of nonces that keeps anything from being accepted twice.
 */
module Announce {
  import opened Keys

  const REPLAY_WINDOW := 5 * 60 * 1000
  const KEPT := 256

  /** A MAC under the pair's announce key, over all four fields; or bytes that are none. */
  datatype Mac = Mac(key: nat, v: int, peer: string, nonce: string, ts: real) | OtherMac(id: nat)

  /** Parsed JSON: a full record, one with a field missing or of the wrong type, or no JSON. */
  datatype Message = Announce(v: int, peer: string, nonce: string, ts: real, mac: Mac) | Misshapen(v: int) | NotJson

  datatype Verdict = Accepted(peer: string, nonce: string) | BadParse | BadVersion | BadShape | BadTimestamp | BadMac

  function Distance(now: int, ts: real): real {
    if now as real >= ts then now as real - ts else ts - now as real
  }

  function VerifyAnnounce(m: Message, key: nat, now: int): Verdict {
    match m
    case NotJson => BadParse
    case Misshapen(v) => if v != 3 then BadVersion else BadShape
    case Announce(v, peer, nonce, ts, mac) =>
      if v != 3 then BadVersion
      else if Distance(now, ts) > REPLAY_WINDOW as real then BadTimestamp
      else if mac != Mac(key, v, peer, nonce, ts) then BadMac
      else Accepted(peer, nonce)
  }

  // ------------------------------------------------------------------------
  // the cache
  // ------------------------------------------------------------------------

  datatype Entry = Entry(nonce: string, at: int)

  /** Insertion order; setting a nonce again keeps its place. */
  type Cache = seq<Entry>

  predicate Has(s: Cache, nonce: string) {
    exists i :: 0 <= i < |s| && s[i].nonce == nonce
  }

  function Place(s: Cache, nonce: string): (i: nat)
    ensures i <= |s| && (i < |s| <==> Has(s, nonce)) && (i < |s| ==> s[i].nonce == nonce)
  {
    if s == [] then 0
    else if s[0].nonce == nonce then 0
    else
      assert Has(s, nonce) <==> Has(s[1..], nonce) by {
        if Has(s, nonce) {
          var j :| 0 <= j < |s| && s[j].nonce == nonce;
          assert s[1..][j - 1].nonce == nonce;
        }
        if Has(s[1..], nonce) {
          var j :| 0 <= j < |s[1..]| && s[1..][j].nonce == nonce;
          assert s[j + 1].nonce == nonce;
        }
      }
      1 + Place(s[1..], nonce)
  }

  function SetEntry(s: Cache, nonce: string, now: int): Cache {
    var i := Place(s, nonce);
    if i < |s| then s[i := Entry(nonce, now)] else s + [Entry(nonce, now)]
  }

  predicate Stale(e: Entry, now: int, window: int) {
    now - e.at > window
  }

  /** Drops from the front, up to the first entry still young. */
  function Sweep(s: Cache, now: int, window: int): Cache {
    if s == [] || !Stale(s[0], now, window) then s else Sweep(s[1..], now, window)
  }

  function Add(s: Cache, nonce: string, now: int, window: int): Cache {
    var t := SetEntry(s, nonce, now);
    if |t| <= KEPT then t else Sweep(t, now, window)
  }

  // ------------------------------------------------------------------------
  // the gate: verify, look up, add
  // ------------------------------------------------------------------------

  datatype Arrival = Arrival(now: int, message: Message)

  predicate Admits(s: Cache, key: nat, a: Arrival) {
    var v := VerifyAnnounce(a.message, key, a.now);
    v.Accepted? && !Has(s, v.nonce)
  }

  function Gate(s: Cache, key: nat, window: int, a: Arrival): Cache {
    if Admits(s, key, a) then Add(s, a.message.nonce, a.now, window) else s
  }

  function After(s: Cache, key: nat, window: int, arrivals: seq<Arrival>): Cache
    decreases |arrivals|
  {
    if arrivals == [] then s else After(Gate(s, key, window, arrivals[0]), key, window, arrivals[1..])
  }

  /** Arrival k of a run is accepted. */
  predicate Takes(s: Cache, key: nat, window: int, arrivals: seq<Arrival>, k: nat)
    requires k < |arrivals|
  {
    Admits(After(s, key, window, arrivals[..k]), key, arrivals[k])
  }

  predicate ClockForward(arrivals: seq<Arrival>) {
    forall i, j :: 0 <= i < j < |arrivals| ==> arrivals[i].now <= arrivals[j].now
  }

  // ------------------------------------------------------------------------
  // exactly the pair's own announces
  // ------------------------------------------------------------------------

  /** What a holder of the pair's key publishes. */
  function BuildAnnounce(key: nat, peer: string, nonce: string, now: int): Message {
    Announce(3, peer, nonce, now as real, Mac(key, 3, peer, nonce, now as real))
  }

  /** Under the pair's key, over exactly its own fields. */
  predicate Attested(m: Message, key: nat) {
    m.Announce? && m.v == 3 && m.mac == Mac(key, 3, m.peer, m.nonce, m.ts)
  }

  /** No more than five minutes before or behind the clock. */
  predicate Timely(m: Message, now: int)
    requires m.Announce?
  {
    now as real - 300_000.0 <= m.ts <= now as real + 300_000.0
  }

  /** In every run an arrival is taken if and only if it is attested under the pair's key, timely, and its nonce is not remembered. */
  lemma TakenExactly(s: Cache, key: nat, window: int, arrivals: seq<Arrival>, k: nat)
    requires k < |arrivals|
    ensures var (m, now) := (arrivals[k].message, arrivals[k].now);
            Takes(s, key, window, arrivals, k)
            <==> Attested(m, key) && Timely(m, now) && !Has(After(s, key, window, arrivals[..k]), m.nonce)
  {
  }

  lemma SweepForgets(s: Cache, now: int, window: int, nonce: string)
    requires !Has(s, nonce)
    ensures !Has(Sweep(s, now, window), nonce)
    decreases |s|
  {
    if s != [] && Stale(s[0], now, window) {
      assert forall i :: 0 <= i < |s[1..]| ==> s[1..][i] == s[i + 1];
      SweepForgets(s[1..], now, window, nonce);
    }
  }

  /** Only an attested arrival can make its nonce remembered: a forgery burns nothing. */
  lemma {:induction false} OnlyAttestedRemembered(s: Cache, key: nat, window: int, arrivals: seq<Arrival>, nonce: string)
    requires !Has(s, nonce)
    requires forall j :: 0 <= j < |arrivals| && Attested(arrivals[j].message, key) ==> arrivals[j].message.nonce != nonce
    ensures !Has(After(s, key, window, arrivals), nonce)
    decreases |arrivals|
  {
    if arrivals != [] {
      var a := arrivals[0];
      if Admits(s, key, a) {
        var t := SetEntry(s, a.message.nonce, a.now);
        assert Attested(a.message, key) && !Has(t, nonce);
        if |t| > KEPT {
          SweepForgets(t, a.now, window, nonce);
        }
      }
      assert forall j :: 0 <= j < |arrivals[1..]| ==> arrivals[1..][j] == arrivals[j + 1];
      OnlyAttestedRemembered(Gate(s, key, window, a), key, window, arrivals[1..], nonce);
    }
  }

  /**
   * What a holder of the key publishes is taken when it first arrives within five minutes, for the
   * peer it names, whatever forgeries, under its nonce too, arrived before it.
   */
  lemma BuiltIsTaken(key: nat, window: int, arrivals: seq<Arrival>, k: nat, peer: string, nonce: string, at: int)
    requires k < |arrivals| && arrivals[k].message == BuildAnnounce(key, peer, nonce, at)
    requires at - 300_000 <= arrivals[k].now <= at + 300_000
    requires forall j :: 0 <= j < k && Attested(arrivals[j].message, key) ==> arrivals[j].message.nonce != nonce
    ensures Takes([], key, window, arrivals, k)
    ensures VerifyAnnounce(arrivals[k].message, key, arrivals[k].now) == Accepted(peer, nonce)
  {
    OnlyAttestedRemembered([], key, window, arrivals[..k], nonce);
  }

  // ------------------------------------------------------------------------
  // nothing twice
  // ------------------------------------------------------------------------

  /** The nonce is remembered since `at`. */
  predicate Remembers(s: Cache, nonce: string, at: int) {
    exists i :: 0 <= i < |s| && s[i].nonce == nonce && s[i].at >= at
  }

  lemma {:induction false} SweepRemembers(s: Cache, nonce: string, at: int, now: int, window: int)
    requires Remembers(s, nonce, at) && now - at <= window
    ensures Remembers(Sweep(s, now, window), nonce, at)
  {
    if s == [] || !Stale(s[0], now, window) {
    } else {
      var i :| 0 <= i < |s| && s[i].nonce == nonce && s[i].at >= at;
      assert s[1..][i - 1] == s[i];
      SweepRemembers(s[1..], nonce, at, now, window);
    }
  }

  lemma SetRemembers(s: Cache, other: string, now: int, nonce: string, at: int)
    requires Remembers(s, nonce, at) && at <= now
    ensures Remembers(SetEntry(s, other, now), nonce, at)
  {
    var i :| 0 <= i < |s| && s[i].nonce == nonce && s[i].at >= at;
    var t := SetEntry(s, other, now);
    assert t[i].nonce == nonce && t[i].at >= at;
  }

  lemma SetHas(s: Cache, nonce: string, now: int)
    ensures Remembers(SetEntry(s, nonce, now), nonce, now)
  {
    var i := Place(s, nonce);
    assert SetEntry(s, nonce, now)[i] == Entry(nonce, now);
  }

  lemma GateRemembers(s: Cache, key: nat, window: int, a: Arrival, nonce: string, at: int)
    requires Remembers(s, nonce, at) && at <= a.now <= at + window
    ensures Remembers(Gate(s, key, window, a), nonce, at)
  {
    if Admits(s, key, a) {
      SetRemembers(s, a.message.nonce, a.now, nonce, at);
      var t := SetEntry(s, a.message.nonce, a.now);
      if |t| > KEPT {
        SweepRemembers(t, nonce, at, a.now, window);
      }
    }
  }

  lemma AdmittedIsRemembered(s: Cache, key: nat, window: int, a: Arrival)
    requires Admits(s, key, a) && window >= 0
    ensures Remembers(Gate(s, key, window, a), a.message.nonce, a.now)
  {
    SetHas(s, a.message.nonce, a.now);
    var t := SetEntry(s, a.message.nonce, a.now);
    if |t| > KEPT {
      SweepRemembers(t, a.message.nonce, a.now, a.now, window);
    }
  }

  lemma {:induction false} RunRemembers(s: Cache, key: nat, window: int, arrivals: seq<Arrival>, nonce: string, at: int)
    requires Remembers(s, nonce, at)
    requires forall i :: 0 <= i < |arrivals| ==> at <= arrivals[i].now <= at + window
    ensures Remembers(After(s, key, window, arrivals), nonce, at)
    decreases |arrivals|
  {
    if arrivals == [] {
    } else {
      GateRemembers(s, key, window, arrivals[0], nonce, at);
      RunRemembers(Gate(s, key, window, arrivals[0]), key, window, arrivals[1..], nonce, at);
    }
  }

  lemma {:induction false} AfterSplit(s: Cache, key: nat, window: int, xs: seq<Arrival>, ys: seq<Arrival>)
    ensures After(s, key, window, xs + ys) == After(After(s, key, window, xs), key, window, ys)
    decreases |xs|
  {
    if xs == [] {
      assert xs + ys == ys;
    } else {
      AfterSplit(Gate(s, key, window, xs[0]), key, window, xs[1..], ys);
      assert (xs + ys)[1..] == xs[1..] + ys;
    }
  }

  lemma AfterTwoParts(s: Cache, key: nat, window: int, arrivals: seq<Arrival>, j: nat, k: nat)
    requires j < k <= |arrivals|
    ensures After(s, key, window, arrivals[..k])
         == After(Gate(After(s, key, window, arrivals[..j]), key, window, arrivals[j]), key, window, arrivals[j + 1..k])
  {
    var between := arrivals[j + 1..k];
    assert arrivals[..k] == arrivals[..j] + ([arrivals[j]] + between);
    AfterSplit(s, key, window, arrivals[..j], [arrivals[j]] + between);
    assert ([arrivals[j]] + between)[1..] == between;
  }

  /** Two acceptances of one announce lie within twice the replay window. */
  lemma BothInWindow(m: Message, key: nat, t1: int, t2: int)
    requires VerifyAnnounce(m, key, t1).Accepted? && VerifyAnnounce(m, key, t2).Accepted?
    ensures t2 - t1 <= 2 * REPLAY_WINDOW
  {
  }

  /**
   * With a clock that does not go back and a cache window of at least twice the
   * replay window, no announce is accepted twice, however long the run.
   */
  lemma NeverTwice(s: Cache, key: nat, window: int, arrivals: seq<Arrival>, j: nat, k: nat)
    requires window >= 2 * REPLAY_WINDOW && ClockForward(arrivals)
    requires j < k < |arrivals| && arrivals[j].message == arrivals[k].message
    requires Takes(s, key, window, arrivals, j)
    ensures !Takes(s, key, window, arrivals, k)
  {
    var m, t1, t2 := arrivals[j].message, arrivals[j].now, arrivals[k].now;
    if VerifyAnnounce(m, key, t2).Accepted? {
      BothInWindow(m, key, t1, t2);
      var before := After(s, key, window, arrivals[..j]);
      AdmittedIsRemembered(before, key, window, arrivals[j]);
      var between := arrivals[j + 1..k];
      var at := Gate(before, key, window, arrivals[j]);
      forall i | 0 <= i < |between| ensures t1 <= between[i].now <= t1 + window {
        assert between[i] == arrivals[j + 1 + i];
      }
      RunRemembers(at, key, window, between, m.nonce, t1);
      AfterTwoParts(s, key, window, arrivals, j, k);
      assert Has(After(s, key, window, arrivals[..k]), m.nonce);
    }
  }

  // ------------------------------------------------------------------------
  // and no smaller window would do
  // ------------------------------------------------------------------------

  function Genuine(key: nat, nonce: string, ts: int): Message {
    BuildAnnounce(key, "p", nonce, ts)
  }

  function Name(n: nat): string {
    seq(n, _ => 'x')
  }

  /** n announces of their own, all at one time, with the nonces after the empty one. */
  function Fillers(key: nat, now: int, n: nat): seq<Arrival> {
    seq(n, i requires 0 <= i => Arrival(now, Genuine(key, Name(i + 1), now)))
  }

  function Filled(now: int, n: nat): Cache {
    seq(n, i requires 0 <= i => Entry(Name(i + 1), now))
  }

  lemma NamesDiffer(i: nat, j: nat)
    requires i != j
    ensures Name(i) != Name(j)
  {
    assert |Name(i)| == i && |Name(j)| == j;
  }

  lemma FillOne(key: nat, window: int, late: int, n: nat)
    requires n < KEPT && 0 <= window < late
    ensures Gate([Entry(Name(0), 0)] + Filled(late, n), key, window, Arrival(late, Genuine(key, Name(n + 1), late)))
         == if n + 2 <= KEPT then [Entry(Name(0), 0)] + Filled(late, n + 1) else Filled(late, n + 1)
  {
    var s := [Entry(Name(0), 0)] + Filled(late, n);
    var a := Arrival(late, Genuine(key, Name(n + 1), late));
    assert !Has(s, Name(n + 1)) by {
      forall i | 0 <= i < |s| ensures s[i].nonce != Name(n + 1) { NamesDiffer(i, n + 1); }
    }
    var t := SetEntry(s, Name(n + 1), late);
    assert t == [Entry(Name(0), 0)] + Filled(late, n + 1);
    if |t| > KEPT {
      assert t[1..] == Filled(late, n + 1);
      assert Stale(t[0], late, window);
      assert !Stale(t[1..][0], late, window);
      assert Sweep(t, late, window) == Sweep(t[1..], late, window) == t[1..];
    }
    assert Admits(s, key, a) && a.message.nonce == Name(n + 1);
  }

  lemma {:induction false} FillAll(key: nat, window: int, late: int, n: nat)
    requires n < KEPT && 0 <= window < late
    ensures After([Entry(Name(0), 0)], key, window, Fillers(key, late, n)) == [Entry(Name(0), 0)] + Filled(late, n)
  {
    if n == 0 {
      assert Filled(late, 0) == [];
    } else {
      FillAll(key, window, late, n - 1);
      var last := [Arrival(late, Genuine(key, Name(n), late))];
      assert Fillers(key, late, n) == Fillers(key, late, n - 1) + last;
      AfterSplit([Entry(Name(0), 0)], key, window, Fillers(key, late, n - 1), last);
      FillOne(key, window, late, n - 1);
      assert last[1..] == [];
    }
  }

  /** The run: one announce as early as it passes, 256 others as late as it still passes, the one again. */
  function Repeat(key: nat): seq<Arrival> {
    var again := Genuine(key, Name(0), REPLAY_WINDOW);
    [Arrival(0, again)] + (Fillers(key, 2 * REPLAY_WINDOW, KEPT) + [Arrival(2 * REPLAY_WINDOW, again)])
  }

  lemma FirstTaken(key: nat, window: int)
    ensures Admits([], key, Repeat(key)[0]) && Gate([], key, window, Repeat(key)[0]) == [Entry(Name(0), 0)]
  {
  }

  lemma FillersForget(key: nat, window: int)
    requires 0 <= window < 2 * REPLAY_WINDOW
    ensures After([Entry(Name(0), 0)], key, window, Fillers(key, 2 * REPLAY_WINDOW, KEPT)) == Filled(2 * REPLAY_WINDOW, KEPT)
  {
    var late, n := 2 * REPLAY_WINDOW, KEPT - 1;
    FillAll(key, window, late, n);
    var last := [Arrival(late, Genuine(key, Name(KEPT), late))];
    assert Fillers(key, late, KEPT) == Fillers(key, late, n) + last;
    AfterSplit([Entry(Name(0), 0)], key, window, Fillers(key, late, n), last);
    FillOne(key, window, late, n);
    assert last[1..] == [];
  }

  /** With any smaller window there is a run that accepts one announce twice. */
  lemma SmallerWindowRepeats(key: nat, window: int)
    requires 0 <= window < 2 * REPLAY_WINDOW
    ensures ClockForward(Repeat(key)) && |Repeat(key)| == KEPT + 2
    ensures Repeat(key)[0].message == Repeat(key)[KEPT + 1].message
    ensures Takes([], key, window, Repeat(key), 0) && Takes([], key, window, Repeat(key), KEPT + 1)
  {
    hide Admits, Gate, Filled;
    var run, fillers := Repeat(key), Fillers(key, 2 * REPLAY_WINDOW, KEPT);
    FirstTaken(key, window);
    assert run[..0] == [];
    assert run[..KEPT + 1] == [run[0]] + fillers;
    AfterSplit([], key, window, [run[0]], fillers);
    assert [run[0]][1..] == [];
    FillersForget(key, window);
    AgainTaken(key);
  }

  lemma AgainTaken(key: nat)
    ensures Admits(Filled(2 * REPLAY_WINDOW, KEPT), key, Repeat(key)[KEPT + 1])
  {
    var s := Filled(2 * REPLAY_WINDOW, KEPT);
    forall i | 0 <= i < |s| ensures s[i].nonce != Name(0) { NamesDiffer(i + 1, 0); }
  }

  /** The default window is exactly enough. */
  lemma WindowExactly(key: nat, window: nat)
    ensures (forall arrivals: seq<Arrival>, j: nat, k: nat ::
               j < k < |arrivals| && ClockForward(arrivals) && arrivals[j].message == arrivals[k].message
               ==> !(Takes([], key, window, arrivals, j) && Takes([], key, window, arrivals, k)))
       <==> window >= 2 * REPLAY_WINDOW
  {
    if window >= 2 * REPLAY_WINDOW {
      forall arrivals: seq<Arrival>, j: nat, k: nat |
        j < k < |arrivals| && ClockForward(arrivals) && arrivals[j].message == arrivals[k].message
        ensures !(Takes([], key, window, arrivals, j) && Takes([], key, window, arrivals, k))
      {
        if Takes([], key, window, arrivals, j) {
          NeverTwice([], key, window, arrivals, j, k);
        }
      }
    } else {
      SmallerWindowRepeats(key, window);
    }
  }

  // ------------------------------------------------------------------------
  // it stays bounded
  // ------------------------------------------------------------------------

  predicate InOrder(s: Cache, now: int) {
    && (forall i, j :: 0 <= i < j < |s| ==> s[i].at <= s[j].at)
    && (forall i :: 0 <= i < |s| ==> s[i].at <= now)
  }

  lemma {:induction false} SweepLeavesYoung(s: Cache, now: int, window: int)
    requires InOrder(s, now)
    ensures InOrder(Sweep(s, now, window), now)
    ensures forall i :: 0 <= i < |Sweep(s, now, window)| ==> !Stale(Sweep(s, now, window)[i], now, window)
  {
    if s == [] || !Stale(s[0], now, window) {
    } else {
      SweepLeavesYoung(s[1..], now, window);
    }
  }

  /** After an acceptance the cache holds at most 256 nonces, or only nonces still young enough to matter. */
  lemma BoundedAfterAccept(s: Cache, key: nat, window: int, a: Arrival, since: int)
    requires InOrder(s, since) && since <= a.now && Admits(s, key, a)
    ensures var t := Gate(s, key, window, a);
            && InOrder(t, a.now)
            && (|t| <= KEPT || forall i :: 0 <= i < |t| ==> !Stale(t[i], a.now, window))
  {
    var t := SetEntry(s, a.message.nonce, a.now);
    assert t == s + [Entry(a.message.nonce, a.now)];
    assert InOrder(t, a.now);
    if |t| > KEPT {
      SweepLeavesYoung(t, a.now, window);
    }
  }

  // ------------------------------------------------------------------------
  // the cache in place
  // ------------------------------------------------------------------------

  class NonceCache {
    var seen: Cache
    const window: int

    constructor (window: int)
      ensures seen == [] && this.window == window
    {
      seen := [];
      this.window := window;
    }

    method Put(nonce: string, now: int)
      modifies this
      ensures seen == SetEntry(old(seen), nonce, now)
    {
      var i := Place(seen, nonce);
      if i < |seen| {
        seen := seen[i := Entry(nonce, now)];
      } else {
        seen := seen + [Entry(nonce, now)];
      }
    }

    method Insert(nonce: string, now: int)
      modifies this
      ensures seen == Add(old(seen), nonce, now, window)
    {
      Put(nonce, now);
      if |seen| <= KEPT {
        return;
      }
      ghost var all := seen;
      while seen != [] && now - seen[0].at > window
        invariant Sweep(all, now, window) == Sweep(seen, now, window)
        decreases |seen|
      {
        seen := seen[1..];
      }
    }

    /** The gate as its callers run it. */
    method Admit(key: nat, m: Message, now: int) returns (ok: bool)
      modifies this
      ensures ok == Admits(old(seen), key, Arrival(now, m))
      ensures ok <==> Attested(m, key) && Timely(m, now) && !Has(old(seen), m.nonce)
      ensures seen == Gate(old(seen), key, window, Arrival(now, m))
    {
      var v := VerifyAnnounce(m, key, now);
      if !v.Accepted? {
        return false;
      }
      var i := Place(seen, v.nonce);
      if i < |seen| {
        return false;
      }
      Insert(v.nonce, now);
      return true;
    }
  }
}
