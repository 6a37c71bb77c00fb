/**
 * Group sender keys (core-rs/src/senderkey.rs): one member's sending chain and a
 * receiver that walks its own copy, refined to a model that only remembers which
 * counters were passed, opened and lost.
 */
module SenderKey {
  import opened Keys
  import opened SkippedKeys

  /** A group key names its owner: only the owner holds the private half. */
  datatype Gk = Gk(owner: nat, id: nat)

  /** A group id is the hash of its group key; a frame can also carry any other. */
  datatype Gid = GidOf(gk: Gk) | OtherGid(id: nat)

  /** The header every body is bound to. */
  datatype GroupHeader = GroupHeader(gid: Gid, sender: nat, epoch: nat, ctr: nat)

  datatype GroupBody = GroupSealed(mk: Key, n: nat, header: GroupHeader, text: string) | GroupNoise(id: nat)

  datatype Packet = Packet(n: nat, header: GroupHeader, body: GroupBody)

  datatype Outcome = Opened(text: string) | Refused | SkipBound(jump: nat)

  function Unseal(mk: Key, p: Packet): Option<string> {
    if p.body.GroupSealed? && p.body.mk == mk && p.body.n == p.n && p.body.header == p.header then Some(p.body.text) else None
  }

  // ------------------------------------------------------------------------
  // sending
  // ------------------------------------------------------------------------

  datatype Sender = Sender(key: Key, n: nat)

  function Seal(s: Sender, header: GroupHeader, text: string): (Sender, Packet) {
    (Sender(Next(s.key), s.n + 1), Packet(s.n, header, GroupSealed(Msg(s.key), s.n, header, text)))
  }

  function SealAll(s: Sender, texts: seq<(GroupHeader, string)>): seq<Packet>
    decreases |texts|
  {
    if texts == [] then [] else var (t, p) := Seal(s, texts[0].0, texts[0].1); [p] + SealAll(t, texts[1..])
  }

  // ------------------------------------------------------------------------
  // receiving
  // ------------------------------------------------------------------------

  datatype Receiver = Receiver(key: Key, n: nat, skipped: map<nat, Held>, maxSkip: nat, ttl: nat)

  function Pruned(r: Receiver, now: nat): Receiver {
    r.(skipped := Young(r.skipped, now, r.ttl))
  }

  /** The keys passed over between two counters, the chain key of the first being `key`. */
  function Passed(key: Key, from: nat, end: nat, now: nat): (m: map<nat, Held>)
    ensures forall i: nat :: i in m <==> from <= i < end
    ensures forall i: nat :: i in m ==> m[i] == Held(Msg(Walk(key, i - from)), now)
    decreases end
  {
    if end <= from then map[] else Passed(key, from, end - 1, now)[end - 1 := Held(Msg(Walk(key, end - 1 - from)), now)]
  }

  function OpenPruned(r: Receiver, now: nat, p: Packet): (Receiver, Outcome) {
    if p.n in r.skipped then
      match Unseal(r.skipped[p.n].key, p)
      case None => (r, Refused)
      case Some(text) => (r.(skipped := r.skipped - {p.n}), Opened(text))
    else if p.n < r.n then (r, Refused)
    else if p.n - r.n > r.maxSkip then (r, SkipBound(p.n - r.n))
    else
      var at := Walk(r.key, p.n - r.n);
      match Unseal(Msg(at), p)
      case None => (r, Refused)
      case Some(text) =>
        (r.(key := Next(at), n := p.n + 1, skipped := r.skipped + Passed(r.key, r.n, p.n, now)), Opened(text))
  }

  function Open(r: Receiver, now: nat, p: Packet): (Receiver, Outcome) {
    OpenPruned(Pruned(r, now), now, p)
  }

  // ------------------------------------------------------------------------
  // the simple model
  // ------------------------------------------------------------------------

  /**
   * `seed` is the chain key of counter `base`; counters in [base, n) were passed at
   * the given times, some of them opened, some lost to age.
   */
  datatype Ledger = Ledger(seed: Key, base: nat, n: nat, at: map<nat, nat>, spent: set<nat>, lost: set<nat>)

  ghost predicate LedgerOk(l: Ledger) {
    && l.base <= l.n
    && (forall i: nat :: i in l.at <==> l.base <= i < l.n)
    && l.spent <= l.at.Keys
    && l.lost <= l.at.Keys - l.spent
  }

  predicate Waiting(l: Ledger, i: nat) {
    i in l.at && i !in l.spent && i !in l.lost
  }

  function Expire(l: Ledger, now: nat, ttl: nat): Ledger {
    l.(lost := l.lost + set i | i in l.at && Waiting(l, i) && now - l.at[i] > ttl)
  }

  /** A packet is genuine when the chain's key for its counter opens it. */
  function Genuine(seed: Key, base: nat, p: Packet): Option<string> {
    if p.n < base then None else Unseal(Msg(Walk(seed, p.n - base)), p)
  }

  /** Counters [from, to) stamped with the time they were passed. */
  function Stamp(at: map<nat, nat>, from: nat, end: nat, now: nat): (m: map<nat, nat>)
    ensures forall i: nat :: i in m <==> i in at || from <= i < end
    ensures forall i: nat :: i in m ==> m[i] == (if from <= i < end then now else at[i])
    decreases end
  {
    if end <= from then at else Stamp(at, from, end - 1, now)[end - 1 := now]
  }

  function Reach(l: Ledger, p: Packet, now: nat): Ledger {
    l.(n := if p.n < l.n then l.n else p.n + 1,
       at := Stamp(l.at, l.n, p.n + 1, now),
       spent := l.spent + {p.n})
  }

  function OpenExpired(l: Ledger, maxSkip: nat, now: nat, p: Packet): (Ledger, Outcome) {
    if p.n > l.n + maxSkip then (l, SkipBound(p.n - l.n))
    else if Genuine(l.seed, l.base, p).Some? && (p.n >= l.n || Waiting(l, p.n)) then (Reach(l, p, now), Opened(Genuine(l.seed, l.base, p).value))
    else (l, Refused)
  }

  function LedgerOpen(l: Ledger, maxSkip: nat, ttl: nat, now: nat, p: Packet): (Ledger, Outcome) {
    OpenExpired(Expire(l, now, ttl), maxSkip, now, p)
  }

  // ------------------------------------------------------------------------
  // refinement
  // ------------------------------------------------------------------------

  /** The live key is the seed advanced; the stash is exactly what was passed and is still waiting. */
  ghost predicate Refines(r: Receiver, l: Ledger) {
    && LedgerOk(l)
    && r.n == l.n
    && r.key == Walk(l.seed, l.n - l.base)
    && (forall i: nat :: i in r.skipped <==> Waiting(l, i))
    && (forall i: nat :: i in r.skipped ==> r.skipped[i] == Held(Msg(Walk(l.seed, i - l.base)), l.at[i]))
  }

  lemma ExpireRefines(r: Receiver, l: Ledger, now: nat)
    requires Refines(r, l)
    ensures Refines(Pruned(r, now), Expire(l, now, r.ttl))
  {
  }

  lemma StashRefines(r: Receiver, l: Ledger, now: nat, p: Packet)
    requires Refines(r, l) && p.n in r.skipped
    ensures OpenPruned(r, now, p).1 == OpenExpired(l, r.maxSkip, now, p).1
    ensures Refines(OpenPruned(r, now, p).0, OpenExpired(l, r.maxSkip, now, p).0)
  {
    assert Reach(l, p, now).at == l.at;
  }

  lemma WalkKeys(r: Receiver, l: Ledger, i: nat)
    requires Refines(r, l) && l.n <= i
    ensures Walk(r.key, i - r.n) == Walk(l.seed, i - l.base)
  {
    WalkOn(l.seed, l.n - l.base, i - l.base);
  }

  lemma ReachOk(l: Ledger, now: nat, p: Packet)
    requires LedgerOk(l) && l.n <= p.n
    ensures LedgerOk(Reach(l, p, now))
    ensures forall i: nat :: Waiting(Reach(l, p, now), i) <==> Waiting(l, i) || l.n <= i < p.n
  {
  }

  lemma WalkStash(r: Receiver, l: Ledger, now: nat, p: Packet, i: nat)
    requires Refines(r, l) && r.n <= p.n
    ensures var stash := r.skipped + Passed(r.key, r.n, p.n, now);
            && (i in stash <==> Waiting(Reach(l, p, now), i))
            && (i in stash ==> stash[i] == Held(Msg(Walk(l.seed, i - l.base)), Reach(l, p, now).at[i]))
  {
    if l.n <= i {
      WalkKeys(r, l, i);
    }
  }

  lemma WalkRefines(r: Receiver, l: Ledger, now: nat, p: Packet)
    requires Refines(r, l) && r.n <= p.n && OpenPruned(r, now, p).1.Opened?
    ensures Refines(OpenPruned(r, now, p).0, Reach(l, p, now))
  {
    hide Stamp;
    var s, k := OpenPruned(r, now, p).0, Reach(l, p, now);
    WalkKeys(r, l, p.n);
    ReachOk(l, now, p);
    assert p.n !in r.skipped;
    assert s.skipped == r.skipped + Passed(r.key, r.n, p.n, now);
    forall i: nat
      ensures i in s.skipped <==> Waiting(k, i)
      ensures i in s.skipped ==> s.skipped[i] == Held(Msg(Walk(k.seed, i - k.base)), k.at[i])
    {
      WalkStash(r, l, now, p, i);
    }
  }

  /** Every call gives the model's answer and stays on the model's state. */
  lemma OpenRefines(r: Receiver, l: Ledger, now: nat, p: Packet)
    requires Refines(r, l)
    ensures Open(r, now, p).1 == LedgerOpen(l, r.maxSkip, r.ttl, now, p).1
    ensures Refines(Open(r, now, p).0, LedgerOpen(l, r.maxSkip, r.ttl, now, p).0)
  {
    hide Expire, Walk, Reach, Unseal;
    var q, k := Pruned(r, now), Expire(l, now, r.ttl);
    ExpireRefines(r, l, now);
    if p.n in q.skipped {
      StashRefines(q, k, now, p);
    } else if q.n <= p.n {
      WalkKeys(q, k, p.n);
      if OpenPruned(q, now, p).1.Opened? {
        WalkRefines(q, k, now, p);
      }
    }
  }

  /** A forged or repeated packet moves nothing: only age ever takes a waiting key away. */
  lemma ForgedBurnsNothing(r: Receiver, now: nat, p: Packet)
    requires !Open(r, now, p).1.Opened?
    ensures Open(r, now, p).0 == Pruned(r, now)
  {
  }

  /** A new receiver starts on the model, with nothing opened and nothing waiting. */
  lemma FreshReceiverRefines(seed: Key, base: nat, maxSkip: nat, ttl: nat)
    ensures Refines(Receiver(seed, base, map[], maxSkip, ttl), Ledger(seed, base, base, map[], {}, {}))
  {
  }

  /** Restoring a snapshot continues the same chain with every waiting key given up. */
  lemma SnapshotRefines(r: Receiver, l: Ledger)
    requires Refines(r, l)
    ensures Refines(r.(skipped := map[]), l.(lost := l.at.Keys - l.spent))
  {
  }

  // ------------------------------------------------------------------------
  // whole deliveries
  // ------------------------------------------------------------------------

  datatype Arrival = Arrival(now: nat, packet: Packet)

  function Outcomes(r: Receiver, arrivals: seq<Arrival>): (os: seq<Outcome>)
    ensures |os| == |arrivals|
    decreases |arrivals|
  {
    if arrivals == [] then []
    else
      var (s, o) := Open(r, arrivals[0].now, arrivals[0].packet);
      [o] + Outcomes(s, arrivals[1..])
  }

  /** Whatever arrives, in whatever order and however late: a counter opened or lost already is refused for good. */
  lemma {:induction false} PassedStaysShut(r: Receiver, l: Ledger, arrivals: seq<Arrival>, n: nat)
    requires Refines(r, l) && n in l.at && !Waiting(l, n)
    ensures forall k :: 0 <= k < |arrivals| && arrivals[k].packet.n == n ==> !Outcomes(r, arrivals)[k].Opened?
    decreases |arrivals|
  {
    if arrivals == [] {
    } else {
      var a := arrivals[0];
      OpenRefines(r, l, a.now, a.packet);
      PassedStaysShut(Open(r, a.now, a.packet).0, LedgerOpen(l, r.maxSkip, r.ttl, a.now, a.packet).0, arrivals[1..], n);
      forall k | 0 <= k < |arrivals| && arrivals[k].packet.n == n ensures !Outcomes(r, arrivals)[k].Opened? {
        if k > 0 { assert arrivals[k] == arrivals[1..][k - 1]; }
      }
    }
  }

  /** A waiting key whose lifetime is over at some arrival opens nothing, then or at any arrival after it. */
  lemma ExpiredNeverOpens(r: Receiver, l: Ledger, arrivals: seq<Arrival>, n: nat)
    requires Refines(r, l) && arrivals != []
    requires n in r.skipped && arrivals[0].now > r.skipped[n].at + r.ttl
    ensures n !in Open(r, arrivals[0].now, arrivals[0].packet).0.skipped
    ensures forall k :: 0 <= k < |arrivals| && arrivals[k].packet.n == n ==> !Outcomes(r, arrivals)[k].Opened?
  {
    var a := arrivals[0];
    var s, t := Open(r, a.now, a.packet).0, LedgerOpen(l, r.maxSkip, r.ttl, a.now, a.packet).0;
    OpenRefines(r, l, a.now, a.packet);
    assert n in t.at && !Waiting(t, n);
    PassedStaysShut(s, t, arrivals[1..], n);
    forall k | 0 <= k < |arrivals| && arrivals[k].packet.n == n ensures !Outcomes(r, arrivals)[k].Opened? {
      if k > 0 { assert arrivals[k] == arrivals[1..][k - 1]; }
    }
  }

  /** No counter opens twice. */
  lemma {:induction false} OpensOnce(r: Receiver, l: Ledger, arrivals: seq<Arrival>)
    requires Refines(r, l)
    ensures forall j, k :: 0 <= j < k < |arrivals| && Outcomes(r, arrivals)[j].Opened? && Outcomes(r, arrivals)[k].Opened?
              ==> arrivals[j].packet.n != arrivals[k].packet.n
    decreases |arrivals|
  {
    if arrivals == [] {
    } else {
      var a, rest := arrivals[0], arrivals[1..];
      var s, t := Open(r, a.now, a.packet).0, LedgerOpen(l, r.maxSkip, r.ttl, a.now, a.packet).0;
      OpenRefines(r, l, a.now, a.packet);
      OpensOnce(s, t, rest);
      if Outcomes(r, arrivals)[0].Opened? {
        PassedStaysShut(s, t, rest, a.packet.n);
      }
      assert forall k :: 0 < k < |arrivals| ==> arrivals[k] == rest[k - 1] && Outcomes(r, arrivals)[k] == Outcomes(s, rest)[k - 1];
    }
  }

  /** No genuine arrival claims a jump past the bound, counted from the furthest genuine packet before it. */
  predicate WithinBound(seed: Key, base: nat, maxSkip: nat, n: nat, arrivals: seq<Arrival>)
    decreases |arrivals|
  {
    arrivals == [] ||
    var p := arrivals[0].packet;
    if Genuine(seed, base, p).Some? then
      p.n <= n + maxSkip && WithinBound(seed, base, maxSkip, if p.n >= n then p.n + 1 else n, arrivals[1..])
    else
      WithinBound(seed, base, maxSkip, n, arrivals[1..])
  }

  predicate InWindow(arrivals: seq<Arrival>, t0: nat, ttl: nat) {
    forall a :: a in arrivals ==> t0 <= a.now <= t0 + ttl
  }

  /** No genuine packet of counter n arrives. */
  predicate Unseen(seed: Key, base: nat, arrivals: seq<Arrival>, n: nat) {
    forall j :: 0 <= j < |arrivals| && Genuine(seed, base, arrivals[j].packet).Some? ==> arrivals[j].packet.n != n
  }

  /** Nothing lost so far, and nothing can be lost inside the window. */
  ghost predicate Whole(l: Ledger, t0: nat) {
    l.lost == {} && forall i: nat :: i in l.at ==> l.at[i] >= t0
  }

  lemma OpenInWindow(r: Receiver, l: Ledger, t0: nat, a: Arrival)
    requires Refines(r, l) && Whole(l, t0) && t0 <= a.now <= t0 + r.ttl
    requires Genuine(l.seed, l.base, a.packet).Some? ==> a.packet.n <= l.n + r.maxSkip
    ensures Whole(LedgerOpen(l, r.maxSkip, r.ttl, a.now, a.packet).0, t0)
    ensures var o := LedgerOpen(l, r.maxSkip, r.ttl, a.now, a.packet).1;
            if Genuine(l.seed, l.base, a.packet).Some? && a.packet.n !in l.spent
            then o == Opened(Genuine(l.seed, l.base, a.packet).value) else !o.Opened?
    ensures var t := LedgerOpen(l, r.maxSkip, r.ttl, a.now, a.packet).0;
            && t.seed == l.seed && t.base == l.base
            && (if Genuine(l.seed, l.base, a.packet).Some?
                then t.spent == l.spent + {a.packet.n} && t.n == (if a.packet.n >= l.n then a.packet.n + 1 else l.n)
                else t == l)
  {
    assert Expire(l, a.now, r.ttl) == l;
    if Genuine(l.seed, l.base, a.packet).Some? && a.packet.n in l.spent {
      assert l.spent + {a.packet.n} == l.spent;
    }
  }

  /**
   * Within the bound and the lifetime, delivery in any order, with any repeats and
   * any forgeries mixed in, opens every genuine packet exactly at its first arrival.
   */
  lemma {:induction false} OpensExactlyFirsts(r: Receiver, l: Ledger, t0: nat, arrivals: seq<Arrival>, k: nat)
    requires Refines(r, l) && Whole(l, t0) && k < |arrivals|
    requires InWindow(arrivals, t0, r.ttl) && WithinBound(l.seed, l.base, r.maxSkip, l.n, arrivals)
    ensures var p := arrivals[k].packet;
            if Genuine(l.seed, l.base, p).Some? && p.n !in l.spent && Unseen(l.seed, l.base, arrivals[..k], p.n)
            then Outcomes(r, arrivals)[k] == Opened(Genuine(l.seed, l.base, p).value)
            else !Outcomes(r, arrivals)[k].Opened?
    decreases |arrivals|
  {
    hide LedgerOpen, Walk;
    var a, rest := arrivals[0], arrivals[1..];
    assert a in arrivals;
    OpenRefines(r, l, a.now, a.packet);
    OpenInWindow(r, l, t0, a);
    if k > 0 {
      var s, t := Open(r, a.now, a.packet).0, LedgerOpen(l, r.maxSkip, r.ttl, a.now, a.packet).0;
      OpensExactlyFirsts(s, t, t0, rest, k - 1);
      UnseenTail(l.seed, l.base, arrivals[..k], arrivals[k].packet.n);
      assert arrivals[..k][1..] == rest[..k - 1];
    }
  }

  lemma UnseenTail(seed: Key, base: nat, arrivals: seq<Arrival>, n: nat)
    requires arrivals != []
    ensures Unseen(seed, base, arrivals, n)
       <==> !(Genuine(seed, base, arrivals[0].packet).Some? && arrivals[0].packet.n == n) && Unseen(seed, base, arrivals[1..], n)
  {
    assert forall j :: 0 < j < |arrivals| ==> arrivals[j] == arrivals[1..][j - 1];
  }

  /** What the sender seals as number n of its chain is genuine at every receiver of that chain. */
  lemma {:induction false} SealedIsGenuine(seed: Key, base: nat, texts: seq<(GroupHeader, string)>, k: nat, at: nat)
    requires k < |texts|
    ensures |SealAll(Sender(Walk(seed, at), base + at), texts)| == |texts|
    ensures var p := SealAll(Sender(Walk(seed, at), base + at), texts)[k];
            p.n == base + at + k && Genuine(seed, base, p) == Some(texts[k].1)
    decreases |texts|
  {
    var rest := SealAll(Sender(Walk(seed, at + 1), base + at + 1), texts[1..]);
    assert SealAll(Sender(Walk(seed, at), base + at), texts) == [Seal(Sender(Walk(seed, at), base + at), texts[0].0, texts[0].1).1] + rest;
    if |texts| > 1 {
      SealedIsGenuine(seed, base, texts[1..], if k == 0 then 0 else k - 1, at + 1);
    }
  }

  // ------------------------------------------------------------------------
  // the chains in place
  // ------------------------------------------------------------------------

  class SendChain {
    var key: Key
    var n: nat

    constructor (key: Key)
      ensures this.key == key && n == 0
    {
      this.key, n := key, 0;
    }

    method SealNext(header: GroupHeader, text: string) returns (p: Packet)
      modifies this
      ensures (Sender(key, n), p) == Seal(Sender(old(key), old(n)), header, text)
    {
      var mk := Msg(key);
      p := Packet(n, header, GroupSealed(mk, n, header, text));
      key, n := Next(key), n + 1;
    }
  }

  class SenderReceiver {
    var key: Key
    var n: nat
    var skipped: map<nat, Held>
    const maxSkip: nat
    const ttl: nat

    constructor (key: Key, n: nat, maxSkip: nat, ttl: nat)
      ensures Value() == Receiver(key, n, map[], maxSkip, ttl)
    {
      this.key, this.n, skipped := key, n, map[];
      this.maxSkip, this.ttl := maxSkip, ttl;
    }

    ghost function Value(): Receiver
      reads this
    {
      Receiver(key, n, skipped, maxSkip, ttl)
    }

    method Prune(now: nat)
      modifies this
      ensures Value() == Pruned(old(Value()), now)
    {
      skipped := map i | i in skipped && Fresh(skipped[i], now, ttl) :: skipped[i];
    }

    method Receive(now: nat, p: Packet) returns (o: Outcome)
      modifies this
      ensures (Value(), o) == Open(old(Value()), now, p)
    {
      Prune(now);
      if p.n in skipped {
        var pt := Unseal(skipped[p.n].key, p);
        if pt.None? {
          return Refused;
        }
        skipped := skipped - {p.n};
        return Opened(pt.value);
      }
      if p.n < n {
        return Refused;
      }
      if p.n - n > maxSkip {
        return SkipBound(p.n - n);
      }
      var cur, passed := key, map[];
      var i := n;
      while i < p.n
        invariant n <= i <= p.n
        invariant cur == Walk(key, i - n)
        invariant passed == Passed(key, n, i, now)
      {
        passed := passed[i := Held(Msg(cur), now)];
        cur := Next(cur);
        i := i + 1;
      }
      var pt := Unseal(Msg(cur), p);
      if pt.None? {
        return Refused;
      }
      skipped := skipped + passed;
      key, n := Next(cur), p.n + 1;
      return Opened(pt.value);
    }

    /** What is kept for a restart: the live position, without the waiting keys. */
    method Snapshot() returns (key: Key, n: nat)
      ensures Receiver(key, n, map[], maxSkip, ttl) == Value().(skipped := map[])
    {
      return this.key, this.n;
    }
  }
}
