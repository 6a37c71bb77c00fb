/**
 * The lifetime of a skipped key: once it is over, the key is dropped at the next frame
 * that decodes, and its own frame never opens again.
 */
module Expiry {
  import opened Keys
  import opened SkippedKeys
  import opened Ratchet
  import opened Conversation
  import opened Agreement
  import opened Runs
  import opened Parting
  import opened Openings
  import opened Views
  import opened Delivery

  // ------------------------------------------------------------------------
  // one call
  // ------------------------------------------------------------------------

  /** After a frame that decodes, whatever came of it, no key older than the lifetime is held. */
  lemma NothingOldIsHeld(s: State, now: nat, m: nat, f: Frame, d: nat, n: nat)
    requires Keyed(s) && StoreOk(s) && f.Frame?
    ensures var t := Decrypt(s, now, m, f).0;
            Find(t.skipped, d, n).Some? ==> now <= Find(t.skipped, d, n).value.at + s.opts.ttl
  {
    hide PutKeys, PruneKeys, DropKey, Find, DecryptSame, DecryptTurn, Open, Turned, TurnIkm, PassedKeys;
    var p, h := Pruned(s, now), f.header;
    PrunedFind(s, now, d, n);
    StoreKept(s, now);
    if Find(p.skipped, h.dhPub, h.n).Some? {
      DropFind(p.skipped, p.opts.maxChains, h.dhPub, h.n, d, n);
    } else if h.dhPub == p.dhPeer {
      SameStamps(p, now, m, h, f.body, d, n);
    } else {
      TurnStamps(p, now, m, h, f.body, d, n);
    }
  }

  /** What a frame on the current chain or a new one stashes is stamped with the present. */
  lemma SameStamps(p: State, now: nat, m: nat, h: Header, body: Body, d: nat, n: nat)
    requires Keyed(p) && StoreOk(p)
    ensures var t := DecryptSame(p, now, m, h, body).0;
            var found := Find(t.skipped, d, n);
            t.opts == p.opts && (found.Some? ==> found.value.at == now || found == Find(p.skipped, d, n))
  {
    hide PutKeys, Find, Open, PassedKeys;
    if p.ckRecv.Some? && h.n >= p.nRecv {
      PutPassedFind(p.skipped, p.opts.maxChains, h.dhPub, p.nRecv, p.ckRecv.value, h.n - p.nRecv, now, d, n);
    }
  }

  lemma TurnStamps(p: State, now: nat, m: nat, h: Header, body: Body, d: nat, n: nat)
    requires Keyed(p) && StoreOk(p)
    ensures var t := DecryptTurn(p, now, m, h, body).0;
            var found := Find(t.skipped, d, n);
            t.opts == p.opts && (found.Some? ==> found.value.at == now || found == Find(p.skipped, d, n))
  {
    hide PutKeys, Find, Open, PassedKeys, TurnIkm, ClosingKeys;
    if p.dhSelf.Some? && TurnIkm(p, h).Some? {
      TurnedStamps(p, now, h, TurnIkm(p, h).value, d, n);
    }
  }

  /** A turn stamps what it stashes with the present. */
  lemma TurnedStamps(p: State, now: nat, h: Header, ikm: Ikm, d: nat, n: nat)
    requires Keyed(p) && StoreOk(p)
    ensures var found := Find(Turned(p, now, h, ikm).skipped, d, n);
            found.Some? ==> found.value.at == now || found == Find(p.skipped, d, n)
  {
    var max := p.opts.maxChains;
    var closed := PutKeys(p.skipped, max, p.dhPeer, p.nRecv, ClosingKeys(p, h.pn), now);
    PutKeysFind(p.skipped, max, p.dhPeer, p.nRecv, ClosingKeys(p, h.pn), now, d, n);
    PutKeysFind(closed, max, h.dhPub, 0, PassedKeys(Chain(p.rk, ikm), h.n), now, d, n);
  }

  /**
   * Exactly which frames are reported as a jump over the bound, and how far it was: no key in time
   * is held for them, and they are too far ahead on the current chain, close it too far ahead, or
   * are too far ahead on a chain of their own whose ciphertext, if any, can be placed.
   */
  lemma OverTheBoundExactly(s: State, now: nat, m: nat, f: Frame, jump: nat)
    requires StoreOk(s)
    ensures Decrypt(s, now, m, f).1 == SkipBound(jump)
       <==> && f.Frame? && !InTime(s, now, f.header.dhPub, f.header.n)
            && var (h, max) := (f.header, s.opts.maxSkip);
            if h.dhPub == s.dhPeer then s.ckRecv.Some? && h.n > s.nRecv + max && jump == h.n - s.nRecv
            else
              && s.dhSelf.Some? && (h.pqCt.Some? ==> s.pqKey.Some?)
              && if s.ckRecv.Some? && h.pn > s.nRecv + max then jump == h.pn - s.nRecv
                 else h.pqCt != Some(WrongLengthCt) && h.n > max && jump == h.n
  {
    hide PruneKeys, Find, PutKeys, PassedKeys, Walk, Open, DropKey, NotePeerPq, Turned;
    if f.Frame? {
      PrunedFind(s, now, f.header.dhPub, f.header.n);
    }
  }

  // ------------------------------------------------------------------------
  // whole runs
  // ------------------------------------------------------------------------

  /** Walked past, and no key for it that is still in time. */
  predicate Over(turns: seq<Turn>, h: Half, now: nat, j: nat, n: nat) {
    j < |turns| && n < Limit(turns, h, j) && !InTime(h.st, now, turns[j].pub, n)
  }

  /** Walked past, and no key for it at all. */
  predicate Dead(turns: seq<Turn>, h: Half, j: nat, n: nat) {
    j < |turns| && n < Limit(turns, h, j) && Find(h.st.skipped, turns[j].pub, n).None?
  }

  lemma OpeningKillsOver(sk: Key, ekR: nat, turns: seq<Turn>, i: nat, v: Half, now: nat, f: Frame, g: Half, j: nat, n: nat)
    requires TurnsOk(sk, ekR, turns) && HalfOk(sk, ekR, turns, i, v) && HalfOk(sk, ekR, turns, i, g) && OpenedAs(ekR, turns, v, now, f, g)
    requires HalfOk(sk, ekR, turns, i, v.(st := Pruned(v.st, now)))
    requires Over(turns, v, now, j, n) && j % 2 != i
    ensures Dead(turns, g, j, n)
  {
    hide SendSide, RecvSide, OpenedSide, StashSide, TurnsOk, PutKeys, DropKey, PruneKeys, Find, EvictedBy;
    var p := v.(st := Pruned(v.st, now));
    var d, s := turns[j].pub, p.st;
    PrunedFind(v.st, now, d, n);
    if Find(s.skipped, f.header.dhPub, f.header.n).Some? {
      DropFind(s.skipped, s.opts.maxChains, f.header.dhPub, f.header.n, d, n);
    } else if f.header.dhPub == v.st.dhPeer {
      ChainKeepsDead(sk, ekR, turns, i, p, now, f.header.n, g, j, n);
    } else {
      TurnKeepsDead(sk, ekR, turns, i, p, now, f.header.n, j, n);
    }
  }

  lemma ChainKeepsDead(sk: Key, ekR: nat, turns: seq<Turn>, i: nat, p: Half, now: nat, n0: nat, g: Half, j: nat, n: nat)
    requires TurnsOk(sk, ekR, turns) && HalfOk(sk, ekR, turns, i, p) && p.recv >= 0 && p.st.ckRecv.Some? && WalkedTo(p, g, now, n0)
    requires Dead(turns, p, j, n) && j % 2 != i
    ensures Dead(turns, g, j, n)
  {
    var s := p.st;
    TurnOfOwn(sk, ekR, turns, p.recv);
    TurnOfOwn(sk, ekR, turns, j);
    PutPassedFind(s.skipped, s.opts.maxChains, s.dhPeer, s.nRecv, s.ckRecv.value, n0 - s.nRecv, now, turns[j].pub, n);
  }

  lemma TurnKeepsDead(sk: Key, ekR: nat, turns: seq<Turn>, i: nat, p: Half, now: nat, n0: nat, j: nat, n: nat)
    requires CanTurn(sk, ekR, turns, i, p)
    requires Dead(turns, p, j, n) && j % 2 != i
    ensures Dead(turns, TurnTaken(ekR, turns, p, now, n0), j, n)
  {
    hide StashSide, SendSide, IkmOf, Find, Turned;
    var last: nat := |turns| - 1;
    assert Linked(sk, ekR, turns, last);
    assert j <= p.recv && p.recv >= 0;
    TurnOfOwn(sk, ekR, turns, j);
    TurnOfOwn(sk, ekR, turns, p.recv);
    TurnOfOwn(sk, ekR, turns, last);
    TurnedFind(p.st, now, HeaderAt(turns[last], n0), IkmOf(ekR, turns, last), turns[j].pub, n);
  }

  /** One delivery on one side: a key past its lifetime is dropped, and one that is gone never comes back. */
  lemma DeliveryKills(sk: Key, ekR: nat, turns: seq<Turn>, i: nat, v: Half, now: nat, m: nat, f: Frame, j: nat, n: nat)
    requires TurnsOk(sk, ekR, turns) && HalfOk(sk, ekR, turns, i, v) && Admissible(sk, turns, f)
    requires Over(turns, v, now, j, n) && j % 2 != i && (f.Frame? || Dead(turns, v, j, n))
    ensures Dead(turns, DeliverHalf(turns, v, now, m, f), j, n)
  {
    hide HalfOk, TurnsOk, Decrypt, Find, PruneKeys;
    PrunedIsDead(sk, ekR, turns, i, v, now, j, n);
    if Decrypt(v.st, now, m, f).1.Opened? {
      OpensFrames(v.st, now, m, f);
      var g := OpeningKeeps(sk, ekR, turns, i, v, now, m, f);
      PruneKeepsHalf(sk, ekR, turns, i, v, now);
      OpeningKillsOver(sk, ekR, turns, i, v, now, f, g, j, n);
    } else {
      RefusalChangesNothing(v.st, now, m, f);
    }
  }

  lemma PrunedIsDead(sk: Key, ekR: nat, turns: seq<Turn>, i: nat, v: Half, now: nat, j: nat, n: nat)
    requires HalfOk(sk, ekR, turns, i, v) && Over(turns, v, now, j, n)
    ensures Dead(turns, v.(st := Pruned(v.st, now)), j, n)
  {
    PrunedFind(v.st, now, turns[j].pub, n);
  }

  /** Seen on the turns both sides follow. */
  ghost predicate OverAt(s: Sys, i: nat, now: nat, j: nat, n: nat)
    requires i < 2
  {
    Over(Followed(s), HalfOf(s, i), now, j, n)
  }

  ghost predicate DeadAt(s: Sys, i: nat, j: nat, n: nat)
    requires i < 2
  {
    Dead(Followed(s), HalfOf(s, i), j, n)
  }

  lemma SeenAlike(turns: seq<Turn>, h: Half, v: Half, now: nat, j: nat, n: nat)
    requires StandsAlike(h, v)
    ensures Over(turns, h, now, j, n) <==> Over(turns, v, now, j, n)
    ensures Dead(turns, h, j, n) <==> Dead(turns, v, j, n)
  {
  }

  lemma DeliveryKillsAt(s: Sys, e: Event, j: nat, n: nat)
    requires Whole(s) && Possible(s, e) && e.DeliverEvent? && e.side < 2 && j % 2 != e.side
    requires OverAt(s, e.side, e.now, j, n) && (e.frame.Frame? || DeadAt(s, e.side, j, n))
    ensures DeadAt(Apply(s, e), e.side, j, n)
  {
    hide Parted, Sound, HalfOk, TurnsOk, Decrypt, Apply, DeliverHalf, Over, Dead, Possible;
    var i, turns := e.side, Followed(s);
    var v := View(s, i);
    ViewOk(s, i);
    ViewDelivers(s, e);
    DeliveryKeepsKind(s, e);
    ViewOk(Apply(s, e), i);
    SeenAlike(turns, HalfOf(s, i), v, e.now, j, n);
    SeenAlike(turns, HalfOf(Apply(s, e), i), View(Apply(s, e), i), e.now, j, n);
    if Admissible(s.sk, turns, e.frame) {
      DeliveryKills(s.sk, s.ekR, turns, i, v, e.now, e.m, e.frame, j, n);
    } else {
      PrunedIsDead(s.sk, s.ekR, turns, i, v, e.now, j, n);
    }
  }

  lemma DeadIsOver(turns: seq<Turn>, h: Half, now: nat, j: nat, n: nat)
    requires Dead(turns, h, j, n)
    ensures Over(turns, h, now, j, n)
  {
  }

  lemma DeadStays(s: Sys, e: Event, i: nat, j: nat, n: nat)
    requires Whole(s) && Possible(s, e) && i < 2 && j % 2 != i && DeadAt(s, i, j, n)
    ensures DeadAt(Apply(s, e), i, j, n)
  {
    hide Parted, Sound, Apply, Possible, Over;
    if e.SendEvent? {
      SendKeepsDead(s, e, i, j, n);
    } else if e.side == i {
      DeadIsOver(Followed(s), HalfOf(s, i), e.now, j, n);
      DeliveryKillsAt(s, e, j, n);
    } else {
      DeliveryKeepsKind(s, e);
      OtherSideStays(s, e, i);
    }
  }

  lemma SendKeepsDead(s: Sys, e: Event, i: nat, j: nat, n: nat)
    requires Whole(s) && Possible(s, e) && e.SendEvent? && i < 2 && j % 2 != i && DeadAt(s, i, j, n)
    ensures DeadAt(Apply(s, e), i, j, n)
  {
    hide Parted, Sound, HalfOk, TurnsOk, Encrypt, SendTurns, Apply, Find;
    ReceivingStays(s, e, i);
    FollowedStays(s, e, i, j);
  }

  /** Neither in time nor ahead, it does not open. */
  lemma OverIsShut(s: Sys, e: Event, j: nat, n: nat)
    requires Whole(s) && Possible(s, e) && e.DeliverEvent? && e.side < 2 && j % 2 != e.side && OverAt(s, e.side, e.now, j, n)
    ensures forall o :: o in OpeningsOf(s, e) ==> Where(o) != (e.side, j, n)
  {
    hide Parted, Sound, Apply, Decrypt, Possible, Find;
    forall o | o in OpeningsOf(s, e) ensures Where(o) != (e.side, j, n) {
      OpeningIsHonest(s, e, o);
      if Where(o) == (e.side, j, n) {
        FollowedText(s, o.side, j, n);
        OpensWhenReachable(s, e.side, e.now, e.m, j, n);
      }
    }
  }

  lemma FollowedText(s: Sys, i: nat, j: nat, n: nat)
    requires Whole(s) && i < 2 && j < |Followed(s)| && n < |s.turns[j].texts|
    ensures |Followed(s)| <= |s.turns| && Followed(s)[j] == s.turns[j]
  {
    hide Parted, Sound;
    ViewOk(s, i);
  }

  lemma {:induction false} DeadNeverOpens(s: Sys, es: seq<Event>, i: nat, j: nat, n: nat)
    requires Whole(s) && PossibleRun(s, es) && i < 2 && j % 2 != i && DeadAt(s, i, j, n)
    ensures forall o :: o in Log(s, es) ==> Where(o) != (i, j, n)
    decreases |es|
  {
    hide Whole, Apply, OpeningsOf, Possible, Dead, Over;
    if es != [] {
      var e := es[0];
      StepStaysWhole(s, e);
      DeadStays(s, e, i, j, n);
      DeadNeverOpens(Apply(s, e), es[1..], i, j, n);
      forall o | o in OpeningsOf(s, e) ensures Where(o) != (i, j, n) {
        OpeningIsHonest(s, e, o);
        if o.side == i {
          DeadIsOver(Followed(s), HalfOf(s, i), e.now, j, n);
          OverIsShut(s, e, j, n);
        }
      }
    }
  }

  lemma HeldIsPassed(s: Sys, i: nat, j: nat, n: nat)
    requires Whole(s) && i < 2 && j < |Followed(s)| && Find(HalfOf(s, i).st.skipped, Followed(s)[j].pub, n).Some?
    ensures n < Limit(Followed(s), HalfOf(s, i), j)
  {
    hide Parted, Sound, TurnsOk, SendSide, RecvSide, OpenedSide, Find, Followed, View;
    ViewOk(s, i);
    HeldWithin(s.sk, s.ekR, Followed(s), i, View(s, i), j, n);
  }

  lemma HeldWithin(sk: Key, ekR: nat, turns: seq<Turn>, i: nat, v: Half, j: nat, n: nat)
    requires TurnsOk(sk, ekR, turns) && HalfOk(sk, ekR, turns, i, v) && j < |turns| && Find(v.st.skipped, turns[j].pub, n).Some?
    ensures n < Limit(turns, v, j)
  {
    hide Find;
    TurnOfOwn(sk, ekR, turns, j);
    assert HeldOk(turns, i, v, turns[j].pub, n, Find(v.st.skipped, turns[j].pub, n).value.key);
  }

  /**
   * Over any run: once a side holding a skipped key is handed a frame after the key's lifetime,
   * the frame of that key opens neither then nor at any time later, however the run goes on.
   */
  lemma ExpiredNeverOpens(s: Sys, es: seq<Event>, i: nat, j: nat, n: nat)
    requires Whole(s) && PossibleRun(s, es) && es != [] && i < 2 && j < |Followed(s)| && j % 2 != i
    requires es[0].DeliverEvent? && es[0].side == i && es[0].frame.Frame?
    requires var st, d := HalfOf(s, i).st, Followed(s)[j].pub;
             Find(st.skipped, d, n).Some? && es[0].now > Find(st.skipped, d, n).value.at + st.opts.ttl
    ensures forall o :: o in Log(s, es) ==> Where(o) != (i, j, n)
  {
    hide Whole, Apply, OpeningsOf, Possible, Dead;
    var e := es[0];
    HeldIsPassed(s, i, j, n);
    assert OverAt(s, i, e.now, j, n);
    StepStaysWhole(s, e);
    DeliveryKillsAt(s, e, j, n);
    DeadNeverOpens(Apply(s, e), es[1..], i, j, n);
    OverIsShut(s, e, j, n);
  }
}
