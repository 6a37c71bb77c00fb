/**
 * Exactly-once delivery with conditions a caller can read off the list of events: what
 * is handed over, when, and how far ahead.
 */
module Window {
  import opened Keys
  import opened SkippedKeys
  import opened Ratchet
  import opened Conversation
  import opened Agreement
  import opened Runs
  import opened Parting
  import opened Openings
  import opened Views
  import opened Delivery

  // ------------------------------------------------------------------------
  // the conditions
  // ------------------------------------------------------------------------

  /** A frame the peer of side i sealed somewhere on these turns. */
  predicate Genuine(turns: seq<Turn>, i: nat, f: Frame) {
    f.Frame? &&
    var j := TurnOf(turns, f.header.dhPub);
    j < |turns| && j % 2 != i && f.header.n < |turns[j].texts| && f == FrameAt(turns[j], f.header.n)
  }

  /** All that side i is handed comes within one key lifetime. */
  predicate InWindow(es: seq<Event>, i: nat, t0: nat, ttl: nat) {
    forall e :: e in es && e.DeliverEvent? && e.side == i ==> t0 <= e.now <= t0 + ttl
  }

  /** How many of the turns are the peer's. */
  function PeerTurns(turns: seq<Turn>, i: nat): nat {
    (|turns| + i) / 2
  }

  /**
   * `top` is the peer's newest turn side i has been handed a frame of (-1 for none), `reach` one
   * more than the highest counter handed over of it: no genuine frame jumps by more than `max`.
   */
  predicate WithinBound(turns: seq<Turn>, i: nat, max: nat, top: int, reach: nat, es: seq<Event>)
    decreases |es|
  {
    es != [] ==>
      && FitsBound(turns, i, max, top, reach, es[0])
      && var (a, b) := Onward(turns, i, top, reach, es[0]);
         WithinBound(turns, i, max, a, b, es[1..])
  }

  predicate Arrives(turns: seq<Turn>, i: nat, e: Event) {
    e.DeliverEvent? && e.side == i && Genuine(turns, i, e.frame)
  }

  predicate FitsBound(turns: seq<Turn>, i: nat, max: nat, top: int, reach: nat, e: Event) {
    Arrives(turns, i, e) ==>
      var j, n := TurnOf(turns, e.frame.header.dhPub), e.frame.header.n;
      && (j == top ==> n <= reach + max)
      && (j > top ==> n <= max && (top >= 0 ==> turns[j].pn <= reach + max))
  }

  function Onward(turns: seq<Turn>, i: nat, top: int, reach: nat, e: Event): (int, nat) {
    if !Arrives(turns, i, e) then (top, reach)
    else
      var j, n := TurnOf(turns, e.frame.header.dhPub), e.frame.header.n;
      if j > top then (j, n + 1) else if j == top && n >= reach then (top, n + 1) else (top, reach)
  }

  // ------------------------------------------------------------------------
  // where a receiver stands
  // ------------------------------------------------------------------------

  lemma HalfMoves(sk: Key, ekR: nat, turns: seq<Turn>, i: nat, v: Half, now: nat, m: nat, f: Frame)
    requires TurnsOk(sk, ekR, turns) && HalfOk(sk, ekR, turns, i, v) && Admissible(sk, turns, f)
    requires Decrypt(v.st, now, m, f).1.Opened?
    ensures f.Frame?
    ensures var j, n, g := TurnOf(turns, f.header.dhPub), f.header.n, DeliverHalf(turns, v, now, m, f);
            if j > v.recv then g.recv == j && g.st.nRecv == n + 1
            else g.recv == v.recv && g.st.nRecv == (if j == v.recv && n >= v.st.nRecv then n + 1 else v.st.nRecv)
  {
    hide Decrypt, SendSide, PutKeys, PruneKeys, DropKey;
    OpensFrames(v.st, now, m, f);
    var p := v.(st := Pruned(v.st, now));
    PruneKeepsHalf(sk, ekR, turns, i, v, now);
    var g := OpeningKeeps(sk, ekR, turns, i, v, now, m, f);
    var d, n := f.header.dhPub, f.header.n;
    if Find(p.st.skipped, d, n).Some? {
      assert HeldOk(turns, i, p, d, n, Find(p.st.skipped, d, n).value.key);
    } else if d == v.st.dhPeer {
      TurnOfOwn(sk, ekR, turns, v.recv);
    }
  }

  /** A delivery moves where side i stands exactly as the frame, if it opened, says. */
  lemma SideMoves(s: Sys, e: Event)
    requires Whole(s) && Possible(s, e) && e.DeliverEvent?
    ensures var h, g := HalfOf(s, e.side), HalfOf(Apply(s, e), e.side);
            if OpeningsOf(s, e) == [] then g.recv == h.recv && g.st.nRecv == h.st.nRecv
            else var o := OpeningsOf(s, e)[0];
              if o.turn > h.recv then g.recv == o.turn && g.st.nRecv == o.n + 1
              else g.recv == h.recv && g.st.nRecv == (if o.turn == h.recv && o.n >= h.st.nRecv then o.n + 1 else h.st.nRecv)
  {
    hide Parted, Sound, Decrypt, TurnsOk, HalfOk, Before, DeliverHalf, Apply;
    var i := e.side;
    ViewOk(s, i);
    ViewDelivers(s, e);
    DeliveryKeepsKind(s, e);
    ViewOk(Apply(s, e), i);
    var h, v := HalfOf(s, i), View(s, i);
    SideAfter(s, e);
    if Decrypt(h.st, e.now, e.m, e.frame).1.Opened? {
      HalfMoves(s.sk, s.ekR, Followed(s), i, v, e.now, e.m, e.frame);
      PubOfFollowed(s, e, i);
    } else {
      SideStays(s.turns, h, e.now, e.m, e.frame);
    }
  }

  lemma SideStays(turns: seq<Turn>, h: Half, now: nat, m: nat, f: Frame)
    requires !Decrypt(h.st, now, m, f).1.Opened?
    ensures var g := DeliverHalf(turns, h, now, m, f); g.recv == h.recv && g.st.nRecv == h.st.nRecv
  {
    hide Decrypt, PruneKeys;
    RefusalChangesNothing(h.st, now, m, f);
  }

  lemma {:induction false} TurnOfPrefix(turns: seq<Turn>, more: seq<Turn>, d: nat)
    requires turns <= more && TurnOf(turns, d) < |turns|
    ensures TurnOf(more, d) == TurnOf(turns, d)
  {
    if turns[0].pub != d {
      assert turns[1..] <= more[1..];
      TurnOfPrefix(turns[1..], more[1..], d);
    }
  }

  lemma PubOfFollowed(s: Sys, e: Event, i: nat)
    requires Whole(s) && Possible(s, e) && e.DeliverEvent? && e.side == i && Admissible(s.sk, Followed(s), e.frame)
    requires Decrypt(View(s, i).st, e.now, e.m, e.frame).1.Opened?
    ensures e.frame.Frame? && TurnOf(Followed(s), e.frame.header.dhPub) == TurnOf(s.turns, e.frame.header.dhPub)
  {
    hide Parted, Sound, Decrypt, TurnsOk, HalfOk, Followed, View;
    ViewOk(s, i);
    OpensFrames(View(s, i).st, e.now, e.m, e.frame);
    var g := OpeningKeeps(s.sk, s.ekR, Followed(s), i, View(s, i), e.now, e.m, e.frame);
    TurnOfPrefix(Followed(s), s.turns, e.frame.header.dhPub);
  }

  // ------------------------------------------------------------------------
  // age
  // ------------------------------------------------------------------------

  /** No held key is older than t0. */
  ghost predicate Stamped(s: Store, t0: nat) {
    forall d: nat, n: nat :: Find(s, d, n).Some? ==> Find(s, d, n).value.at >= t0
  }

  lemma PutStamped(s: Store, max: nat, pub: nat, start: nat, ck: Key, k: nat, now: nat, t0: nat)
    requires max >= 1 && WellFormed(s, max) && Stamped(s, t0) && now >= t0
    ensures var t := PutKeys(s, max, pub, start, PassedKeys(ck, k), now); WellFormed(t, max) && Stamped(t, t0)
  {
    hide PutKeys, Find, WellFormed;
    var t := PutKeys(s, max, pub, start, PassedKeys(ck, k), now);
    PutPassedFind(s, max, pub, start, ck, k, now, 0, 0);
    forall d: nat, n: nat | Find(t, d, n).Some? ensures Find(t, d, n).value.at >= t0 {
      PutPassedFind(s, max, pub, start, ck, k, now, d, n);
    }
  }

  lemma PruneStamped(s: State, now: nat, t0: nat)
    requires StoreOk(s) && Stamped(s.skipped, t0)
    ensures StoreOk(Pruned(s, now)) && Stamped(Pruned(s, now).skipped, t0)
  {
    hide PruneKeys, Find, WellFormed;
    var max, ttl := s.opts.maxChains, s.opts.ttl;
    PruneFind(s.skipped, max, now, ttl, 0, 0);
    forall d: nat, n: nat | Find(Pruned(s, now).skipped, d, n).Some? ensures Find(Pruned(s, now).skipped, d, n).value.at >= t0 {
      PruneFind(s.skipped, max, now, ttl, d, n);
    }
  }

  lemma DropStamped(s: Store, max: nat, pub: nat, k: nat, t0: nat)
    requires WellFormed(s, max) && Stamped(s, t0)
    ensures Stamped(DropKey(s, pub, k), t0)
  {
    hide DropKey, Find, WellFormed;
    forall d: nat, n: nat | Find(DropKey(s, pub, k), d, n).Some? ensures Find(DropKey(s, pub, k), d, n).value.at >= t0 {
      DropFind(s, max, pub, k, d, n);
    }
  }

  lemma TurnStamped(s: State, now: nat, hd: Header, ikm: Ikm, t0: nat)
    requires StoreOk(s) && s.opts.maxChains >= 1 && Stamped(s.skipped, t0) && now >= t0
    ensures Stamped(Turned(s, now, hd, ikm).skipped, t0)
  {
    hide PutKeys, Stamped, WellFormed, PassedKeys;
    var max := s.opts.maxChains;
    var closed := PutKeys(s.skipped, max, s.dhPeer, s.nRecv, ClosingKeys(s, hd.pn), now);
    if s.ckRecv.Some? {
      PutStamped(s.skipped, max, s.dhPeer, s.nRecv, s.ckRecv.value, Steps(s.nRecv, hd.pn), now, t0);
    } else {
      NothingPut(s.skipped, max, s.dhPeer, s.nRecv, now);
    }
    PutStamped(closed, max, hd.dhPub, 0, Chain(s.rk, ikm), hd.n, now, t0);
  }

  lemma NothingPut(s: Store, max: nat, pub: nat, start: nat, now: nat)
    ensures PutKeys(s, max, pub, start, [], now) == s
  {
  }

  lemma DeliveryStamped(s: State, now: nat, m: nat, f: Frame, t0: nat)
    requires StoreOk(s) && s.opts.maxChains >= 1 && Stamped(s.skipped, t0) && now >= t0
    ensures Stamped(Decrypt(s, now, m, f).0.skipped, t0)
  {
    hide PutKeys, Stamped, WellFormed, PassedKeys, PruneKeys, DropKey, Find, Turned, Open, NotePeerPq;
    if f.Frame? {
      var p, h := Pruned(s, now), f.header;
      PruneStamped(s, now, t0);
      DropStamped(p.skipped, p.opts.maxChains, h.dhPub, h.n, t0);
      if p.ckRecv.Some? {
        PutStamped(p.skipped, p.opts.maxChains, h.dhPub, p.nRecv, p.ckRecv.value, Steps(p.nRecv, h.n), now, t0);
      }
      if p.dhSelf.Some? && TurnIkm(p, h).Some? {
        TurnStamped(p, now, h, TurnIkm(p, h).value, t0);
      }
    }
  }

  // ------------------------------------------------------------------------
  // eviction
  // ------------------------------------------------------------------------

  function Below(k: nat): (all: set<nat>)
    ensures |all| == k && forall a: nat :: a in all <==> a < k
  {
    if k == 0 then {} else Below(k - 1) + {k - 1}
  }

  lemma {:induction false} Fits(xs: seq<nat>, room: set<nat>)
    requires forall a :: 0 <= a < |xs| ==> xs[a] in room
    requires forall a, b :: 0 <= a < b < |xs| ==> xs[a] != xs[b]
    ensures |xs| <= |room|
  {
    if xs != [] {
      Fits(xs[1..], room - {xs[0]});
    }
  }

  /** The chains held are turns of the peer's, so with room for all of them none is evicted. */
  lemma NeverGone(sk: Key, ekR: nat, turns: seq<Turn>, i: nat, v: Half, j: nat)
    requires TurnsOk(sk, ekR, turns) && HalfOk(sk, ekR, turns, i, v) && i < 2
    requires j < |turns| && j % 2 != i && PeerTurns(turns, i) <= v.st.opts.maxChains
    ensures !Gone(v.st.skipped, v.st.opts.maxChains, turns[j].pub)
  {
    hide SendSide, RecvSide, OpenedSide, PendingOk, Placed, TurnsOk, HeldOk;
    var s, max := v.st.skipped, v.st.opts.maxChains;
    if Gone(s, max, turns[j].pub) {
      var xs: seq<nat> := seq(|s|, a requires 0 <= a < |s| => TurnOf(turns, s[a].pub) / 2);
      forall a | 0 <= a < |xs| ensures xs[a] < PeerTurns(turns, i) && xs[a] != j / 2 {
        HeldChain(turns, i, v, a);
        KeysAt(s, a);
        assert |s[a].keys| > 0;
        var n :| n in s[a].keys;
        assert Find(s, s[a].pub, n).Some?;
      }
      forall a, b | 0 <= a < b < |xs| ensures xs[a] != xs[b] {
        HeldChain(turns, i, v, a);
        HeldChain(turns, i, v, b);
        assert s[a].pub != s[b].pub;
      }
      Fits(xs, Below(PeerTurns(turns, i)) - {j / 2});
    }
  }

  lemma HeldChain(turns: seq<Turn>, i: nat, v: Half, a: nat)
    requires StashSide(turns, i, v) && StoreOk(v.st) && a < |v.st.skipped|
    ensures var j := TurnOf(turns, v.st.skipped[a].pub); j < |turns| && j % 2 != i && turns[j].pub == v.st.skipped[a].pub
  {
    var s := v.st.skipped;
    KeysAt(s, a);
    assert |s[a].keys| > 0;
    var n :| n in s[a].keys;
    assert HeldOk(turns, i, v, s[a].pub, n, Find(s, s[a].pub, n).value.key);
  }

  // ------------------------------------------------------------------------
  // the conditions along a run
  // ------------------------------------------------------------------------

  ghost predicate AllKept(s: Sys, i: nat)
    requires i < 2
  {
    forall j: nat, n: nat :: j % 2 != i ==> Kept(Followed(s), HalfOf(s, i), j, n)
  }

  /** The conditions on the events still to come, from the state reached. */
  ghost predicate Going(s: Sys, es: seq<Event>, i: nat, t0: nat, turns: seq<Turn>) {
    && Whole(s) && PossibleRun(s, es) && i < 2
    && turns == Followed(Run(s, es))
    && var h := HalfOf(s, i);
       && InWindow(es, i, t0, h.st.opts.ttl)
       && PeerTurns(turns, i) <= h.st.opts.maxChains
       && Stamped(h.st.skipped, t0)
       && WithinBound(turns, i, h.st.opts.maxSkip, h.recv, h.st.nRecv, es)
       && AllKept(s, i)
  }

  lemma FollowedWithin(s: Sys, es: seq<Event>)
    requires Whole(s) && PossibleRun(s, es)
    ensures |Followed(s)| <= |Followed(Run(s, es))|
    ensures forall j: nat, n: nat :: j < |Followed(s)| && n < |Followed(s)[j].texts| ==>
              n < |Followed(Run(s, es))[j].texts| && FrameAt(Followed(Run(s, es))[j], n) == FrameAt(Followed(s)[j], n)
                && Followed(Run(s, es))[j].texts[n] == Followed(s)[j].texts[n]
    decreases |es|
  {
    hide Whole, Apply, Possible, Followed;
    RunStaysWhole(s, es);
    ViewOk(s, 0);
    ViewOk(Run(s, es), 0);
    FollowedGrows(s, es);
    forall j: nat, n: nat | j < |Followed(s)| && n < |Followed(s)[j].texts|
      ensures n < |Followed(Run(s, es))[j].texts| && FrameAt(Followed(Run(s, es))[j], n) == FrameAt(Followed(s)[j], n)
      ensures Followed(Run(s, es))[j].texts[n] == Followed(s)[j].texts[n]
    {
      FrameStays(s.turns, Run(s, es).turns, j, n);
    }
  }

  lemma {:induction false} FollowedGrows(s: Sys, es: seq<Event>)
    requires Whole(s) && PossibleRun(s, es)
    ensures |Followed(s)| <= |Followed(Run(s, es))|
    decreases |es|
  {
    hide Whole, Apply, Possible, Followed;
    if es != [] {
      StepStaysWhole(s, es[0]);
      FollowedAfter(s, es[0]);
      FollowedGrows(Apply(s, es[0]), es[1..]);
    }
  }

  lemma PossibleSide(s: Sys, es: seq<Event>)
    requires es != [] && PossibleRun(s, es)
    ensures es[0].side < 2
  {
  }

  lemma NothingAgesOut(s: Sys, e: Event, i: nat, t0: nat, d: nat, n: nat)
    requires i < 2 && e.DeliverEvent? && Stamped(HalfOf(s, i).st.skipped, t0) && t0 <= e.now <= t0 + HalfOf(s, i).st.opts.ttl
    ensures !Expired(HalfOf(s, i).st, e.now, d, n)
  {
  }

  lemma OptsStayPut(s: Sys, e: Event, i: nat)
    requires e.side < 2 && i < 2
    ensures HalfOf(Apply(s, e), i).st.opts == HalfOf(s, i).st.opts
  {
    hide Decrypt;
    if e.DeliverEvent? {
      OptsStay(HalfOf(s, e.side).st, e.now, e.m, e.frame);
    }
  }

  /** Every frame of a followed turn is spared by the next event. */
  lemma GoingSpares(s: Sys, es: seq<Event>, i: nat, t0: nat, turns: seq<Turn>, j: nat, n: nat)
    requires es != [] && Going(s, es, i, t0, turns) && j < |Followed(s)| && j % 2 != i
    ensures Spared(s, es[0], i, j, n)
  {
    hide Whole, Apply, Possible, Gone, Expired, WithinBound, Stamped, AllKept, Run;
    var e := es[0];
    if e.DeliverEvent? && e.side == i {
      ViewOk(s, i);
      assert e in es;
      NothingAgesOut(s, e, i, t0, s.turns[j].pub, n);
      DeliveryKeepsKind(s, e);
      ViewOk(Apply(s, e), i);
      OptsStayPut(s, e, i);
      FollowedGrows(s, es);
      SkStays(s, e);
      NeverGone(s.sk, s.ekR, Followed(s), i, View(Apply(s, e), i), j);
      GoneAlike(HalfOf(Apply(s, e), i), View(Apply(s, e), i), HalfOf(s, i).st.opts.maxChains, Followed(s)[j].pub);
    }
  }

  lemma SkStays(s: Sys, e: Event)
    ensures Apply(s, e).sk == s.sk && Apply(s, e).ekR == s.ekR
  {
    hide Decrypt, Encrypt;
  }

  lemma GoneAlike(h: Half, v: Half, max: nat, d: nat)
    requires StandsAlike(h, v)
    ensures Gone(h.st.skipped, max, d) <==> Gone(v.st.skipped, max, d)
  {
  }

  lemma KeptStays(s: Sys, es: seq<Event>, i: nat, t0: nat, turns: seq<Turn>)
    requires es != [] && Going(s, es, i, t0, turns)
    ensures AllKept(Apply(s, es[0]), i)
  {
    hide Whole, Apply, Possible, WithinBound, Stamped, Run, Kept, Spared, Followed;
    var e := es[0];
    forall j: nat, n: nat | j % 2 != i ensures Kept(Followed(Apply(s, e)), HalfOf(Apply(s, e), i), j, n) {
      if j < |Followed(s)| {
        GoingSpares(s, es, i, t0, turns, j, n);
        KeptOn(s, e, i, j, n);
      } else if e.SendEvent? {
        SendKeepsReceiving(s, e, i, j, n);
      } else {
        DeliveryKeepsKind(s, e);
        BeyondFollowed(Followed(s), HalfOf(Apply(s, e), i), j, n);
      }
    }
  }

  lemma BeyondFollowed(turns: seq<Turn>, h: Half, j: nat, n: nat)
    requires j >= |turns|
    ensures Kept(turns, h, j, n)
  {
  }

  /** What is handed over now, undelivered before, opens now. */
  lemma GoingOpens(s: Sys, es: seq<Event>, i: nat, t0: nat, turns: seq<Turn>)
    requires es != [] && Going(s, es, i, t0, turns) && Arrives(turns, i, es[0])
    ensures var j, n := TurnOf(turns, es[0].frame.header.dhPub), es[0].frame.header.n;
            && j < |s.turns| && n < |s.turns[j].texts| && es[0].frame == FrameAt(s.turns[j], n)
            && ((j, n) !in HalfOf(s, i).done ==> OpeningsOf(s, es[0]) == [Opening(i, j, n, turns[j].texts[n])])
  {
    hide Whole, Apply, Possible, Stamped, Spared, Followed, OpeningsOf, Kept;
    var e := es[0];
    var j, n := TurnOf(turns, e.frame.header.dhPub), e.frame.header.n;
    RunStaysWhole(s, es);
    RunKeepsSk(s, es);
    SealedBefore(s, e, Run(s, es), j, n);
    FollowedAtEnd(s, es, j);
    FollowedRooted(Run(s, es), j, n);
    FrameStays(s.turns, Run(s, es).turns, j, n);
    if (j, n) !in HalfOf(s, i).done {
      GoingSpares(s, es, i, t0, turns, j, n);
      PnStays(s.turns, Run(s, es).turns, j);
      OpensNow(s, e, i, j, n);
    }
  }

  lemma PnStays(turns: seq<Turn>, more: seq<Turn>, j: nat)
    requires Grown(turns, more) && j < |turns|
    ensures more[j].pn == turns[j].pn
  {
    assert more[j].(texts := turns[j].texts) == turns[j];
  }

  /** Anything that opens is genuine. */
  lemma OpensGenuine(s: Sys, es: seq<Event>, i: nat, t0: nat, turns: seq<Turn>, o: Opening)
    requires es != [] && Going(s, es, i, t0, turns) && o in OpeningsOf(s, es[0]) && es[0].side == i
    ensures Arrives(turns, i, es[0]) && o.turn == TurnOf(turns, es[0].frame.header.dhPub) && o.n == es[0].frame.header.n
    ensures (o.turn, o.n) !in HalfOf(s, i).done && OpeningsOf(s, es[0]) == [o]
  {
    hide Whole, Apply, Possible, Stamped, Followed, OpeningsOf, WithinBound, AllKept;
    var e := es[0];
    OpeningIsHonest(s, e, o);
    OpenedFollowed(s, e, o);
    FollowedWithin(s, es);
    RunStaysWhole(s, es);
    PubIsTurn(Run(s, es), o.turn);
  }

  lemma PubIsTurn(s: Sys, j: nat)
    requires Whole(s) && j < |Followed(s)|
    ensures TurnOf(Followed(s), Followed(s)[j].pub) == j
  {
    hide Parted, Sound, Followed, HalfOk;
    ViewOk(s, 0);
    TurnOfOwn(s.sk, s.ekR, Followed(s), j);
  }

  lemma OpenedFollowed(s: Sys, e: Event, o: Opening)
    requires Whole(s) && Possible(s, e) && o in OpeningsOf(s, e)
    ensures o.turn < |Followed(s)| && o.turn < |s.turns| && Followed(s)[o.turn] == s.turns[o.turn]
  {
    hide Parted, Sound, OpeningsOf;
    OpeningIsHonest(s, e, o);
    ViewOk(s, 0);
    if Parted(s) { PartedParts(s); }
  }

  lemma StampsStay(s: Sys, e: Event, i: nat, t0: nat)
    requires Whole(s) && Possible(s, e) && i < 2 && Stamped(HalfOf(s, i).st.skipped, t0)
    requires e.DeliverEvent? && e.side == i ==> e.now >= t0
    ensures Stamped(HalfOf(Apply(s, e), i).st.skipped, t0)
  {
    hide Parted, Sound, Stamped, Decrypt, Apply, Before, TurnsOk;
    if e.SendEvent? {
      ReceivingStays(s, e, i);
    } else if e.side != i {
      OtherSideStays(s, e, i);
    } else {
      ViewOk(s, i);
      SideAfter(s, e);
      DeliveryStamped(HalfOf(s, i).st, e.now, e.m, e.frame, t0);
    }
  }

  lemma StandsOnward(s: Sys, es: seq<Event>, i: nat, t0: nat, turns: seq<Turn>)
    requires es != [] && Going(s, es, i, t0, turns)
    ensures (HalfOf(Apply(s, es[0]), i).recv, HalfOf(Apply(s, es[0]), i).st.nRecv)
         == Onward(turns, i, HalfOf(s, i).recv, HalfOf(s, i).st.nRecv, es[0])
  {
    hide Whole, Apply, Possible, Stamped, Followed, OpeningsOf, AllKept;
    var e := es[0];
    PossibleSide(s, es);
    if e.SendEvent? {
      ReceivingStays(s, e, i);
    } else if e.side != i {
      OtherSideStays(s, e, i);
    } else {
      SideMoves(s, e);
      if OpeningsOf(s, e) != [] {
        OpensGenuine(s, es, i, t0, turns, OpeningsOf(s, e)[0]);
      } else if Arrives(turns, i, e) {
        GoingOpens(s, es, i, t0, turns);
        DoneIsBehind(s, i, TurnOf(turns, e.frame.header.dhPub), e.frame.header.n);
      }
    }
  }

  lemma DoneIsBehind(s: Sys, i: nat, j: nat, n: nat)
    requires Whole(s) && i < 2 && (j, n) in HalfOf(s, i).done
    ensures j < HalfOf(s, i).recv || (j == HalfOf(s, i).recv && n < HalfOf(s, i).st.nRecv)
  {
    hide Parted, Sound, TurnsOk, Followed, View;
    ViewOk(s, i);
    assert OpenedSide(Followed(s), i, View(s, i));
  }

  lemma GoingOn(s: Sys, es: seq<Event>, i: nat, t0: nat, turns: seq<Turn>)
    requires es != [] && Going(s, es, i, t0, turns)
    ensures Going(Apply(s, es[0]), es[1..], i, t0, turns)
  {
    hide Whole, Apply, Possible, Stamped, Followed, AllKept, Onward, FitsBound;
    var e := es[0];
    assert e in es;
    assert forall x :: x in es[1..] ==> x in es;
    StepStaysWhole(s, e);
    KeptStays(s, es, i, t0, turns);
    StampsStay(s, e, i, t0);
    StandsOnward(s, es, i, t0, turns);
    PossibleSide(s, es);
    OptsStayPut(s, e, i);
  }

  /** What a genuine frame opens to. */
  function Arrival(turns: seq<Turn>, i: nat, e: Event): Opening
    requires Arrives(turns, i, e)
  {
    var j, n := TurnOf(turns, e.frame.header.dhPub), e.frame.header.n;
    Opening(i, j, n, turns[j].texts[n])
  }

  predicate OpenedBefore(h: Half, o: Opening) {
    (o.turn, o.n) in h.done
  }

  /** The event marks as opened what it hands over, and nothing else. */
  lemma MarksArrivals(s: Sys, es: seq<Event>, i: nat, t0: nat, turns: seq<Turn>, e: Event)
    requires es != [] && Going(s, es, i, t0, turns) && Arrives(turns, i, e)
    ensures OpenedBefore(HalfOf(Apply(s, es[0]), i), Arrival(turns, i, e))
       <==> OpenedBefore(HalfOf(s, i), Arrival(turns, i, e)) || HandsOver(es[0], i, e.frame)
  {
    hide Whole, Apply, Possible, Stamped, Followed, OpeningsOf, AllKept, WithinBound;
    var o := Arrival(turns, i, e);
    StepStaysWhole(s, es[0]);
    PossibleSide(s, es);
    DoneGrows(s, es[0], i);
    if HandsOver(es[0], i, e.frame) {
      GoingOpens(s, es, i, t0, turns);
      if !OpenedBefore(HalfOf(s, i), o) {
        OpeningIsHonest(s, es[0], o);
      }
    } else if !OpenedBefore(HalfOf(s, i), o) {
      RunStaysWhole(s, es);
      FirstEvent(s, es[0], Run(s, es), i, o.turn, o.n);
    }
  }

  /**
   * Along any run that meets the conditions, in any order, with any repeats and any forgeries
   * mixed in: each genuine frame opens exactly at its first arrival, to its own text, and
   * nothing else opens.
   */
  lemma {:induction false} FirstsOpen(s: Sys, es: seq<Event>, i: nat, t0: nat, turns: seq<Turn>, k: nat)
    requires Going(s, es, i, t0, turns) && k < |es| && es[k].DeliverEvent? && es[k].side == i
    ensures OpeningsOf(Run(s, es[..k]), es[k])
         == if Arrives(turns, i, es[k]) && !OpenedBefore(HalfOf(s, i), Arrival(turns, i, es[k])) && !Delivered(es[..k], i, es[k].frame)
            then [Arrival(turns, i, es[k])] else []
    decreases |es|
  {
    hide Whole, Apply, Possible, Stamped, Followed, OpeningsOf, AllKept, WithinBound, InWindow;
    if k == 0 {
      assert es[..0] == [] && Run(s, es[..0]) == s;
      if OpeningsOf(s, es[0]) != [] {
        OpensGenuine(s, es, i, t0, turns, OpeningsOf(s, es[0])[0]);
      }
      if Arrives(turns, i, es[0]) {
        GoingOpens(s, es, i, t0, turns);
      }
    } else {
      var e, t, rest := es[0], Apply(s, es[0]), es[1..];
      assert es[..k] == [e] + rest[..k - 1] && es[..k][1..] == rest[..k - 1] && es[..k][0] == e;
      assert Run(s, es[..k]) == Run(t, rest[..k - 1]);
      DeliveredCons(e, rest[..k - 1], i, es[k].frame);
      GoingOn(s, es, i, t0, turns);
      FirstsOpen(t, rest, i, t0, turns, k - 1);
      if Arrives(turns, i, es[k]) {
        MarksArrivals(s, es, i, t0, turns, es[k]);
      }
    }
  }

  // ------------------------------------------------------------------------
  // from the handshake
  // ------------------------------------------------------------------------

  /** The newest turn of the peer's that side i knows when the handshake completes: the responder knows the first. */
  function FirstTop(i: nat): int {
    if i == 0 then -1 else 0
  }

  /**
   * From a completed handshake: if all that side i is handed comes within one key
   * lifetime, no genuine frame jumps over the bound, and the store has room for every
   * turn of the peer's, then each frame the peer sealed on a turn both follow opens
   * exactly when it first arrives, to its own text, and nothing else ever opens.
   */
  lemma DeliveredExactlyOnce(a: HandshakeResult, b: HandshakeResult, optsA: Opts, optsB: Opts, nowA: nat, nowB: nat,
                             es: seq<Event>, i: nat, t0: nat, k: nat)
    requires Matching(a, b) && optsA.maxChains >= 1 && optsB.maxChains >= 1 && i < 2
    requires PossibleRun(Start(a, b, optsA, optsB, nowA, nowB), es)
    requires var turns, opts := Followed(Run(Start(a, b, optsA, optsB, nowA, nowB), es)), (if i == 0 then optsA else optsB);
             && InWindow(es, i, t0, opts.ttl)
             && PeerTurns(turns, i) <= opts.maxChains
             && WithinBound(turns, i, opts.maxSkip, FirstTop(i), 0, es)
    requires k < |es| && es[k].DeliverEvent? && es[k].side == i
    ensures var s := Start(a, b, optsA, optsB, nowA, nowB);
            var turns := Followed(Run(s, es));
            OpeningsOf(Run(s, es[..k]), es[k])
            == if Arrives(turns, i, es[k]) && !Delivered(es[..k], i, es[k].frame) then [Arrival(turns, i, es[k])] else []
  {
    hide Whole, Sound, Possible, OpeningsOf, InWindow, Run, Followed;
    var s := Start(a, b, optsA, optsB, nowA, nowB);
    StartIsSound(a, b, optsA, optsB, nowA, nowB);
    SoundIsWhole(s);
    StartKept(a, b, optsA, optsB, nowA, nowB, i);
    FirstsOpen(s, es, i, t0, Followed(Run(s, es)), k);
  }

  lemma SoundIsWhole(s: Sys)
    requires Sound(s)
    ensures Whole(s)
  {
  }

  lemma StartKept(a: HandshakeResult, b: HandshakeResult, optsA: Opts, optsB: Opts, nowA: nat, nowB: nat, i: nat)
    requires i < 2
    ensures AllKept(Start(a, b, optsA, optsB, nowA, nowB), i)
  {
    hide Followed;
    var s := Start(a, b, optsA, optsB, nowA, nowB);
    forall j: nat, n: nat | j % 2 != i ensures Kept(Followed(s), HalfOf(s, i), j, n) {
    }
  }
}
