/**
 * Delivery over whole runs: a frame opens exactly once, at its first arrival, unless
 * a jump over the bound, the age of its key or the eviction of its chain is in the way.
 */
module Delivery {
  import opened Keys
  import opened SkippedKeys
  import opened Ratchet
  import opened Conversation
  import opened Agreement
  import opened Runs
  import opened Parting
  import opened Openings
  import opened Views

  // ------------------------------------------------------------------------
  // nothing is lost but by age or eviction, over runs
  // ------------------------------------------------------------------------

  /** Counter n of turn j, if side i has walked past it, is opened or held. */
  ghost predicate Kept(turns: seq<Turn>, h: Half, j: nat, n: nat) {
    j < |turns| && n < Limit(turns, h, j) ==> Accounted(turns, h, j, n)
  }

  /** This event neither finds the key of (j, n) expired at side i nor leaves its chain evicted. */
  ghost predicate Spared(s: Sys, e: Event, i: nat, j: nat, n: nat) {
    e.DeliverEvent? && e.side == i < 2 && j < |s.turns| ==>
      && !Expired(HalfOf(s, i).st, e.now, s.turns[j].pub, n)
      && !Gone(HalfOf(Apply(s, e), i).st.skipped, HalfOf(s, i).st.opts.maxChains, s.turns[j].pub)
  }

  ghost predicate SparedRun(s: Sys, es: seq<Event>, i: nat, j: nat, n: nat)
    decreases |es|
  {
    es != [] ==> Spared(s, es[0], i, j, n) && SparedRun(Apply(s, es[0]), es[1..], i, j, n)
  }

  lemma KeptAlike(turns: seq<Turn>, h: Half, v: Half, j: nat, n: nat)
    requires StandsAlike(h, v)
    ensures Kept(turns, h, j, n) <==> Kept(turns, v, j, n)
  {
  }

  lemma OptsStay(s: State, now: nat, m: nat, f: Frame)
    ensures Decrypt(s, now, m, f).0.opts == s.opts
  {
    hide PutKeys, PruneKeys, DropKey, Find, PassedKeys, Walk, Open;
  }

  lemma PrunedKeeps(sk: Key, ekR: nat, turns: seq<Turn>, i: nat, h: Half, now: nat, j: nat, n: nat)
    requires HalfOk(sk, ekR, turns, i, h) && Kept(turns, h, j, n)
    requires j < |turns| ==> !Expired(h.st, now, turns[j].pub, n)
    ensures Kept(turns, h.(st := Pruned(h.st, now)), j, n)
  {
    if j < |turns| && n < Limit(turns, h, j) {
      PruneLosesExpired(h, turns, now, j, n);
    }
  }

  /** One delivery, seen on the turns both follow. */
  lemma ViewKept(s: Sys, e: Event, j: nat, n: nat)
    requires Whole(s) && Possible(s, e) && e.DeliverEvent? && j % 2 != e.side
    requires Spared(s, e, e.side, j, n) && Kept(Followed(s), View(s, e.side), j, n)
    ensures Kept(Followed(s), View(Apply(s, e), e.side), j, n)
  {
    hide Parted, Sound, HalfOk, TurnsOk, Decrypt, Apply, DeliverHalf, Expired, Gone;
    var i, turns := e.side, Followed(s);
    var v, w := View(s, i), View(Apply(s, e), i);
    ViewOk(s, i);
    ViewDelivers(s, e);
    DeliveryKeepsKind(s, e);
    ViewOk(Apply(s, e), i);
    if j < |turns| {
      assert turns[j] == s.turns[j];
      SpareAlike(s, e, j, n);
      if Admissible(s.sk, turns, e.frame) {
        SparedHalf(s.sk, s.ekR, turns, i, v, e.now, e.m, e.frame, j, n);
      } else {
        PrunedKeeps(s.sk, s.ekR, turns, i, v, e.now, j, n);
      }
    }
  }

  lemma SpareAlike(s: Sys, e: Event, j: nat, n: nat)
    requires e.DeliverEvent? && e.side < 2 && j < |s.turns| && Spared(s, e, e.side, j, n)
    requires StandsAlike(HalfOf(s, e.side), View(s, e.side)) && StandsAlike(HalfOf(Apply(s, e), e.side), View(Apply(s, e), e.side))
    ensures !Expired(View(s, e.side).st, e.now, s.turns[j].pub, n)
    ensures !Gone(View(Apply(s, e), e.side).st.skipped, View(s, e.side).st.opts.maxChains, s.turns[j].pub)
  {
    hide Apply, View;
  }

  lemma SparedHalf(sk: Key, ekR: nat, turns: seq<Turn>, i: nat, v: Half, now: nat, m: nat, f: Frame, j: nat, n: nat)
    requires TurnsOk(sk, ekR, turns) && HalfOk(sk, ekR, turns, i, v) && Admissible(sk, turns, f)
    requires j < |turns| && j % 2 != i && Kept(turns, v, j, n)
    requires !Expired(v.st, now, turns[j].pub, n)
    requires !Gone(DeliverHalf(turns, v, now, m, f).st.skipped, v.st.opts.maxChains, turns[j].pub)
    ensures Kept(turns, DeliverHalf(turns, v, now, m, f), j, n)
  {
    hide HalfOk, TurnsOk, Expired, Gone, Decrypt;
    OptsStay(v.st, now, m, f);
    if n < Limit(turns, DeliverHalf(turns, v, now, m, f), j) {
      HalfLosesNothing(sk, ekR, turns, i, v, now, m, f, j, n);
    }
  }

  /** What sending leaves alone: where receiving stands, and the turns received on. */
  lemma SendKeepsReceiving(s: Sys, e: Event, i: nat, j: nat, n: nat)
    requires Whole(s) && Possible(s, e) && e.SendEvent? && i < 2 && j % 2 != i
    requires Kept(Followed(s), HalfOf(s, i), j, n)
    ensures Kept(Followed(Apply(s, e)), HalfOf(Apply(s, e), i), j, n)
  {
    hide Parted, Sound, HalfOk, TurnsOk, Encrypt, SendTurns, Apply;
    ViewOk(s, i);
    ReceivingStays(s, e, i);
    var h, g := HalfOf(s, i), HalfOf(Apply(s, e), i);
    var turns, more := Followed(s), Followed(Apply(s, e));
    if j < |more| && n < Limit(more, g, j) {
      FollowedStays(s, e, i, j);
    }
  }

  lemma ReceivingStays(s: Sys, e: Event, i: nat)
    requires e.SendEvent? && i < 2 && e.side < 2
    ensures var h, g := HalfOf(s, i), HalfOf(Apply(s, e), i);
            g.recv == h.recv && g.done == h.done && g.st.skipped == h.st.skipped && g.st.nRecv == h.st.nRecv && g.st.opts == h.st.opts
  {
  }

  /** Turns a side has received on keep their key; all but the newest of them keep their texts. */
  lemma FollowedStays(s: Sys, e: Event, i: nat, j: nat)
    requires Whole(s) && Possible(s, e) && e.SendEvent? && i < 2 && j % 2 != i && j <= HalfOf(s, i).recv
    ensures j < |Followed(s)| && j < |Followed(Apply(s, e))|
    ensures Followed(Apply(s, e))[j].pub == Followed(s)[j].pub
    ensures j < HalfOf(s, i).recv ==> Followed(Apply(s, e))[j].texts == Followed(s)[j].texts
  {
    hide Parted, Sound, HalfOk, TurnsOk, Encrypt, SendTurns, Apply;
    ViewOk(s, i);
    ReceivedWithin(s, i);
    FollowedAfter(s, e);
    assert Followed(s)[j] == s.turns[j];
    StepStaysWhole(s, e);
    assert Apply(s, e).turns[j].(texts := s.turns[j].texts) == s.turns[j];
    if j < HalfOf(s, i).recv { TextsStay(s, e, i, j); }
  }

  lemma PlacedWithin(sk: Key, ekR: nat, turns: seq<Turn>, more: seq<Turn>, i: nat, h: Half)
    requires HalfOk(sk, ekR, turns, i, h) && turns <= more && i < 2
    ensures h.recv < |turns| && h.recv <= Own(more, 1 - i) && (h.recv >= 0 ==> h.recv % 2 != i)
  {
  }

  lemma ReceivedWithin(s: Sys, i: nat)
    requires Whole(s) && i < 2
    ensures HalfOf(s, i).recv < |Followed(s)| && HalfOf(s, i).recv <= Own(s.turns, 1 - i)
    ensures HalfOf(s, i).recv >= 0 ==> HalfOf(s, i).recv % 2 != i
  {
    hide Parted, Sound, TurnsOk, HalfOk, View, Followed;
    ViewOk(s, i);
    PlacedWithin(s.sk, s.ekR, Followed(s), s.turns, i, View(s, i));
  }

  /** A turn can only come to be followed later than it is sealed, and never stops. */
  lemma FollowedAfter(s: Sys, e: Event)
    requires Whole(s) && Possible(s, e)
    ensures |Followed(s)| <= |Followed(Apply(s, e))| && Followed(Apply(s, e)) <= Apply(s, e).turns
  {
    hide Parted, Sound, Apply, Possible;
    StepStaysWhole(s, e);
    ViewOk(s, 0);
    ViewOk(Apply(s, e), 0);
    if Parted(s) {
      PartedParts(s);
      PartedParts(Apply(s, e));
    } else if Parted(Apply(s, e)) {
      PartedParts(Apply(s, e));
      if e.SendEvent? { OneMoreTurn(s, e); } else { DeliveryKeepsKind(s, e); }
    }
  }

  lemma OneMoreTurn(s: Sys, e: Event)
    requires Sound(s) && Possible(s, e) && e.SendEvent? && Parted(Apply(s, e))
    ensures |Apply(s, e).turns| == |s.turns| + 1
  {
    hide Parted, HalfOk;
    if TurnsNow(HalfOf(s, e.side).st) && !Answers(s.turns, HalfOf(s, e.side)) {
      PartingTurn(s, e);
    } else {
      SoundSend(s, e);
      NeverBoth(Apply(s, e));
    }
  }

  lemma TextsStay(s: Sys, e: Event, i: nat, j: nat)
    requires e.SendEvent? && e.side < 2 && i < 2 && j % 2 != i && j < |s.turns|
    requires j < HalfOf(s, i).recv <= Own(s.turns, 1 - i)
    ensures j < |Apply(s, e).turns| && Apply(s, e).turns[j].texts == s.turns[j].texts
  {
    hide Encrypt, OpenChain;
  }

  /** Whatever happens, a counter walked past stays opened or held while it is spared. */
  lemma KeptOn(s: Sys, e: Event, i: nat, j: nat, n: nat)
    requires Whole(s) && Possible(s, e) && i < 2 && j % 2 != i
    requires Spared(s, e, i, j, n) && Kept(Followed(s), HalfOf(s, i), j, n)
    ensures Kept(Followed(Apply(s, e)), HalfOf(Apply(s, e), i), j, n)
  {
    hide Parted, Sound, Apply, Possible, Kept, Spared;
    if e.SendEvent? {
      SendKeepsReceiving(s, e, i, j, n);
    } else {
      DeliveryKeepsKind(s, e);
      if e.side == i {
        ViewOk(s, i);
        ViewOk(Apply(s, e), i);
        KeptAlike(Followed(s), HalfOf(s, i), View(s, i), j, n);
        ViewKept(s, e, j, n);
        KeptAlike(Followed(s), HalfOf(Apply(s, e), i), View(Apply(s, e), i), j, n);
      } else {
        OtherSideStays(s, e, i);
      }
    }
  }

  /** Over any run: a counter walked past is opened or still held, unless its key expired or its whole chain was evicted. */
  lemma {:induction false} NothingElseLost(s: Sys, es: seq<Event>, i: nat, j: nat, n: nat)
    requires Whole(s) && PossibleRun(s, es) && i < 2 && j % 2 != i
    requires SparedRun(s, es, i, j, n) && Kept(Followed(s), HalfOf(s, i), j, n)
    ensures Kept(Followed(Run(s, es)), HalfOf(Run(s, es), i), j, n)
    decreases |es|
  {
    hide Whole, Apply, Possible, Kept, Spared;
    if es != [] {
      KeptOn(s, es[0], i, j, n);
      StepStaysWhole(s, es[0]);
      NothingElseLost(Apply(s, es[0]), es[1..], i, j, n);
    }
  }

  // ------------------------------------------------------------------------
  // exactly once
  // ------------------------------------------------------------------------

  /** The event hands this frame to side i. */
  predicate HandsOver(e: Event, i: nat, f: Frame) {
    e.DeliverEvent? && e.side == i && e.frame == f
  }

  predicate Delivered(es: seq<Event>, i: nat, f: Frame) {
    exists k :: 0 <= k < |es| && HandsOver(es[k], i, f)
  }

  lemma DeliveredCons(e: Event, es: seq<Event>, i: nat, f: Frame)
    ensures Delivered([e] + es, i, f) <==> HandsOver(e, i, f) || Delivered(es, i, f)
  {
    assert ([e] + es)[0] == e;
    if Delivered(es, i, f) {
      var k :| 0 <= k < |es| && HandsOver(es[k], i, f);
      assert ([e] + es)[k + 1] == es[k];
    }
    if Delivered([e] + es, i, f) && !HandsOver(e, i, f) {
      var k :| 0 <= k < |[e] + es| && HandsOver(([e] + es)[k], i, f);
      assert es[k - 1] == ([e] + es)[k];
    }
  }

  /** The jump frame n of turn j makes at this receiver: over the rest of the chain being closed, and to its own counter. */
  predicate InBound(turns: seq<Turn>, h: Half, j: nat, n: nat)
    requires j < |turns|
  {
    var max := h.st.opts.maxSkip;
    && (j == h.recv ==> n <= h.st.nRecv + max)
    && (j > h.recv ==> n <= max && (h.recv >= 0 ==> turns[j].pn <= h.st.nRecv + max))
  }

  /**
   * Along the run the key of (j, n) is never expired nor its chain evicted when side i
   * receives something, and the frame itself never jumps over the bound.
   */
  ghost predicate Undisturbed(s: Sys, es: seq<Event>, i: nat, j: nat, n: nat, f: Frame)
    decreases |es|
  {
    es != [] ==>
      && Spared(s, es[0], i, j, n)
      && (HandsOver(es[0], i, f) && i < 2 && j < |s.turns| ==> InBound(s.turns, HalfOf(s, i), j, n))
      && Undisturbed(Apply(s, es[0]), es[1..], i, j, n, f)
  }

  function Times(log: seq<Opening>, w: (nat, nat, nat)): nat {
    if log == [] then 0 else (if Where(log[0]) == w then 1 else 0) + Times(log[1..], w)
  }

  lemma {:induction false} TimesJoin(a: seq<Opening>, b: seq<Opening>, w: (nat, nat, nat))
    ensures Times(a + b, w) == Times(a, w) + Times(b, w)
  {
    if a == [] {
      assert a + b == b;
    } else {
      assert (a + b)[1..] == a[1..] + b;
      TimesJoin(a[1..], b, w);
    }
  }

  lemma {:induction false} TimesNone(log: seq<Opening>, w: (nat, nat, nat))
    requires forall o :: o in log ==> Where(o) != w
    ensures Times(log, w) == 0
  {
    if log != [] {
      assert log[0] in log;
      TimesNone(log[1..], w);
    }
  }

  // A frame is the same frame in every later state, and is sealed before it can be handed over.

  lemma FrameStays(turns: seq<Turn>, more: seq<Turn>, j: nat, n: nat)
    requires Grown(turns, more) && j < |turns| && n < |turns[j].texts|
    ensures n < |more[j].texts| && FrameAt(more[j], n) == FrameAt(turns[j], n)
  {
    assert more[j].(texts := turns[j].texts) == turns[j];
  }

  lemma PubsDiffer(s: Sys, a: nat, b: nat)
    requires Whole(s) && a < b < |s.turns|
    ensures s.turns[a].pub != s.turns[b].pub
  {
    hide HalfOk, Before, Misfits, Sending;
    if Parted(s) {
      PartedParts(s);
      var base, t := Common(s.turns), s.turns[|s.turns| - 1];
      assert s.turns[a] == base[a];
      if b < |base| {
        assert s.turns[b] == base[b];
      } else {
        StalePubIsNew(base, t.pub, a);
      }
    }
  }

  lemma FollowedRooted(s: Sys, j: nat, n: nat)
    requires Whole(s) && j < |Followed(s)| && n < |Followed(s)[j].texts|
    ensures j < |s.turns| && s.turns[j] == Followed(s)[j]
    ensures RootedIn(s.sk, FrameAt(s.turns[j], n).body.mk)
  {
    hide Parted, Sound, HalfOk;
    ViewOk(s, 0);
    assert Linked(s.sk, s.ekR, Followed(s), j);
    RootFacts(s.sk, s.ekR, Followed(s), j);
    WalkKeeps(s.sk, Followed(s)[j].ck0, n);
  }

  lemma SealedBefore(s: Sys, e: Event, v: Sys, j: nat, n: nat)
    requires Whole(s) && Possible(s, e) && Whole(v) && Grown(s.turns, v.turns) && v.sk == s.sk
    requires j < |Followed(v)| && n < |Followed(v)[j].texts|
    requires e.DeliverEvent? && e.frame == FrameAt(Followed(v)[j], n)
    ensures j < |s.turns| && n < |s.turns[j].texts| && FrameAt(s.turns[j], n) == e.frame
  {
    hide Parted, Sound, Followed;
    FollowedRooted(v, j, n);
    assert HonestBody(s.turns, e.frame.body);
    var a: nat, b: nat :| a < |s.turns| && b < |s.turns[a].texts| && e.frame.body == FrameAt(s.turns[a], b).body;
    FrameStays(s.turns, v.turns, a, b);
    if a < j { PubsDiffer(v, a, j); } else if j < a { PubsDiffer(v, j, a); }
  }

  lemma RunKeepsSk(s: Sys, es: seq<Event>)
    ensures Run(s, es).sk == s.sk
    decreases |es|
  {
    hide Decrypt, Encrypt;
    if es != [] {
      RunKeepsSk(Apply(s, es[0]), es[1..]);
    }
  }

  lemma {:induction false} FollowedAtEnd(s: Sys, es: seq<Event>, j: nat)
    requires Whole(s) && PossibleRun(s, es) && j < |Followed(Run(s, es))| && j < |s.turns|
    ensures j < |Followed(s)| && Followed(s)[j] == s.turns[j]
  {
    hide Whole, Apply, Possible;
    RunStaysWhole(s, es);
    ViewOk(s, 0);
    if Parted(s) {
      PartedParts(s);
      PartedParts(Run(s, es));
    }
  }

  /** Handed over and not opened yet, it opens. */
  lemma OpensNow(s: Sys, e: Event, i: nat, j: nat, n: nat)
    requires Whole(s) && Possible(s, e) && i < 2 && j % 2 != i
    requires j < |Followed(s)| && n < |Followed(s)[j].texts| && Followed(s)[j] == s.turns[j]
    requires HandsOver(e, i, FrameAt(s.turns[j], n))
    requires Spared(s, e, i, j, n) && Kept(Followed(s), HalfOf(s, i), j, n) && InBound(s.turns, HalfOf(s, i), j, n)
    requires (j, n) !in HalfOf(s, i).done
    ensures OpeningsOf(s, e) == [Opening(i, j, n, s.turns[j].texts[n])]
  {
    hide Parted, Sound, Apply, Decrypt, HalfOk, TurnsOk, Gone;
    ViewOk(s, i);
    OpensWhenReachable(s, i, e.now, e.m, j, n);
    WithinReach(s, i, e.now, j, n);
    var o := OpeningsOf(s, e)[0];
    OpeningIsHonest(s, e, o);
    if o.turn < j { PubsDiffer(s, o.turn, j); } else if j < o.turn { PubsDiffer(s, j, o.turn); }
  }

  lemma WithinReach(s: Sys, i: nat, now: nat, j: nat, n: nat)
    requires Whole(s) && i < 2 && j % 2 != i && j < |Followed(s)| && n < |Followed(s)[j].texts| && Followed(s)[j] == s.turns[j]
    requires !Expired(HalfOf(s, i).st, now, s.turns[j].pub, n)
    requires Kept(Followed(s), HalfOf(s, i), j, n) && InBound(s.turns, HalfOf(s, i), j, n) && (j, n) !in HalfOf(s, i).done
    ensures Reachable(Followed(s), HalfOf(s, i), now, j, n)
  {
    hide Parted, Sound, TurnsOk, Followed, View;
    ViewOk(s, i);
    HalfReach(s.sk, s.ekR, Followed(s), i, HalfOf(s, i), View(s, i), now, j, n);
  }

  lemma HalfReach(sk: Key, ekR: nat, turns: seq<Turn>, i: nat, h: Half, v: Half, now: nat, j: nat, n: nat)
    requires HalfOk(sk, ekR, turns, i, v) && StandsAlike(h, v) && i < 2
    requires j % 2 != i && j < |turns| && n < |turns[j].texts|
    requires !Expired(h.st, now, turns[j].pub, n)
    requires Kept(turns, h, j, n) && InBound(turns, h, j, n) && (j, n) !in h.done
    ensures Reachable(turns, h, now, j, n)
  {
    hide SendSide, RecvSide, StashSide, OpenedSide, PruneKeys;
    if n < Limit(turns, h, j) {
      PruneFind(h.st.skipped, h.st.opts.maxChains, now, h.st.opts.ttl, turns[j].pub, n);
    } else {
      assert Placed(turns, i, v);
    }
  }

  /**
   * Over any run, a frame of a turn both sides follow that is handed over undisturbed is
   * opened exactly once; one that is never handed over is never opened.
   */
  lemma {:induction false} OpensExactlyOnce(s: Sys, es: seq<Event>, i: nat, j: nat, n: nat)
    requires Whole(s) && PossibleRun(s, es) && i < 2 && j % 2 != i
    requires j < |Followed(Run(s, es))| && n < |Followed(Run(s, es))[j].texts|
    requires Kept(Followed(s), HalfOf(s, i), j, n)
    requires Undisturbed(s, es, i, j, n, FrameAt(Followed(Run(s, es))[j], n))
    ensures Times(Log(s, es), (i, j, n))
         == if (j, n) !in HalfOf(s, i).done && Delivered(es, i, FrameAt(Followed(Run(s, es))[j], n)) then 1 else 0
    decreases |es|
  {
    hide Whole, Apply, Possible, Kept, Spared, Followed, OpeningsOf;
    var f := FrameAt(Followed(Run(s, es))[j], n);
    if (j, n) in HalfOf(s, i).done {
      LogAvoidsDone(s, es, i, j, n);
      TimesNone(Log(s, es), (i, j, n));
    } else if es != [] {
      var e, t, rest := es[0], Apply(s, es[0]), es[1..];
      StepStaysWhole(s, e);
      KeptOn(s, e, i, j, n);
      OpensExactlyOnce(t, rest, i, j, n);
      TimesJoin(OpeningsOf(s, e), Log(t, rest), (i, j, n));
      RunStaysWhole(s, es);
      RunKeepsSk(s, es);
      assert es == [e] + rest;
      DeliveredCons(e, rest, i, f);
      if !HandsOver(e, i, f) {
        FirstEvent(s, e, Run(s, es), i, j, n);
      } else {
        SealedBefore(s, e, Run(s, es), j, n);
        FollowedAtEnd(s, es, j);
        OpensNow(s, e, i, j, n);
        OpeningIsHonest(s, e, OpeningsOf(s, e)[0]);
      }
    }
  }

  /** An event opens (j, n) at side i only by handing over that frame, and otherwise does not mark it. */
  lemma FirstEvent(s: Sys, e: Event, v: Sys, i: nat, j: nat, n: nat)
    requires Whole(s) && Possible(s, e) && Whole(v) && Grown(s.turns, v.turns) && i < 2
    requires j < |Followed(v)| && n < |Followed(v)[j].texts| && (j, n) !in HalfOf(s, i).done
    requires !HandsOver(e, i, FrameAt(Followed(v)[j], n))
    ensures Times(OpeningsOf(s, e), (i, j, n)) == 0 && (j, n) !in HalfOf(Apply(s, e), i).done
  {
    hide Whole, Apply, Followed, OpeningsOf;
    FollowedRooted(v, j, n);
    forall o | o in OpeningsOf(s, e) ensures Where(o) != (i, j, n) {
      OpeningIsHonest(s, e, o);
      FrameStays(s.turns, v.turns, o.turn, o.n);
    }
    TimesNone(OpeningsOf(s, e), (i, j, n));
    MarksOpenings(s, e, i, j, n);
  }

  lemma MarksOpenings(s: Sys, e: Event, i: nat, j: nat, n: nat)
    requires i < 2 && e.side < 2
    requires forall o :: o in OpeningsOf(s, e) ==> Where(o) != (i, j, n)
    ensures (j, n) in HalfOf(Apply(s, e), i).done <==> (j, n) in HalfOf(s, i).done
  {
    hide Decrypt, Encrypt, SendTurns;
    if e.DeliverEvent? && Decrypt(HalfOf(s, e.side).st, e.now, e.m, e.frame).1.Opened? {
      assert OpeningsOf(s, e)[0] in OpeningsOf(s, e);
    }
  }

  /** And it opens at its first arrival, to its own text. */
  lemma {:induction false} OpensAtFirst(s: Sys, es: seq<Event>, i: nat, j: nat, n: nat, k: nat)
    requires Whole(s) && PossibleRun(s, es) && i < 2 && j % 2 != i
    requires j < |Followed(Run(s, es))| && n < |Followed(Run(s, es))[j].texts|
    requires Kept(Followed(s), HalfOf(s, i), j, n) && (j, n) !in HalfOf(s, i).done
    requires Undisturbed(s, es, i, j, n, FrameAt(Followed(Run(s, es))[j], n))
    requires k < |es| && HandsOver(es[k], i, FrameAt(Followed(Run(s, es))[j], n))
    requires !Delivered(es[..k], i, FrameAt(Followed(Run(s, es))[j], n))
    ensures OpeningsOf(Run(s, es[..k]), es[k]) == [Opening(i, j, n, Followed(Run(s, es))[j].texts[n])]
    decreases |es|
  {
    hide Whole, Apply, Possible, Kept, Spared, Followed, OpeningsOf;
    var f, e, t, rest := FrameAt(Followed(Run(s, es))[j], n), es[0], Apply(s, es[0]), es[1..];
    StepStaysWhole(s, e);
    KeptOn(s, e, i, j, n);
    RunStaysWhole(s, es);
    RunKeepsSk(s, es);
    if k == 0 {
      SealedBefore(s, e, Run(s, es), j, n);
      FollowedAtEnd(s, es, j);
      OpensNow(s, e, i, j, n);
      FollowedRooted(Run(s, es), j, n);
      FrameStays(s.turns, Run(s, es).turns, j, n);
      assert Run(s, es[..0]) == s;
    } else {
      assert es[..k] == [e] + rest[..k - 1];
      DeliveredCons(e, rest[..k - 1], i, f);
      FirstEvent(s, e, Run(s, es), i, j, n);
      OpensAtFirst(t, rest, i, j, n, k - 1);
      assert es[..k][1..] == rest[..k - 1] && es[..k][0] == e;
      assert Run(s, es[..k]) == Run(t, rest[..k - 1]);
    }
  }
}
