/**
 * A run seen through the turns both sides follow: a state after a stale turn looks,
 * to a receiver, like the state before it. What holds of receiving in a sound state
 * holds in every state a run can reach.
 */
module Views {
  import opened Keys
  import opened SkippedKeys
  import opened Ratchet
  import opened Conversation
  import opened Agreement
  import opened Runs
  import opened Parting

  /** The turns both sides can follow: all of them, short of a stale one. */
  ghost function Followed(s: Sys): seq<Turn> {
    if Parted(s) then Common(s.turns) else s.turns
  }

  ghost function View(s: Sys, i: nat): Half {
    if Parted(s) && i == Owner(s.turns) then Before(Common(s.turns), i, HalfOf(s, i)) else HalfOf(s, i)
  }

  /** Where receiving stands is the same seen either way. */
  predicate StandsAlike(h: Half, v: Half) {
    && v.recv == h.recv && v.done == h.done && ReceivesAlike(h.st, v.st)
  }

  lemma NeverBoth(s: Sys)
    requires Parted(s)
    ensures !Sound(s)
  {
    hide HalfOk, Before;
    PartedParts(s);
    var base, t := Common(s.turns), s.turns[|s.turns| - 1];
    if Sound(s) {
      assert Linked(s.sk, s.ekR, s.turns, |s.turns| - 1);
      DhCommutes(t.pub, base[|base| - 1].pub);
      assert false;
    }
  }

  lemma ViewOk(s: Sys, i: nat)
    requires Whole(s) && i < 2
    ensures TurnsOk(s.sk, s.ekR, Followed(s)) && HalfOk(s.sk, s.ekR, Followed(s), i, View(s, i))
    ensures StandsAlike(HalfOf(s, i), View(s, i))
    ensures Followed(s) != [] && Followed(s) <= s.turns
  {
    hide HalfOk, Before, Misfits, Sending;
    if Parted(s) {
      PartedParts(s);
      BeforeAlike(Common(s.turns), i, HalfOf(s, i));
    } else {
      InvOf(s, i);
    }
  }

  // ------------------------------------------------------------------------
  // events, seen
  // ------------------------------------------------------------------------

  lemma DeliveryKeepsKind(s: Sys, e: Event)
    requires Whole(s) && Possible(s, e) && e.DeliverEvent?
    ensures Whole(Apply(s, e)) && (Parted(Apply(s, e)) <==> Parted(s))
    ensures Apply(s, e).turns == s.turns && Followed(Apply(s, e)) == Followed(s)
  {
    hide Parted, Sound, Possible, Apply;
    TurnsStay(s, e);
    if Parted(s) {
      PartedDelivery(s, e);
    } else {
      SoundDelivery(s, e);
      if Parted(Apply(s, e)) { NeverBoth(Apply(s, e)); }
    }
  }

  /** What the two of them see of one delivery. */
  ghost predicate SeenAs(s: Sys, e: Event, h: Half, v: Half, w: Half)
    requires e.DeliverEvent?
  {
    if Admissible(s.sk, Followed(s), e.frame) then
      && w == DeliverHalf(Followed(s), v, e.now, e.m, e.frame)
      && Decrypt(v.st, e.now, e.m, e.frame).1.Opened? == Decrypt(h.st, e.now, e.m, e.frame).1.Opened?
    else w == v.(st := Pruned(v.st, e.now)) && !Decrypt(h.st, e.now, e.m, e.frame).1.Opened?
  }

  lemma SideAfter(s: Sys, e: Event)
    requires e.DeliverEvent? && e.side < 2
    ensures HalfOf(Apply(s, e), e.side) == DeliverHalf(s.turns, HalfOf(s, e.side), e.now, e.m, e.frame)
  {
    hide DeliverHalf;
  }

  lemma OwnerSees(s: Sys, e: Event)
    requires Parted(s) && Possible(s, e) && e.DeliverEvent? && e.side == Owner(s.turns)
    ensures Parted(Apply(s, e))
    ensures SeenAs(s, e, HalfOf(s, e.side), View(s, e.side), View(Apply(s, e), e.side))
  {
    hide PartedOf, Decrypt, Before, DeliverHalf, Admissible, Apply;
    PartedDelivery(s, e);
    PartedParts(s);
    SideAfter(s, e);
    var o := e.side;
    BeforeDelivers(s.sk, s.ekR, Common(s.turns), s.turns[|s.turns| - 1], o, HalfOf(s, o), HalfOf(s, 1 - o), e.now, e.m, e.frame);
  }

  lemma PeerSees(s: Sys, e: Event)
    requires Parted(s) && Possible(s, e) && e.DeliverEvent? && e.side != Owner(s.turns)
    ensures Parted(Apply(s, e))
    ensures SeenAs(s, e, HalfOf(s, e.side), View(s, e.side), View(Apply(s, e), e.side))
  {
    hide PartedOf, Decrypt, Before, DeliverHalf, Admissible, Apply;
    PartedDelivery(s, e);
    PartedParts(s);
    SideAfter(s, e);
    var o := 1 - e.side;
    PeerDelivery(s.sk, s.ekR, Common(s.turns), s.turns[|s.turns| - 1], o, HalfOf(s, o), HalfOf(s, 1 - o), e.now, e.m, e.frame);
  }

  lemma SoundSees(s: Sys, e: Event)
    requires Sound(s) && !Parted(s) && Possible(s, e) && e.DeliverEvent?
    ensures !Parted(Apply(s, e))
    ensures SeenAs(s, e, HalfOf(s, e.side), View(s, e.side), View(Apply(s, e), e.side))
  {
    hide Parted, Sound, Decrypt, DeliverHalf, Apply;
    DeliveryKeepsKind(s, e);
    SideAfter(s, e);
  }

  /** A delivery, seen: one on the turns both follow, or a refusal. */
  lemma ViewDelivers(s: Sys, e: Event)
    requires Whole(s) && Possible(s, e) && e.DeliverEvent?
    ensures Parted(Apply(s, e)) <==> Parted(s)
    ensures SeenAs(s, e, HalfOf(s, e.side), View(s, e.side), View(Apply(s, e), e.side))
  {
    hide Parted, Sound, Possible, SeenAs;
    if !Parted(s) {
      SoundSees(s, e);
    } else {
      PartedParts(s);
      if e.side == Owner(s.turns) { OwnerSees(s, e); } else { PeerSees(s, e); }
    }
  }

  /** The other side does not notice. */
  lemma OtherSideStays(s: Sys, e: Event, i: nat)
    requires Whole(s) && Possible(s, e) && e.DeliverEvent? && i < 2 && e.side != i
    ensures HalfOf(Apply(s, e), i) == HalfOf(s, i)
  {
  }

  /** In any reachable state a frame of a followed turn opens exactly when it is within reach. */
  lemma OpensWhenReachable(s: Sys, i: nat, now: nat, m: nat, j: nat, n: nat)
    requires Whole(s) && i < 2
    requires j < |Followed(s)| && j % 2 != i && n < |Followed(s)[j].texts|
    ensures var f := FrameAt(Followed(s)[j], n);
            && Possible(s, DeliverEvent(i, now, m, f))
            && (Decrypt(HalfOf(s, i).st, now, m, f).1.Opened? <==> Reachable(Followed(s), HalfOf(s, i), now, j, n))
  {
    hide Parted, Sound, Decrypt, HalfOk, TurnsOk, Apply;
    var f := FrameAt(Followed(s)[j], n);
    ViewOk(s, i);
    assert s.turns[j] == Followed(s)[j];
    assert HonestBody(s.turns, f.body) && HonestBody(Followed(s), f.body);
    OpensExactly(s.sk, s.ekR, Followed(s), i, View(s, i), now, m, j, n);
    ViewDelivers(s, DeliverEvent(i, now, m, f));
  }
}
