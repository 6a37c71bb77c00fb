/**
 * What opens over whole runs, with no condition on turns: every frame at most once
 * and only to its own text, and nothing at all of a turn that answered the wrong key.
 */
module Openings {
  import opened Keys
  import opened SkippedKeys
  import opened Ratchet
  import opened Conversation
  import opened Agreement
  import opened Runs
  import opened Parting

  /** A frame that opened: at which side, which turn and counter, to which text. */
  datatype Opening = Opening(side: nat, turn: nat, n: nat, text: string)

  function OpeningsOf(s: Sys, e: Event): seq<Opening> {
    match e
    case SendEvent(_, _, _, _, _) => []
    case DeliverEvent(i, now, m, f) =>
      var r := Decrypt(HalfOf(s, i).st, now, m, f).1;
      if r.Opened? then [Opening(i, TurnOf(s.turns, f.header.dhPub), f.header.n, r.text)] else []
  }

  function Log(s: Sys, es: seq<Event>): seq<Opening>
    decreases |es|
  {
    if es == [] then [] else OpeningsOf(s, es[0]) + Log(Apply(s, es[0]), es[1..])
  }

  function Where(o: Opening): (nat, nat, nat) {
    (o.side, o.turn, o.n)
  }

  predicate Distinct(log: seq<Opening>) {
    forall a, b :: 0 <= a < b < |log| ==> Where(log[a]) != Where(log[b])
  }

  /** The opening is of a frame the peer sealed, to the text it sealed there. */
  predicate Honest(turns: seq<Turn>, o: Opening) {
    o.turn < |turns| && o.turn % 2 != o.side && o.n < |turns[o.turn].texts| && o.text == turns[o.turn].texts[o.n]
  }

  // ------------------------------------------------------------------------
  // one event
  // ------------------------------------------------------------------------

  lemma SoundOpening(s: Sys, e: Event)
    requires Sound(s) && Possible(s, e) && e.DeliverEvent?
    requires Decrypt(HalfOf(s, e.side).st, e.now, e.m, e.frame).1.Opened?
    ensures HonestOpening(s.turns, e.side, HalfOf(s, e.side), e.frame, Decrypt(HalfOf(s, e.side).st, e.now, e.m, e.frame).1.text)
  {
    hide Decrypt, HalfOk, TurnsOk;
    InvOf(s, e.side);
    OpensFrames(HalfOf(s, e.side).st, e.now, e.m, e.frame);
    var g := OpeningKeeps(s.sk, s.ekR, s.turns, e.side, HalfOf(s, e.side), e.now, e.m, e.frame);
  }

  lemma PartedOpening(s: Sys, e: Event)
    requires Parted(s) && Possible(s, e) && e.DeliverEvent?
    requires Decrypt(HalfOf(s, e.side).st, e.now, e.m, e.frame).1.Opened?
    ensures HonestOpening(s.turns, e.side, HalfOf(s, e.side), e.frame, Decrypt(HalfOf(s, e.side).st, e.now, e.m, e.frame).1.text)
    ensures TurnOf(s.turns, e.frame.header.dhPub) < |s.turns| - 1
  {
    hide Decrypt, PartedOf, FrameAt;
    PartedParts(s);
    var o, base, t := Owner(s.turns), Common(s.turns), s.turns[|s.turns| - 1];
    var h, k := HalfOf(s, o), HalfOf(s, 1 - o);
    if e.side == o {
      OwnerDelivery(s.sk, s.ekR, base, t, o, h, k, e.now, e.m, e.frame);
    } else {
      PeerDelivery(s.sk, s.ekR, base, t, o, h, k, e.now, e.m, e.frame);
    }
  }

  /** The opening is honest, new, and remembered; in a parted conversation it is never of the newest turn. */
  lemma OpeningIsHonest(s: Sys, e: Event, o: Opening)
    requires Whole(s) && Possible(s, e) && o in OpeningsOf(s, e)
    ensures Honest(s.turns, o) && o.side == e.side < 2 && OpeningsOf(s, e) == [o]
    ensures e.DeliverEvent? && e.frame == FrameAt(s.turns[o.turn], o.n)
    ensures (o.turn, o.n) !in HalfOf(s, o.side).done && (o.turn, o.n) in HalfOf(Apply(s, e), o.side).done
    ensures Parted(s) ==> o.turn < |s.turns| - 1
  {
    hide Decrypt, Parted, Sound, FrameAt;
    if Parted(s) {
      PartedOpening(s, e);
    } else {
      SoundOpening(s, e);
    }
  }

  lemma DoneGrows(s: Sys, e: Event, i: nat)
    requires i < 2 && e.side < 2
    ensures HalfOf(s, i).done <= HalfOf(Apply(s, e), i).done
  {
    hide Decrypt, Encrypt;
  }

  // ------------------------------------------------------------------------
  // runs
  // ------------------------------------------------------------------------

  lemma {:induction false} RunStaysWhole(s: Sys, es: seq<Event>)
    requires Whole(s) && PossibleRun(s, es)
    ensures Whole(Run(s, es)) && Grown(s.turns, Run(s, es).turns)
    ensures Parted(s) ==> Parted(Run(s, es)) && |Run(s, es).turns| == |s.turns|
    decreases |es|
  {
    hide Parted, Sound, Apply, Possible;
    if es == [] {
    } else {
      StepStaysWhole(s, es[0]);
      RunStaysWhole(Apply(s, es[0]), es[1..]);
      GrowthComposes(s.turns, Apply(s, es[0]).turns, Run(s, es).turns);
    }
  }

  /** What is opened already is not opened again. */
  lemma {:induction false} LogAvoidsDone(s: Sys, es: seq<Event>, i: nat, j: nat, n: nat)
    requires Whole(s) && PossibleRun(s, es) && i < 2 && (j, n) in HalfOf(s, i).done
    ensures forall o :: o in Log(s, es) ==> Where(o) != (i, j, n)
    decreases |es|
  {
    hide Whole, Apply, OpeningsOf;
    if es == [] {
    } else {
      var e := es[0];
      StepStaysWhole(s, e);
      DoneGrows(s, e, i);
      LogAvoidsDone(Apply(s, e), es[1..], i, j, n);
      forall o | o in OpeningsOf(s, e) ensures Where(o) != (i, j, n) {
        OpeningIsHonest(s, e, o);
      }
    }
  }

  lemma DistinctCons(o: Opening, rest: seq<Opening>)
    requires Distinct(rest) && (forall x :: x in rest ==> Where(x) != Where(o))
    ensures Distinct([o] + rest)
  {
    assert forall b :: 0 <= b < |rest| ==> rest[b] in rest;
  }

  /** Over any run at all no (side, turn, counter) is opened twice. */
  lemma {:induction false} EachFrameOpensOnce(s: Sys, es: seq<Event>)
    requires Whole(s) && PossibleRun(s, es)
    ensures Distinct(Log(s, es))
    decreases |es|
  {
    hide Whole, Apply, OpeningsOf;
    if es == [] {
    } else {
      var e, t := es[0], Apply(s, es[0]);
      StepStaysWhole(s, e);
      EachFrameOpensOnce(t, es[1..]);
      var first, rest := OpeningsOf(s, e), Log(t, es[1..]);
      if first == [] {
        assert Log(s, es) == rest;
      } else {
        OpeningIsHonest(s, e, first[0]);
        LogAvoidsDone(t, es[1..], first[0].side, first[0].turn, first[0].n);
        DistinctCons(first[0], rest);
      }
    }
  }

  lemma GrowthKeepsHonest(turns: seq<Turn>, more: seq<Turn>, o: Opening)
    requires Grown(turns, more) && Honest(turns, o)
    ensures Honest(more, o)
  {
    assert turns[o.turn].texts <= more[o.turn].texts;
  }

  /** Over any run at all every opening is of a frame the peer sealed, to its own text. */
  lemma {:induction false} OpeningsAreHonest(s: Sys, es: seq<Event>)
    requires Whole(s) && PossibleRun(s, es)
    ensures forall o :: o in Log(s, es) ==> Honest(Run(s, es).turns, o)
    decreases |es|
  {
    hide Whole, Apply, OpeningsOf;
    if es == [] {
    } else {
      var e := es[0];
      var t := Apply(s, e);
      StepStaysWhole(s, e);
      OpeningsAreHonest(t, es[1..]);
      RunStaysWhole(t, es[1..]);
      forall o | o in OpeningsOf(s, e) ensures Honest(Run(s, es).turns, o) {
        OpeningIsHonest(s, e, o);
        GrowthKeepsHonest(s.turns, t.turns, o);
        GrowthKeepsHonest(t.turns, Run(s, es).turns, o);
      }
    }
  }

  // ------------------------------------------------------------------------
  // after a stale turn
  // ------------------------------------------------------------------------

  lemma {:induction false} NewestStaysShut(s: Sys, es: seq<Event>)
    requires Parted(s) && PossibleRun(s, es)
    ensures forall o :: o in Log(s, es) ==> o.turn < |s.turns| - 1
    decreases |es|
  {
    hide Parted, Apply, OpeningsOf;
    if es == [] {
    } else {
      var e := es[0];
      StepStaysWhole(s, e);
      NewestStaysShut(Apply(s, e), es[1..]);
      forall o | o in OpeningsOf(s, e) ensures o.turn < |s.turns| - 1 {
        OpeningIsHonest(s, e, o);
      }
    }
  }

  /**
   * A turn that does not answer the peer's outstanding key is lost for good: however
   * the run goes on, no frame of it opens, nobody turns again, and the two roots stay
   * where they are, one of them behind a step the other never makes.
   */
  lemma StaleTurnIsLost(s: Sys, e: Event, es: seq<Event>)
    requires Sound(s) && e.SendEvent? && Possible(s, e) && PossibleRun(Apply(s, e), es)
    requires TurnsNow(HalfOf(s, e.side).st) && !Answers(s.turns, HalfOf(s, e.side))
    ensures forall o :: o in Log(Apply(s, e), es) ==> o.turn < |s.turns|
    ensures var v := Run(Apply(s, e), es);
            && |v.turns| == |s.turns| + 1
            && HalfOf(v, 1 - e.side).st.rk == s.turns[|s.turns| - 1].root
            && HalfOf(v, e.side).st.rk == HalfOf(Apply(s, e), e.side).st.rk != HalfOf(v, 1 - e.side).st.rk
  {
    hide Parted, Sound, Apply, Possible;
    var t := Apply(s, e);
    PartingTurn(s, e);
    NewestStaysShut(t, es);
    RunStaysWhole(t, es);
    RootsStay(t);
    RootsStay(Run(t, es));
    var v, n := Run(t, es), |s.turns|;
    GrownRoot(s.turns, t.turns, n - 1);
    GrownRoot(t.turns, v.turns, n - 1);
    GrownRoot(t.turns, v.turns, n);
  }

  lemma GrownRoot(turns: seq<Turn>, more: seq<Turn>, j: nat)
    requires Grown(turns, more) && j < |turns|
    ensures more[j].root == turns[j].root
  {
    assert more[j].(texts := turns[j].texts) == turns[j];
  }

  lemma PartingTurn(s: Sys, e: Event)
    requires Sound(s) && e.SendEvent? && Possible(s, e)
    requires TurnsNow(HalfOf(s, e.side).st) && !Answers(s.turns, HalfOf(s, e.side))
    ensures Parted(Apply(s, e)) && |Apply(s, e).turns| == |s.turns| + 1 && Owner(Apply(s, e).turns) == e.side
    ensures s.turns != [] && Grown(s.turns, Apply(s, e).turns)
  {
    hide Parted, HalfOk;
    SoundSend(s, e);
    InvOf(s, e.side);
    EncryptIsNewFrame(s.sk, s.ekR, s.turns, e.side, HalfOf(s, e.side), e.me, e.kem, e.now, e.text);
    OwedMisfits(s.sk, s.ekR, s.turns, e.side, HalfOf(s, e.side), e.me, e.kem, e.now, [e.text]);
  }

  lemma RootsStay(s: Sys)
    requires Parted(s)
    ensures var o, last := Owner(s.turns), s.turns[|s.turns| - 2];
            && HalfOf(s, o).st.rk == s.turns[|s.turns| - 1].root
            && HalfOf(s, 1 - o).st.rk == last.root
            && s.turns[|s.turns| - 1].root != last.root
  {
    hide HalfOk, Before, TurnsOk;
    PartedParts(s);
    var o, base, t := Owner(s.turns), Common(s.turns), s.turns[|s.turns| - 1];
    Shape(s.sk, s.ekR, base, t, o, HalfOf(s, o), HalfOf(s, 1 - o));
    assert Depth(t.root) == 1 + Depth(base[|base| - 1].root);
  }
}
