/**
 * The push-driven handshake engine (impl/eh2/establish.ts): frames are fed in one
 * at a time, and a promise hands out the session. It settles once, and only after
 * the peer has been authenticated.
 */
module Establish {
  import opened Keys
  import opened Handshake
  import Ratchet
  import Runs

  /** A promise: the first settlement stays. */
  datatype Promise = Waiting | Resolved(result: Ratchet.HandshakeResult) | Rejected

  function Settle(p: Promise, q: Promise): Promise {
    if p.Waiting? then q else p
  }

  function Kind(f: HsFrame): nat {
    match f
    case FrameMsg1(_) => 1
    case FrameMsg2(_) => 2
    case FrameMsg3(_) => 3
    case Malformed(kind) => kind
  }

  datatype Config = Config(ik: nat, peerIk: nat, tagKey: nat, maxSkew: nat)

  /** One frame fed: the clock, and what the generator would draw for a responder. */
  datatype Feed = Feed(frame: HsFrame, now: nat, ek: nat, m: nat)

  // ------------------------------------------------------------------------
  // responder
  // ------------------------------------------------------------------------

  datatype Answering = Answering(pending: Option<ResponderState>, authenticated: bool, session: Promise)

  /** A state whose secrets were wiped after a msg3 that did not verify. */
  function WipedState(s: ResponderState): ResponderState {
    s.(sk := Wiped, firstStep := DhOut(0, 0))
  }

  function Respond(c: Config, x: Feed): Result<(Msg2, ResponderState)> {
    AndThen(ResponderBegin(c.ik, c.peerIk, c.tagKey, x.frame, x.now, c.maxSkew),
            (b: Begun) => ResponderComplete(b, Dh(c.ik, b.msg1.ek), x.ek, x.m))
  }

  /** `Ok(None)` is a frame accepted with nothing to answer. */
  function FeedResponder(c: Config, s: Answering, x: Feed): (Answering, Result<Option<Msg2>>) {
    if s.pending.None? then
      if Kind(x.frame) != 1 then (s.(session := Settle(s.session, Rejected)), Err(Unexpected))
      else match Respond(c, x)
        case Err(e) => (s.(session := Settle(s.session, Rejected)), Err(e))
        case Ok((m2, st)) => (s.(pending := Some(st)), Ok(Some(m2)))
    else if Kind(x.frame) != 3 then (s.(session := Settle(s.session, Rejected)), Err(Unexpected))
    else match ResponderFinish(s.pending.value, x.frame)
      case Err(e) =>
        (s.(pending := Some(if e == BadMacI then WipedState(s.pending.value) else s.pending.value),
            session := Settle(s.session, Rejected)), Err(e))
      case Ok(result) => (Answering(None, true, Settle(s.session, Resolved(result))), Ok(None))
  }

  function RunResponder(c: Config, s: Answering, xs: seq<Feed>): Answering
    decreases |xs|
  {
    if xs == [] then s else RunResponder(c, FeedResponder(c, s, xs[0]).0, xs[1..])
  }

  const IDLE := Answering(None, false, Waiting)

  lemma {:induction false} ResponderSettlesOnce(c: Config, s: Answering, xs: seq<Feed>)
    requires !s.session.Waiting?
    ensures RunResponder(c, s, xs).session == s.session
    decreases |xs|
  {
    if xs == [] {
    } else {
      ResponderSettlesOnce(c, FeedResponder(c, s, xs[0]).0, xs[1..]);
    }
  }

  /**
   * Whatever is fed, the responder's session resolves if and only if the first
   * frame is a msg1 it answers and the second is the msg3 whose mac_i verifies
   * under the SK of that answer; and then it is the session of exactly those two.
   */
  lemma ResponderGate(c: Config, xs: seq<Feed>)
    ensures RunResponder(c, IDLE, xs).session.Resolved?
       <==> |xs| >= 2 && Respond(c, xs[0]).Ok? && ResponderFinish(Respond(c, xs[0]).value.1, xs[1].frame).Ok?
    ensures RunResponder(c, IDLE, xs).session.Resolved?
        ==> Resolved(ResponderFinish(Respond(c, xs[0]).value.1, xs[1].frame).value) == RunResponder(c, IDLE, xs).session
  {
    if |xs| >= 1 {
      var s := FeedResponder(c, IDLE, xs[0]).0;
      if !s.session.Waiting? {
        ResponderSettlesOnce(c, s, xs[1..]);
      } else if |xs| >= 2 {
        assert xs[1..][0] == xs[1] && xs[1..][1..] == xs[2..];
        ResponderSettlesOnce(c, FeedResponder(c, s, xs[1]).0, xs[2..]);
      }
    }
  }

  // ------------------------------------------------------------------------
  // initiator
  // ------------------------------------------------------------------------

  datatype Asking = Asking(state: Option<InitiatorState>, authenticated: bool, session: Promise)

  function Complete(s: InitiatorState, x: Feed): Result<(Msg3, Ratchet.HandshakeResult)> {
    InitiatorComplete(s, x.frame, if x.frame.FrameMsg2? then Dh(s.ik, x.frame.m2.ek) else DhOut(0, 0), x.now)
  }

  /** A frame that is not a msg2, or comes after completion, is thrown back without touching the session. */
  function FeedInitiator(s: Asking, x: Feed): (Asking, Result<Msg3>) {
    if s.state.None? || Kind(x.frame) != 2 then (s, Err(Unexpected))
    else match Complete(s.state.value, x)
      case Err(e) => (s.(session := Settle(s.session, Rejected)), Err(e))
      case Ok((m3, result)) => (Asking(None, true, Settle(s.session, Resolved(result))), Ok(m3))
  }

  function RunInitiator(s: Asking, xs: seq<Feed>): Asking
    decreases |xs|
  {
    if xs == [] then s else RunInitiator(FeedInitiator(s, xs[0]).0, xs[1..])
  }

  lemma {:induction false} InitiatorSettlesOnce(s: Asking, xs: seq<Feed>)
    requires !s.session.Waiting?
    ensures RunInitiator(s, xs).session == s.session
    decreases |xs|
  {
    if xs == [] {
    } else {
      InitiatorSettlesOnce(FeedInitiator(s, xs[0]).0, xs[1..]);
    }
  }

  /** Position of the first msg2, or the length when there is none. */
  function FirstMsg2(xs: seq<Feed>): (i: nat)
    ensures i <= |xs|
    ensures i < |xs| ==> Kind(xs[i].frame) == 2
    ensures forall j :: 0 <= j < i ==> Kind(xs[j].frame) != 2
  {
    if xs == [] || Kind(xs[0].frame) == 2 then 0 else 1 + FirstMsg2(xs[1..])
  }

  /** The initiator's session resolves if and only if the first msg2 fed verifies; other frames do not matter. */
  lemma {:induction false} InitiatorGate(st: InitiatorState, xs: seq<Feed>)
    ensures var p := RunInitiator(Asking(Some(st), false, Waiting), xs).session;
            var i := FirstMsg2(xs);
            && (p.Resolved? <==> i < |xs| && Complete(st, xs[i]).Ok?)
            && (p.Resolved? ==> p == Resolved(Complete(st, xs[i]).value.1))
    decreases |xs|
  {
    var s := Asking(Some(st), false, Waiting);
    if xs == [] {
    } else if Kind(xs[0].frame) == 2 {
      InitiatorSettlesOnce(FeedInitiator(s, xs[0]).0, xs[1..]);
    } else {
      InitiatorGate(st, xs[1..]);
    }
  }

  // ------------------------------------------------------------------------
  // two engines, frame by frame
  // ------------------------------------------------------------------------

  /** What an initiator's engine and a responder's come to when each is fed just what the other hands back. */
  datatype Meeting = Meeting(answered: Answering, msg2: Result<Option<Msg2>>, asked: Asking, msg3: Result<Msg3>,
                             gated: Answering, last: Result<Option<Msg2>>)

  function Meet(i: Config, r: Config, ekI: nat, pq: nat, sentAt: nat, ekR: nat, m: nat, answeredAt: nat, readAt: nat): Meeting {
    var st := Initiate(i.ik, i.peerIk, i.tagKey, ekI, pq, sentAt, i.maxSkew);
    var (a, m2) := FeedResponder(r, IDLE, Feed(FrameMsg1(st.msg1), answeredAt, ekR, m));
    var (b, m3) := FeedInitiator(Asking(Some(st), false, Waiting),
                                 Feed(match m2 case Ok(Some(x)) => FrameMsg2(x) case _ => Malformed(0), readAt, 0, 0));
    var (c, last) := FeedResponder(r, a, Feed(match m3 case Ok(x) => FrameMsg3(x) case Err(_) => Malformed(0), readAt, 0, 0));
    Meeting(a, m2, b, m3, c, last)
  }

  /**
   * Two contacts' engines hand each other exactly what the other needs: inside both windows the
   * responder answers with a msg2 and settles nothing yet, the initiator with a msg3, and then both
   * sessions resolve, to matching results, and both sides call their peer authenticated.
   */
  lemma EnginesMeet(i: Config, r: Config, ekI: nat, pq: nat, sentAt: nat, ekR: nat, m: nat, answeredAt: nat, readAt: nat)
    requires i.peerIk == r.ik && r.peerIk == i.ik && i.tagKey == r.tagKey && ekI != ekR
    requires answeredAt - r.maxSkew <= sentAt <= answeredAt + r.maxSkew && readAt - i.maxSkew <= answeredAt <= readAt + i.maxSkew
    ensures var x := Meet(i, r, ekI, pq, sentAt, ekR, m, answeredAt, readAt);
            && x.msg2.Ok? && x.msg2.value.Some? && x.answered.session.Waiting? && !x.answered.authenticated
            && x.msg3.Ok? && x.last == Ok(None)
            && x.asked.session.Resolved? && x.gated.session.Resolved? && x.asked.authenticated && x.gated.authenticated
            && Runs.Matching(x.asked.session.result, x.gated.session.result)
  {
    DhCommutes(i.ik, ekR);
    DhCommutes(ekI, r.ik);
    DhCommutes(ekI, ekR);
  }

  /** A responder calls its peer authenticated only over a msg3 that verifies, an initiator only over a msg2 that does. */
  lemma AuthenticatedOnlyOver(c: Config, s: Answering, q: Asking, x: Feed)
    ensures FeedResponder(c, s, x).0.authenticated && !s.authenticated
       <==> !s.authenticated && s.pending.Some? && x.frame.FrameMsg3?
            && x.frame.m3.macI == IMac(s.pending.value.sk, s.pending.value.h2p, s.pending.value.macR)
    ensures FeedInitiator(q, x).0.authenticated && !q.authenticated
       <==> !q.authenticated && q.state.Some? && x.frame.FrameMsg2? && Complete(q.state.value, x).Ok?
  {
  }

  /** A msg3 that does not verify ends the attempt: the session is rejected unless it had settled, and SK is wiped. */
  lemma BadMsg3Wipes(c: Config, s: Answering, x: Feed)
    requires s.pending.Some? && x.frame.FrameMsg3?
    requires x.frame.m3.macI != IMac(s.pending.value.sk, s.pending.value.h2p, s.pending.value.macR)
    ensures var (t, r) := FeedResponder(c, s, x);
            && r == Err(BadMacI) && !t.session.Waiting? && t.authenticated == s.authenticated
            && t.pending.Some? && t.pending.value.sk == Wiped && t.pending.value.firstStep == DhOut(0, 0)
  {
  }

  // ------------------------------------------------------------------------
  // the engines in place
  // ------------------------------------------------------------------------

  class Responder {
    const config: Config
    var pending: Option<ResponderState>
    var authenticated: bool
    var session: Promise

    ghost function Value(): Answering
      reads this
    {
      Answering(pending, authenticated, session)
    }

    constructor (config: Config)
      ensures this.config == config && Value() == IDLE
    {
      this.config := config;
      pending, authenticated, session := None, false, Waiting;
    }

    method Reject()
      modifies this`session
      ensures session == Settle(old(session), Rejected)
    {
      if session.Waiting? {
        session := Rejected;
      }
    }

    method Resolve(result: Ratchet.HandshakeResult)
      modifies this`session
      ensures session == Settle(old(session), Resolved(result))
    {
      if session.Waiting? {
        session := Resolved(result);
      }
    }

    method Take(x: Feed) returns (r: Result<Option<Msg2>>)
      modifies this
      ensures (Value(), r) == FeedResponder(config, old(Value()), x)
    {
      if pending.None? {
        if Kind(x.frame) != 1 {
          Reject();
          return Err(Unexpected);
        }
        var answer := Respond(config, x);
        match answer {
          case Err(e) =>
            Reject();
            return Err(e);
          case Ok((m2, st)) =>
            pending := Some(st);
            return Ok(Some(m2));
        }
      }
      if Kind(x.frame) != 3 {
        Reject();
        return Err(Unexpected);
      }
      var gate := ResponderFinish(pending.value, x.frame);
      match gate {
        case Err(e) =>
          if e == BadMacI {
            pending := Some(WipedState(pending.value));
          }
          Reject();
          return Err(e);
        case Ok(result) =>
          pending, authenticated := None, true;
          Resolve(result);
          return Ok(None);
      }
    }
  }

  class Initiator {
    var state: Option<InitiatorState>
    var authenticated: bool
    var session: Promise

    ghost function Value(): Asking
      reads this
    {
      Asking(state, authenticated, session)
    }

    constructor (c: Config, ek: nat, pq: nat, now: nat)
      ensures Value() == Asking(Some(Initiate(c.ik, c.peerIk, c.tagKey, ek, pq, now, c.maxSkew)), false, Waiting)
    {
      state := Some(Initiate(c.ik, c.peerIk, c.tagKey, ek, pq, now, c.maxSkew));
      authenticated, session := false, Waiting;
    }

    method Take(x: Feed) returns (r: Result<Msg3>)
      modifies this
      ensures (Value(), r) == FeedInitiator(old(Value()), x)
    {
      if state.None? || Kind(x.frame) != 2 {
        return Err(Unexpected);
      }
      var done := Complete(state.value, x);
      match done {
        case Err(e) =>
          if session.Waiting? {
            session := Rejected;
          }
          return Err(e);
        case Ok((m3, result)) =>
          state, authenticated := None, true;
          if session.Waiting? {
            session := Resolved(result);
          }
          return Ok(m3);
      }
    }
  }
}
