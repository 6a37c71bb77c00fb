/**
 * The EH-2 handshake (core-rs/src/handshake.rs): three messages, two MACs, and
 * the results the ratchet starts from. Each step consumes its state and returns a
 * new value; the long-term DH is the host's and comes in as a parameter.
 */
module Handshake {
  import opened Keys
  import Ratchet
  import Runs

  /** h2_partial: what both MACs cover. */
  datatype Transcript = Transcript(msg1: Msg1, ekR: nat, ct: KemCt, ts: nat)

  /** `IMac` covers h3, the hash of h2_partial and the responder's MAC. */
  datatype Mac = RMac(sk: Key, h2p: Transcript) | IMac(sk: Key, h2p: Transcript, macR: Mac) | ForeignMac(id: nat)

  datatype Msg2 = Msg2(ek: nat, ct: KemCt, ts: nat, macR: Mac)
  datatype Msg3 = Msg3(macI: Mac)

  /** A frame by its first byte; `Malformed` is every body its decoder refuses. */
  datatype HsFrame = FrameMsg1(m1: Msg1) | FrameMsg2(m2: Msg2) | FrameMsg3(m3: Msg3) | Malformed(kind: nat)

  datatype Error = WireError | Skew | SecondWindow | NotTheContact | BadMacR | BadMacI | KemError | Unexpected

  datatype Result<+T> = Ok(value: T) | Err(error: Error)

  predicate Skewed(ts: nat, now: nat, max: nat) {
    (if ts < now then now - ts else ts - now) > max
  }

  // ------------------------------------------------------------------------
  // initiator
  // ------------------------------------------------------------------------

  datatype InitiatorState = InitiatorState(ik: nat, peerIk: nat, ek: nat, pq: nat, msg1: Msg1, maxSkew: nat)

  function Initiate(ik: nat, peerIk: nat, tagKey: nat, ek: nat, pq: nat, now: nat, maxSkew: nat): InitiatorState {
    InitiatorState(ik, peerIk, ek, pq, Msg1(ek, KemPub(pq), now, Tag(tagKey, ik)), maxSkew)
  }

  function InitiatorComplete(s: InitiatorState, f: HsFrame, dh2: DhOut, now: nat): Result<(Msg3, Ratchet.HandshakeResult)> {
    if !f.FrameMsg2? then Err(WireError)
    else
      var m := f.m2;
      if Skewed(m.ts, now, s.maxSkew) then Err(Skew)
      else match Decapsulate(s.pq, m.ct)
        case None => Err(KemError)
        case Some(ss) =>
          var dh1, dh3 := Dh(s.ek, s.peerIk), Dh(s.ek, m.ek);
          var sk := Session(dh1, dh2, dh3, ss, s.msg1);
          var h2p := Transcript(s.msg1, m.ek, m.ct, m.ts);
          if m.macR != RMac(sk, h2p) then Err(BadMacR)
          else Ok((Msg3(IMac(sk, h2p, m.macR)), Ratchet.HandshakeResult(Ratchet.Initiator, sk, Some(s.ek), m.ek, dh3)))
  }

  // ------------------------------------------------------------------------
  // responder
  // ------------------------------------------------------------------------

  datatype Begun = Begun(peerIk: nat, msg1: Msg1, now: nat)

  datatype ResponderState = ResponderState(sk: Key, h2p: Transcript, macR: Mac, ekPeer: nat, firstStep: DhOut)

  /** The initiator tag is checked before any DH. */
  function ResponderBegin(ik: nat, peerIk: nat, tagKey: nat, f: HsFrame, now: nat, maxSkew: nat): Result<Begun> {
    if !f.FrameMsg1? then Err(WireError)
    else if Skewed(f.m1.ts, now, maxSkew) then Err(Skew)
    else if f.m1.tag == Tag(tagKey, peerIk) then Ok(Begun(peerIk, f.m1, now))
    else if f.m1.tag == Tag(tagKey, ik) then Err(SecondWindow)
    else Err(NotTheContact)
  }

  function ResponderComplete(b: Begun, dh1: DhOut, ek: nat, m: nat): Result<(Msg2, ResponderState)> {
    match Encapsulate(b.msg1.pq, m)
    case None => Err(KemError)
    case Some((ct, ss)) =>
      var dh2, dh3 := Dh(ek, b.peerIk), Dh(ek, b.msg1.ek);
      var sk := Session(dh1, dh2, dh3, ss, b.msg1);
      var h2p := Transcript(b.msg1, ek, ct, b.now);
      var macR := RMac(sk, h2p);
      Ok((Msg2(ek, ct, b.now, macR), ResponderState(sk, h2p, macR, b.msg1.ek, dh3)))
  }

  /** The msg3 gate. */
  function ResponderFinish(s: ResponderState, f: HsFrame): Result<Ratchet.HandshakeResult> {
    if !f.FrameMsg3? then Err(WireError)
    else if f.m3.macI != IMac(s.sk, s.h2p, s.macR) then Err(BadMacI)
    else Ok(Ratchet.HandshakeResult(Ratchet.Responder, s.sk, None, s.ekPeer, s.firstStep))
  }

  // ------------------------------------------------------------------------
  // the honest exchange
  // ------------------------------------------------------------------------

  datatype Exchange = Exchange(begun: Result<Begun>, answer: Result<(Msg2, ResponderState)>,
                               done: Result<(Msg3, Ratchet.HandshakeResult)>, gate: Result<Ratchet.HandshakeResult>)

  function AndThen<T, U>(r: Result<T>, f: T -> Result<U>): Result<U> {
    match r
    case Ok(v) => f(v)
    case Err(e) => Err(e)
  }

  /** Both sides run against each other, each host doing its own long-term DH, every frame delivered as sent. */
  function Handshaken(ikI: nat, ikR: nat, tagKey: nat, ekI: nat, pq: nat, ekR: nat, m: nat,
                      sentAt: nat, answeredAt: nat, readAt: nat, skewI: nat, skewR: nat): Exchange
  {
    var i := Initiate(ikI, ikR, tagKey, ekI, pq, sentAt, skewI);
    var begun := ResponderBegin(ikR, ikI, tagKey, FrameMsg1(i.msg1), answeredAt, skewR);
    var answer := AndThen(begun, (b: Begun) => ResponderComplete(b, Dh(ikR, b.msg1.ek), ekR, m));
    var done := AndThen(answer, (a: (Msg2, ResponderState)) => InitiatorComplete(i, FrameMsg2(a.0), Dh(ikI, a.0.ek), readAt));
    var gate := if answer.Ok? && done.Ok? then ResponderFinish(answer.value.1, FrameMsg3(done.value.0)) else Err(WireError);
    Exchange(begun, answer, done, gate)
  }

  /**
   * An undisturbed exchange completes on both sides exactly when each clock is
   * within the other's window, and then the two results match although the sides
   * did different DHs, and SK is of the three DHs, the encapsulated secret and msg1.
   */
  lemma HonestCompletion(ikI: nat, ikR: nat, tagKey: nat, ekI: nat, pq: nat, ekR: nat, m: nat,
                         sentAt: nat, answeredAt: nat, readAt: nat, skewI: nat, skewR: nat)
    requires ekI != ekR
    ensures var x := Handshaken(ikI, ikR, tagKey, ekI, pq, ekR, m, sentAt, answeredAt, readAt, skewI, skewR);
            && (x.gate.Ok? <==> answeredAt - skewR <= sentAt <= answeredAt + skewR && readAt - skewI <= answeredAt <= readAt + skewI)
            && (x.gate.Ok? ==>
                  && x.done.Ok? && Runs.Matching(x.done.value.1, x.gate.value)
                  && x.gate.value.sk == Session(Dh(ekI, ikR), Dh(ikI, ekR), Dh(ekI, ekR), KemSs(pq, m), Msg1(ekI, KemPub(pq), sentAt, Tag(tagKey, ikI))))
  {
    DhCommutes(ikI, ekR);
    DhCommutes(ekI, ikR);
    DhCommutes(ekI, ekR);
  }

  /** From a completed exchange every run of the two ratchets stays in step. */
  lemma HonestSessionAgrees(ikI: nat, ikR: nat, tagKey: nat, ekI: nat, pq: nat, ekR: nat, m: nat,
                            sentAt: nat, answeredAt: nat, readAt: nat, skewI: nat, skewR: nat,
                            optsI: Ratchet.Opts, optsR: Ratchet.Opts, nowI: nat, nowR: nat, es: seq<Runs.Event>)
    requires ekI != ekR && optsI.maxChains >= 1 && optsR.maxChains >= 1
    requires var x := Handshaken(ikI, ikR, tagKey, ekI, pq, ekR, m, sentAt, answeredAt, readAt, skewI, skewR);
             && x.gate.Ok? && x.done.Ok?
             && Runs.AllowedRun(Runs.Start(x.done.value.1, x.gate.value, optsI, optsR, nowI, nowR), es)
    ensures var x := Handshaken(ikI, ikR, tagKey, ekI, pq, ekR, m, sentAt, answeredAt, readAt, skewI, skewR);
            Runs.InStep(Runs.Run(Runs.Start(x.done.value.1, x.gate.value, optsI, optsR, nowI, nowR), es))
  {
    var x := Handshaken(ikI, ikR, tagKey, ekI, pq, ekR, m, sentAt, answeredAt, readAt, skewI, skewR);
    HonestCompletion(ikI, ikR, tagKey, ekI, pq, ekR, m, sentAt, answeredAt, readAt, skewI, skewR);
    Runs.StartInStep(x.done.value.1, x.gate.value, optsI, optsR, nowI, nowR);
    Runs.RunAgrees(Runs.Start(x.done.value.1, x.gate.value, optsI, optsR, nowI, nowR), es);
  }

  /** A second window of the responder's own identity and a stranger are told apart. */
  lemma TagTellsWho(ik: nat, peerIk: nat, tagKey: nat, m1: Msg1, now: nat, maxSkew: nat)
    requires !Skewed(m1.ts, now, maxSkew)
    ensures forall who :: m1.tag == Tag(tagKey, who) ==>
              ResponderBegin(ik, peerIk, tagKey, FrameMsg1(m1), now, maxSkew)
              == (if who == peerIk then Ok(Begun(peerIk, m1, now)) else if who == ik then Err(SecondWindow) else Err(NotTheContact))
    ensures (forall who :: m1.tag != Tag(tagKey, who)) ==>
              ResponderBegin(ik, peerIk, tagKey, FrameMsg1(m1), now, maxSkew) == Err(NotTheContact)
  {
  }
}
