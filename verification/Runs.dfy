/**
 * Whole runs of a conversation: any order of sends and deliveries, from the
 * state a completed handshake leaves, and the exact condition on a turn.
 */
module Runs {
  import opened Keys
  import opened SkippedKeys
  import opened Ratchet
  import opened Conversation
  import opened Agreement

  datatype Event =
    | SendEvent(side: nat, me: nat, kem: nat, now: nat, text: string)
    | DeliverEvent(side: nat, now: nat, m: nat, frame: Frame)

  /** Draws are fresh, frames are what the network can hand over, no superseded KEM key is opened late. */
  ghost predicate Allowed(s: Sys, e: Event) {
    && e.side < 2
    && match e
       case SendEvent(i, me, kem, _, _) => TurnsNow(HalfOf(s, i).st) ==> FreshDraw(s, me, kem)
       case DeliverEvent(i, _, _, f) => Admissible(s.sk, s.turns, f) && !Late(HalfOf(s, i).st, f)
  }

  function Apply(s: Sys, e: Event): Sys {
    match e
    case SendEvent(i, me, kem, now, text) => if Keyed(HalfOf(s, i).st) then Send(s, i, me, kem, now, text) else s
    case DeliverEvent(i, now, m, f) => Deliver(s, i, now, m, f)
  }

  function Run(s: Sys, es: seq<Event>): Sys
    decreases |es|
  {
    if es == [] then s else Run(Apply(s, es[0]), es[1..])
  }

  ghost predicate AllowedRun(s: Sys, es: seq<Event>)
    decreases |es|
  {
    es != [] ==> Allowed(s, es[0]) && AllowedRun(Apply(s, es[0]), es[1..])
  }

  ghost predicate InStep(s: Sys) {
    Inv(s) && Prompt(s.turns, 0, s.half0) && Prompt(s.turns, 1, s.half1)
  }

  // ------------------------------------------------------------------------
  // one event
  // ------------------------------------------------------------------------

  lemma {:induction false} NewestPqGrown(turns: seq<Turn>, more: seq<Turn>, r: int)
    requires Grown(turns, more) && r < |turns|
    ensures NewestPq(more, r) == NewestPq(turns, r)
    decreases r
  {
    if r < 0 {
    } else {
      assert more[r].(texts := turns[r].texts) == turns[r];
      NewestPqGrown(turns, more, r - 2);
    }
  }

  /** A side that has just sent owes nothing. */
  lemma SenderStaysPrompt(turns: seq<Turn>, more: seq<Turn>, i: nat, h: Half, g: Half)
    requires Grown(turns, more) && Prompt(turns, i, h)
    requires Placed(more, i, g) && !MustTurn(more, i, g)
    requires g.recv == h.recv && g.st.seenPeerPq == h.st.seenPeerPq && g.st.pendingCt.None?
    ensures Prompt(more, i, g)
  {
    NewestPqGrown(turns, more, h.recv);
  }

  /** The peer's sending changes nothing a side owes. */
  lemma PeerStaysPrompt(turns: seq<Turn>, more: seq<Turn>, i: nat, h: Half)
    requires Grown(turns, more) && Prompt(turns, i, h)
    requires Placed(more, i, h) && MustTurn(more, i, h) == MustTurn(turns, i, h)
    ensures Prompt(more, i, h)
  {
    NewestPqGrown(turns, more, h.recv);
    if 0 <= h.recv {
      assert more[h.recv].(texts := turns[h.recv].texts) == turns[h.recv];
    }
  }

  lemma SenderPrompt(sk: Key, ekR: nat, turns: seq<Turn>, i: nat, h: Half, me: nat, kem: nat, now: nat, text: string)
    requires TurnsOk(sk, ekR, turns) && HalfOk(sk, ekR, turns, i, h) && Prompt(turns, i, h)
    ensures Keyed(h.st)
    ensures Prompt(SendTurns(turns, i, h.st, me, kem, now, text), i, h.(st := Encrypt(h.st, me, kem, now, text).0))
  {
    var more := SendTurns(turns, i, h.st, me, kem, now, text);
    var g := h.(st := Encrypt(h.st, me, kem, now, text).0);
    SendGrows(sk, ekR, turns, i, h, me, kem, now, text);
    SenderStaysPrompt(turns, more, i, h, g);
  }

  lemma PeerPrompt(sk: Key, ekR: nat, turns: seq<Turn>, more: seq<Turn>, i: nat, h: Half)
    requires HalfOk(sk, ekR, turns, i, h) && Prompt(turns, i, h)
    requires Grown(turns, more) && HalfOk(sk, ekR, more, i, h)
    ensures Prompt(more, i, h)
  {
    assert MustTurn(more, i, h) == h.st.stepBeforeSend == MustTurn(turns, i, h);
    PeerStaysPrompt(turns, more, i, h);
  }

  lemma BothPrompt(s: Sys, i: nat)
    requires i < 2 && Inv(s) && Prompt(s.turns, i, HalfOf(s, i)) && Prompt(s.turns, 1 - i, HalfOf(s, 1 - i))
    ensures InStep(s)
  {
  }

  lemma PromptAnswers(s: Sys, i: nat)
    requires InStep(s) && i < 2 && TurnsNow(HalfOf(s, i).st)
    ensures Answers(s.turns, HalfOf(s, i))
  {
    InvOf(s, i);
  }

  lemma AllowedIsAnswered(s: Sys, e: Event)
    requires InStep(s) && Allowed(s, e)
    ensures Answered(s, e)
  {
    if e.SendEvent? && TurnsNow(HalfOf(s, e.side).st) {
      PromptAnswers(s, e.side);
    }
  }

  lemma SendKeeps(s: Sys, i: nat, me: nat, kem: nat, now: nat, text: string)
    requires InStep(s) && Allowed(s, SendEvent(i, me, kem, now, text))
    ensures Keyed(HalfOf(s, i).st) && InStep(Send(s, i, me, kem, now, text))
  {
    hide HalfOk, TurnsOk;
    AllowedIsAnswered(s, SendEvent(i, me, kem, now, text));
    SendKeepsInv(s, i, me, kem, now, text);
    InvOf(s, i);
    InvOf(s, 1 - i);
    InvOf(Send(s, i, me, kem, now, text), 1 - i);
    SenderPrompt(s.sk, s.ekR, s.turns, i, HalfOf(s, i), me, kem, now, text);
    SendGrows(s.sk, s.ekR, s.turns, i, HalfOf(s, i), me, kem, now, text);
    var t := Send(s, i, me, kem, now, text);
    assert HalfOf(t, 1 - i) == HalfOf(s, 1 - i);
    PeerPrompt(s.sk, s.ekR, s.turns, t.turns, 1 - i, HalfOf(s, 1 - i));
    BothPrompt(t, i);
  }

  /** Every event of a run keeps both sides in step with the shared sequence of turns. */
  lemma StepKeeps(s: Sys, e: Event)
    requires InStep(s) && Allowed(s, e)
    ensures InStep(Apply(s, e))
  {
    match e
    case SendEvent(i, me, kem, now, text) =>
      SendKeeps(s, i, me, kem, now, text);
    case DeliverEvent(i, now, m, f) =>
      DeliverKeeps(s, i, now, m, f);
      DeliverKeepsPrompt(s.sk, s.ekR, s.turns, i, HalfOf(s, i), now, m, f);
  }

  // ------------------------------------------------------------------------
  // runs
  // ------------------------------------------------------------------------

  /** Over any run the two sides stay on one sequence of roots, at most one step apart. */
  lemma {:induction false} RunAgrees(s: Sys, es: seq<Event>)
    requires InStep(s) && AllowedRun(s, es)
    ensures InStep(Run(s, es))
    ensures OneStepApart(Run(s, es).half0.st.rk, Run(s, es).half1.st.rk)
    decreases |es|
  {
    if es == [] {
      RootsAgree(s);
    } else {
      StepKeeps(s, es[0]);
      RunAgrees(Apply(s, es[0]), es[1..]);
    }
  }

  lemma GrowthComposes(a: seq<Turn>, b: seq<Turn>, c: seq<Turn>)
    requires Grown(a, b) && Grown(b, c)
    ensures Grown(a, c)
  {
    forall j | 0 <= j < |a| ensures a[j].texts <= c[j].texts && c[j].(texts := a[j].texts) == a[j] {
      assert b[j].(texts := a[j].texts) == a[j] && c[j].(texts := b[j].texts) == b[j];
      assert a[j].texts <= b[j].texts <= c[j].texts;
    }
  }

  // ------------------------------------------------------------------------
  // from the handshake
  // ------------------------------------------------------------------------

  /** The two results of one completed handshake. */
  predicate Matching(i: HandshakeResult, r: HandshakeResult) {
    && i.role.Initiator? && r.role.Responder?
    && i.sk == r.sk && i.sk.Session?
    && i.firstStep == r.firstStep
    && i.ekSelf == Some(r.ekPeer) && r.ekSelf.None?
    && i.ekPeer != r.ekPeer
    && i.firstStep == Dh(i.ekPeer, r.ekPeer)
  }

  function Start(i: HandshakeResult, r: HandshakeResult, optsI: Opts, optsR: Opts, nowI: nat, nowR: nat): Sys {
    var ikm := Classical(i.firstStep);
    Sys(i.sk, i.ekPeer,
        [Turn(r.ekPeer, Root(i.sk, ikm), Chain(i.sk, ikm), 0, None, None, [])],
        Half(FromHandshake(i, optsI, nowI), -1, {}),
        Half(FromHandshake(r, optsR, nowR), 0, {}))
  }

  /** A completed handshake leaves the two ratchets in step. */
  lemma StartInStep(i: HandshakeResult, r: HandshakeResult, optsI: Opts, optsR: Opts, nowI: nat, nowR: nat)
    requires Matching(i, r) && optsI.maxChains >= 1 && optsR.maxChains >= 1
    ensures InStep(Start(i, r, optsI, optsR, nowI, nowR))
  {
    var s := Start(i, r, optsI, optsR, nowI, nowR);
    assert Linked(s.sk, s.ekR, s.turns, 0);
    assert Own(s.turns, 0) == 0 && Own(s.turns, 1) == -1;
    assert HalfOk(s.sk, s.ekR, s.turns, 0, s.half0);
    assert HalfOk(s.sk, s.ekR, s.turns, 1, s.half1);
  }

  // ------------------------------------------------------------------------
  // the exact condition on a turn
  // ------------------------------------------------------------------------

  /** What a side noted is a key the peer issued; a side about to turn owes an answer if its last turn asked for one. */
  ghost predicate Owing(turns: seq<Turn>, i: nat, h: Half) {
    && Placed(turns, i, h)
    && (h.st.seenPeerPq.None?
        || exists j: nat :: j < |turns| && j <= h.recv && turns[j].pq.Some? && h.st.seenPeerPq == PqPub(turns[j].pq))
    && (MustTurn(turns, i, h) && turns[h.recv].pq.Some? ==> h.st.pendingCt.Some?)
  }

  ghost predicate Sound(s: Sys) {
    Inv(s) && Owing(s.turns, 0, s.half0) && Owing(s.turns, 1, s.half1)
  }

  /** Like `Allowed`, with the exact condition on turns in place of any condition on deliveries. */
  ghost predicate Answered(s: Sys, e: Event) {
    && e.side < 2
    && match e
       case SendEvent(i, me, kem, _, _) =>
         TurnsNow(HalfOf(s, i).st) ==> FreshDraw(s, me, kem) && Answers(s.turns, HalfOf(s, i))
       case DeliverEvent(_, _, _, f) => Admissible(s.sk, s.turns, f)
  }

  ghost predicate AnsweredRun(s: Sys, es: seq<Event>)
    decreases |es|
  {
    es != [] ==> Answered(s, es[0]) && AnsweredRun(Apply(s, es[0]), es[1..])
  }

  /** A completed handshake leaves nothing owed on either side. */
  lemma StartIsSound(i: HandshakeResult, r: HandshakeResult, optsI: Opts, optsR: Opts, nowI: nat, nowR: nat)
    requires Matching(i, r) && optsI.maxChains >= 1 && optsR.maxChains >= 1
    ensures Sound(Start(i, r, optsI, optsR, nowI, nowR))
  {
    StartInStep(i, r, optsI, optsR, nowI, nowR);
  }

  lemma {:induction false} NewestIsOne(turns: seq<Turn>, r: int)
    requires r < |turns| && NewestPq(turns, r).Some?
    ensures exists j: nat :: j < |turns| && j <= r && turns[j].pq.Some? && NewestPq(turns, r) == PqPub(turns[j].pq)
    decreases r
  {
    if turns[r].pq.Some? {
      var j: nat := r;
      assert turns[j].pq.Some?;
    } else {
      NewestIsOne(turns, r - 2);
    }
  }

  lemma PromptIsOwing(turns: seq<Turn>, i: nat, h: Half)
    requires Prompt(turns, i, h)
    ensures Owing(turns, i, h)
  {
    if h.st.seenPeerPq.Some? {
      NewestIsOne(turns, h.recv);
    }
  }

  /** Without late superseded keys every turn answers: such runs are among those with answered turns. */
  lemma {:induction false} AllowedRunIsAnswered(s: Sys, es: seq<Event>)
    requires InStep(s) && AllowedRun(s, es)
    ensures Sound(s) && AnsweredRun(s, es)
    decreases |es|
  {
    hide Inv, Prompt, Apply;
    PromptIsOwing(s.turns, 0, s.half0);
    PromptIsOwing(s.turns, 1, s.half1);
    if es != [] {
      AllowedIsAnswered(s, es[0]);
      StepKeeps(s, es[0]);
      AllowedRunIsAnswered(Apply(s, es[0]), es[1..]);
    }
  }

  lemma NoteKeepsOwing(turns: seq<Turn>, i: nat, h: Half, j: nat, m: nat)
    requires Owing(turns, i, h) && j < |turns| && j <= h.recv
    ensures Owing(turns, i, h.(st := NotePeerPq(h.st, PqPub(turns[j].pq), m)))
  {
  }

  lemma TurnOwes(sk: Key, ekR: nat, turns: seq<Turn>, i: nat, h: Half, now: nat, n: nat, m: nat)
    requires CanTurn(sk, ekR, turns, i, h) && Owing(turns, i, h)
    ensures var g := TurnTaken(ekR, turns, h, now, n);
            Owing(turns, i, g.(st := NotePeerPq(g.st, PqPub(turns[|turns| - 1].pq), m)))
  {
    hide StashSide, StoreOk, HalfOk;
    var last: nat := |turns| - 1;
    var g := TurnTaken(ekR, turns, h, now, n);
    if turns[last].pq.Some? && h.st.seenPeerPq.Some? {
      var j: nat :| j < |turns| && j <= h.recv && turns[j].pq.Some? && h.st.seenPeerPq == PqPub(turns[j].pq);
      assert turns[j].pq != turns[last].pq;
    }
  }

  lemma DeliverKeepsOwing(sk: Key, ekR: nat, turns: seq<Turn>, i: nat, h: Half, now: nat, m: nat, f: Frame)
    requires TurnsOk(sk, ekR, turns) && HalfOk(sk, ekR, turns, i, h) && Owing(turns, i, h)
    requires Admissible(sk, turns, f)
    ensures Owing(turns, i, DeliverHalf(turns, h, now, m, f))
  {
    hide SendSide, RecvSide;
    if Decrypt(h.st, now, m, f).1.Opened? {
      var g := OpeningKeeps(sk, ekR, turns, i, h, now, m, f);
      var p := h.(st := Pruned(h.st, now));
      var j := TurnOf(turns, f.header.dhPub);
      if g.recv == h.recv {
        assert Owing(turns, i, g);
        assert (j, f.header.n) in g.done && j <= g.recv;
        NoteKeepsOwing(turns, i, g, j, m);
      } else {
        PruneKeepsHalf(sk, ekR, turns, i, h, now);
        assert Owing(turns, i, p);
        TurnOwes(sk, ekR, turns, i, p, now, f.header.n, m);
      }
    } else {
      RefusalChangesNothing(h.st, now, m, f);
    }
  }

  lemma GrowthKeepsOwing(turns: seq<Turn>, more: seq<Turn>, i: nat, h: Half, g: Half)
    requires Grown(turns, more) && Owing(turns, i, h)
    requires Placed(more, i, g) && g.recv == h.recv && g.st.seenPeerPq == h.st.seenPeerPq
    requires MustTurn(more, i, g) ==> MustTurn(turns, i, h) && g.st.pendingCt == h.st.pendingCt
    ensures Owing(more, i, g)
  {
    if g.st.seenPeerPq.Some? {
      var j: nat :| j < |turns| && j <= h.recv && turns[j].pq.Some? && h.st.seenPeerPq == PqPub(turns[j].pq);
      assert more[j].(texts := turns[j].texts) == turns[j];
    }
    if 0 <= h.recv {
      assert more[h.recv].(texts := turns[h.recv].texts) == turns[h.recv];
    }
  }

  lemma SendKeepsInv(s: Sys, i: nat, me: nat, kem: nat, now: nat, text: string)
    requires Inv(s) && Answered(s, SendEvent(i, me, kem, now, text))
    ensures Keyed(HalfOf(s, i).st) && Inv(Send(s, i, me, kem, now, text))
  {
    if TurnsNow(HalfOf(s, i).st) {
      SendTurnKeeps(s, i, me, kem, now, text);
    } else {
      SendOnKeeps(s, i, me, kem, now, text);
    }
  }

  lemma SendGrows(sk: Key, ekR: nat, turns: seq<Turn>, i: nat, h: Half, me: nat, kem: nat, now: nat, text: string)
    requires TurnsOk(sk, ekR, turns) && HalfOk(sk, ekR, turns, i, h)
    ensures var more := SendTurns(turns, i, h.st, me, kem, now, text);
            Grown(turns, more) && Own(more, i) == (if TurnsNow(h.st) then |turns| else Own(turns, i)) && |more| >= |turns|
  {
    if TurnsNow(h.st) {
      assert h.recv == |turns| - 1;
    } else {
      SendOnOwn(sk, ekR, turns, i, h, me, kem, now, text);
      SameTurnKeepsTurns(sk, ekR, turns, Own(turns, i), text);
    }
  }

  lemma SenderOwing(sk: Key, ekR: nat, turns: seq<Turn>, i: nat, h: Half, me: nat, kem: nat, now: nat, text: string)
    requires TurnsOk(sk, ekR, turns) && HalfOk(sk, ekR, turns, i, h) && Owing(turns, i, h)
    ensures Keyed(h.st)
    ensures Owing(SendTurns(turns, i, h.st, me, kem, now, text), i, h.(st := Encrypt(h.st, me, kem, now, text).0))
  {
    var more := SendTurns(turns, i, h.st, me, kem, now, text);
    var g := h.(st := Encrypt(h.st, me, kem, now, text).0);
    SendGrows(sk, ekR, turns, i, h, me, kem, now, text);
    assert Placed(more, i, g) && !MustTurn(more, i, g);
    GrowthKeepsOwing(turns, more, i, h, g);
  }

  lemma PeerOwing(sk: Key, ekR: nat, turns: seq<Turn>, more: seq<Turn>, i: nat, h: Half)
    requires HalfOk(sk, ekR, turns, i, h) && Owing(turns, i, h)
    requires Grown(turns, more) && HalfOk(sk, ekR, more, i, h)
    ensures Owing(more, i, h)
  {
    assert MustTurn(more, i, h) == h.st.stepBeforeSend == MustTurn(turns, i, h);
    GrowthKeepsOwing(turns, more, i, h, h);
  }

  lemma SendKeepsSound(s: Sys, i: nat, me: nat, kem: nat, now: nat, text: string)
    requires Sound(s) && Answered(s, SendEvent(i, me, kem, now, text))
    ensures Keyed(HalfOf(s, i).st) && Sound(Send(s, i, me, kem, now, text))
  {
    SendKeepsInv(s, i, me, kem, now, text);
    InvOf(s, i);
    InvOf(s, 1 - i);
    InvOf(Send(s, i, me, kem, now, text), 1 - i);
    SenderOwing(s.sk, s.ekR, s.turns, i, HalfOf(s, i), me, kem, now, text);
    SendGrows(s.sk, s.ekR, s.turns, i, HalfOf(s, i), me, kem, now, text);
    var t := Send(s, i, me, kem, now, text);
    assert HalfOf(t, 1 - i) == HalfOf(s, 1 - i);
    PeerOwing(s.sk, s.ekR, s.turns, t.turns, 1 - i, HalfOf(s, 1 - i));
    BothOwing(t, i);
  }

  lemma BothOwing(s: Sys, i: nat)
    requires i < 2 && Inv(s) && Owing(s.turns, i, HalfOf(s, i)) && Owing(s.turns, 1 - i, HalfOf(s, 1 - i))
    ensures Sound(s)
  {
  }

  /** With every turn answering the peer's outstanding key, any deliveries at all keep the roots on one sequence. */
  lemma {:induction false} AnsweredRunAgrees(s: Sys, es: seq<Event>)
    requires Sound(s) && AnsweredRun(s, es)
    ensures Sound(Run(s, es))
    ensures OneStepApart(Run(s, es).half0.st.rk, Run(s, es).half1.st.rk)
    decreases |es|
  {
    if es == [] {
      RootsAgree(s);
    } else {
      match es[0] {
        case SendEvent(i, me, kem, now, text) => SendKeepsSound(s, i, me, kem, now, text);
        case DeliverEvent(i, now, m, f) =>
          DeliverKeeps(s, i, now, m, f);
          DeliverKeepsOwing(s.sk, s.ekR, s.turns, i, HalfOf(s, i), now, m, f);
      }
      AnsweredRunAgrees(Apply(s, es[0]), es[1..]);
    }
  }

  /** The turn a side would open now, holding any texts. */
  function NextTurn(s: State, me: nat, kem: nat, now: nat, texts: seq<string>): Turn {
    var t := OpenChain(s, me, kem, now);
    Turn(me, t.rk, t.ckSend.value, t.pn, t.ctInFlight, t.pqKey, texts)
  }

  /** A turn that answers a superseded key is lost on the peer: no frame of it ever opens, whatever else the peer did. */
  lemma StaleTurnRefused(sk: Key, ekR: nat, turns: seq<Turn>, i: nat, h: Half, k: Half,
                         me: nat, kem: nat, now: nat, texts: seq<string>, n: nat, later: nat, m: nat)
    requires TurnsOk(sk, ekR, turns) && HalfOk(sk, ekR, turns, i, h) && HalfOk(sk, ekR, turns, 1 - i, k)
    requires Owing(turns, i, h) && TurnsNow(h.st) && !Answers(turns, h)
    requires forall t :: t in turns ==> t.pub != me
    requires me != ekR && n < |texts|
    ensures !Decrypt(k.st, later, m, FrameAt(NextTurn(h.st, me, kem, now, texts), n)).1.Opened?
  {
    hide StoreOk, NotePeerPq;
    var t := NextTurn(h.st, me, kem, now, texts);
    var p := k.(st := Pruned(k.st, later));
    PruneKeepsHalf(sk, ekR, turns, 1 - i, k, later);
    assert TurnOf(turns, me) == |turns| by {
      if TurnOf(turns, me) < |turns| {
        var u := turns[TurnOf(turns, me)];
        assert u in turns;
      }
    }
    assert Find(p.st.skipped, me, n).None?;
    assert me != k.st.dhPeer by {
      if 0 <= k.recv { assert turns[k.recv] in turns; }
    }
    assert h.recv == |turns| - 1 && !MustTurn(turns, 1 - i, k);
    assert h.st.pendingCt.Some?;
    if k.st.pqKey.Some? {
      var ikm := TurnIkm(p.st, HeaderAt(t, n)).value;
      assert ikm != OwedIkm(h.st, Dh(me, h.st.dhPeer));
      if Walk(Chain(k.st.rk, ikm), n) == Walk(t.ck0, n) {
        WalkInjective(Chain(k.st.rk, ikm), n, t.ck0, n);
      }
    }
  }

  lemma EncryptIsNewFrame(sk: Key, ekR: nat, turns: seq<Turn>, i: nat, h: Half, me: nat, kem: nat, now: nat, text: string)
    requires HalfOk(sk, ekR, turns, i, h) && TurnsNow(h.st)
    ensures Keyed(h.st)
    ensures Encrypt(h.st, me, kem, now, text).1 == FrameAt(NextTurn(h.st, me, kem, now, [text]), 0)
    ensures SendTurns(turns, i, h.st, me, kem, now, text) == turns + [NextTurn(h.st, me, kem, now, [text])]
    ensures h.recv == |turns| - 1 && NextTurn(h.st, me, kem, now, [text]).pn == h.st.nSend
  {
  }

  lemma PeerBehind(sk: Key, ekR: nat, turns: seq<Turn>, i: nat, h: Half, k: Half)
    requires HalfOk(sk, ekR, turns, i, h) && HalfOk(sk, ekR, turns, 1 - i, k) && TurnsNow(h.st)
    ensures h.recv == |turns| - 1 && k.recv == |turns| - 2 && |turns| % 2 == i
  {
  }

  lemma TurnFollowed(sk: Key, ekR: nat, turns: seq<Turn>, i: nat, h: Half, k: Half,
                     me: nat, kem: nat, now: nat, text: string, later: nat, m: nat)
    requires TurnsOk(sk, ekR, turns) && HalfOk(sk, ekR, turns, i, h) && HalfOk(sk, ekR, turns, 1 - i, k)
    requires TurnsNow(h.st) && Answers(turns, h)
    requires me != ekR && forall t :: t in turns ==> t.pub != me && t.pq != Some(kem)
    requires k.recv >= 0 ==> h.st.nSend <= k.st.nRecv + k.st.opts.maxSkip
    ensures Keyed(h.st)
    ensures Decrypt(k.st, later, m, Encrypt(h.st, me, kem, now, text).1).1.Opened?
  {
    hide Linked, RecvSide;
    var t := NextTurn(h.st, me, kem, now, [text]);
    var more := turns + [t];
    EncryptIsNewFrame(sk, ekR, turns, i, h, me, kem, now, text);
    NewTurnLinked(sk, ekR, turns, i, h, me, kem, now, text);
    NewTurnKeepsTurns(sk, ekR, turns, t);
    PeerBehind(sk, ekR, turns, i, h, k);
    NewTurnPeer(sk, ekR, turns, 1 - i, k, t);
    assert more[|turns|] == t;
    OpensExactly(sk, ekR, more, 1 - i, k, later, m, |turns|, 0);
  }

  /**
   * Both directions: with the peer's bound not in the way, the first frame of a
   * turn opens at the peer if and only if the turn answers the peer's outstanding key.
   */
  lemma TurnFollowedIff(s: Sys, i: nat, me: nat, kem: nat, now: nat, text: string, later: nat, m: nat)
    requires Sound(s) && i < 2 && TurnsNow(HalfOf(s, i).st) && FreshDraw(s, me, kem)
    requires HalfOf(s, 1 - i).recv >= 0 ==>
               HalfOf(s, i).st.nSend <= HalfOf(s, 1 - i).st.nRecv + HalfOf(s, 1 - i).st.opts.maxSkip
    ensures Keyed(HalfOf(s, i).st)
    ensures Decrypt(HalfOf(s, 1 - i).st, later, m, Encrypt(HalfOf(s, i).st, me, kem, now, text).1).1.Opened?
       <==> Answers(s.turns, HalfOf(s, i))
  {
    var h, k := HalfOf(s, i), HalfOf(s, 1 - i);
    InvOf(s, i);
    InvOf(s, 1 - i);
    EncryptIsNewFrame(s.sk, s.ekR, s.turns, i, h, me, kem, now, text);
    if Answers(s.turns, h) {
      TurnFollowed(s.sk, s.ekR, s.turns, i, h, k, me, kem, now, text, later, m);
    } else {
      StaleTurnRefused(s.sk, s.ekR, s.turns, i, h, k, me, kem, now, [text], 0, later, m);
    }
  }
}
