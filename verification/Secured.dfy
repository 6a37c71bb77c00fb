/**
 * From the attacked handshake to the ratchet: a responder past the msg3 gate, talking
 * to an uncorrupted peer, has a session no attacker can put a frame of its own into.
 */
module Secured {
  import opened Keys
  import Ratchet
  import C = Conversation
  import R = Runs
  import P = Parting
  import O = Openings
  import A = Attack

  /** Keys the attacker can come to hold: derived from those it invents and from the session keys it knows. */
  predicate CanHold(known: set<A.Term>, k: Key) {
    match k
    case Session(_, _, _, _, _) => A.KeyTerm(k) in known
    case Root(prev, _) => CanHold(known, prev)
    case Chain(prev, _) => CanHold(known, prev)
    case Next(ck) => CanHold(known, ck)
    case Msg(ck) => CanHold(known, ck)
    case _ => true
  }

  /** What the attacker can hand over: any header over a body it sealed itself or saw sealed. */
  ghost predicate CanInject(known: set<A.Term>, turns: seq<C.Turn>, f: Ratchet.Frame) {
    f.Frame? && f.body.Sealed? ==> CanHold(known, f.body.mk) || C.HonestBody(turns, f.body)
  }

  ghost predicate AttackedRun(known: set<A.Term>, s: C.Sys, es: seq<R.Event>)
    decreases |es|
  {
    es != [] ==>
      && es[0].side < 2
      && (match es[0]
          case SendEvent(i, me, kem, _, _) => C.TurnsNow(C.HalfOf(s, i).st) ==> C.FreshDraw(s, me, kem)
          case DeliverEvent(_, _, _, f) => CanInject(known, s.turns, f))
      && AttackedRun(known, R.Apply(s, es[0]), es[1..])
  }

  /** The attacker knows no session key but those its corrupted private keys expose. */
  lemma HeldKeys(corrupt: A.Corruption, es: seq<A.Event>, k: Key)
    requires A.PossibleRun(corrupt, A.World([], [], {}), es)
    requires A.KeyTerm(k) in A.Run(A.World([], [], {}), es).known
    ensures A.Exposed(corrupt, k)
  {
    A.RunKeeps(corrupt, A.World([], [], {}), es);
    assert A.KnownOk(corrupt, A.Run(A.World([], [], {}), es), A.KeyTerm(k));
  }

  /** A session key the attacker does not know roots no key it can hold. */
  lemma {:induction false} NoneRooted(known: set<A.Term>, sk: Key, k: Key)
    requires sk.Session? && A.KeyTerm(sk) !in known && CanHold(known, k)
    ensures !RootedIn(sk, k)
  {
    match k
    case Root(prev, _) => NoneRooted(known, sk, prev);
    case Chain(prev, _) => NoneRooted(known, sk, prev);
    case Next(ck) => NoneRooted(known, sk, ck);
    case Msg(ck) => NoneRooted(known, sk, ck);
    case _ =>
  }

  /** So whatever it hands over, the network does nothing a run does not allow for. */
  lemma {:induction false} AttackIsPossible(known: set<A.Term>, s: C.Sys, es: seq<R.Event>)
    requires s.sk.Session? && A.KeyTerm(s.sk) !in known && AttackedRun(known, s, es)
    ensures P.PossibleRun(s, es)
    decreases |es|
  {
    if es != [] {
      var e := es[0];
      if e.DeliverEvent? && e.frame.Frame? && e.frame.body.Sealed? && CanHold(known, e.frame.body.mk) {
        NoneRooted(known, s.sk, e.frame.body.mk);
      }
      SkStays(s, e);
      AttackIsPossible(known, R.Apply(s, e), es[1..]);
    }
  }

  lemma SkStays(s: C.Sys, e: R.Event)
    ensures R.Apply(s, e).sk == s.sk
  {
  }

  /** What a run keeps: each frame opens at most once and to its own text, and short of late superseded keys the roots agree. */
  ghost predicate Keeps(s: C.Sys, es: seq<R.Event>) {
    && O.Distinct(O.Log(s, es))
    && (forall o :: o in O.Log(s, es) ==> O.Honest(R.Run(s, es).turns, o))
    && (R.AllowedRun(s, es) ==> R.InStep(R.Run(s, es)))
  }

  ghost predicate SafeSession(known: set<A.Term>, i: Ratchet.HandshakeResult, r: Ratchet.HandshakeResult) {
    forall optsI: Ratchet.Opts, optsR: Ratchet.Opts, nowI: nat, nowR: nat, es: seq<R.Event> ::
      optsI.maxChains >= 1 && optsR.maxChains >= 1 && AttackedRun(known, R.Start(i, r, optsI, optsR, nowI, nowR), es)
      ==> Keeps(R.Start(i, r, optsI, optsR, nowI, nowR), es)
  }

  lemma MatchedIsSafe(known: set<A.Term>, i: Ratchet.HandshakeResult, r: Ratchet.HandshakeResult)
    requires R.Matching(i, r) && i.sk.Session? && A.KeyTerm(i.sk) !in known
    ensures SafeSession(known, i, r)
  {
    forall optsI: Ratchet.Opts, optsR: Ratchet.Opts, nowI: nat, nowR: nat, es: seq<R.Event> |
      optsI.maxChains >= 1 && optsR.maxChains >= 1 && AttackedRun(known, R.Start(i, r, optsI, optsR, nowI, nowR), es)
      ensures Keeps(R.Start(i, r, optsI, optsR, nowI, nowR), es)
    {
      var s := R.Start(i, r, optsI, optsR, nowI, nowR);
      R.StartIsSound(i, r, optsI, optsR, nowI, nowR);
      R.StartInStep(i, r, optsI, optsR, nowI, nowR);
      AttackIsPossible(known, s, es);
      O.EachFrameOpensOnce(s, es);
      O.OpeningsAreHonest(s, es);
      if R.AllowedRun(s, es) {
        R.RunAgrees(s, es);
      }
    }
  }

  /**
   * In every attacked run of handshakes, a responder past the gate whose own ephemeral and whose
   * peer's identity key are uncorrupted has a completed partner, and every run of the two ratchets
   * keeps what a session promises, whatever the attacker seals with what it knows after going on
   * as long as it likes.
   */
  lemma AuthenticatedSessionIsSafe(corrupt: A.Corruption, es: seq<A.Event>, b: nat, later: seq<A.Event>)
    requires A.PossibleRun(corrupt, A.World([], [], {}), es + later)
    requires var w := A.Run(A.World([], [], {}), es);
             b < |w.rs| && w.rs[b].result.Some? && w.rs[b].ek !in corrupt.dh && w.rs[b].peerIk !in corrupt.dh
    ensures var w, known := A.Run(A.World([], [], {}), es), A.Run(A.World([], [], {}), es + later).known;
            exists a :: 0 <= a < |w.ini| && A.Partners(w.ini[a], w.rs[b])
              && SafeSession(known, w.ini[a].result.value, w.rs[b].result.value)
  {
    hide SafeSession;
    var none := A.World([], [], {});
    var w := A.Run(none, es);
    A.RunJoin(corrupt, none, es, later);
    A.ResponderAuthenticates(corrupt, es, b);
    var a :| 0 <= a < |w.ini| && A.Partners(w.ini[a], w.rs[b]);
    A.PartnersMatch(corrupt, es, a, b);
    A.RunKeeps(corrupt, none, es);
    assert w.rs[b] in w.rs && A.RSessionOk(w.known, w.rs[b]);
    var sk, known := w.ini[a].result.value.sk, A.Run(none, es + later).known;
    if A.KeyTerm(sk) in known {
      HeldKeys(corrupt, es + later, sk);
    }
    MatchedIsSafe(known, w.ini[a].result.value, w.rs[b].result.value);
  }
}
