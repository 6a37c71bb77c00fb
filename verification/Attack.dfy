/**
 * The handshake on a hostile network: any number of sessions, an attacker that
 * delivers, withholds, alters and forges, holds some private keys and can break
 * the KEM. A side that completes has a partner that hashed the same transcript.
 */
module Attack {
  import opened Keys
  import opened Handshake
  import Ratchet
  import Runs

  /** X25519 private keys, ML-KEM private keys and encapsulation randomness in the attacker's hands, its own among them. */
  datatype Corruption = Corruption(dh: set<nat>, kem: set<nat>, coins: set<nat>)

  /** What the attacker can hold. */
  datatype Term = DhTerm(dh: DhOut) | SsTerm(ss: KemSs) | KeyTerm(key: Key) | MacTerm(mac: Mac)

  datatype ISession = ISession(st: InitiatorState, read: Option<Msg2>, result: Option<Ratchet.HandshakeResult>)
  datatype RSession = RSession(ik: nat, peerIk: nat, ek: nat, m: nat, st: ResponderState, result: Option<Ratchet.HandshakeResult>)

  datatype World = World(ini: seq<ISession>, rs: seq<RSession>, known: set<Term>)

  datatype Event =
    | BeginEvent(ik: nat, peerIk: nat, tagKey: nat, ek: nat, pq: nat, now: nat, skew: nat)
    | CompleteEvent(i: nat, m2: Msg2, now: nat)
    | RespondEvent(ik: nat, peerIk: nat, tagKey: nat, m1: Msg1, ek: nat, m: nat, now: nat, skew: nat)
    | FinishEvent(r: nat, m3: Msg3)
    | DeriveEvent(term: Term)

  predicate Holds(corrupt: Corruption, d: DhOut) {
    d.lo in corrupt.dh || d.hi in corrupt.dh
  }

  /** An encapsulated secret comes from the private key or the randomness, a rejected one from the private key alone. */
  predicate SsHeld(corrupt: Corruption, ss: KemSs) {
    match ss
    case KemSs(key, m) => key in corrupt.kem || m in corrupt.coins
    case RejectedSs(key, _) => key in corrupt.kem
  }

  /** One step of the attacker's own computation. */
  predicate CanDerive(corrupt: Corruption, known: set<Term>, t: Term) {
    match t
    case DhTerm(d) => Holds(corrupt, d)
    case SsTerm(ss) => SsHeld(corrupt, ss)
    case KeyTerm(k) => k.Session? && DhTerm(k.dh1) in known && DhTerm(k.dh2) in known && DhTerm(k.dh3) in known && SsTerm(k.ss) in known
    case MacTerm(RMac(sk, _)) => KeyTerm(sk) in known
    case MacTerm(IMac(sk, _, _)) => KeyTerm(sk) in known
    case MacTerm(ForeignMac(_)) => true
  }

  predicate Deliverable(known: set<Term>, mac: Mac) {
    mac.ForeignMac? || MacTerm(mac) in known
  }

  /** Ratchet keys are drawn once; the attacker delivers only MACs it holds. */
  predicate Possible(corrupt: Corruption, w: World, e: Event) {
    match e
    case BeginEvent(_, _, _, ek, _, _, _) => Unused(w, ek)
    case RespondEvent(_, _, _, _, ek, _, _, _) => Unused(w, ek)
    case CompleteEvent(i, m2, _) => i < |w.ini| && Deliverable(w.known, m2.macR)
    case FinishEvent(r, m3) => r < |w.rs| && Deliverable(w.known, m3.macI)
    case DeriveEvent(t) => CanDerive(corrupt, w.known, t)
  }

  predicate Unused(w: World, ek: nat) {
    (forall s :: s in w.ini ==> s.st.ek != ek) && (forall s :: s in w.rs ==> s.ek != ek)
  }

  /** An initiator is consumed by its first accepted msg2, a responder by its first msg3. */
  function Step(w: World, e: Event): World {
    match e
    case BeginEvent(ik, peerIk, tagKey, ek, pq, now, skew) =>
      w.(ini := w.ini + [ISession(Initiate(ik, peerIk, tagKey, ek, pq, now, skew), None, None)])
    case CompleteEvent(i, m2, now) =>
      if i >= |w.ini| || w.ini[i].read.Some? then w
      else (match InitiatorComplete(w.ini[i].st, FrameMsg2(m2), Dh(w.ini[i].st.ik, m2.ek), now)
        case Err(_) => w
        case Ok((m3, result)) =>
          w.(ini := w.ini[i := ISession(w.ini[i].st, Some(m2), Some(result))], known := w.known + {MacTerm(m3.macI)}))
    case RespondEvent(ik, peerIk, tagKey, m1, ek, m, now, skew) =>
      (match ResponderBegin(ik, peerIk, tagKey, FrameMsg1(m1), now, skew)
       case Err(_) => w
       case Ok(b) =>
         match ResponderComplete(b, Dh(ik, m1.ek), ek, m)
         case Err(_) => w
         case Ok((m2, st)) =>
           w.(rs := w.rs + [RSession(ik, peerIk, ek, m, st, None)], known := w.known + {MacTerm(m2.macR)}))
    case FinishEvent(r, m3) =>
      if r >= |w.rs| then w
      else (match ResponderFinish(w.rs[r].st, FrameMsg3(m3))
        case Err(_) => w
        case Ok(result) => w.(rs := w.rs[r := w.rs[r].(result := Some(result))]))
    case DeriveEvent(t) => w.(known := w.known + {t})
  }

  function Run(w: World, es: seq<Event>): World
    decreases |es|
  {
    if es == [] then w else Run(Step(w, es[0]), es[1..])
  }

  predicate PossibleRun(corrupt: Corruption, w: World, es: seq<Event>)
    decreases |es|
  {
    es != [] ==> Possible(corrupt, w, es[0]) && PossibleRun(corrupt, Step(w, es[0]), es[1..])
  }

  // ------------------------------------------------------------------------
  // the invariant
  // ------------------------------------------------------------------------

  /** The attacker can compute this session key. */
  predicate Exposed(corrupt: Corruption, k: Key) {
    k.Session? && Holds(corrupt, k.dh1) && Holds(corrupt, k.dh2) && Holds(corrupt, k.dh3) && SsHeld(corrupt, k.ss)
  }

  function ReadOf(s: ISession): Transcript
    requires s.read.Some?
  {
    Transcript(s.st.msg1, s.read.value.ek, s.read.value.ct, s.read.value.ts)
  }

  predicate ISessionOk(known: set<Term>, s: ISession) {
    && s.st.msg1.ek == s.st.ek && s.st.msg1.pq == KemPub(s.st.pq)
    && (s.read.Some? <==> s.result.Some?)
    && (s.read.Some? ==>
          var (m, r) := (s.read.value, s.result.value);
          && r.sk.Session? && r.sk.msg1 == s.st.msg1
          && r.sk.dh1 == Dh(s.st.ek, s.st.peerIk) && r.sk.dh2 == Dh(s.st.ik, m.ek) && r.sk.dh3 == Dh(s.st.ek, m.ek)
          && Decapsulate(s.st.pq, m.ct) == Some(r.sk.ss)
          && r.role.Initiator? && r.ekSelf == Some(s.st.ek) && r.ekPeer == m.ek && r.firstStep == r.sk.dh3
          && m.macR == RMac(r.sk, ReadOf(s)) && MacTerm(m.macR) in known)
  }

  predicate RSessionOk(known: set<Term>, s: RSession) {
    var m1 := s.st.h2p.msg1;
    && s.st.sk.Session? && s.st.sk.msg1 == m1 && s.st.h2p.ekR == s.ek
    && s.st.sk.dh1 == Dh(s.ik, m1.ek) && s.st.sk.dh2 == Dh(s.ek, s.peerIk) && s.st.sk.dh3 == Dh(s.ek, m1.ek)
    && m1.pq.KemPub? && s.st.sk.ss == KemSs(m1.pq.id, s.m) && s.st.h2p.ct == KemCt(m1.pq.id, s.m)
    && s.st.macR == RMac(s.st.sk, s.st.h2p) && s.st.ekPeer == m1.ek && s.st.firstStep == s.st.sk.dh3
    && (s.result.Some? ==>
          && s.result.value == Ratchet.HandshakeResult(Ratchet.Responder, s.st.sk, None, s.st.ekPeer, s.st.firstStep)
          && MacTerm(IMac(s.st.sk, s.st.h2p, s.st.macR)) in known)
  }

  predicate MadeByResponder(rs: seq<RSession>, sk: Key, h2p: Transcript) {
    exists j :: 0 <= j < |rs| && rs[j].st.sk == sk && rs[j].st.h2p == h2p
  }

  predicate MadeByInitiator(ini: seq<ISession>, sk: Key, h2p: Transcript, macR: Mac) {
    exists j :: 0 <= j < |ini| && ini[j].read.Some? && ini[j].result.Some?
              && ini[j].result.value.sk == sk && ReadOf(ini[j]) == h2p && ini[j].read.value.macR == macR
  }

  /** What the attacker holds it computed from its own keys or was sent by a session. */
  ghost predicate KnownOk(corrupt: Corruption, w: World, t: Term) {
    match t
    case DhTerm(d) => Holds(corrupt, d)
    case SsTerm(ss) => SsHeld(corrupt, ss)
    case KeyTerm(k) => Exposed(corrupt, k)
    case MacTerm(RMac(sk, h2p)) => Exposed(corrupt, sk) || MadeByResponder(w.rs, sk, h2p)
    case MacTerm(IMac(sk, h2p, macR)) => Exposed(corrupt, sk) || MadeByInitiator(w.ini, sk, h2p, macR)
    case MacTerm(ForeignMac(_)) => true
  }

  ghost predicate WorldOk(corrupt: Corruption, w: World) {
    && (forall s :: s in w.ini ==> ISessionOk(w.known, s))
    && (forall s :: s in w.rs ==> RSessionOk(w.known, s))
    && (forall t :: t in w.known ==> KnownOk(corrupt, w, t))
    && (forall a, b :: 0 <= a < b < |w.ini| ==> w.ini[a].st.ek != w.ini[b].st.ek)
    && (forall a, b :: 0 <= a < b < |w.rs| ==> w.rs[a].ek != w.rs[b].ek)
    && (forall a, b :: 0 <= a < |w.ini| && 0 <= b < |w.rs| ==> w.ini[a].st.ek != w.rs[b].ek)
  }

  /** Sessions only gain: none forgets what it sent. */
  ghost predicate Later(w: World, v: World) {
    && w.known <= v.known
    && |w.ini| <= |v.ini| && |w.rs| <= |v.rs|
    && (forall j :: 0 <= j < |w.ini| && w.ini[j].read.Some? ==> v.ini[j] == w.ini[j])
    && (forall j :: 0 <= j < |w.rs| ==> v.rs[j].(result := None) == w.rs[j].(result := None))
  }

  lemma KnownStaysOk(corrupt: Corruption, w: World, v: World, t: Term)
    requires Later(w, v) && KnownOk(corrupt, w, t)
    ensures KnownOk(corrupt, v, t)
  {
    match t
    case MacTerm(RMac(sk, h2p)) =>
      if MadeByResponder(w.rs, sk, h2p) {
        var j :| 0 <= j < |w.rs| && w.rs[j].st.sk == sk && w.rs[j].st.h2p == h2p;
        assert v.rs[j].(result := None) == w.rs[j].(result := None);
      }
    case MacTerm(IMac(sk, h2p, macR)) =>
      if MadeByInitiator(w.ini, sk, h2p, macR) {
        var j :| 0 <= j < |w.ini| && w.ini[j].read.Some? && w.ini[j].result.Some?
               && w.ini[j].result.value.sk == sk && ReadOf(w.ini[j]) == h2p && w.ini[j].read.value.macR == macR;
        assert v.ini[j] == w.ini[j];
      }
    case _ =>
  }

  lemma BeginKeeps(corrupt: Corruption, w: World, e: Event)
    requires WorldOk(corrupt, w) && Possible(corrupt, w, e) && e.BeginEvent?
    ensures WorldOk(corrupt, Step(w, e)) && Later(w, Step(w, e))
  {
    var v := Step(w, e);
    forall t | t in v.known ensures KnownOk(corrupt, v, t) { KnownStaysOk(corrupt, w, v, t); }
    forall s | s in v.ini ensures ISessionOk(v.known, s) { assert s in w.ini || s == v.ini[|w.ini|]; }
    forall a | 0 <= a < |w.ini| ensures w.ini[a].st.ek != e.ek { assert w.ini[a] in w.ini; }
    forall b | 0 <= b < |w.rs| ensures w.rs[b].ek != e.ek { assert w.rs[b] in w.rs; }
  }

  lemma RespondKeeps(corrupt: Corruption, w: World, e: Event)
    requires WorldOk(corrupt, w) && Possible(corrupt, w, e) && e.RespondEvent?
    ensures WorldOk(corrupt, Step(w, e)) && Later(w, Step(w, e))
  {
    var v := Step(w, e);
    if v != w {
      var s := v.rs[|w.rs|];
      assert RSessionOk(v.known, s);
      assert MadeByResponder(v.rs, s.st.sk, s.st.h2p);
      forall t | t in v.known ensures KnownOk(corrupt, v, t) {
        if t in w.known { KnownStaysOk(corrupt, w, v, t); }
      }
      forall a | 0 <= a < |w.ini| ensures w.ini[a].st.ek != e.ek { assert w.ini[a] in w.ini; }
      forall b | 0 <= b < |w.rs| ensures w.rs[b].ek != e.ek { assert w.rs[b] in w.rs; }
    }
  }

  lemma CompleteKeeps(corrupt: Corruption, w: World, e: Event)
    requires WorldOk(corrupt, w) && Possible(corrupt, w, e) && e.CompleteEvent?
    ensures WorldOk(corrupt, Step(w, e)) && Later(w, Step(w, e))
  {
    var v := Step(w, e);
    if v != w {
      var s := v.ini[e.i];
      assert w.ini[e.i] in w.ini;
      assert ISessionOk(v.known, s);
      assert MadeByInitiator(v.ini, s.result.value.sk, ReadOf(s), s.read.value.macR);
      forall t | t in v.known ensures KnownOk(corrupt, v, t) {
        if t in w.known { KnownStaysOk(corrupt, w, v, t); }
      }
      forall x | x in v.ini ensures ISessionOk(v.known, x) { assert x in w.ini || x == s; }
    }
  }

  lemma FinishKeeps(corrupt: Corruption, w: World, e: Event)
    requires WorldOk(corrupt, w) && Possible(corrupt, w, e) && e.FinishEvent?
    ensures WorldOk(corrupt, Step(w, e)) && Later(w, Step(w, e))
  {
    var v := Step(w, e);
    if v != w {
      assert w.rs[e.r] in w.rs;
      assert RSessionOk(v.known, v.rs[e.r]);
      forall t | t in v.known ensures KnownOk(corrupt, v, t) { KnownStaysOk(corrupt, w, v, t); }
      forall x | x in v.rs ensures RSessionOk(v.known, x) { assert x in w.rs || x == v.rs[e.r]; }
    }
  }

  lemma DeriveKeeps(corrupt: Corruption, w: World, e: Event)
    requires WorldOk(corrupt, w) && Possible(corrupt, w, e) && e.DeriveEvent?
    ensures WorldOk(corrupt, Step(w, e)) && Later(w, Step(w, e))
  {
    var v := Step(w, e);
    forall t | t in v.known ensures KnownOk(corrupt, v, t) {
      if t in w.known {
        KnownStaysOk(corrupt, w, v, t);
      } else if t.KeyTerm? {
        assert KnownOk(corrupt, w, DhTerm(t.key.dh1)) && KnownOk(corrupt, w, DhTerm(t.key.dh2)) && KnownOk(corrupt, w, DhTerm(t.key.dh3));
        assert KnownOk(corrupt, w, SsTerm(t.key.ss));
      } else if t.MacTerm? && !t.mac.ForeignMac? {
        assert KnownOk(corrupt, w, KeyTerm(t.mac.sk));
      }
    }
  }

  lemma StepKeeps(corrupt: Corruption, w: World, e: Event)
    requires WorldOk(corrupt, w) && Possible(corrupt, w, e)
    ensures WorldOk(corrupt, Step(w, e))
  {
    match e
    case BeginEvent(_, _, _, _, _, _, _) => BeginKeeps(corrupt, w, e);
    case CompleteEvent(_, _, _) => CompleteKeeps(corrupt, w, e);
    case RespondEvent(_, _, _, _, _, _, _, _) => RespondKeeps(corrupt, w, e);
    case FinishEvent(_, _) => FinishKeeps(corrupt, w, e);
    case DeriveEvent(_) => DeriveKeeps(corrupt, w, e);
  }

  lemma {:induction false} RunKeeps(corrupt: Corruption, w: World, es: seq<Event>)
    requires WorldOk(corrupt, w) && PossibleRun(corrupt, w, es)
    ensures WorldOk(corrupt, Run(w, es))
    decreases |es|
  {
    if es == [] {
    } else {
      StepKeeps(corrupt, w, es[0]);
      RunKeeps(corrupt, Step(w, es[0]), es[1..]);
    }
  }

  // ------------------------------------------------------------------------
  // authentication
  // ------------------------------------------------------------------------

  lemma DhCancels(a: nat, b: nat, c: nat)
    ensures Dh(a, b) == Dh(a, c) <==> b == c
  {
  }

  /** The two sides are each other's peers, agree on msg1, EK_r, ciphertext and timestamp, and share SK. */
  predicate Partners(i: ISession, r: RSession) {
    && i.read.Some? && i.result.Some?
    && r.ik == i.st.peerIk && r.peerIk == i.st.ik
    && r.st.h2p == ReadOf(i)
    && r.st.sk == i.result.value.sk
  }

  /** An initiator that completes towards an uncorrupted peer has exactly one partner, whatever became of its own identity key. */
  lemma InitiatorAuthenticates(corrupt: Corruption, es: seq<Event>, a: nat)
    requires PossibleRun(corrupt, World([], [], {}), es)
    requires var w := Run(World([], [], {}), es);
             a < |w.ini| && w.ini[a].result.Some? && w.ini[a].st.ek !in corrupt.dh && w.ini[a].st.peerIk !in corrupt.dh
    ensures var w := Run(World([], [], {}), es);
            exists b :: 0 <= b < |w.rs| && Partners(w.ini[a], w.rs[b])
                        && forall c :: 0 <= c < |w.rs| && Partners(w.ini[a], w.rs[c]) ==> c == b
  {
    var w := Run(World([], [], {}), es);
    RunKeeps(corrupt, World([], [], {}), es);
    var i := w.ini[a];
    assert i in w.ini;
    var sk := i.result.value.sk;
    assert KnownOk(corrupt, w, MacTerm(i.read.value.macR));
    assert !Exposed(corrupt, sk);
    var b :| 0 <= b < |w.rs| && w.rs[b].st.sk == sk && w.rs[b].st.h2p == ReadOf(i);
    var r := w.rs[b];
    assert r in w.rs;
    DhCommutes(r.ik, i.st.ek);
    DhCancels(i.st.ek, r.ik, i.st.peerIk);
    DhCommutes(i.st.ik, r.ek);
    DhCancels(r.ek, r.peerIk, i.st.ik);
    assert Partners(i, r);
    forall c | 0 <= c < |w.rs| && Partners(i, w.rs[c]) ensures c == b {
      assert w.rs[c] in w.rs;
    }
  }

  /** A responder past the msg3 gate, its peer uncorrupted, has exactly one partner, and that one has completed. */
  lemma ResponderAuthenticates(corrupt: Corruption, es: seq<Event>, b: nat)
    requires PossibleRun(corrupt, World([], [], {}), es)
    requires var w := Run(World([], [], {}), es);
             b < |w.rs| && w.rs[b].result.Some? && w.rs[b].ek !in corrupt.dh && w.rs[b].peerIk !in corrupt.dh
    ensures var w := Run(World([], [], {}), es);
            exists a :: 0 <= a < |w.ini| && Partners(w.ini[a], w.rs[b])
                        && forall c :: 0 <= c < |w.ini| && Partners(w.ini[c], w.rs[b]) ==> c == a
  {
    var w := Run(World([], [], {}), es);
    RunKeeps(corrupt, World([], [], {}), es);
    var r := w.rs[b];
    assert r in w.rs;
    var sk, h2p, macR := r.st.sk, r.st.h2p, r.st.macR;
    assert KnownOk(corrupt, w, MacTerm(IMac(sk, h2p, macR)));
    assert !Exposed(corrupt, sk);
    var a :| 0 <= a < |w.ini| && w.ini[a].read.Some? && w.ini[a].result.Some?
           && w.ini[a].result.value.sk == sk && ReadOf(w.ini[a]) == h2p && w.ini[a].read.value.macR == macR;
    var i := w.ini[a];
    assert i in w.ini;
    DhCommutes(r.ik, i.st.ek);
    DhCancels(i.st.ek, r.ik, i.st.peerIk);
    DhCommutes(i.st.ik, r.ek);
    DhCancels(r.ek, r.peerIk, i.st.ik);
    assert Partners(i, r);
    forall c | 0 <= c < |w.ini| && Partners(w.ini[c], r) ensures c == a {
      assert w.ini[c] in w.ini;
    }
  }

  /** Partners that both completed hand the ratchet the matching results it starts in step from. */
  lemma PartnersMatch(corrupt: Corruption, es: seq<Event>, a: nat, b: nat)
    requires PossibleRun(corrupt, World([], [], {}), es)
    requires var w := Run(World([], [], {}), es);
             a < |w.ini| && b < |w.rs| && w.rs[b].result.Some? && Partners(w.ini[a], w.rs[b])
    ensures var w := Run(World([], [], {}), es);
            Runs.Matching(w.ini[a].result.value, w.rs[b].result.value)
  {
    var w := Run(World([], [], {}), es);
    RunKeeps(corrupt, World([], [], {}), es);
    var i, r := w.ini[a], w.rs[b];
    assert i in w.ini && r in w.rs;
    DhCommutes(i.st.ek, r.ek);
  }

  /**
   * Forward secrecy: the attacker computes a session's SK only with one of its two
   * ephemeral keys; both identity keys together are not enough.
   */
  lemma SkNeedsAnEphemeral(corrupt: Corruption, es: seq<Event>, b: nat)
    requires PossibleRun(corrupt, World([], [], {}), es)
    requires var w := Run(World([], [], {}), es); b < |w.rs| && KeyTerm(w.rs[b].st.sk) in w.known
    ensures var w := Run(World([], [], {}), es);
            w.rs[b].ek in corrupt.dh || w.rs[b].st.h2p.msg1.ek in corrupt.dh
  {
    var w := Run(World([], [], {}), es);
    RunKeeps(corrupt, World([], [], {}), es);
    assert w.rs[b] in w.rs;
    assert KnownOk(corrupt, w, KeyTerm(w.rs[b].st.sk));
  }

  // ------------------------------------------------------------------------
  // who can come to know SK
  // ------------------------------------------------------------------------

  lemma {:induction false} RunJoin(corrupt: Corruption, w: World, es: seq<Event>, later: seq<Event>)
    ensures Run(w, es + later) == Run(Run(w, es), later)
    ensures PossibleRun(corrupt, w, es + later) <==> PossibleRun(corrupt, w, es) && PossibleRun(corrupt, Run(w, es), later)
    decreases |es|
  {
    hide Step, Possible;
    if es == [] {
      assert es + later == later;
    } else {
      assert (es + later)[0] == es[0] && (es + later)[1..] == es[1..] + later;
      RunJoin(corrupt, Step(w, es[0]), es[1..], later);
    }
  }

  /** However the run goes on, the attacker can come to know this key. */
  ghost predicate WithinGrasp(corrupt: Corruption, es: seq<Event>, k: Key) {
    exists later: seq<Event> :: PossibleRun(corrupt, World([], [], {}), es + later) && KeyTerm(k) in Run(World([], [], {}), es + later).known
  }

  function Derivation(k: Key): seq<Event>
    requires k.Session?
  {
    [DeriveEvent(DhTerm(k.dh1))] + ([DeriveEvent(DhTerm(k.dh2))] + ([DeriveEvent(DhTerm(k.dh3))]
      + ([DeriveEvent(SsTerm(k.ss))] + ([DeriveEvent(KeyTerm(k))] + []))))
  }

  lemma DeriveOne(corrupt: Corruption, w: World, t: Term, rest: seq<Event>)
    requires CanDerive(corrupt, w.known, t) && PossibleRun(corrupt, w.(known := w.known + {t}), rest)
    ensures PossibleRun(corrupt, w, [DeriveEvent(t)] + rest)
    ensures Run(w, [DeriveEvent(t)] + rest) == Run(w.(known := w.known + {t}), rest)
  {
    assert ([DeriveEvent(t)] + rest)[1..] == rest;
  }

  lemma DerivationWorks(corrupt: Corruption, w: World, k: Key)
    requires Exposed(corrupt, k)
    ensures PossibleRun(corrupt, w, Derivation(k)) && KeyTerm(k) in Run(w, Derivation(k)).known
  {
    hide Run, PossibleRun, Holds, SsHeld;
    var w1 := w.(known := w.known + {DhTerm(k.dh1)});
    var w2 := w1.(known := w1.known + {DhTerm(k.dh2)});
    var w3 := w2.(known := w2.known + {DhTerm(k.dh3)});
    var w4 := w3.(known := w3.known + {SsTerm(k.ss)});
    var w5 := w4.(known := w4.known + {KeyTerm(k)});
    NothingMore(corrupt, w5);
    var last: seq<Event> := [DeriveEvent(KeyTerm(k))] + [];
    var rest := [DeriveEvent(SsTerm(k.ss))] + last;
    DeriveOne(corrupt, w4, KeyTerm(k), []);
    DeriveOne(corrupt, w3, SsTerm(k.ss), last);
    DeriveOne(corrupt, w2, DhTerm(k.dh3), rest);
    DeriveOne(corrupt, w1, DhTerm(k.dh2), [DeriveEvent(DhTerm(k.dh3))] + rest);
    DeriveOne(corrupt, w, DhTerm(k.dh1), [DeriveEvent(DhTerm(k.dh2))] + ([DeriveEvent(DhTerm(k.dh3))] + rest));
  }

  lemma NothingMore(corrupt: Corruption, w: World)
    ensures PossibleRun(corrupt, w, []) && Run(w, []) == w
  {
  }

  /** Exactly the exposed keys are within grasp. */
  lemma GraspedIffExposed(corrupt: Corruption, es: seq<Event>, k: Key)
    requires PossibleRun(corrupt, World([], [], {}), es)
    ensures WithinGrasp(corrupt, es, k) <==> Exposed(corrupt, k)
  {
    hide Run, PossibleRun, Holds, SsHeld;
    var none := World([], [], {});
    if WithinGrasp(corrupt, es, k) {
      var later: seq<Event> :| PossibleRun(corrupt, none, es + later) && KeyTerm(k) in Run(none, es + later).known;
      RunKeeps(corrupt, none, es + later);
      assert KnownOk(corrupt, Run(none, es + later), KeyTerm(k));
    }
    if Exposed(corrupt, k) {
      DerivationWorks(corrupt, Run(none, es), k);
      RunJoin(corrupt, none, es, Derivation(k));
    }
  }

  /**
   * SK is hybrid: the attacker can come to know what a responder derived if and only if it holds
   * one end of each of the three Diffie-Hellmans, and the initiator's ML-KEM key or the
   * responder's own encapsulation randomness as well.
   */
  lemma ResponderSkExactly(corrupt: Corruption, es: seq<Event>, b: nat)
    requires PossibleRun(corrupt, World([], [], {}), es) && b < |Run(World([], [], {}), es).rs|
    ensures var r := Run(World([], [], {}), es).rs[b];
            var x, pq := r.st.h2p.msg1.ek, r.st.h2p.msg1.pq;
            pq.KemPub? &&
            (WithinGrasp(corrupt, es, r.st.sk)
             <==> && (r.ik in corrupt.dh || x in corrupt.dh) && (r.ek in corrupt.dh || r.peerIk in corrupt.dh)
                  && (r.ek in corrupt.dh || x in corrupt.dh)
                  && (pq.id in corrupt.kem || r.m in corrupt.coins))
  {
    var w := Run(World([], [], {}), es);
    RunKeeps(corrupt, World([], [], {}), es);
    assert w.rs[b] in w.rs && RSessionOk(w.known, w.rs[b]);
    GraspedIffExposed(corrupt, es, w.rs[b].st.sk);
  }

  /** The same of what a completed initiator derived: its own ML-KEM key, or the randomness of the ciphertext it was sent under that key. */
  lemma InitiatorSkExactly(corrupt: Corruption, es: seq<Event>, a: nat)
    requires PossibleRun(corrupt, World([], [], {}), es)
    requires var w := Run(World([], [], {}), es); a < |w.ini| && w.ini[a].result.Some?
    ensures var i := Run(World([], [], {}), es).ini[a];
            i.read.Some? &&
            var (y, ct) := (i.read.value.ek, i.read.value.ct);
            (WithinGrasp(corrupt, es, i.result.value.sk)
             <==> && (i.st.ek in corrupt.dh || i.st.peerIk in corrupt.dh) && (i.st.ik in corrupt.dh || y in corrupt.dh)
                  && (i.st.ek in corrupt.dh || y in corrupt.dh)
                  && (i.st.pq in corrupt.kem || (ct.KemCt? && ct.key == i.st.pq && ct.m in corrupt.coins)))
  {
    var w := Run(World([], [], {}), es);
    RunKeeps(corrupt, World([], [], {}), es);
    assert w.ini[a] in w.ini && ISessionOk(w.known, w.ini[a]);
    GraspedIffExposed(corrupt, es, w.ini[a].result.value.sk);
  }

  /** With every X25519 key in the attacker's hands, SK stays unknown as long as the session's ML-KEM key and randomness do. */
  lemma KemAloneKeepsSk(corrupt: Corruption, es: seq<Event>, b: nat)
    requires PossibleRun(corrupt, World([], [], {}), es) && b < |Run(World([], [], {}), es).rs|
    requires var r := Run(World([], [], {}), es).rs[b];
             r.m !in corrupt.coins && forall k: nat :: r.st.h2p.msg1.pq == KemPub(k) ==> k !in corrupt.kem
    ensures KeyTerm(Run(World([], [], {}), es).rs[b].st.sk) !in Run(World([], [], {}), es).known
  {
    ResponderSkExactly(corrupt, es, b);
    assert es + [] == es;
  }

  // ------------------------------------------------------------------------
  // whom a responder answers
  // ------------------------------------------------------------------------

  /** A tag the attacker can put in a msg1: one it can compute, or one some session has sent. */
  predicate TagAtHand(tagKeys: set<nat>, es: seq<Event>, tag: Tag) {
    tag.ForeignTag? || tag.tagKey in tagKeys
    || exists k :: 0 <= k < |es| && es[k].BeginEvent? && tag == Tag(es[k].tagKey, es[k].ik)
  }

  ghost predicate TagsAtHand(tagKeys: set<nat>, es: seq<Event>) {
    forall k :: 0 <= k < |es| && es[k].RespondEvent? ==> TagAtHand(tagKeys, es[..k], es[k].m1.tag)
  }

  lemma RunLast(w: World, es: seq<Event>, k: nat)
    requires k < |es|
    ensures Run(w, es[..k + 1]) == Step(Run(w, es[..k]), es[k])
    decreases |es|
  {
    hide Step;
    if k == 0 {
      assert es[..1][1..] == [] && es[..1][0] == es[0] && es[..0] == [];
    } else {
      assert es[..k + 1][1..] == es[1..][..k] && es[..k][1..] == es[1..][..k - 1];
      RunLast(Step(w, es[0]), es[1..], k - 1);
    }
  }

  lemma SessionStays(w: World, e: Event, a: nat)
    requires a < |w.ini|
    ensures a < |Step(w, e).ini| && Step(w, e).ini[a].st == w.ini[a].st
  {
  }

  /** A session once begun is there in every later state. */
  lemma {:induction false} BegunStays(es: seq<Event>, b: nat, k: nat)
    requires b < k <= |es| && es[b].BeginEvent?
    ensures exists a :: 0 <= a < |Run(World([], [], {}), es[..k]).ini|
              && Run(World([], [], {}), es[..k]).ini[a].st.ik == es[b].ik
              && Run(World([], [], {}), es[..k]).ini[a].st.msg1.tag == Tag(es[b].tagKey, es[b].ik)
  {
    hide Run, Step;
    var w0 := World([], [], {});
    RunLast(w0, es, k - 1);
    var w := Run(w0, es[..k - 1]);
    if b == k - 1 {
      BeginAdds(w, es[b]);
    } else {
      BegunStays(es, b, k - 1);
      var a :| 0 <= a < |w.ini| && w.ini[a].st.ik == es[b].ik && w.ini[a].st.msg1.tag == Tag(es[b].tagKey, es[b].ik);
      SessionStays(w, es[k - 1], a);
    }
  }

  lemma BeginAdds(w: World, e: Event)
    requires e.BeginEvent?
    ensures var v := Step(w, e);
            |v.ini| == |w.ini| + 1 && v.ini[|w.ini|].st.ik == e.ik && v.ini[|w.ini|].st.msg1.tag == Tag(e.tagKey, e.ik)
  {
  }

  /**
   * A responder spends a DH and a KEM only on its contact: a session it answers, under a tag key
   * the attacker lacks, is one its contact has begun under that key - not a stranger's, and not a
   * second window of its own.
   */
  lemma AnsweredContactBegan(tagKeys: set<nat>, es: seq<Event>, k: nat)
    requires TagsAtHand(tagKeys, es) && k < |es| && es[k].RespondEvent? && es[k].tagKey !in tagKeys
    requires Run(World([], [], {}), es[..k + 1]) != Run(World([], [], {}), es[..k])
    ensures var w := Run(World([], [], {}), es[..k]);
            exists a :: 0 <= a < |w.ini| && w.ini[a].st.ik == es[k].peerIk && w.ini[a].st.msg1.tag == Tag(es[k].tagKey, es[k].peerIk)
  {
    hide Run;
    var e, w := es[k], Run(World([], [], {}), es[..k]);
    RunLast(World([], [], {}), es, k);
    assert ResponderBegin(e.ik, e.peerIk, e.tagKey, FrameMsg1(e.m1), e.now, e.skew).Ok?;
    TagTellsWho(e.ik, e.peerIk, e.tagKey, e.m1, e.now, e.skew);
    assert e.m1.tag == Tag(e.tagKey, e.peerIk);
    var b :| 0 <= b < k && es[..k][b].BeginEvent? && e.m1.tag == Tag(es[..k][b].tagKey, es[..k][b].ik);
    BegunStays(es, b, k);
  }
}
