/**
 * The hybrid cadence of one side over all its calls (section 7.2 of the protocol's
 * specification): when an encapsulation key is issued, how long it is announced, and
 * that a key once noted is answered in the next own root step.
 */
module Cadence {
  import opened Keys
  import opened SkippedKeys
  import opened Ratchet

  datatype Call = SendCall(me: nat, kem: nat, now: nat, text: string) | ReceiveCall(now: nat, m: nat, frame: Frame)

  /** Whatever is called: the frames handed in are anybody's. */
  function After(s: State, c: Call): (t: State)
    requires Keyed(s)
    ensures Keyed(t) && t.opts == s.opts
  {
    match c
    case SendCall(me, kem, now, text) => Encrypt(s, me, kem, now, text).0
    case ReceiveCall(now, m, f) =>
      DecryptKeepsKeyed(s, now, m, f);
      OptsKept(s, now, m, f);
      Decrypt(s, now, m, f).0
  }

  lemma OptsKept(s: State, now: nat, m: nat, f: Frame)
    ensures Decrypt(s, now, m, f).0.opts == s.opts
  {
    hide PutKeys, PruneKeys, DropKey, Find, PassedKeys, Walk, Open;
  }

  function AfterAll(s: State, cs: seq<Call>): (t: State)
    requires Keyed(s)
    ensures Keyed(t) && t.opts == s.opts
    decreases |cs|
  {
    if cs == [] then s else AfterAll(After(s, cs[0]), cs[1..])
  }

  // ------------------------------------------------------------------------
  // counting from the calls
  // ------------------------------------------------------------------------

  /** An own root step. */
  predicate OwnStep(s: State, c: Call) {
    c.SendCall? && (s.stepBeforeSend || s.ckSend.None?)
  }

  /** The call turned to a new ratchet key of the peer's. */
  predicate FollowsTurn(s: State, c: Call) {
    c.ReceiveCall? && Decrypt(s, c.now, c.m, c.frame).1.Opened? && Decrypt(s, c.now, c.m, c.frame).0.dhPeer != s.dhPeer
  }

  /** The peer's turn answered our key. */
  predicate Answered(s: State, c: Call) {
    FollowsTurn(s, c) && c.frame.Frame? && c.frame.header.pqCt.Some?
  }

  /** ML-KEM entered the root: in an own step that owed an answer, or in a turn of the peer's that brought one. */
  predicate Contributes(s: State, c: Call) {
    (OwnStep(s, c) && s.pendingSs.Some?) || Answered(s, c)
  }

  /** Own classical steps since the last contribution, when that was, and how many there have been. */
  datatype Count = Count(steps: nat, last: nat, mixed: nat)

  function Counted(s: State, c: Call, n: Count): Count {
    if Contributes(s, c) then Count(0, c.now, n.mixed + 1)
    else if OwnStep(s, c) then n.(steps := n.steps + 1)
    else n
  }

  function CountAll(s: State, cs: seq<Call>, n: Count): Count
    requires Keyed(s)
    decreases |cs|
  {
    if cs == [] then n else CountAll(After(s, cs[0]), cs[1..], Counted(s, cs[0], n))
  }

  predicate Tells(s: State, n: Count) {
    s.stepsSincePq == n.steps && s.lastPqAt == n.last && s.pqStepsDone == n.mixed
  }

  lemma SendCounts(s: State, c: Call, n: Count)
    requires Keyed(s) && Tells(s, n) && c.SendCall?
    ensures Tells(After(s, c), Counted(s, c, n))
  {
  }

  lemma StashedCounts(p: State, m: nat, h: Header, body: Body, key: Key)
    ensures var t := DecryptStashed(p, m, h, body, key).0;
            t.dhPeer == p.dhPeer && t.stepsSincePq == p.stepsSincePq && t.lastPqAt == p.lastPqAt && t.pqStepsDone == p.pqStepsDone && t.pqKey == p.pqKey
  {
    hide DropKey, Open;
  }

  lemma SameCounts(p: State, now: nat, m: nat, h: Header, body: Body)
    ensures var t := DecryptSame(p, now, m, h, body).0;
            t.dhPeer == p.dhPeer && t.stepsSincePq == p.stepsSincePq && t.lastPqAt == p.lastPqAt && t.pqStepsDone == p.pqStepsDone && t.pqKey == p.pqKey
  {
    hide PutKeys, PassedKeys, Walk, Open;
  }

  lemma TurnCounts(p: State, now: nat, m: nat, h: Header, body: Body)
    requires h.dhPub != p.dhPeer
    ensures var (t, r) := DecryptTurn(p, now, m, h, body);
            && (t.dhPeer != p.dhPeer <==> r.Opened?)
            && if r.Opened? && h.pqCt.Some? then
                 p.pqKey.Some? && t.stepsSincePq == 0 && t.lastPqAt == now && t.pqStepsDone == p.pqStepsDone + 1 && t.pqKey.None?
               else t.stepsSincePq == p.stepsSincePq && t.lastPqAt == p.lastPqAt && t.pqStepsDone == p.pqStepsDone && t.pqKey == p.pqKey
  {
    hide PutKeys, PassedKeys, Walk, Open, ClosingKeys;
  }

  /** What a delivery does to the counters and to the key outstanding. */
  lemma ReceiveCounts(s: State, c: Call, n: Count)
    requires Keyed(s) && Tells(s, n) && c.ReceiveCall?
    ensures Tells(After(s, c), Counted(s, c, n))
    ensures After(s, c).pqKey == if Answered(s, c) then None else s.pqKey
    ensures Answered(s, c) ==> s.pqKey.Some?
  {
    hide DecryptStashed, DecryptSame, DecryptTurn, PruneKeys, Find;
    if c.frame.Frame? {
      var p, h := Pruned(s, c.now), c.frame.header;
      if Find(p.skipped, h.dhPub, h.n).Some? {
        StashedCounts(p, c.m, h, c.frame.body, Find(p.skipped, h.dhPub, h.n).value.key);
      } else if h.dhPub == p.dhPeer {
        SameCounts(p, c.now, c.m, h, c.frame.body);
      } else {
        TurnCounts(p, c.now, c.m, h, c.frame.body);
      }
    }
  }

  lemma {:induction false} CountersTell(s: State, cs: seq<Call>, n: Count)
    requires Keyed(s) && Tells(s, n)
    ensures Tells(AfterAll(s, cs), CountAll(s, cs, n))
    decreases |cs|
  {
    hide After, Counted, Tells;
    if cs != [] {
      if cs[0].SendCall? { SendCounts(s, cs[0], n); } else { ReceiveCounts(s, cs[0], n); }
      CountersTell(After(s, cs[0]), cs[1..], Counted(s, cs[0], n));
    }
  }

  // ------------------------------------------------------------------------
  // when a key is issued
  // ------------------------------------------------------------------------

  /**
   * The cadence, over all calls from the handshake on: an own step leaves a key of ours
   * outstanding if and only if one was outstanding before it, or with it there have been
   * `pqEverySteps` own steps since ML-KEM last entered the root, or that is `pqEveryMs` ago.
   * A frame that is no own step never issues one.
   */
  lemma KeyComesDue(hs: HandshakeResult, opts: Opts, start: nat, cs: seq<Call>, me: nat, kem: nat, now: nat, text: string)
    requires (hs.role.Initiator? ==> hs.ekSelf.Some?) && opts.maxChains >= 1
    ensures Keyed(FromHandshake(hs, opts, start))
    ensures var s := AfterAll(FromHandshake(hs, opts, start), cs);
            var c := SendCall(me, kem, now, text);
            var n := Counted(s, c, CountAll(FromHandshake(hs, opts, start), cs, Count(0, start, 0)));
            var t := After(s, c);
            if OwnStep(s, c) then
              && (t.pqKey.Some? <==> s.pqKey.Some? || n.steps >= opts.pqEverySteps || now >= n.last + opts.pqEveryMs || (opts.pqEveryMs == 0))
              && (t.pqKey.Some? ==> t.pqKey == if s.pqKey.Some? then s.pqKey else Some(kem))
            else t.pqKey == s.pqKey
  {
    var s0 := FromHandshake(hs, opts, start);
    CountersTell(s0, cs, Count(0, start, 0));
  }

  /** The key outstanding rides in every frame, and it is outstanding until the peer's turn answers it. */
  lemma KeyIsAnnounced(s: State, c: Call)
    requires Keyed(s)
    ensures c.SendCall? ==> var (t, f) := Encrypt(s, c.me, c.kem, c.now, c.text);
              f.Frame? && f.header.pqPub == match t.pqKey case Some(k) => Some(KemPub(k)) case None => None
    ensures s.pqKey.Some? ==> After(s, c).pqKey == if Answered(s, c) then None else s.pqKey
  {
    if c.ReceiveCall? {
      ReceiveCounts(s, c, Count(s.stepsSincePq, s.lastPqAt, s.pqStepsDone));
    }
  }

  // ------------------------------------------------------------------------
  // a key noted is answered
  // ------------------------------------------------------------------------

  /** An opened frame brings this key of the peer's. */
  predicate Brings(s: State, c: Call, pub: KemPub) {
    c.ReceiveCall? && Decrypt(s, c.now, c.m, c.frame).1.Opened? && c.frame.Frame? && c.frame.header.pqPub == Some(pub)
  }

  /** The answer to key k under randomness m is owed. */
  predicate Owes(s: State, k: nat, m: nat) {
    s.pendingSs == Some(KemSs(k, m)) && s.pendingCt == Some(KemCt(k, m)) && s.seenPeerPq == Some(KemPub(k))
  }

  /** Neither an own step nor another well-formed key. */
  ghost predicate Between(s: State, c: Call, k: nat) {
    !OwnStep(s, c) && forall pub: KemPub :: pub.KemPub? && Brings(s, c, pub) ==> pub == KemPub(k)
  }

  ghost predicate AllBetween(s: State, cs: seq<Call>, k: nat)
    requires Keyed(s)
    decreases |cs|
  {
    cs == [] || (Between(s, cs[0], k) && AllBetween(After(s, cs[0]), cs[1..], k))
  }

  /** What a frame notes: nothing unless it opened, and then its key, once. */
  lemma ReceiveNotes(s: State, now: nat, m: nat, f: Frame)
    ensures var (t, r) := Decrypt(s, now, m, f);
            if r.Opened? && f.Frame? && f.header.pqPub.Some? && f.header.pqPub != s.seenPeerPq && f.header.pqPub.value.KemPub? then
              Owes(t, f.header.pqPub.value.id, m)
            else t.pendingSs == s.pendingSs && t.pendingCt == s.pendingCt && t.seenPeerPq == s.seenPeerPq
  {
    hide PutKeys, PruneKeys, DropKey, Find, PassedKeys, Walk, Open, ClosingKeys, TurnIkm;
  }

  lemma {:induction false} OwesOn(s: State, cs: seq<Call>, k: nat, m: nat)
    requires Keyed(s) && Owes(s, k, m) && AllBetween(s, cs, k)
    ensures Owes(AfterAll(s, cs), k, m)
    decreases |cs|
  {
    hide Decrypt;
    if cs != [] {
      var c := cs[0];
      if c.ReceiveCall? {
        ReceiveNotes(s, c.now, c.m, c.frame);
        if c.frame.Frame? && c.frame.header.pqPub.Some? && c.frame.header.pqPub.value.KemPub? && Decrypt(s, c.now, c.m, c.frame).1.Opened? {
          assert Brings(s, c, c.frame.header.pqPub.value);
        }
      }
      OwesOn(After(s, c), cs[1..], k, m);
    }
  }

  /**
   * A key of the peer's is answered in the next own root step, whatever happens in between short
   * of another key: the secret encapsulated to it goes into the root, and the frame carries the
   * ciphertext.
   */
  lemma NotedIsAnswered(s: State, c: Call, k: nat, cs: seq<Call>, me: nat, kem: nat, now: nat, text: string)
    requires Keyed(s) && Brings(s, c, KemPub(k)) && s.seenPeerPq != Some(KemPub(k))
    requires AllBetween(After(s, c), cs, k)
    requires var t := AfterAll(After(s, c), cs); t.stepBeforeSend || t.ckSend.None?
    ensures var t := AfterAll(After(s, c), cs);
            var (u, f) := Encrypt(t, me, kem, now, text);
            && u.rk == Root(t.rk, Hybrid(Dh(me, t.dhPeer), KemSs(k, c.m)))
            && f.Frame? && f.header.pqCt == Some(KemCt(k, c.m)) && f.header.dhPub == me
            && f.body == Sealed(Msg(Chain(t.rk, Hybrid(Dh(me, t.dhPeer), KemSs(k, c.m)))), 0, f.header, text)
            && u.ctInFlight == Some(KemCt(k, c.m)) && u.pendingSs.None? && u.pendingCt.None?
  {
    hide Decrypt;
    ReceiveNotes(s, c.now, c.m, c.frame);
    OwesOn(After(s, c), cs, k, c.m);
  }

  /** The ciphertext rides on every further frame of the chain, until the peer's next turn shows that it arrived. */
  lemma AnswerRidesOn(s: State, c: Call)
    requires Keyed(s) && !OwnStep(s, c)
    ensures c.SendCall? ==> Encrypt(s, c.me, c.kem, c.now, c.text).1.header.pqCt == s.ctInFlight
    ensures After(s, c).ctInFlight == if FollowsTurn(s, c) then None else s.ctInFlight
  {
    if c.ReceiveCall? {
      FlightKept(s, c);
    }
  }

  lemma FlightKept(s: State, c: Call)
    requires Keyed(s) && c.ReceiveCall?
    ensures After(s, c).ctInFlight == if FollowsTurn(s, c) then None else s.ctInFlight
  {
    hide PutKeys, PruneKeys, DropKey, Find, PassedKeys, Walk, Open, ClosingKeys, TurnIkm;
  }
}
