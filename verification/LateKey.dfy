/**
 * A run in which a superseded KEM key is opened late: the reason `Allowed`
 * excludes it. The responder issues a key on turn 1, a frame of turn 1 is held
 * back, the responder issues its next key on turn 3, and the held frame makes the
 * initiator answer the old key.
 */
module LateKey {
  import opened Keys
  import opened SkippedKeys
  import opened Ratchet

  const SK := Session(DhOut(0, 1), DhOut(0, 1), DhOut(0, 1), KemSs(0, 0), Msg1(1, KemPub(0), 0, ForeignTag(0)))
  const A_OPTS := Opts(10, 5, 1000, 100, 1000)
  const B_OPTS := Opts(10, 5, 1000, 1, 1000)

  /** Seals "x" as the side would, with these fresh keys. */
  function Say(s: State, me: nat, kem: nat): (State, Frame) {
    if Keyed(s) then Encrypt(s, me, kem, 0, "x") else (s, Undecodable)
  }

  function Hear(s: State, f: Frame): (State, Outcome) {
    Decrypt(s, 0, 0, f)
  }

  const A0 := FromHandshake(HandshakeResult(Initiator, SK, Some(1), 0, DhOut(0, 1)), A_OPTS, 0)
  const B0 := FromHandshake(HandshakeResult(Responder, SK, None, 1, DhOut(0, 1)), B_OPTS, 0)

  // Turn 0: the initiator speaks first.
  const A1 := Say(A0, 9, 9)
  const B1 := Hear(B0, A1.1)
  // Turn 1: the responder issues key 100; its second frame is held back by the network.
  const B2 := Say(B1.0, 2, 100)
  const B3 := Say(B2.0, 9, 9)
  const A2 := Hear(A1.0, B2.1)
  // Turn 2: the initiator answers key 100.
  const A3 := Say(A2.0, 3, 9)
  const B4 := Hear(B3.0, A3.1)
  // Turn 3: the responder issues key 101.
  const B5 := Say(B4.0, 4, 101)
  const A4 := Hear(A3.0, B5.1)
  // The held frame of turn 1 arrives.
  const A5 := Hear(A4.0, B3.1)

  const R0 := Root(SK, Classical(DhOut(0, 1)))
  const C0 := Chain(SK, Classical(DhOut(0, 1)))
  const I1 := Classical(DhOut(1, 2))
  const I2 := Hybrid(DhOut(2, 3), KemSs(100, 0))
  const I3 := Classical(DhOut(3, 4))
  const R1 := Root(R0, I1)
  const R2 := Root(R1, I2)

  lemma Turn0()
    ensures A1.0 == A0.(ckSend := Some(Next(C0)), nSend := 1)
    ensures B1 == (B0.(ckRecv := Some(Next(C0)), nRecv := 1), Opened("x"))
  {
    assert A1.1 == FrameOf(C0, Header(1, 0, 0, None, None), "x");
  }

  lemma Turn1()
    ensures B3.0 == B1.0.(rk := R1, ckSend := Some(Next(Next(Chain(R0, I1)))), dhSelf := Some(2), nSend := 2,
                          stepBeforeSend := false, pqKey := Some(100), stepsSincePq := 1)
    ensures B3.1 == FrameOf(Next(Chain(R0, I1)), Header(2, 0, 1, None, Some(KemPub(100))), "x")
    ensures A2 == (A1.0.(rk := R1, ckRecv := Some(Next(Chain(R0, I1))), dhPeer := 2, nRecv := 1, stepBeforeSend := true,
                         pendingSs := Some(KemSs(100, 0)), pendingCt := Some(KemCt(100, 0)), seenPeerPq := Some(KemPub(100))),
                   Opened("x"))
  {
    Turn0();
    assert B2.1 == FrameOf(Chain(R0, I1), Header(2, 0, 0, None, Some(KemPub(100))), "x");
  }

  lemma Turn2Sent()
    ensures A3.0 == A2.0.(rk := R2, ckSend := Some(Next(Chain(R1, I2))), dhSelf := Some(3), pn := 1, nSend := 1,
                          stepBeforeSend := false, pendingSs := None, pendingCt := None, ctInFlight := Some(KemCt(100, 0)),
                          pqStepsDone := 1)
    ensures A3.1 == FrameOf(Chain(R1, I2), Header(3, 1, 0, Some(KemCt(100, 0)), None), "x")
  {
    hide PruneKeys;
    Turn1();
  }

  lemma Turn2()
    ensures A3.0 == A2.0.(rk := R2, ckSend := Some(Next(Chain(R1, I2))), dhSelf := Some(3), pn := 1, nSend := 1,
                          stepBeforeSend := false, pendingSs := None, pendingCt := None, ctInFlight := Some(KemCt(100, 0)),
                          pqStepsDone := 1)
    ensures B4 == (B3.0.(rk := R2, ckRecv := Some(Next(Chain(R1, I2))), dhPeer := 3, nRecv := 1, stepBeforeSend := true,
                         pqKey := None, stepsSincePq := 0, pqStepsDone := 1),
                   Opened("x"))
  {
    hide PruneKeys, Encrypt;
    Turn0();
    Turn1();
    Turn2Sent();
  }

  const HELD := Held(Msg(Next(Chain(R0, I1))), 0)

  lemma Turn3Sent()
    ensures B5.0 == B4.0.(rk := Root(R2, I3), ckSend := Some(Next(Chain(R2, I3))), dhSelf := Some(4), pn := 2, nSend := 1,
                          stepBeforeSend := false, pqKey := Some(101), stepsSincePq := 1)
    ensures B5.1 == FrameOf(Chain(R2, I3), Header(4, 2, 0, None, Some(KemPub(101))), "x")
  {
    Turn2();
    Turn1();
  }

  lemma HeldStored()
    ensures PutKeys([], 5, 2, 1, PassedKeys(Next(Chain(R0, I1)), 1), 0) == [Chained(2, map[1 := HELD])]
    ensures PassedKeys(Chain(R2, I3), 0) == []
  {
    assert PassedKeys(Next(Chain(R0, I1)), 1) == [Msg(Next(Chain(R0, I1)))];
  }

  lemma Turn3Received()
    ensures A4 == (A3.0.(rk := Root(R2, I3), ckRecv := Some(Next(Chain(R2, I3))), dhPeer := 4, nRecv := 1, stepBeforeSend := true,
                         skipped := [Chained(2, map[1 := HELD])], ctInFlight := None,
                         pendingSs := Some(KemSs(101, 0)), pendingCt := Some(KemCt(101, 0)), seenPeerPq := Some(KemPub(101))),
                   Opened("x"))
  {
    Turn3Sent();
    Turn2();
    Turn1();
    Turn0();
    HeldStored();
  }

  lemma HeldFound()
    ensures var store := [Chained(2, map[1 := HELD])];
            PruneKeys(store, 0, 1000) == store && Find(store, 2, 1) == Some(HELD) && DropKey(store, 2, 1) == []
  {
    var store := [Chained(2, map[1 := HELD])];
    assert Young(store[0].keys, 0, 1000) == store[0].keys;
    assert Aged(store, 0, 1000) == store;
    assert store[1..] == [] && 1 in store[0].keys;
    assert NonEmpty(store) == store;
    assert Position(store, 2) == 0;
    assert store[0].keys - {1} == map[];
    assert store[..0] + store[1..] == [];
  }

  /** The held frame opens, and the side now owes an answer to the key it had already moved past. */
  lemma HeldFrameOpens()
    ensures A5 == (A4.0.(skipped := [], pendingSs := Some(KemSs(100, 0)), pendingCt := Some(KemCt(100, 0)),
                         seenPeerPq := Some(KemPub(100))),
                   Opened("x"))
  {
    Turn3Received();
    Turn1();
    HeldFound();
  }

  /** A side about to turn on key k, and the peer with key 101 outstanding. */
  lemma TurnOnKey(a: State, b: State, k: nat)
    requires a.stepBeforeSend && Keyed(a) && a.rk == b.rk && a.dhPeer == 4 && a.nSend == 1
    requires a.pendingSs == Some(KemSs(k, 0)) && a.pendingCt == Some(KemCt(k, 0))
    requires b.dhSelf == Some(4) && b.dhPeer == 3 && b.nRecv == 1 && b.ckRecv.Some? && b.pqKey == Some(101)
    requires b.skipped == [] && b.opts == B_OPTS
    ensures var (a', f) := Say(a, 5, 9);
            var (b', r) := Hear(b, f);
            if k == 101 then r == Opened("x") && b'.rk == a'.rk
            else r == Refused && b'.rk == b.rk != a'.rk
  {
    var ikm := Hybrid(DhOut(4, 5), KemSs(k, 0));
    var f := Say(a, 5, 9).1;
    assert f.header.pn == 1 && f.header.n == 0 && f.header.pqCt == Some(KemCt(k, 0));
    assert f.body == Sealed(Msg(Chain(a.rk, ikm)), 0, f.header, "x");
    RootIsNew(a.rk, ikm);
  }

  lemma RootIsNew(rk: Key, ikm: Ikm)
    ensures Root(rk, ikm) != rk
  {
    assert Depth(Root(rk, ikm)) == 1 + Depth(rk);
  }

  /**
   * Without the held frame the initiator's next turn opens at the responder; with it
   * the same turn, sealed by an honest side and well within every bound, is refused.
   */
  lemma LateKeyPartsTheRoots()
    ensures A5.1 == Opened("x")
    ensures Hear(B5.0, Say(A4.0, 5, 9).1).1 == Opened("x")
    ensures Hear(B5.0, Say(A5.0, 5, 9).1).1 == Refused
    ensures Hear(B5.0, Say(A4.0, 5, 9).1).0.rk == Say(A4.0, 5, 9).0.rk
    ensures Hear(B5.0, Say(A5.0, 5, 9).1).0.rk != Say(A5.0, 5, 9).0.rk
  {
    HeldFrameOpens();
    Ready();
    TurnOnKey(A4.0, B5.0, 101);
    TurnOnKey(A5.0, B5.0, 100);
  }

  lemma Ready()
    ensures forall a :: a == A4.0 || a == A5.0 ==> a.stepBeforeSend && Keyed(a) && a.rk == B5.0.rk && a.dhPeer == 4 && a.nSend == 1
    ensures A4.0.pendingSs == Some(KemSs(101, 0)) && A4.0.pendingCt == Some(KemCt(101, 0))
    ensures B5.0.dhSelf == Some(4) && B5.0.dhPeer == 3 && B5.0.nRecv == 1 && B5.0.ckRecv.Some? && B5.0.pqKey == Some(101)
    ensures B5.0.skipped == [] && B5.0.opts == B_OPTS
  {
    HeldFrameOpens();
    Turn3Received();
    Turn3Sent();
    Turn2();
    Turn1();
    Turn0();
  }
}
