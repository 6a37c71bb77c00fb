/**
 * What is left of a conversation after a turn that answers the wrong encapsulation
 * key: the peer never follows it, so nobody turns again, and everything older goes
 * on as before. With this no run needs any condition on its turns.
 */
module Parting {
  import opened Keys
  import opened SkippedKeys
  import opened Ratchet
  import opened Conversation
  import opened Agreement
  import opened Runs

  // ------------------------------------------------------------------------
  // the state after a stale turn
  // ------------------------------------------------------------------------

  /** The turns both sides agree on: all but the newest. */
  function Common(turns: seq<Turn>): seq<Turn>
    requires turns != []
  {
    turns[..|turns| - 1]
  }

  /** The state before the owner opened its stale turn, as far as receiving goes. */
  function Before(base: seq<Turn>, i: nat, h: Half): Half
    requires base != []
  {
    var own := Own(base, i);
    var s := h.st;
    var u := s.(rk := base[|base| - 1].root, stepBeforeSend := true, ctInFlight := None, pqKey := None);
    h.(st :=
      if 0 <= own < |base| then
        u.(dhSelf := Some(base[own].pub), nSend := |base[own].texts|, ckSend := Some(Walk(base[own].ck0, |base[own].texts|)))
      else u.(dhSelf := None, nSend := 0, ckSend := None))
  }

  /** The peer, answering with the key it has outstanding, arrives at another chain. */
  predicate Misfits(base: seq<Turn>, t: Turn)
    requires base != []
  {
    var last := base[|base| - 1];
    && t.ck0.Chain? && t.ck0.prev == last.root && t.root == Root(last.root, t.ck0.ikm)
    && t.ct.Some?
    && (last.pq.Some? ==>
          match Decapsulate(last.pq.value, t.ct.value)
          case None => true
          case Some(ss) => Hybrid(Dh(last.pub, t.pub), ss) != t.ck0.ikm)
  }

  /** The owner goes on sending on its stale turn. */
  predicate Sending(t: Turn, s: State) {
    && s.rk == t.root
    && !s.stepBeforeSend
    && s.dhSelf == Some(t.pub) && s.pn == t.pn && s.nSend == |t.texts|
    && s.ckSend == Some(Walk(t.ck0, s.nSend))
    && s.ctInFlight == t.ct && s.pqKey == t.pq
  }

  ghost predicate PartedOf(sk: Key, ekR: nat, base: seq<Turn>, t: Turn, o: nat, h: Half, k: Half) {
    && base != [] && o == |base| % 2
    && TurnsOk(sk, ekR, base)
    && t.pub != ekR && TurnOf(base, t.pub) == |base|
    && Misfits(base, t)
    && HalfOk(sk, ekR, base, 1 - o, k)
    && HalfOk(sk, ekR, base, o, Before(base, o, h))
    && Sending(t, h.st)
  }

  /** Whose turn the newest one is. */
  function Owner(turns: seq<Turn>): nat
    requires turns != []
  {
    (|turns| - 1) % 2
  }

  ghost predicate Parted(s: Sys) {
    && |s.turns| >= 2
    && var o := Owner(s.turns);
       PartedOf(s.sk, s.ekR, Common(s.turns), s.turns[|s.turns| - 1], o, HalfOf(s, o), HalfOf(s, 1 - o))
  }

  /** Every state a run can reach, whatever is delivered and whenever a side turns. */
  ghost predicate Whole(s: Sys) {
    Sound(s) || Parted(s)
  }

  /** Draws are fresh and frames are what the network can hand over; nothing else is asked. */
  ghost predicate Possible(s: Sys, e: Event) {
    && e.side < 2
    && match e
       case SendEvent(i, me, kem, _, _) => TurnsNow(HalfOf(s, i).st) ==> FreshDraw(s, me, kem)
       case DeliverEvent(_, _, _, f) => Admissible(s.sk, s.turns, f)
  }

  ghost predicate PossibleRun(s: Sys, es: seq<Event>)
    decreases |es|
  {
    es != [] ==> Possible(s, es[0]) && PossibleRun(Apply(s, es[0]), es[1..])
  }

  // ------------------------------------------------------------------------
  // the shape of a parted state
  // ------------------------------------------------------------------------

  lemma Shape(sk: Key, ekR: nat, base: seq<Turn>, t: Turn, o: nat, h: Half, k: Half)
    requires PartedOf(sk, ekR, base, t, o, h, k)
    ensures h.recv == |base| - 1 && k.recv == |base| - 2
    ensures !k.st.stepBeforeSend && k.st.ckSend.Some? && k.st.dhSelf == Some(base[|base| - 1].pub)
    ensures k.st.rk == base[|base| - 1].root && k.st.pqKey == base[|base| - 1].pq
    ensures h.st.dhPeer == base[|base| - 1].pub
  {
    var v := Before(base, o, h);
    assert Own(base, 1 - o) == |base| - 1 && Own(base, o) == |base| - 2;
    assert Placed(base, 1 - o, k) && Placed(base, o, v);
    assert MustTurn(base, o, v);
  }

  lemma {:induction false} NoSuchTurn(turns: seq<Turn>, pub: nat)
    requires forall u :: u in turns ==> u.pub != pub
    ensures TurnOf(turns, pub) == |turns|
  {
    if turns != [] {
      assert turns[0] in turns;
      NoSuchTurn(turns[1..], pub);
    }
  }

  lemma StalePubIsNew(base: seq<Turn>, pub: nat, j: nat)
    requires TurnOf(base, pub) == |base| && j < |base|
    ensures base[j].pub != pub
  {
  }

  lemma {:induction false} CommonTurnOf(base: seq<Turn>, t: Turn, d: nat)
    ensures TurnOf(base + [t], d) == if d == t.pub || TurnOf(base, d) < |base| then TurnOf(base, d) else |base| + 1
  {
    if base == [] {
      assert (base + [t])[1..] == [];
    } else if base[0].pub != d {
      assert (base + [t])[1..] == base[1..] + [t];
      CommonTurnOf(base[1..], t, d);
    }
  }

  // ------------------------------------------------------------------------
  // frames of the stale turn
  // ------------------------------------------------------------------------

  /** Under any header, a body of the stale turn stays shut at the peer, whatever the peer did since. */
  lemma PeerRefusesStale(sk: Key, ekR: nat, base: seq<Turn>, t: Turn, o: nat, h: Half, k: Half, now: nat, m: nat, f: Frame, n: nat)
    requires PartedOf(sk, ekR, base, t, o, h, k) && n < |t.texts|
    requires f.Frame? && f.body == FrameAt(t, n).body
    ensures !Decrypt(k.st, now, m, f).1.Opened?
  {
    hide StoreOk, NotePeerPq, SendSide, OpenedSide, TurnsOk, PruneKeys;
    Shape(sk, ekR, base, t, o, h, k);
    if f.header == HeaderAt(t, n) {
      var p := k.(st := Pruned(k.st, now));
      PruneKeepsHalf(sk, ekR, base, 1 - o, k, now);
      assert Find(p.st.skipped, t.pub, n).None?;
      assert t.pub != k.st.dhPeer by {
        if 0 <= k.recv { StalePubIsNew(base, t.pub, k.recv); }
      }
      if k.st.pqKey.Some? && TurnIkm(p.st, f.header).Some? {
        var ikm := TurnIkm(p.st, f.header).value;
        assert ikm != t.ck0.ikm;
        if Walk(Chain(k.st.rk, ikm), n) == Walk(t.ck0, n) {
          WalkInjective(Chain(k.st.rk, ikm), n, t.ck0, n);
        }
      }
    }
  }

  /** A chain under the stale root is not a chain of anybody's turn. */
  lemma NoTurnKey(base: seq<Turn>, t: Turn, ikm: Ikm, n: nat, ck0: Key, m: nat)
    requires base != [] && Misfits(base, t)
    requires ck0.Chain? && Depth(ck0) <= 1 + Depth(base[|base| - 1].root)
    ensures Walk(Chain(t.root, ikm), n) != Walk(ck0, m)
  {
    WalkKeeps(ck0, ck0, m);
    WalkKeeps(ck0, Chain(t.root, ikm), n);
  }

  lemma TurnDepth(sk: Key, ekR: nat, base: seq<Turn>, t: Turn, j: nat)
    requires base != [] && TurnsOk(sk, ekR, base) && Misfits(base, t) && j <= |base|
    ensures (base + [t])[j].ck0.Chain? && Depth((base + [t])[j].ck0) <= 1 + Depth(base[|base| - 1].root)
    ensures RootedIn(sk, t.root)
  {
    RootFacts(sk, ekR, base, |base|);
    if j < |base| {
      assert Linked(sk, ekR, base, j);
      RootFacts(sk, ekR, base, j);
    }
  }

  /** No key under the stale root ever sealed anything. */
  lemma NothingSealedThere(sk: Key, ekR: nat, base: seq<Turn>, t: Turn, f: Frame, ikm: Ikm)
    requires base != [] && TurnsOk(sk, ekR, base) && Misfits(base, t)
    requires f.Frame? && Admissible(sk, base + [t], f)
    ensures Open(Msg(Walk(Chain(t.root, ikm), f.header.n)), f.header.n, f.header, f.body).None?
  {
    var n := f.header.n;
    if Open(Msg(Walk(Chain(t.root, ikm), n)), n, f.header, f.body).Some? {
      TurnDepth(sk, ekR, base, t, 0);
      WalkKeeps(sk, Chain(t.root, ikm), n);
      assert HonestBody(base + [t], f.body);
      var j: nat, m: nat :| j < |base + [t]| && m < |(base + [t])[j].texts| && f.body == FrameAt((base + [t])[j], m).body;
      TurnDepth(sk, ekR, base, t, j);
      NoTurnKey(base, t, ikm, n, (base + [t])[j].ck0, m);
    }
  }

  /** The owner never takes a turn of the peer again. */
  lemma OwnerTurnsNoMore(sk: Key, ekR: nat, base: seq<Turn>, t: Turn, o: nat, h: Half, k: Half, now: nat, m: nat, f: Frame)
    requires PartedOf(sk, ekR, base, t, o, h, k) && f.Frame? && Admissible(sk, base + [t], f)
    requires Find(Pruned(h.st, now).skipped, f.header.dhPub, f.header.n).None? && f.header.dhPub != h.st.dhPeer
    ensures !Decrypt(h.st, now, m, f).1.Opened?
  {
    hide PutKeys, NotePeerPq, HalfOk, TurnsOk, Before, Misfits, Turned, PruneKeys;
    var p := Pruned(h.st, now);
    if p.dhSelf.Some? && TurnIkm(p, f.header).Some? {
      NothingSealedThere(sk, ekR, base, t, f, TurnIkm(p, f.header).value);
    }
  }

  /** Sent back to its owner a frame of the stale turn stays shut too. */
  lemma OwnerRefusesStale(sk: Key, ekR: nat, base: seq<Turn>, t: Turn, o: nat, h: Half, k: Half, now: nat, m: nat, f: Frame, n: nat)
    requires PartedOf(sk, ekR, base, t, o, h, k) && n < |t.texts|
    requires f.Frame? && f.body == FrameAt(t, n).body
    ensures !Decrypt(h.st, now, m, f).1.Opened?
  {
    hide Decrypt, Misfits, TurnsOk, StoreOk, SendSide, OpenedSide;
    if f.header == HeaderAt(t, n) {
      Shape(sk, ekR, base, t, o, h, k);
      PruneKeepsHalf(sk, ekR, base, o, Before(base, o, h), now);
      assert Find(Pruned(Before(base, o, h).st, now).skipped, t.pub, n).None?;
      StalePubIsNew(base, t.pub, |base| - 1);
      assert (base + [t])[|base|] == t;
      assert HonestBody(base + [t], f.body);
      OwnerTurnsNoMore(sk, ekR, base, t, o, h, k, now, m, f);
    } else {
      OtherHeader(h.st, now, m, f);
    }
  }

  /** A body under another header than its own opens nowhere. */
  lemma OtherHeader(s: State, now: nat, m: nat, f: Frame)
    requires f.Frame? && f.body.Sealed? && f.body.header != f.header
    ensures !Decrypt(s, now, m, f).1.Opened?
  {
  }

  // ------------------------------------------------------------------------
  // delivering in a parted state
  // ------------------------------------------------------------------------

  lemma StaleOrCommon(sk: Key, base: seq<Turn>, t: Turn, f: Frame)
    requires f.Frame? && Admissible(sk, base + [t], f) && !Admissible(sk, base, f)
    ensures exists n: nat :: n < |t.texts| && f.body == FrameAt(t, n).body
  {
    var j: nat, n: nat :| j < |base + [t]| && n < |(base + [t])[j].texts| && f.body == FrameAt((base + [t])[j], n).body;
    if j < |base| {
      assert (base + [t])[j] == base[j];
    }
  }

  lemma PeerDelivery(sk: Key, ekR: nat, base: seq<Turn>, t: Turn, o: nat, h: Half, k: Half, now: nat, m: nat, f: Frame)
    requires PartedOf(sk, ekR, base, t, o, h, k) && Admissible(sk, base + [t], f)
    ensures HalfOk(sk, ekR, base, 1 - o, DeliverHalf(base + [t], k, now, m, f))
    ensures if Admissible(sk, base, f) then DeliverHalf(base + [t], k, now, m, f) == DeliverHalf(base, k, now, m, f)
            else DeliverHalf(base + [t], k, now, m, f) == k.(st := Pruned(k.st, now)) && !Decrypt(k.st, now, m, f).1.Opened?
    ensures Decrypt(k.st, now, m, f).1.Opened? ==> HonestOpening(base, 1 - o, k, f, Decrypt(k.st, now, m, f).1.text)
    ensures Decrypt(k.st, now, m, f).1.Opened? ==> TurnOf(base + [t], f.header.dhPub) == TurnOf(base, f.header.dhPub)
  {
    hide Decrypt, HalfOk, TurnsOk, Misfits, Sending, Before;
    if !Decrypt(k.st, now, m, f).1.Opened? {
      RefusalKeeps(sk, ekR, base, 1 - o, k, now, m, f);
      RefusalChangesNothing(k.st, now, m, f);
    } else {
      OpensFrames(k.st, now, m, f);
      if !Admissible(sk, base, f) {
        StaleOrCommon(sk, base, t, f);
        var n: nat :| n < |t.texts| && f.body == FrameAt(t, n).body;
        PeerRefusesStale(sk, ekR, base, t, o, h, k, now, m, f, n);
      }
      DeliverHalfKeeps(sk, ekR, base, 1 - o, k, now, m, f);
      var g := OpeningKeeps(sk, ekR, base, 1 - o, k, now, m, f);
      CommonTurnOf(base, t, f.header.dhPub);
    }
  }

  lemma OpensFrames(s: State, now: nat, m: nat, f: Frame)
    requires Decrypt(s, now, m, f).1.Opened?
    ensures f.Frame?
  {
  }

  /** Two states that differ only in what sending and stepping use. */
  predicate ReceivesAlike(s: State, v: State) {
    v == s.(rk := v.rk, dhSelf := v.dhSelf, ckSend := v.ckSend, nSend := v.nSend, stepBeforeSend := v.stepBeforeSend,
            pqKey := v.pqKey, ctInFlight := v.ctInFlight)
  }

  predicate SendsAlike(s: State, v: State) {
    v == s.(dhPeer := v.dhPeer, ckRecv := v.ckRecv, nRecv := v.nRecv, skipped := v.skipped,
            pendingSs := v.pendingSs, pendingCt := v.pendingCt, seenPeerPq := v.seenPeerPq)
  }

  /** Short of a turn, receiving neither reads nor writes what sending uses. */
  lemma ReceivingApart(s: State, v: State, now: nat, m: nat, f: Frame)
    requires ReceivesAlike(s, v)
    requires f.Frame? ==> Find(Pruned(s, now).skipped, f.header.dhPub, f.header.n).Some? || f.header.dhPub == s.dhPeer
    ensures Decrypt(v, now, m, f).1 == Decrypt(s, now, m, f).1
    ensures ReceivesAlike(Decrypt(s, now, m, f).0, Decrypt(v, now, m, f).0)
    ensures SendsAlike(s, Decrypt(s, now, m, f).0) && SendsAlike(v, Decrypt(v, now, m, f).0)
  {
    hide PutKeys, PruneKeys, DropKey, Find, PassedKeys, Walk, Open;
  }

  lemma RefusedApart(s: State, v: State, now: nat, m: nat, f: Frame)
    requires ReceivesAlike(s, v) && !Decrypt(s, now, m, f).1.Opened? && !Decrypt(v, now, m, f).1.Opened?
    ensures ReceivesAlike(Decrypt(s, now, m, f).0, Decrypt(v, now, m, f).0)
    ensures SendsAlike(s, Decrypt(s, now, m, f).0) && SendsAlike(v, Decrypt(v, now, m, f).0)
  {
    hide Decrypt, PruneKeys;
    RefusalChangesNothing(s, now, m, f);
    RefusalChangesNothing(v, now, m, f);
  }

  lemma BeforeAlike(base: seq<Turn>, o: nat, h: Half)
    requires base != []
    ensures ReceivesAlike(h.st, Before(base, o, h).st)
    ensures Before(base, o, h).recv == h.recv && Before(base, o, h).done == h.done
  {
  }

  /** The owner's state before its stale turn follows along. */
  lemma OwnerAlike(sk: Key, ekR: nat, base: seq<Turn>, t: Turn, o: nat, h: Half, k: Half, now: nat, m: nat, f: Frame)
    requires PartedOf(sk, ekR, base, t, o, h, k) && Admissible(sk, base + [t], f) && Admissible(sk, base, f)
    ensures var s, v := h.st, Before(base, o, h).st;
            && Decrypt(v, now, m, f).1.Opened? == Decrypt(s, now, m, f).1.Opened?
            && (Decrypt(s, now, m, f).1.Opened? ==> Decrypt(v, now, m, f).1 == Decrypt(s, now, m, f).1)
            && ReceivesAlike(Decrypt(s, now, m, f).0, Decrypt(v, now, m, f).0)
            && SendsAlike(s, Decrypt(s, now, m, f).0) && SendsAlike(v, Decrypt(v, now, m, f).0)
  {
    hide Decrypt, HalfOk, TurnsOk, Misfits, Sending, Before, PruneKeys, Find;
    var s, v := h.st, Before(base, o, h);
    BeforeAlike(base, o, h);
    if f.Frame? && Find(Pruned(s, now).skipped, f.header.dhPub, f.header.n).None? && f.header.dhPub != s.dhPeer {
      OwnerTurnsNoMore(sk, ekR, base, t, o, h, k, now, m, f);
      Shape(sk, ekR, base, t, o, h, k);
      if Decrypt(v.st, now, m, f).1.Opened? {
        var g := OpeningKeeps(sk, ekR, base, o, v, now, m, f);
      }
      RefusedApart(s, v.st, now, m, f);
    } else {
      ReceivingApart(s, v.st, now, m, f);
    }
  }

  /** What sending uses is all that sets a half apart from what it was before the stale turn. */
  lemma BeforeFollows(base: seq<Turn>, o: nat, g: Half, w: Half, v: State)
    requires base != [] && w.recv == g.recv && w.done == g.done && ReceivesAlike(g.st, w.st)
    requires SendsAlike(v, w.st) && exists h: Half :: Before(base, o, h).st == v
    ensures Before(base, o, g) == w
  {
  }

  /** What the owner was before its stale turn receives what the owner receives. */
  lemma BeforeDelivers(sk: Key, ekR: nat, base: seq<Turn>, t: Turn, o: nat, h: Half, k: Half, now: nat, m: nat, f: Frame)
    requires PartedOf(sk, ekR, base, t, o, h, k) && Admissible(sk, base + [t], f)
    ensures var g, v := DeliverHalf(base + [t], h, now, m, f), Before(base, o, h);
            && Sending(t, g.st)
            && if Admissible(sk, base, f) then
                 && Before(base, o, g) == DeliverHalf(base, v, now, m, f)
                 && Decrypt(v.st, now, m, f).1.Opened? == Decrypt(h.st, now, m, f).1.Opened?
                 && (Decrypt(h.st, now, m, f).1.Opened? ==> Decrypt(v.st, now, m, f).1 == Decrypt(h.st, now, m, f).1)
               else Before(base, o, g) == v.(st := Pruned(v.st, now)) && !Decrypt(h.st, now, m, f).1.Opened?
  {
    hide Decrypt, HalfOk, TurnsOk, Misfits, Before;
    var v := Before(base, o, h);
    var g := DeliverHalf(base + [t], h, now, m, f);
    BeforeAlike(base, o, h);
    if Admissible(sk, base, f) {
      OwnerAlike(sk, ekR, base, t, o, h, k, now, m, f);
      if Decrypt(h.st, now, m, f).1.Opened? {
        OpensFrames(h.st, now, m, f);
        var w := OpeningKeeps(sk, ekR, base, o, v, now, m, f);
        CommonTurnOf(base, t, f.header.dhPub);
      }
      BeforeFollows(base, o, g, DeliverHalf(base, v, now, m, f), v.st);
    } else {
      StaleOrCommon(sk, base, t, f);
      var n: nat :| n < |t.texts| && f.body == FrameAt(t, n).body;
      OwnerRefusesStale(sk, ekR, base, t, o, h, k, now, m, f, n);
      RefusalChangesNothing(h.st, now, m, f);
      BeforeFollows(base, o, g, v.(st := Pruned(v.st, now)), v.st);
    }
  }

  lemma OwnerDelivery(sk: Key, ekR: nat, base: seq<Turn>, t: Turn, o: nat, h: Half, k: Half, now: nat, m: nat, f: Frame)
    requires PartedOf(sk, ekR, base, t, o, h, k) && Admissible(sk, base + [t], f)
    ensures var g := DeliverHalf(base + [t], h, now, m, f);
            HalfOk(sk, ekR, base, o, Before(base, o, g)) && Sending(t, g.st)
    ensures Decrypt(h.st, now, m, f).1.Opened? ==> HonestOpening(base, o, h, f, Decrypt(h.st, now, m, f).1.text)
    ensures Decrypt(h.st, now, m, f).1.Opened? ==> TurnOf(base + [t], f.header.dhPub) == TurnOf(base, f.header.dhPub)
  {
    hide Decrypt, HalfOk, TurnsOk, Misfits, Before, Sending;
    var v := Before(base, o, h);
    BeforeDelivers(sk, ekR, base, t, o, h, k, now, m, f);
    BeforeAlike(base, o, h);
    if Admissible(sk, base, f) {
      DeliverHalfKeeps(sk, ekR, base, o, v, now, m, f);
      if Decrypt(h.st, now, m, f).1.Opened? {
        OpensFrames(h.st, now, m, f);
        var w := OpeningKeeps(sk, ekR, base, o, v, now, m, f);
        CommonTurnOf(base, t, f.header.dhPub);
      }
    } else {
      PruneKeepsHalf(sk, ekR, base, o, v, now);
    }
  }

  // ------------------------------------------------------------------------
  // sending in a parted state
  // ------------------------------------------------------------------------

  lemma KeepsAChain(sk: Key, ekR: nat, turns: seq<Turn>, i: nat, h: Half)
    requires HalfOk(sk, ekR, turns, i, h)
    ensures h.st.opts.maxChains >= 1
  {
  }

  lemma OwnerSends(sk: Key, ekR: nat, base: seq<Turn>, t: Turn, o: nat, h: Half, k: Half, me: nat, kem: nat, now: nat, text: string)
    requires PartedOf(sk, ekR, base, t, o, h, k)
    ensures !TurnsNow(h.st) && Keyed(h.st)
    ensures var u := t.(texts := t.texts + [text]);
            && SendTurns(base + [t], o, h.st, me, kem, now, text) == base + [u]
            && PartedOf(sk, ekR, base, u, o, h.(st := Encrypt(h.st, me, kem, now, text).0), k)
  {
    hide HalfOk, TurnsOk;
    KeepsAChain(sk, ekR, base, o, Before(base, o, h));
    var g := h.(st := Encrypt(h.st, me, kem, now, text).0);
    assert Before(base, o, g) == Before(base, o, h);
    var u := t.(texts := t.texts + [text]);
    assert (base + [t])[|base| := u] == base + [u];
  }

  lemma {:induction false} GrownTurnOf(base: seq<Turn>, more: seq<Turn>, d: nat)
    requires Grown(base, more) && |more| == |base|
    ensures TurnOf(more, d) == TurnOf(base, d)
  {
    var j, k := TurnOf(base, d), TurnOf(more, d);
    forall x | 0 <= x < |base| ensures more[x].pub == base[x].pub {
      assert more[x].(texts := base[x].texts) == base[x];
    }
    assert !(j < k) && !(k < j);
  }

  lemma PeerSends(sk: Key, ekR: nat, base: seq<Turn>, t: Turn, o: nat, h: Half, k: Half, me: nat, kem: nat, now: nat, text: string)
    requires PartedOf(sk, ekR, base, t, o, h, k)
    ensures !TurnsNow(k.st) && Keyed(k.st)
    ensures var more := SendTurns(base, 1 - o, k.st, me, kem, now, text);
            && Grown(base, more) && |more| == |base|
            && SendTurns(base + [t], 1 - o, k.st, me, kem, now, text) == more + [t]
            && PartedOf(sk, ekR, more, t, o, h, k.(st := Encrypt(k.st, me, kem, now, text).0))
  {
    hide HalfOk, TurnsOk, Sending;
    Shape(sk, ekR, base, t, o, h, k);
    SendOnOwn(sk, ekR, base, 1 - o, k, me, kem, now, text);
    var own := Own(base, 1 - o);
    assert own == |base| - 1;
    var more := SendTurns(base, 1 - o, k.st, me, kem, now, text);
    SameTurnKeepsTurns(sk, ekR, base, own, text);
    SendOnPeer(sk, ekR, base, o, Before(base, o, h), own, text);
    GrownTurnOf(base, more, t.pub);
    assert (base + [t])[own := (base + [t])[own].(texts := (base + [t])[own].texts + [text])] == more + [t];
    assert more[|more| - 1] == base[own].(texts := base[own].texts + [text]);
    assert Before(more, o, h) == Before(base, o, h);
  }

  // ------------------------------------------------------------------------
  // how a conversation parts
  // ------------------------------------------------------------------------

  lemma OwedMisfits(sk: Key, ekR: nat, turns: seq<Turn>, i: nat, h: Half, me: nat, kem: nat, now: nat, texts: seq<string>)
    requires HalfOk(sk, ekR, turns, i, h) && Owing(turns, i, h) && TurnsNow(h.st) && !Answers(turns, h)
    ensures Misfits(turns, NextTurn(h.st, me, kem, now, texts))
    ensures h.recv == |turns| - 1 && |turns| % 2 == i
  {
    hide StoreOk, StashSide, OpenedSide;
    var last := turns[|turns| - 1];
    assert h.recv == |turns| - 1;
    assert h.st.rk == last.root && h.st.dhPeer == last.pub;
    assert h.st.pendingCt.Some?;
    DhCommutes(me, last.pub);
  }

  lemma BeforeTurn(sk: Key, ekR: nat, turns: seq<Turn>, i: nat, h: Half, me: nat, kem: nat, now: nat, text: string)
    requires HalfOk(sk, ekR, turns, i, h) && TurnsNow(h.st) && Keyed(h.st)
    ensures HalfOk(sk, ekR, turns, i, Before(turns, i, h.(st := Encrypt(h.st, me, kem, now, text).0)))
  {
    var v := Before(turns, i, h.(st := Encrypt(h.st, me, kem, now, text).0));
    GrowthKeepsStores(turns, turns, i, h, v);
  }

  /** A turn that does not answer the peer's outstanding key parts the conversation. */
  lemma StaleTurnParts(sk: Key, ekR: nat, turns: seq<Turn>, i: nat, h: Half, k: Half, me: nat, kem: nat, now: nat, text: string)
    requires TurnsOk(sk, ekR, turns) && HalfOk(sk, ekR, turns, i, h) && HalfOk(sk, ekR, turns, 1 - i, k)
    requires Owing(turns, i, h) && TurnsNow(h.st) && !Answers(turns, h)
    requires me != ekR && forall u :: u in turns ==> u.pub != me
    ensures Keyed(h.st)
    ensures var t := NextTurn(h.st, me, kem, now, [text]);
            && SendTurns(turns, i, h.st, me, kem, now, text) == turns + [t]
            && PartedOf(sk, ekR, turns, t, i, h.(st := Encrypt(h.st, me, kem, now, text).0), k)
  {
    hide HalfOk, Before, Misfits;
    var t := NextTurn(h.st, me, kem, now, [text]);
    EncryptIsNewFrame(sk, ekR, turns, i, h, me, kem, now, text);
    OwedMisfits(sk, ekR, turns, i, h, me, kem, now, [text]);
    BeforeTurn(sk, ekR, turns, i, h, me, kem, now, text);
    NoSuchTurn(turns, me);
    assert Walk(t.ck0, 1) == Next(Walk(t.ck0, 0));
  }

  // ------------------------------------------------------------------------
  // any event at all
  // ------------------------------------------------------------------------

  lemma PartedParts(s: Sys)
    requires Parted(s)
    ensures s.turns == Common(s.turns) + [s.turns[|s.turns| - 1]]
    ensures Owner(s.turns) == |Common(s.turns)| % 2 < 2
    ensures PartedOf(s.sk, s.ekR, Common(s.turns), s.turns[|s.turns| - 1], Owner(s.turns),
                     HalfOf(s, Owner(s.turns)), HalfOf(s, 1 - Owner(s.turns)))
  {
  }

  lemma PartedFrom(s: Sys, base: seq<Turn>, t: Turn, o: nat)
    requires s.turns == base + [t] && o < 2 && PartedOf(s.sk, s.ekR, base, t, o, HalfOf(s, o), HalfOf(s, 1 - o))
    ensures Parted(s)
  {
    assert Common(s.turns) == base;
  }

  lemma PartedDelivery(s: Sys, e: Event)
    requires Parted(s) && Possible(s, e) && e.DeliverEvent?
    ensures Parted(Apply(s, e)) && Apply(s, e).turns == s.turns
  {
    hide PartedOf, Decrypt, Admissible;
    PartedParts(s);
    var o, base, t := Owner(s.turns), Common(s.turns), s.turns[|s.turns| - 1];
    var h, k := HalfOf(s, o), HalfOf(s, 1 - o);
    var v := Apply(s, e);
    DeliveredParts(s.sk, s.ekR, base, t, o, h, k, e.side, e.now, e.m, e.frame);
    PartedFrom(v, base, t, o);
  }

  lemma DeliveredParts(sk: Key, ekR: nat, base: seq<Turn>, t: Turn, o: nat, h: Half, k: Half, i: nat, now: nat, m: nat, f: Frame)
    requires PartedOf(sk, ekR, base, t, o, h, k) && i < 2 && Admissible(sk, base + [t], f)
    ensures if i == o then PartedOf(sk, ekR, base, t, o, DeliverHalf(base + [t], h, now, m, f), k)
            else PartedOf(sk, ekR, base, t, o, h, DeliverHalf(base + [t], k, now, m, f))
  {
    hide Decrypt, DeliverHalf, HalfOk, TurnsOk, Before, Sending, Misfits;
    if i == o {
      OwnerDelivery(sk, ekR, base, t, o, h, k, now, m, f);
    } else {
      PeerDelivery(sk, ekR, base, t, o, h, k, now, m, f);
    }
  }

  lemma PartedSend(s: Sys, e: Event)
    requires Parted(s) && Possible(s, e) && e.SendEvent?
    ensures Parted(Apply(s, e)) && |Apply(s, e).turns| == |s.turns| && Grown(s.turns, Apply(s, e).turns)
  {
    hide PartedOf, Encrypt, SendTurns;
    PartedParts(s);
    var o, base, t := Owner(s.turns), Common(s.turns), s.turns[|s.turns| - 1];
    var h, k := HalfOf(s, o), HalfOf(s, 1 - o);
    var v := Apply(s, e);
    if e.side == o {
      OwnerSends(s.sk, s.ekR, base, t, o, h, k, e.me, e.kem, e.now, e.text);
      PartedFrom(v, base, t.(texts := t.texts + [e.text]), o);
    } else {
      PeerSends(s.sk, s.ekR, base, t, o, h, k, e.me, e.kem, e.now, e.text);
      PartedFrom(v, SendTurns(base, 1 - o, k.st, e.me, e.kem, e.now, e.text), t, o);
    }
  }

  lemma SoundDelivery(s: Sys, e: Event)
    requires Sound(s) && Possible(s, e) && e.DeliverEvent?
    ensures Sound(Apply(s, e))
  {
    hide HalfOk, Owing, Decrypt;
    DeliverKeeps(s, e.side, e.now, e.m, e.frame);
    DeliverKeepsOwing(s.sk, s.ekR, s.turns, e.side, HalfOf(s, e.side), e.now, e.m, e.frame);
  }

  lemma SoundSend(s: Sys, e: Event)
    requires Sound(s) && Possible(s, e) && e.SendEvent?
    ensures Whole(Apply(s, e)) && Grown(s.turns, Apply(s, e).turns)
    ensures Sound(Apply(s, e)) <== !TurnsNow(HalfOf(s, e.side).st) || Answers(s.turns, HalfOf(s, e.side))
    ensures Parted(Apply(s, e)) <== TurnsNow(HalfOf(s, e.side).st) && !Answers(s.turns, HalfOf(s, e.side))
  {
    hide Encrypt, SendTurns, HalfOk, PartedOf;
    var i := e.side;
    var h, k := HalfOf(s, i), HalfOf(s, 1 - i);
    InvOf(s, i);
    InvOf(s, 1 - i);
    SendGrows(s.sk, s.ekR, s.turns, i, h, e.me, e.kem, e.now, e.text);
    if TurnsNow(h.st) && !Answers(s.turns, h) {
      StaleTurnParts(s.sk, s.ekR, s.turns, i, h, k, e.me, e.kem, e.now, e.text);
      PartedFrom(Apply(s, e), s.turns, NextTurn(h.st, e.me, e.kem, e.now, [e.text]), i);
    } else {
      SendKeepsSound(s, i, e.me, e.kem, e.now, e.text);
    }
  }

  /** No event leads out, and the sealed frames only grow. */
  lemma StepStaysWhole(s: Sys, e: Event)
    requires Whole(s) && Possible(s, e)
    ensures Whole(Apply(s, e)) && Grown(s.turns, Apply(s, e).turns)
    ensures Parted(s) ==> Parted(Apply(s, e)) && |Apply(s, e).turns| == |s.turns|
  {
    hide Parted, Sound, Possible, Apply, Inv;
    if Parted(s) {
      if e.SendEvent? { PartedSend(s, e); } else { PartedDelivery(s, e); }
    } else {
      if e.SendEvent? { SoundSend(s, e); } else { SoundDelivery(s, e); TurnsStay(s, e); }
    }
  }

  lemma TurnsStay(s: Sys, e: Event)
    requires e.DeliverEvent?
    ensures Apply(s, e).turns == s.turns
  {
  }
}
