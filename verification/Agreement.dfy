/**
 * What holds over whole conversations: the two roots stay on one sequence, every
 * frame opens at most once and exactly when it should, and the one way the
 * hybrid step can part the roots, with its exact condition.
 */
module Agreement {
  import opened Keys
  import opened SkippedKeys
  import opened Ratchet
  import opened Conversation

  // ------------------------------------------------------------------------
  // agreement in one state
  // ------------------------------------------------------------------------

  /** The two root keys are equal, or one is the other after one root step. */
  ghost predicate OneStepApart(a: Key, b: Key) {
    || a == b
    || (a.Root? && a.prev == b)
    || (b.Root? && b.prev == a)
  }

  lemma RootsAgree(s: Sys)
    requires Inv(s)
    ensures OneStepApart(s.half0.st.rk, s.half1.st.rk)
    ensures exists j: nat, k: nat :: j < |s.turns| && k < |s.turns|
              && s.half0.st.rk == s.turns[j].root && s.half1.st.rk == s.turns[k].root
  {
    var top0 := if MustTurn(s.turns, 0, s.half0) then s.half0.recv else Own(s.turns, 0);
    var top1 := if MustTurn(s.turns, 1, s.half1) then s.half1.recv else Own(s.turns, 1);
    assert Linked(s.sk, s.ekR, s.turns, |s.turns| - 1);
    assert s.half0.st.rk == s.turns[top0].root && s.half1.st.rk == s.turns[top1].root;
  }

  /** A side that receives under the peer's present key holds the peer's sending chain at its own counter. */
  lemma ChainsAgree(s: Sys, i: nat)
    requires Inv(s) && i < 2
    ensures var me, peer := HalfOf(s, i).st, HalfOf(s, 1 - i).st;
            me.ckRecv.Some? && peer.dhSelf == Some(me.dhPeer) ==>
              && me.nRecv <= peer.nSend
              && peer.ckSend == Some(Walk(me.ckRecv.value, peer.nSend - me.nRecv))
  {
    var me, peer := HalfOf(s, i), HalfOf(s, 1 - i);
    if me.st.ckRecv.Some? && peer.st.dhSelf == Some(me.st.dhPeer) {
      var r, own := me.recv, Own(s.turns, 1 - i);
      TurnOfOwn(s.sk, s.ekR, s.turns, r);
      TurnOfOwn(s.sk, s.ekR, s.turns, own);
      assert r == own;
      WalkOn(s.turns[r].ck0, me.st.nRecv, peer.st.nSend);
    }
  }

  // ------------------------------------------------------------------------
  // when a sealed frame opens
  // ------------------------------------------------------------------------

  /** The key of this place is held and no older than the lifetime. */
  predicate InTime(s: State, now: nat, d: nat, n: nat) {
    Find(s.skipped, d, n).Some? && now <= Find(s.skipped, d, n).value.at + s.opts.ttl
  }

  /** The key of this place is held but has outlived its lifetime. */
  predicate Expired(s: State, now: nat, d: nat, n: nat) {
    Find(s.skipped, d, n).Some? && now > Find(s.skipped, d, n).value.at + s.opts.ttl
  }

  lemma PrunedFind(s: State, now: nat, d: nat, n: nat)
    requires StoreOk(s)
    ensures Find(Pruned(s, now).skipped, d, n) == if InTime(s, now, d, n) then Find(s.skipped, d, n) else None
  {
    PruneFind(s.skipped, s.opts.maxChains, now, s.opts.ttl, d, n);
  }

  /** The exact reach of a receiver: stashed and in time, ahead within the bound, or the first frame past a turn within both bounds. */
  predicate Reachable(turns: seq<Turn>, h: Half, now: nat, j: nat, n: nat)
    requires j < |turns|
  {
    var s := h.st;
    || InTime(s, now, turns[j].pub, n)
    || (j == h.recv && s.nRecv <= n <= s.nRecv + s.opts.maxSkip)
    || (j == h.recv + 2
        && (h.recv >= 0 ==> turns[j].pn <= s.nRecv + s.opts.maxSkip)
        && n <= s.opts.maxSkip)
  }

  lemma OpensFromStash(sk: Key, ekR: nat, turns: seq<Turn>, i: nat, h: Half, now: nat, m: nat, j: nat, n: nat)
    requires TurnsOk(sk, ekR, turns) && HalfOk(sk, ekR, turns, i, h)
    requires j < |turns| && n < |turns[j].texts|
    requires Find(Pruned(h.st, now).skipped, turns[j].pub, n).Some?
    ensures Decrypt(h.st, now, m, FrameAt(turns[j], n)).1 == Opened(turns[j].texts[n])
  {
    PruneKeepsHalf(sk, ekR, turns, i, h, now);
    TurnOfOwn(sk, ekR, turns, j);
    var p := h.(st := Pruned(h.st, now));
    assert HeldOk(turns, i, p, turns[j].pub, n, Find(p.st.skipped, turns[j].pub, n).value.key);
  }

  lemma OpensOnChain(sk: Key, ekR: nat, turns: seq<Turn>, i: nat, h: Half, now: nat, m: nat, n: nat)
    requires TurnsOk(sk, ekR, turns) && HalfOk(sk, ekR, turns, i, h)
    requires h.recv >= 0 && n < |turns[h.recv].texts|
    requires Find(Pruned(h.st, now).skipped, turns[h.recv].pub, n).None?
    ensures Decrypt(h.st, now, m, FrameAt(turns[h.recv], n)).1.Opened?
       <==> h.st.nRecv <= n <= h.st.nRecv + h.st.opts.maxSkip
  {
    if h.st.nRecv <= n {
      WalkOn(turns[h.recv].ck0, h.st.nRecv, n);
    }
  }

  /** The peer's newest chain, seen by a side that has not received on it yet. */
  lemma OpensAtTurn(sk: Key, ekR: nat, turns: seq<Turn>, i: nat, h: Half, now: nat, m: nat, n: nat)
    requires TurnsOk(sk, ekR, turns) && HalfOk(sk, ekR, turns, i, h)
    requires h.recv == |turns| - 3 && n < |turns[|turns| - 1].texts|
    ensures Decrypt(h.st, now, m, FrameAt(turns[|turns| - 1], n)).1.Opened?
       <==> Reachable(turns, h, now, |turns| - 1, n)
  {
    var j: nat := |turns| - 1;
    var t := turns[j];
    var p := h.(st := Pruned(h.st, now));
    PruneKeepsHalf(sk, ekR, turns, i, h, now);
    TurnOfOwn(sk, ekR, turns, j);
    assert Limit(turns, p, j) == 0;
    assert Find(p.st.skipped, t.pub, n).None?;
    PrunedFind(h.st, now, t.pub, n);
    assert Linked(sk, ekR, turns, j);
    assert t.pub != h.st.dhPeer;
    assert h.st.dhSelf == Some(turns[j - 1].pub);
    DhCommutes(t.pub, turns[j - 1].pub);
    assert TurnIkm(p.st, HeaderAt(t, n)) == Some(IkmOf(ekR, turns, j));
  }

  /** A frame of a chain closed long ago whose key is not stashed stays shut. */
  lemma ClosedRefuses(sk: Key, ekR: nat, turns: seq<Turn>, i: nat, h: Half, now: nat, m: nat, j: nat, n: nat)
    requires TurnsOk(sk, ekR, turns) && HalfOk(sk, ekR, turns, i, h)
    requires j < h.recv && j % 2 != i && n < |turns[j].texts|
    requires Find(Pruned(h.st, now).skipped, turns[j].pub, n).None?
    ensures !Decrypt(h.st, now, m, FrameAt(turns[j], n)).1.Opened?
  {
    var f := FrameAt(turns[j], n);
    assert HonestBody(turns, f.body);
    TurnOfOwn(sk, ekR, turns, j);
    assert turns[h.recv].pub != turns[j].pub;
    if Decrypt(h.st, now, m, f).1.Opened? {
      var g := OpeningKeeps(sk, ekR, turns, i, h, now, m, f);
    }
  }

  lemma OpensExactly(sk: Key, ekR: nat, turns: seq<Turn>, i: nat, h: Half, now: nat, m: nat, j: nat, n: nat)
    requires TurnsOk(sk, ekR, turns) && HalfOk(sk, ekR, turns, i, h)
    requires j < |turns| && j % 2 != i && n < |turns[j].texts|
    ensures Decrypt(h.st, now, m, FrameAt(turns[j], n)).1.Opened? <==> Reachable(turns, h, now, j, n)
  {
    PrunedFind(h.st, now, turns[j].pub, n);
    if Find(Pruned(h.st, now).skipped, turns[j].pub, n).Some? {
      OpensFromStash(sk, ekR, turns, i, h, now, m, j, n);
    } else if j == h.recv {
      OpensOnChain(sk, ekR, turns, i, h, now, m, n);
    } else if j > h.recv {
      assert j == |turns| - 1 && h.recv == j - 2;
      OpensAtTurn(sk, ekR, turns, i, h, now, m, n);
    } else {
      ClosedRefuses(sk, ekR, turns, i, h, now, m, j, n);
    }
  }

  lemma OpensToOwnText(sk: Key, ekR: nat, turns: seq<Turn>, i: nat, h: Half, now: nat, m: nat, j: nat, n: nat)
    requires TurnsOk(sk, ekR, turns) && HalfOk(sk, ekR, turns, i, h)
    requires j < |turns| && n < |turns[j].texts|
    requires Decrypt(h.st, now, m, FrameAt(turns[j], n)).1.Opened?
    ensures Decrypt(h.st, now, m, FrameAt(turns[j], n)).1.text == turns[j].texts[n]
  {
    var f := FrameAt(turns[j], n);
    assert HonestBody(turns, f.body);
    TurnOfOwn(sk, ekR, turns, j);
    var g := OpeningKeeps(sk, ekR, turns, i, h, now, m, f);
  }

  /** Every frame the peer sealed opens, to its own text, exactly when it is within reach. */
  lemma OpensIffReachable(s: Sys, i: nat, now: nat, m: nat, j: nat, n: nat)
    requires Inv(s) && i < 2 && j < |s.turns| && j % 2 != i && n < |s.turns[j].texts|
    ensures var r := Decrypt(HalfOf(s, i).st, now, m, FrameAt(s.turns[j], n)).1;
            && (r.Opened? <==> Reachable(s.turns, HalfOf(s, i), now, j, n))
            && (r.Opened? ==> r.text == s.turns[j].texts[n])
  {
    var h := HalfOf(s, i);
    OpensExactly(s.sk, s.ekR, s.turns, i, h, now, m, j, n);
    if Decrypt(h.st, now, m, FrameAt(s.turns[j], n)).1.Opened? {
      OpensToOwnText(s.sk, s.ekR, s.turns, i, h, now, m, j, n);
    }
  }

  /** A frame opened once never opens again. */
  lemma ReplayRefused(s: Sys, i: nat, now: nat, m: nat, f: Frame)
    requires Inv(s) && i < 2 && Admissible(s.sk, s.turns, f)
    requires f.Frame? && (TurnOf(s.turns, f.header.dhPub), f.header.n) in HalfOf(s, i).done
    ensures !Decrypt(HalfOf(s, i).st, now, m, f).1.Opened?
  {
    if Decrypt(HalfOf(s, i).st, now, m, f).1.Opened? {
      var g := OpeningKeeps(s.sk, s.ekR, s.turns, i, HalfOf(s, i), now, m, f);
    }
  }

  // ------------------------------------------------------------------------
  // nothing is lost but by age or eviction
  // ------------------------------------------------------------------------

  /** A counter walked past is opened, or its key is still held. */
  ghost predicate Accounted(turns: seq<Turn>, h: Half, j: nat, n: nat)
    requires j < |turns|
  {
    (j, n) in h.done || Find(h.st.skipped, turns[j].pub, n).Some?
  }

  lemma StashedLosesNothing(h: Half, g: Half, turns: seq<Turn>, d: nat, n: nat, j: nat, k: nat)
    requires StoreOk(h.st) && j < |turns| && TurnOf(turns, turns[j].pub) == j
    requires g == Half(h.st.(skipped := DropKey(h.st.skipped, d, n)), h.recv, h.done + {(TurnOf(turns, d), n)})
    requires Accounted(turns, h, j, k)
    ensures Accounted(turns, g, j, k)
  {
    DropFind(h.st.skipped, h.st.opts.maxChains, d, n, turns[j].pub, k);
  }

  lemma SameLosesNothing(h: Half, g: Half, turns: seq<Turn>, now: nat, n: nat, j: nat, k: nat)
    requires StoreOk(h.st) && h.st.opts.maxChains >= 1 && j < |turns| && h.recv >= 0 && h.st.ckRecv.Some?
    requires j == h.recv ==> turns[j].pub == h.st.dhPeer
    requires WalkedTo(h, g, now, n)
    requires Accounted(turns, h, j, k) || (j == h.recv && h.st.nRecv <= k <= n)
    ensures Accounted(turns, g, j, k) || Gone(g.st.skipped, g.st.opts.maxChains, turns[j].pub)
  {
    hide Find, PutKeys;
    var s := h.st;
    PutPassedFind(s.skipped, s.opts.maxChains, s.dhPeer, s.nRecv, s.ckRecv.value, n - s.nRecv, now, turns[j].pub, k);
    if Find(s.skipped, turns[j].pub, k).Some? {
      KeptOrGone(s.skipped, s.opts.maxChains, s.dhPeer, s.nRecv, s.ckRecv.value, n - s.nRecv, now, turns[j].pub, k);
    }
  }

  lemma ClosingLosesNothing(s: State, turns: seq<Turn>, now: nat, pn: nat, d: nat, k: nat)
    requires StoreOk(s) && s.opts.maxChains >= 1
    requires Find(s.skipped, d, k).Some? || (d == s.dhPeer && s.ckRecv.Some? && s.nRecv <= k < pn)
    ensures var closed := PutKeys(s.skipped, s.opts.maxChains, s.dhPeer, s.nRecv, ClosingKeys(s, pn), now);
            WellFormed(closed, s.opts.maxChains) && (Find(closed, d, k).Some? || Gone(closed, s.opts.maxChains, d))
  {
    if s.ckRecv.Some? {
      PutPassedFind(s.skipped, s.opts.maxChains, s.dhPeer, s.nRecv, s.ckRecv.value, Steps(s.nRecv, pn), now, d, k);
      if Find(s.skipped, d, k).Some? {
        KeptOrGone(s.skipped, s.opts.maxChains, s.dhPeer, s.nRecv, s.ckRecv.value, Steps(s.nRecv, pn), now, d, k);
      }
    }
  }

  lemma TurnLosesNothing(sk: Key, ekR: nat, turns: seq<Turn>, i: nat, h: Half, now: nat, n: nat, j: nat, k: nat)
    requires CanTurn(sk, ekR, turns, i, h) && j < |turns|
    requires k < Limit(turns, h, j) ==> Accounted(turns, h, j, k)
    requires j % 2 != i && k < Limit(turns, TurnTaken(ekR, turns, h, now, n), j)
    ensures var g := TurnTaken(ekR, turns, h, now, n);
            Accounted(turns, g, j, k) || Gone(g.st.skipped, g.st.opts.maxChains, turns[j].pub)
  {
    hide StashSide, StoreOk, IkmOf, Find, PutKeys;
    var last: nat := |turns| - 1;
    var g := TurnTaken(ekR, turns, h, now, n);
    var s, hd, ikm := h.st, HeaderAt(turns[last], n), IkmOf(ekR, turns, last);
    assert Linked(sk, ekR, turns, last);
    var d := turns[j].pub;
    TurnedFind(s, now, hd, ikm, d, k);
    if j != last && (j, k) !in h.done {
      ClosingLosesNothing(s, turns, now, hd.pn, d, k);
      var max := s.opts.maxChains;
      var closed := PutKeys(s.skipped, max, s.dhPeer, s.nRecv, ClosingKeys(s, hd.pn), now);
      assert d != hd.dhPub;
      if Find(closed, d, k).Some? {
        KeptOrGone(closed, max, hd.dhPub, 0, Chain(s.rk, ikm), hd.n, now, d, k);
      } else {
        GoneStays(closed, max, hd.dhPub, 0, Chain(s.rk, ikm), hd.n, now, d);
      }
    }
  }

  lemma PruneLosesExpired(h: Half, turns: seq<Turn>, now: nat, j: nat, k: nat)
    requires StoreOk(h.st) && j < |turns| && Accounted(turns, h, j, k)
    ensures Accounted(turns, h.(st := Pruned(h.st, now)), j, k) || Expired(h.st, now, turns[j].pub, k)
  {
    PruneFind(h.st.skipped, h.st.opts.maxChains, now, h.st.opts.ttl, turns[j].pub, k);
  }

  lemma OpeningLosesNothing(sk: Key, ekR: nat, turns: seq<Turn>, i: nat, h: Half, now: nat, f: Frame, g: Half, j: nat, k: nat)
    requires TurnsOk(sk, ekR, turns) && HalfOk(sk, ekR, turns, i, h) && HalfOk(sk, ekR, turns, i, h.(st := Pruned(h.st, now)))
    requires OpenedAs(ekR, turns, h, now, f, g)
    requires j < |turns| && j % 2 != i && k < Limit(turns, g, j)
    requires k < Limit(turns, h, j) ==> Accounted(turns, h.(st := Pruned(h.st, now)), j, k)
    ensures Accounted(turns, g, j, k) || Gone(g.st.skipped, g.st.opts.maxChains, turns[j].pub)
  {
    var p := h.(st := Pruned(h.st, now));
    var d, n := f.header.dhPub, f.header.n;
    TurnOfOwn(sk, ekR, turns, j);
    if Find(p.st.skipped, d, n).Some? {
      StashedLosesNothing(p, g, turns, d, n, j, k);
    } else if d == h.st.dhPeer {
      SameLosesNothing(p, g, turns, now, n, j, k);
    } else {
      TurnLosesNothing(sk, ekR, turns, i, p, now, n, j, k);
    }
  }

  /** One side's delivery: a counter walked past is opened or held, short of age and eviction. */
  lemma HalfLosesNothing(sk: Key, ekR: nat, turns: seq<Turn>, i: nat, h: Half, now: nat, m: nat, f: Frame, j: nat, k: nat)
    requires TurnsOk(sk, ekR, turns) && HalfOk(sk, ekR, turns, i, h) && Admissible(sk, turns, f)
    requires j < |turns| && j % 2 != i
    requires k < Limit(turns, h, j) ==> Accounted(turns, h, j, k)
    requires k < Limit(turns, DeliverHalf(turns, h, now, m, f), j)
    ensures var g := DeliverHalf(turns, h, now, m, f);
            || Accounted(turns, g, j, k)
            || Expired(h.st, now, turns[j].pub, k)
            || Gone(g.st.skipped, g.st.opts.maxChains, turns[j].pub)
  {
    PruneKeepsHalf(sk, ekR, turns, i, h, now);
    if k < Limit(turns, h, j) {
      PruneLosesExpired(h, turns, now, j, k);
    }
    if !Expired(h.st, now, turns[j].pub, k) {
      if Decrypt(h.st, now, m, f).1.Opened? {
        var g := OpeningKeeps(sk, ekR, turns, i, h, now, m, f);
        OpeningLosesNothing(sk, ekR, turns, i, h, now, f, g, j, k);
      } else {
        RefusalChangesNothing(h.st, now, m, f);
      }
    }
  }

  // ------------------------------------------------------------------------
  // the KEM keys
  // ------------------------------------------------------------------------

  /** The last KEM key the peer issued on turns up to r. */
  function NewestPq(turns: seq<Turn>, r: int): Option<KemPub>
    requires r < |turns|
    decreases r
  {
    if r < 0 then None
    else if turns[r].pq.Some? then PqPub(turns[r].pq)
    else NewestPq(turns, r - 2)
  }

  /** The side noted the peer's newest key last, and owes an answer to it exactly until it turns. */
  ghost predicate Prompt(turns: seq<Turn>, i: nat, h: Half) {
    && Placed(turns, i, h)
    && h.st.seenPeerPq == NewestPq(turns, h.recv)
    && (if MustTurn(turns, i, h) then Answers(turns, h) else h.st.pendingCt.None?)
  }

  /**
   * A key that overtaking left in the stash, opened after the chain it belongs to
   * was closed, carrying a KEM key other than the one noted last.
   */
  predicate Late(s: State, f: Frame) {
    && f.Frame?
    && f.header.dhPub != s.dhPeer
    && Find(s.skipped, f.header.dhPub, f.header.n).Some?
    && f.header.pqPub.Some?
    && f.header.pqPub != s.seenPeerPq
  }

  lemma {:induction false} NewestPqIsOlder(sk: Key, ekR: nat, turns: seq<Turn>, r: int, j: nat)
    requires TurnsOk(sk, ekR, turns) && r < j < |turns| && turns[j].pq.Some?
    ensures NewestPq(turns, r) != PqPub(turns[j].pq)
    decreases r
  {
    if r < 0 {
    } else if turns[r].pq.Some? {
      assert turns[r].pq != turns[j].pq;
    } else {
      NewestPqIsOlder(sk, ekR, turns, r - 2, j);
    }
  }

  lemma NotedStaysPrompt(turns: seq<Turn>, i: nat, h: Half, pub: Option<KemPub>, m: nat)
    requires Prompt(turns, i, h) && (pub.None? || pub == h.st.seenPeerPq)
    ensures Prompt(turns, i, h.(st := NotePeerPq(h.st, pub, m)))
  {
  }

  lemma OldChainStaysPrompt(ekR: nat, turns: seq<Turn>, i: nat, h: Half, now: nat, m: nat, f: Frame, g: Half)
    requires Prompt(turns, i, h) && OpenedAs(ekR, turns, h, now, f, g) && g.recv == h.recv
    requires f.header.pqPub.None? || f.header.pqPub == h.st.seenPeerPq
    ensures Prompt(turns, i, g.(st := NotePeerPq(g.st, f.header.pqPub, m)))
  {
    assert Prompt(turns, i, g);
    NotedStaysPrompt(turns, i, g, f.header.pqPub, m);
  }

  lemma NewChainMakesPrompt(sk: Key, ekR: nat, turns: seq<Turn>, i: nat, h: Half, now: nat, n: nat, m: nat)
    requires CanTurn(sk, ekR, turns, i, h) && Prompt(turns, i, h)
    ensures var g := TurnTaken(ekR, turns, h, now, n);
            Prompt(turns, i, g.(st := NotePeerPq(g.st, PqPub(turns[|turns| - 1].pq), m)))
  {
    var j: nat := |turns| - 1;
    if turns[j].pq.Some? {
      NewestPqIsOlder(sk, ekR, turns, h.recv, j);
    }
  }

  /** Short of a late superseded key, every delivery leaves a side owing exactly the current answer. */
  lemma DeliverKeepsPrompt(sk: Key, ekR: nat, turns: seq<Turn>, i: nat, h: Half, now: nat, m: nat, f: Frame)
    requires TurnsOk(sk, ekR, turns) && HalfOk(sk, ekR, turns, i, h) && Prompt(turns, i, h)
    requires Admissible(sk, turns, f) && !Late(h.st, f)
    ensures Prompt(turns, i, DeliverHalf(turns, h, now, m, f))
  {
    if Decrypt(h.st, now, m, f).1.Opened? {
      var g := OpeningKeeps(sk, ekR, turns, i, h, now, m, f);
      var j := TurnOf(turns, f.header.dhPub);
      PruneFind(h.st.skipped, h.st.opts.maxChains, now, h.st.opts.ttl, f.header.dhPub, f.header.n);
      if g.recv == h.recv {
        if f.header.dhPub == h.st.dhPeer && f.header.pqPub.Some? {
          TurnOfOwn(sk, ekR, turns, h.recv);
          assert NewestPq(turns, h.recv) == PqPub(turns[j].pq);
        }
        OldChainStaysPrompt(ekR, turns, i, h, now, m, f, g);
      } else {
        var p := h.(st := Pruned(h.st, now));
        PruneKeepsHalf(sk, ekR, turns, i, h, now);
        assert Prompt(turns, i, p);
        NewChainMakesPrompt(sk, ekR, turns, i, p, now, f.header.n, m);
      }
    } else {
      RefusalChangesNothing(h.st, now, m, f);
    }
  }
}
