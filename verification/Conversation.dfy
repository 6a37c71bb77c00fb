/**
 * Two ratchets over a network that loses, delays, duplicates, reorders and
 * injects. The conversation is a list of turns, one sending chain each: side 0
 * (the initiator) owns the even ones, side 1 the odd ones.
 */
module Conversation {
  import opened Keys
  import opened SkippedKeys
  import opened Ratchet

  /** A sending chain as its owner opened it, and what was sealed on it so far. */
  datatype Turn = Turn(pub: nat, root: Key, ck0: Key, pn: nat, ct: Option<KemCt>, pq: Option<nat>, texts: seq<string>)

  /** One side: its ratchet, the turn it is receiving on (-1: none yet), and the (turn, counter) pairs it opened. */
  datatype Half = Half(st: State, recv: int, done: set<(nat, nat)>)

  datatype Sys = Sys(sk: Key, ekR: nat, turns: seq<Turn>, half0: Half, half1: Half)

  function HalfOf(s: Sys, i: nat): Half {
    if i == 0 then s.half0 else s.half1
  }

  function WithHalf(s: Sys, i: nat, h: Half): Sys {
    if i == 0 then s.(half0 := h) else s.(half1 := h)
  }

  function PqPub(pq: Option<nat>): Option<KemPub> {
    match pq case None => None case Some(id) => Some(KemPub(id))
  }

  function HeaderAt(t: Turn, n: nat): Header {
    Header(t.pub, t.pn, n, t.ct, PqPub(t.pq))
  }

  /** Frame n of a turn: every frame of a chain carries the same KEM material. */
  function FrameAt(t: Turn, n: nat): Frame
    requires n < |t.texts|
  {
    FrameOf(Walk(t.ck0, n), HeaderAt(t, n), t.texts[n])
  }

  // ------------------------------------------------------------------------
  // the shared sequence of roots
  // ------------------------------------------------------------------------

  /** The root before step j. */
  function RootBefore(sk: Key, turns: seq<Turn>, j: nat): Key
    requires j <= |turns|
  {
    if j == 0 then sk else turns[j - 1].root
  }

  function PubBefore(ekR: nat, turns: seq<Turn>, j: nat): nat
    requires j <= |turns|
  {
    if j == 0 then ekR else turns[j - 1].pub
  }

  /** What went into step j: the DH with the previous turn's key and, when that turn issued a KEM key, its secret. */
  function IkmOf(ekR: nat, turns: seq<Turn>, j: nat): Ikm
    requires j < |turns|
  {
    var dh := Dh(turns[j].pub, PubBefore(ekR, turns, j));
    match turns[j].ct
    case Some(KemCt(key, m)) => Hybrid(dh, KemSs(key, m))
    case _ => Classical(dh)
  }

  ghost predicate Linked(sk: Key, ekR: nat, turns: seq<Turn>, j: nat)
    requires j < |turns|
  {
    var t := turns[j];
    && t.root == Root(RootBefore(sk, turns, j), IkmOf(ekR, turns, j))
    && t.ck0 == Chain(RootBefore(sk, turns, j), IkmOf(ekR, turns, j))
    && t.pn == (if j < 2 then 0 else |turns[j - 2].texts|)
    && (if j == 0 then t.ct.None? && t.pq.None?
        else match turns[j - 1].pq
          case None => t.ct.None?
          case Some(key) => t.ct.Some? && t.ct.value.KemCt? && t.ct.value.key == key)
  }

  ghost predicate TurnsOk(sk: Key, ekR: nat, turns: seq<Turn>) {
    && sk.Session?
    && turns != []
    && (forall j :: 0 <= j < |turns| ==> Linked(sk, ekR, turns, j))
    && (forall j :: 0 <= j < |turns| ==> turns[j].pub != ekR)
    && (forall j, k :: 0 <= j < k < |turns| ==> turns[j].pub != turns[k].pub)
    && (forall j, k :: 0 <= j < k < |turns| && turns[j].pq.Some? ==> turns[j].pq != turns[k].pq)
  }

  /** Index of the turn announced under this key, or the number of turns. */
  function TurnOf(turns: seq<Turn>, pub: nat): (j: nat)
    ensures j <= |turns|
    ensures j < |turns| ==> turns[j].pub == pub
    ensures forall k :: 0 <= k < j ==> turns[k].pub != pub
  {
    if turns == [] || turns[0].pub == pub then 0 else 1 + TurnOf(turns[1..], pub)
  }

  // ------------------------------------------------------------------------
  // one side against the turns
  // ------------------------------------------------------------------------

  /** The newest turn side i opened itself, or -1. */
  function Own(turns: seq<Turn>, i: nat): int {
    if (|turns| - 1) % 2 == i then |turns| - 1 else |turns| - 2
  }

  /** Where side i stands: level with its own last turn's predecessor, or one turn further. */
  predicate Placed(turns: seq<Turn>, i: nat, h: Half) {
    && i < 2
    && turns != []
    && -1 <= h.recv < |turns|
    && (h.recv == Own(turns, i) - 1 || h.recv == Own(turns, i) + 1)
  }

  /** The side has received the newest turn and must open its own before it sends. */
  predicate MustTurn(turns: seq<Turn>, i: nat, h: Half) {
    h.recv > Own(turns, i)
  }

  predicate PendingOk(s: State) {
    match s.pendingCt
    case None => s.pendingSs.None?
    case Some(KemCt(key, m)) => s.pendingSs == Some(KemSs(key, m))
    case _ => false
  }

  predicate SendSide(turns: seq<Turn>, i: nat, h: Half)
    requires Placed(turns, i, h)
  {
    var own := Own(turns, i);
    var s := h.st;
    && s.stepBeforeSend == MustTurn(turns, i, h)
    && (if own < 0 then s.dhSelf.None? && s.ckSend.None? && s.nSend == 0
        else
          && s.dhSelf == Some(turns[own].pub)
          && s.nSend == |turns[own].texts|
          && s.ckSend == Some(Walk(turns[own].ck0, s.nSend))
          && (!MustTurn(turns, i, h) ==> s.pn == turns[own].pn))
    && s.ctInFlight == (if MustTurn(turns, i, h) then None else turns[own].ct)
    && s.pqKey == (if MustTurn(turns, i, h) then None else turns[own].pq)
  }

  predicate RecvSide(ekR: nat, turns: seq<Turn>, i: nat, h: Half)
    requires Placed(turns, i, h)
  {
    var s := h.st;
    if h.recv < 0 then s.dhPeer == ekR && s.ckRecv.None? && s.nRecv == 0
    else
      && s.dhPeer == turns[h.recv].pub
      && s.nRecv <= |turns[h.recv].texts|
      && s.ckRecv == Some(Walk(turns[h.recv].ck0, s.nRecv))
  }

  /** How many counters of the peer's turn j this side has walked past. */
  function Limit(turns: seq<Turn>, h: Half, j: nat): nat
    requires j < |turns|
  {
    if j < h.recv then |turns[j].texts| else if j == h.recv then h.st.nRecv else 0
  }

  predicate HeldOk(turns: seq<Turn>, i: nat, h: Half, d: nat, n: nat, key: Key) {
    var j := TurnOf(turns, d);
    && j < |turns|
    && j % 2 != i
    && n < Limit(turns, h, j)
    && key == Msg(Walk(turns[j].ck0, n))
    && (j, n) !in h.done
  }

  ghost predicate StashSide(turns: seq<Turn>, i: nat, h: Half) {
    forall d: nat, n: nat :: Find(h.st.skipped, d, n).Some? ==> HeldOk(turns, i, h, d, n, Find(h.st.skipped, d, n).value.key)
  }

  ghost predicate OpenedSide(turns: seq<Turn>, i: nat, h: Half) {
    forall p :: p in h.done ==> p.0 < |turns| && p.0 % 2 != i && p.1 < Limit(turns, h, p.0)
  }

  ghost predicate HalfOk(sk: Key, ekR: nat, turns: seq<Turn>, i: nat, h: Half) {
    && Placed(turns, i, h)
    && h.st.rk == turns[if MustTurn(turns, i, h) then h.recv else Own(turns, i)].root
    && SendSide(turns, i, h)
    && RecvSide(ekR, turns, i, h)
    && PendingOk(h.st)
    && h.st.opts.maxChains >= 1
    && StoreOk(h.st)
    && StashSide(turns, i, h)
    && OpenedSide(turns, i, h)
  }

  ghost predicate Inv(s: Sys) {
    && TurnsOk(s.sk, s.ekR, s.turns)
    && HalfOk(s.sk, s.ekR, s.turns, 0, s.half0)
    && HalfOk(s.sk, s.ekR, s.turns, 1, s.half1)
  }

  lemma InvOf(s: Sys, i: nat)
    requires Inv(s) && i < 2
    ensures TurnsOk(s.sk, s.ekR, s.turns) && HalfOk(s.sk, s.ekR, s.turns, i, HalfOf(s, i))
  {
  }

  lemma InvFrom(s: Sys, i: nat)
    requires i < 2 && TurnsOk(s.sk, s.ekR, s.turns)
    requires HalfOk(s.sk, s.ekR, s.turns, i, HalfOf(s, i)) && HalfOk(s.sk, s.ekR, s.turns, 1 - i, HalfOf(s, 1 - i))
    ensures Inv(s)
  {
  }

  // ------------------------------------------------------------------------
  // the steps
  // ------------------------------------------------------------------------

  predicate TurnsNow(s: State) {
    s.stepBeforeSend || s.ckSend.None?
  }

  function SendTurns(turns: seq<Turn>, i: nat, s: State, me: nat, kem: nat, now: nat, text: string): seq<Turn>
  {
    if TurnsNow(s) then
      var t := OpenChain(s, me, kem, now);
      turns + [Turn(me, t.rk, t.ckSend.value, t.pn, t.ctInFlight, t.pqKey, [text])]
    else
      var own := Own(turns, i);
      if 0 <= own < |turns| then turns[own := turns[own].(texts := turns[own].texts + [text])] else turns
  }

  /** Side i sends; `me` and `kem` are the keys it would draw. */
  function Send(s: Sys, i: nat, me: nat, kem: nat, now: nat, text: string): Sys
    requires Keyed(HalfOf(s, i).st)
  {
    var h := HalfOf(s, i);
    var turns := SendTurns(s.turns, i, h.st, me, kem, now, text);
    WithHalf(s.(turns := turns), i, h.(st := Encrypt(h.st, me, kem, now, text).0))
  }

  function DeliverHalf(turns: seq<Turn>, h: Half, now: nat, m: nat, f: Frame): Half {
    var (st, r) := Decrypt(h.st, now, m, f);
    if r.Opened? then
      var j := TurnOf(turns, f.header.dhPub);
      Half(st, if j > h.recv then j else h.recv, h.done + {(j, f.header.n)})
    else h.(st := st)
  }

  function Deliver(s: Sys, i: nat, now: nat, m: nat, f: Frame): Sys {
    WithHalf(s, i, DeliverHalf(s.turns, HalfOf(s, i), now, m, f))
  }

  ghost predicate HonestBody(turns: seq<Turn>, body: Body) {
    exists j: nat, n: nat :: j < |turns| && n < |turns[j].texts| && body == FrameAt(turns[j], n).body
  }

  /**
   * What the network may hand over: any header over a body some side sealed, or
   * over a body sealed under a key that does not descend from this session's SK.
   */
  ghost predicate Admissible(sk: Key, turns: seq<Turn>, f: Frame) {
    f.Frame? && f.body.Sealed? && RootedIn(sk, f.body.mk) ==> HonestBody(turns, f.body)
  }

  /** Freshly drawn keys are new to the conversation. */
  ghost predicate FreshDraw(s: Sys, me: nat, kem: nat) {
    && me != s.ekR
    && (forall t :: t in s.turns ==> t.pub != me && t.pq != Some(kem))
  }

  // ------------------------------------------------------------------------
  // the shape of the turns
  // ------------------------------------------------------------------------

  lemma {:induction false} RootFacts(sk: Key, ekR: nat, turns: seq<Turn>, j: nat)
    requires TurnsOk(sk, ekR, turns) && j <= |turns|
    ensures RootedIn(sk, RootBefore(sk, turns, j))
    ensures Depth(RootBefore(sk, turns, j)) == j
  {
    if j == 0 {
    } else {
      RootFacts(sk, ekR, turns, j - 1);
      assert Linked(sk, ekR, turns, j - 1);
    }
  }

  lemma RootsDiffer(sk: Key, ekR: nat, turns: seq<Turn>, j: nat, k: nat)
    requires TurnsOk(sk, ekR, turns) && j <= |turns| && k <= |turns|
    requires RootBefore(sk, turns, j) == RootBefore(sk, turns, k)
    ensures j == k
  {
    RootFacts(sk, ekR, turns, j);
    RootFacts(sk, ekR, turns, k);
  }

  lemma TurnOfOwn(sk: Key, ekR: nat, turns: seq<Turn>, j: nat)
    requires TurnsOk(sk, ekR, turns) && j < |turns|
    ensures TurnOf(turns, turns[j].pub) == j
  {
    var k := TurnOf(turns, turns[j].pub);
    assert !(k < j) && !(j < k);
  }

  /** A rooted message key of the form Msg(Walk(Chain(RootBefore(k), ikm), n)) opens exactly frame n of turn k. */
  lemma OpensOnly(sk: Key, ekR: nat, turns: seq<Turn>, k: nat, ikm: Ikm, n: nat, h: Header, body: Body)
    requires TurnsOk(sk, ekR, turns) && k <= |turns|
    requires Admissible(sk, turns, Frame(h, body))
    requires Open(Msg(Walk(Chain(RootBefore(sk, turns, k), ikm), n)), h.n, h, body).Some?
    ensures k < |turns| && n < |turns[k].texts| && ikm == IkmOf(ekR, turns, k)
    ensures h == HeaderAt(turns[k], n) && Frame(h, body) == FrameAt(turns[k], n)
    ensures TurnOf(turns, h.dhPub) == k
  {
    var c := Chain(RootBefore(sk, turns, k), ikm);
    RootFacts(sk, ekR, turns, k);
    WalkKeeps(sk, c, n);
    assert HonestBody(turns, body);
    var j: nat, m: nat :| j < |turns| && m < |turns[j].texts| && body == FrameAt(turns[j], m).body;
    assert Linked(sk, ekR, turns, j);
    WalkInjective(c, n, turns[j].ck0, m);
    RootsDiffer(sk, ekR, turns, j, k);
    TurnOfOwn(sk, ekR, turns, j);
  }

  // ------------------------------------------------------------------------
  // delivering
  // ------------------------------------------------------------------------

  lemma PruneKeepsHalf(sk: Key, ekR: nat, turns: seq<Turn>, i: nat, h: Half, now: nat)
    requires HalfOk(sk, ekR, turns, i, h)
    ensures HalfOk(sk, ekR, turns, i, h.(st := Pruned(h.st, now)))
  {
    var s := h.st;
    var g := h.(st := Pruned(s, now));
    StoreKept(s, now);
    forall d: nat, n: nat | Find(g.st.skipped, d, n).Some?
      ensures HeldOk(turns, i, g, d, n, Find(g.st.skipped, d, n).value.key)
    {
      PruneFind(s.skipped, s.opts.maxChains, now, s.opts.ttl, d, n);
      assert HeldOk(turns, i, h, d, n, Find(s.skipped, d, n).value.key);
    }
  }

  lemma NoteKeepsHalf(sk: Key, ekR: nat, turns: seq<Turn>, i: nat, h: Half, pub: Option<KemPub>, m: nat)
    requires HalfOk(sk, ekR, turns, i, h)
    ensures HalfOk(sk, ekR, turns, i, h.(st := NotePeerPq(h.st, pub, m)))
  {
    var g := h.(st := NotePeerPq(h.st, pub, m));
    forall d: nat, n: nat | Find(g.st.skipped, d, n).Some?
      ensures HeldOk(turns, i, g, d, n, Find(g.st.skipped, d, n).value.key)
    {
      assert HeldOk(turns, i, h, d, n, Find(h.st.skipped, d, n).value.key);
    }
  }

  /** The frame is one the peer sealed, not opened before, and the text is the one it carries. */
  ghost predicate HonestOpening(turns: seq<Turn>, i: nat, h: Half, f: Frame, text: string) {
    f.Frame? &&
    var j := TurnOf(turns, f.header.dhPub);
    var n := f.header.n;
    && j < |turns| && j % 2 != i
    && n < |turns[j].texts|
    && f == FrameAt(turns[j], n)
    && text == turns[j].texts[n]
    && (j, n) !in h.done
  }

  // Path 1: a key derived for a message that overtook this one.

  lemma StashedHonest(sk: Key, ekR: nat, turns: seq<Turn>, i: nat, h: Half, f: Frame)
    requires TurnsOk(sk, ekR, turns) && StashSide(turns, i, h)
    requires f.Frame? && Admissible(sk, turns, f)
    requires Find(h.st.skipped, f.header.dhPub, f.header.n).Some?
    requires Open(Find(h.st.skipped, f.header.dhPub, f.header.n).value.key, f.header.n, f.header, f.body).Some?
    ensures HonestOpening(turns, i, h, f, Open(Find(h.st.skipped, f.header.dhPub, f.header.n).value.key, f.header.n, f.header, f.body).value)
    ensures TurnOf(turns, f.header.dhPub) <= h.recv
  {
    var hd := f.header;
    var key := Find(h.st.skipped, hd.dhPub, hd.n).value.key;
    var j := TurnOf(turns, hd.dhPub);
    assert HeldOk(turns, i, h, hd.dhPub, hd.n, key);
    assert Linked(sk, ekR, turns, j);
    OpensOnly(sk, ekR, turns, j, IkmOf(ekR, turns, j), hd.n, hd, f.body);
  }

  lemma DropKeepsStash(turns: seq<Turn>, i: nat, h: Half, g: Half, d0: nat, n0: nat)
    requires StashSide(turns, i, h) && StoreOk(h.st)
    requires g == Half(h.st.(skipped := DropKey(h.st.skipped, d0, n0)), h.recv, h.done + {(TurnOf(turns, d0), n0)})
    ensures StashSide(turns, i, g) && StoreOk(g.st)
  {
    var max := h.st.opts.maxChains;
    DropFind(h.st.skipped, max, d0, n0, 0, 0);
    forall d: nat, n: nat | Find(g.st.skipped, d, n).Some?
      ensures HeldOk(turns, i, g, d, n, Find(g.st.skipped, d, n).value.key)
    {
      DropFind(h.st.skipped, max, d0, n0, d, n);
      assert HeldOk(turns, i, h, d, n, Find(h.st.skipped, d, n).value.key);
    }
  }

  lemma StashedKeeps(sk: Key, ekR: nat, turns: seq<Turn>, i: nat, h: Half, g: Half, d0: nat, n0: nat)
    requires HalfOk(sk, ekR, turns, i, h)
    requires Find(h.st.skipped, d0, n0).Some?
    requires g == Half(h.st.(skipped := DropKey(h.st.skipped, d0, n0)), h.recv, h.done + {(TurnOf(turns, d0), n0)})
    ensures HalfOk(sk, ekR, turns, i, g)
  {
    DropKeepsStash(turns, i, h, g, d0, n0);
    assert HeldOk(turns, i, h, d0, n0, Find(h.st.skipped, d0, n0).value.key);
  }

  // Path 2: the same chain, walked forward.

  function WalkedOn(s: State, now: nat, n: nat): State
    requires s.ckRecv.Some? && n >= s.nRecv
  {
    var k := n - s.nRecv;
    s.(skipped := PutKeys(s.skipped, s.opts.maxChains, s.dhPeer, s.nRecv, PassedKeys(s.ckRecv.value, k), now),
       ckRecv := Some(Next(Walk(s.ckRecv.value, k))),
       nRecv := n + 1)
  }

  lemma SameHonest(sk: Key, ekR: nat, turns: seq<Turn>, i: nat, h: Half, f: Frame)
    requires TurnsOk(sk, ekR, turns) && Placed(turns, i, h) && RecvSide(ekR, turns, i, h) && OpenedSide(turns, i, h)
    requires f.Frame? && Admissible(sk, turns, f)
    requires h.st.ckRecv.Some? && f.header.n >= h.st.nRecv
    requires Open(Msg(Walk(h.st.ckRecv.value, f.header.n - h.st.nRecv)), f.header.n, f.header, f.body).Some?
    ensures HonestOpening(turns, i, h, f, Open(Msg(Walk(h.st.ckRecv.value, f.header.n - h.st.nRecv)), f.header.n, f.header, f.body).value)
    ensures TurnOf(turns, f.header.dhPub) == h.recv
  {
    var hd := f.header;
    var r := h.recv;
    assert Linked(sk, ekR, turns, r);
    WalkOn(turns[r].ck0, h.st.nRecv, hd.n);
    OpensOnly(sk, ekR, turns, r, IkmOf(ekR, turns, r), hd.n, hd, f.body);
  }

  /** Side i receives on turn h.recv and stands at its own counter there. */
  ghost predicate Receiving(turns: seq<Turn>, i: nat, h: Half) {
    && 0 <= h.recv < |turns|
    && h.recv % 2 != i
    && TurnOf(turns, h.st.dhPeer) == h.recv
    && h.st.ckRecv == Some(Walk(turns[h.recv].ck0, h.st.nRecv))
    && StoreOk(h.st) && h.st.opts.maxChains >= 1
  }

  ghost predicate WalkedTo(h: Half, g: Half, now: nat, n0: nat)
    requires h.st.ckRecv.Some? && h.recv >= 0
  {
    n0 >= h.st.nRecv && g == Half(WalkedOn(h.st, now, n0), h.recv, h.done + {(h.recv as nat, n0)})
  }

  lemma WalkKeepsNewKey(turns: seq<Turn>, i: nat, h: Half, g: Half, now: nat, n0: nat, n: nat)
    requires Receiving(turns, i, h) && OpenedSide(turns, i, h) && WalkedTo(h, g, now, n0)
    requires h.st.nRecv <= n < n0
    ensures var found := Find(g.st.skipped, h.st.dhPeer, n);
            found.Some? && HeldOk(turns, i, g, h.st.dhPeer, n, found.value.key)
  {
    var s := h.st;
    PutPassedFind(s.skipped, s.opts.maxChains, s.dhPeer, s.nRecv, s.ckRecv.value, n0 - s.nRecv, now, s.dhPeer, n);
    WalkOn(turns[h.recv].ck0, s.nRecv, n);
    assert (h.recv as nat, n) !in h.done;
  }

  lemma WalkKeepsOldKey(turns: seq<Turn>, i: nat, h: Half, g: Half, now: nat, n0: nat, d: nat, n: nat)
    requires Receiving(turns, i, h) && StashSide(turns, i, h) && WalkedTo(h, g, now, n0)
    requires Find(g.st.skipped, d, n).Some? && !(d == h.st.dhPeer && h.st.nRecv <= n < n0)
    ensures HeldOk(turns, i, g, d, n, Find(g.st.skipped, d, n).value.key)
  {
    var s := h.st;
    PutPassedFind(s.skipped, s.opts.maxChains, s.dhPeer, s.nRecv, s.ckRecv.value, n0 - s.nRecv, now, d, n);
    assert HeldOk(turns, i, h, d, n, Find(s.skipped, d, n).value.key);
  }

  /** Stashing what was passed on the current chain keeps the stash honest. */
  lemma WalkKeepsStash(turns: seq<Turn>, i: nat, h: Half, g: Half, now: nat, n0: nat)
    requires Receiving(turns, i, h) && StashSide(turns, i, h) && OpenedSide(turns, i, h) && WalkedTo(h, g, now, n0)
    ensures StashSide(turns, i, g) && StoreOk(g.st)
  {
    var s := h.st;
    PutPassedFind(s.skipped, s.opts.maxChains, s.dhPeer, s.nRecv, s.ckRecv.value, n0 - s.nRecv, now, 0, 0);
    forall d: nat, n: nat | Find(g.st.skipped, d, n).Some?
      ensures HeldOk(turns, i, g, d, n, Find(g.st.skipped, d, n).value.key)
    {
      if d == s.dhPeer && s.nRecv <= n < n0 {
        WalkKeepsNewKey(turns, i, h, g, now, n0, n);
      } else {
        WalkKeepsOldKey(turns, i, h, g, now, n0, d, n);
      }
    }
  }

  lemma SameKeeps(sk: Key, ekR: nat, turns: seq<Turn>, i: nat, h: Half, g: Half, now: nat, n0: nat)
    requires TurnsOk(sk, ekR, turns) && HalfOk(sk, ekR, turns, i, h)
    requires h.recv >= 0 && h.st.nRecv <= n0 < |turns[h.recv].texts|
    requires WalkedTo(h, g, now, n0)
    ensures HalfOk(sk, ekR, turns, i, g)
  {
    TurnOfOwn(sk, ekR, turns, h.recv);
    WalkKeepsStash(turns, i, h, g, now, n0);
    WalkOn(turns[h.recv].ck0, h.st.nRecv, n0);
  }

  // Path 3: the conversation turned.

  ghost predicate CanTurn(sk: Key, ekR: nat, turns: seq<Turn>, i: nat, h: Half) {
    && TurnsOk(sk, ekR, turns) && HalfOk(sk, ekR, turns, i, h)
    && |turns| >= 2
    && h.recv == |turns| - 3
    && Own(turns, i) == |turns| - 2
  }

  lemma TurnHonest(sk: Key, ekR: nat, turns: seq<Turn>, i: nat, h: Half, f: Frame, ikm: Ikm)
    requires TurnsOk(sk, ekR, turns) && HalfOk(sk, ekR, turns, i, h)
    requires f.Frame? && Admissible(sk, turns, f)
    requires h.st.dhSelf.Some?
    requires Open(Msg(Walk(Chain(h.st.rk, ikm), f.header.n)), f.header.n, f.header, f.body).Some?
    ensures HonestOpening(turns, i, h, f, Open(Msg(Walk(Chain(h.st.rk, ikm), f.header.n)), f.header.n, f.header, f.body).value)
    ensures CanTurn(sk, ekR, turns, i, h)
    ensures TurnOf(turns, f.header.dhPub) == |turns| - 1
    ensures ikm == IkmOf(ekR, turns, |turns| - 1) && f.header == HeaderAt(turns[|turns| - 1], f.header.n)
  {
    hide StashSide, PendingOk, TurnsOk, Linked, IkmOf, Admissible;
    var top := if MustTurn(turns, i, h) then h.recv else Own(turns, i);
    assert Own(turns, i) >= 0;
    OpensOnly(sk, ekR, turns, top + 1, ikm, f.header.n, f.header, f.body);
  }

  /** What side i becomes when it takes the turn at frame n of the newest chain. */
  function TurnTaken(ekR: nat, turns: seq<Turn>, h: Half, now: nat, n: nat): Half
    requires turns != []
  {
    var j: nat := |turns| - 1;
    Half(Turned(h.st, now, HeaderAt(turns[j], n), IkmOf(ekR, turns, j)), j, h.done + {(j, n)})
  }

  /** Two runs of puts, seen at one place of the store. */
  lemma TurnedFind(s: State, now: nat, hd: Header, ikm: Ikm, d: nat, n: nat)
    requires StoreOk(s) && s.opts.maxChains >= 1 && s.dhPeer != hd.dhPub
    ensures StoreOk(Turned(s, now, hd, ikm))
    ensures var found := Find(Turned(s, now, hd, ikm).skipped, d, n);
            && (d == hd.dhPub && n < hd.n ==> found == Some(Held(Msg(Walk(Chain(s.rk, ikm), n)), now)))
            && (d == s.dhPeer && s.ckRecv.Some? && s.nRecv <= n < hd.pn && found.Some? ==>
                  found == Some(Held(Msg(Walk(s.ckRecv.value, n - s.nRecv)), now)))
            && (!(d == hd.dhPub && n < hd.n) && !(d == s.dhPeer && s.ckRecv.Some? && s.nRecv <= n < hd.pn) && found.Some? ==>
                  found == Find(s.skipped, d, n))
  {
    hide Find, WellFormed;
    var max := s.opts.maxChains;
    var closed := PutKeys(s.skipped, max, s.dhPeer, s.nRecv, ClosingKeys(s, hd.pn), now);
    if s.ckRecv.Some? {
      PutPassedFind(s.skipped, max, s.dhPeer, s.nRecv, s.ckRecv.value, Steps(s.nRecv, hd.pn), now, d, n);
    } else {
      assert closed == s.skipped;
    }
    PutPassedFind(closed, max, hd.dhPub, 0, Chain(s.rk, ikm), hd.n, now, d, n);
  }

  lemma TurnKeepsNewKey(sk: Key, ekR: nat, turns: seq<Turn>, i: nat, h: Half, now: nat, n0: nat, n: nat)
    requires CanTurn(sk, ekR, turns, i, h) && n < n0 < |turns[|turns| - 1].texts|
    requires h.st.dhPeer != turns[|turns| - 1].pub
    ensures var g := TurnTaken(ekR, turns, h, now, n0);
            var found := Find(g.st.skipped, turns[|turns| - 1].pub, n);
            found.Some? && HeldOk(turns, i, g, turns[|turns| - 1].pub, n, found.value.key)
  {
    var j: nat := |turns| - 1;
    assert Linked(sk, ekR, turns, j);
    TurnedFind(h.st, now, HeaderAt(turns[j], n0), IkmOf(ekR, turns, j), turns[j].pub, n);
    TurnOfOwn(sk, ekR, turns, j);
    assert (j, n) in h.done ==> n < Limit(turns, h, j);
  }

  lemma TurnKeepsClosedKey(sk: Key, ekR: nat, turns: seq<Turn>, i: nat, h: Half, now: nat, n0: nat, n: nat)
    requires CanTurn(sk, ekR, turns, i, h)
    requires h.st.dhPeer != turns[|turns| - 1].pub
    requires h.recv >= 0 && h.st.nRecv <= n < |turns[h.recv].texts|
    ensures var g := TurnTaken(ekR, turns, h, now, n0);
            var found := Find(g.st.skipped, h.st.dhPeer, n);
            found.Some? ==> HeldOk(turns, i, g, h.st.dhPeer, n, found.value.key)
  {
    hide StoreOk, Turned;
    var r: nat, j: nat := h.recv, |turns| - 1;
    assert Linked(sk, ekR, turns, j);
    TurnedFind(h.st, now, HeaderAt(turns[j], n0), IkmOf(ekR, turns, j), h.st.dhPeer, n);
    TurnOfOwn(sk, ekR, turns, r);
    WalkOn(turns[r].ck0, h.st.nRecv, n);
    assert (r, n) !in h.done;
  }

  lemma TurnKeepsOldKey(sk: Key, ekR: nat, turns: seq<Turn>, i: nat, h: Half, now: nat, n0: nat, d: nat, n: nat)
    requires CanTurn(sk, ekR, turns, i, h)
    requires h.st.dhPeer != turns[|turns| - 1].pub
    requires !(d == turns[|turns| - 1].pub && n < n0)
    requires !(h.recv >= 0 && d == h.st.dhPeer && h.st.nRecv <= n < |turns[h.recv].texts|)
    ensures var g := TurnTaken(ekR, turns, h, now, n0);
            var found := Find(g.st.skipped, d, n);
            found.Some? ==> HeldOk(turns, i, g, d, n, found.value.key)
  {
    hide StoreOk, PendingOk, SendSide, Turned;
    var j: nat := |turns| - 1;
    assert Linked(sk, ekR, turns, j);
    TurnedFind(h.st, now, HeaderAt(turns[j], n0), IkmOf(ekR, turns, j), d, n);
    if Find(TurnTaken(ekR, turns, h, now, n0).st.skipped, d, n).Some? {
      assert HeldOk(turns, i, h, d, n, Find(h.st.skipped, d, n).value.key);
    }
  }

  lemma TurnKeepsStore(sk: Key, ekR: nat, turns: seq<Turn>, i: nat, h: Half, now: nat, n0: nat)
    requires CanTurn(sk, ekR, turns, i, h) && h.st.dhPeer != turns[|turns| - 1].pub
    ensures StoreOk(TurnTaken(ekR, turns, h, now, n0).st)
  {
    var j: nat := |turns| - 1;
    TurnedFind(h.st, now, HeaderAt(turns[j], n0), IkmOf(ekR, turns, j), 0, 0);
  }

  lemma TurnKeepsStash(sk: Key, ekR: nat, turns: seq<Turn>, i: nat, h: Half, now: nat, n0: nat)
    requires CanTurn(sk, ekR, turns, i, h) && n0 < |turns[|turns| - 1].texts|
    requires h.st.dhPeer != turns[|turns| - 1].pub
    ensures StashSide(turns, i, TurnTaken(ekR, turns, h, now, n0))
  {
    var g := TurnTaken(ekR, turns, h, now, n0);
    forall d: nat, n: nat | Find(g.st.skipped, d, n).Some?
      ensures HeldOk(turns, i, g, d, n, Find(g.st.skipped, d, n).value.key)
    {
      if d == turns[|turns| - 1].pub && n < n0 {
        TurnKeepsNewKey(sk, ekR, turns, i, h, now, n0, n);
      } else if h.recv >= 0 && d == h.st.dhPeer && h.st.nRecv <= n < |turns[h.recv].texts| {
        TurnKeepsClosedKey(sk, ekR, turns, i, h, now, n0, n);
      } else {
        TurnKeepsOldKey(sk, ekR, turns, i, h, now, n0, d, n);
      }
    }
  }

  lemma TurnKeeps(sk: Key, ekR: nat, turns: seq<Turn>, i: nat, h: Half, now: nat, n0: nat)
    requires CanTurn(sk, ekR, turns, i, h) && n0 < |turns[|turns| - 1].texts|
    ensures HalfOk(sk, ekR, turns, i, TurnTaken(ekR, turns, h, now, n0))
  {
    var j: nat := |turns| - 1;
    assert Linked(sk, ekR, turns, j);
    TurnKeepsStore(sk, ekR, turns, i, h, now, n0);
    TurnKeepsStash(sk, ekR, turns, i, h, now, n0);
  }

  // Putting the paths together.

  /** A frame that does not open leaves the side as it was, but for expired keys. */
  lemma RefusalKeeps(sk: Key, ekR: nat, turns: seq<Turn>, i: nat, h: Half, now: nat, m: nat, f: Frame)
    requires HalfOk(sk, ekR, turns, i, h)
    requires !Decrypt(h.st, now, m, f).1.Opened?
    ensures HalfOk(sk, ekR, turns, i, DeliverHalf(turns, h, now, m, f))
  {
    RefusalChangesNothing(h.st, now, m, f);
    PruneKeepsHalf(sk, ekR, turns, i, h, now);
  }

  /** How a frame opened: from the stash, on the current chain, or by taking the turn; `s` is the state before the peer's KEM key is noted. */
  ghost predicate OpenedAs(ekR: nat, turns: seq<Turn>, h: Half, now: nat, f: Frame, g: Half) {
    f.Frame? &&
    var p := h.(st := Pruned(h.st, now));
    var d, n := f.header.dhPub, f.header.n;
    var found := Find(p.st.skipped, d, n);
    if found.Some? then
      g == Half(p.st.(skipped := DropKey(p.st.skipped, d, n)), h.recv, h.done + {(TurnOf(turns, d), n)})
    else if d == h.st.dhPeer then
      h.recv >= 0 && h.st.ckRecv.Some? && WalkedTo(p, g, now, n)
    else
      turns != [] && TurnOf(turns, d) == |turns| - 1 && h.recv == |turns| - 3 && g == TurnTaken(ekR, turns, p, now, n)
  }

  lemma OpeningKeepsStashed(sk: Key, ekR: nat, turns: seq<Turn>, i: nat, h: Half, now: nat, m: nat, f: Frame) returns (g: Half)
    requires TurnsOk(sk, ekR, turns) && HalfOk(sk, ekR, turns, i, h)
    requires f.Frame? && Admissible(sk, turns, f)
    requires Find(Pruned(h.st, now).skipped, f.header.dhPub, f.header.n).Some?
    requires Decrypt(h.st, now, m, f).1.Opened?
    ensures HonestOpening(turns, i, h, f, Decrypt(h.st, now, m, f).1.text)
    ensures HalfOk(sk, ekR, turns, i, g) && OpenedAs(ekR, turns, h, now, f, g)
    ensures DeliverHalf(turns, h, now, m, f) == g.(st := NotePeerPq(g.st, f.header.pqPub, m))
  {
    var p := h.(st := Pruned(h.st, now));
    PruneKeepsHalf(sk, ekR, turns, i, h, now);
    StashedHonest(sk, ekR, turns, i, p, f);
    var d, n := f.header.dhPub, f.header.n;
    g := Half(p.st.(skipped := DropKey(p.st.skipped, d, n)), h.recv, h.done + {(TurnOf(turns, d), n)});
    StashedKeeps(sk, ekR, turns, i, p, g, d, n);
  }

  lemma OpeningKeepsSame(sk: Key, ekR: nat, turns: seq<Turn>, i: nat, h: Half, now: nat, m: nat, f: Frame) returns (g: Half)
    requires TurnsOk(sk, ekR, turns) && HalfOk(sk, ekR, turns, i, h)
    requires f.Frame? && Admissible(sk, turns, f)
    requires Find(Pruned(h.st, now).skipped, f.header.dhPub, f.header.n).None? && f.header.dhPub == h.st.dhPeer
    requires Decrypt(h.st, now, m, f).1.Opened?
    ensures HonestOpening(turns, i, h, f, Decrypt(h.st, now, m, f).1.text)
    ensures HalfOk(sk, ekR, turns, i, g) && OpenedAs(ekR, turns, h, now, f, g)
    ensures DeliverHalf(turns, h, now, m, f) == g.(st := NotePeerPq(g.st, f.header.pqPub, m))
  {
    var p := h.(st := Pruned(h.st, now));
    PruneKeepsHalf(sk, ekR, turns, i, h, now);
    SameHonest(sk, ekR, turns, i, p, f);
    g := Half(WalkedOn(p.st, now, f.header.n), h.recv, h.done + {(h.recv as nat, f.header.n)});
    SameKeeps(sk, ekR, turns, i, p, g, now, f.header.n);
  }

  lemma OpeningKeepsTurn(sk: Key, ekR: nat, turns: seq<Turn>, i: nat, h: Half, now: nat, m: nat, f: Frame) returns (g: Half)
    requires TurnsOk(sk, ekR, turns) && HalfOk(sk, ekR, turns, i, h)
    requires f.Frame? && Admissible(sk, turns, f)
    requires Find(Pruned(h.st, now).skipped, f.header.dhPub, f.header.n).None? && f.header.dhPub != h.st.dhPeer
    requires Decrypt(h.st, now, m, f).1.Opened?
    ensures HonestOpening(turns, i, h, f, Decrypt(h.st, now, m, f).1.text)
    ensures HalfOk(sk, ekR, turns, i, g) && OpenedAs(ekR, turns, h, now, f, g)
    ensures DeliverHalf(turns, h, now, m, f) == g.(st := NotePeerPq(g.st, f.header.pqPub, m))
  {
    var p := h.(st := Pruned(h.st, now));
    PruneKeepsHalf(sk, ekR, turns, i, h, now);
    var ikm := TurnIkm(p.st, f.header).value;
    TurnHonest(sk, ekR, turns, i, p, f, ikm);
    g := TurnTaken(ekR, turns, p, now, f.header.n);
    TurnKeeps(sk, ekR, turns, i, p, now, f.header.n);
  }

  lemma OpeningKeeps(sk: Key, ekR: nat, turns: seq<Turn>, i: nat, h: Half, now: nat, m: nat, f: Frame) returns (g: Half)
    requires TurnsOk(sk, ekR, turns) && HalfOk(sk, ekR, turns, i, h)
    requires f.Frame? && Admissible(sk, turns, f)
    requires Decrypt(h.st, now, m, f).1.Opened?
    ensures HonestOpening(turns, i, h, f, Decrypt(h.st, now, m, f).1.text)
    ensures HalfOk(sk, ekR, turns, i, g) && OpenedAs(ekR, turns, h, now, f, g)
    ensures DeliverHalf(turns, h, now, m, f) == g.(st := NotePeerPq(g.st, f.header.pqPub, m))
  {
    if Find(Pruned(h.st, now).skipped, f.header.dhPub, f.header.n).Some? {
      g := OpeningKeepsStashed(sk, ekR, turns, i, h, now, m, f);
    } else if f.header.dhPub == h.st.dhPeer {
      g := OpeningKeepsSame(sk, ekR, turns, i, h, now, m, f);
    } else {
      g := OpeningKeepsTurn(sk, ekR, turns, i, h, now, m, f);
    }
  }

  lemma DeliverHalfKeeps(sk: Key, ekR: nat, turns: seq<Turn>, i: nat, h: Half, now: nat, m: nat, f: Frame)
    requires TurnsOk(sk, ekR, turns) && HalfOk(sk, ekR, turns, i, h) && Admissible(sk, turns, f)
    ensures HalfOk(sk, ekR, turns, i, DeliverHalf(turns, h, now, m, f))
  {
    if Decrypt(h.st, now, m, f).1.Opened? {
      var g := OpeningKeeps(sk, ekR, turns, i, h, now, m, f);
      NoteKeepsHalf(sk, ekR, turns, i, g, f.header.pqPub, m);
    } else {
      RefusalKeeps(sk, ekR, turns, i, h, now, m, f);
    }
  }

  /** Whatever the network hands over, every side stays in step with the shared turns. */
  lemma DeliverKeeps(s: Sys, i: nat, now: nat, m: nat, f: Frame)
    requires Inv(s) && i < 2 && Admissible(s.sk, s.turns, f)
    ensures Inv(Deliver(s, i, now, m, f))
  {
    InvOf(s, i);
    InvOf(s, 1 - i);
    DeliverHalfKeeps(s.sk, s.ekR, s.turns, i, HalfOf(s, i), now, m, f);
    var t := Deliver(s, i, now, m, f);
    assert HalfOf(t, 1 - i) == HalfOf(s, 1 - i) && HalfOf(t, i) == DeliverHalf(s.turns, HalfOf(s, i), now, m, f);
    InvFrom(t, i);
  }

  // ------------------------------------------------------------------------
  // sending
  // ------------------------------------------------------------------------

  /** The turns may grow at the end, and the newest turn of a side may carry more texts. */
  ghost predicate Grown(turns: seq<Turn>, more: seq<Turn>) {
    && |turns| <= |more|
    && (forall j :: 0 <= j < |turns| ==> turns[j].texts <= more[j].texts && more[j].(texts := turns[j].texts) == turns[j])
  }

  lemma {:induction false} TurnOfGrown(turns: seq<Turn>, more: seq<Turn>, d: nat)
    requires Grown(turns, more) && TurnOf(turns, d) < |turns|
    ensures TurnOf(more, d) == TurnOf(turns, d)
  {
    var j, k := TurnOf(turns, d), TurnOf(more, d);
    assert more[j].(texts := turns[j].texts) == turns[j];
    assert forall x :: 0 <= x < j ==> more[x].pub == turns[x].pub by {
      forall x | 0 <= x < j ensures more[x].pub == turns[x].pub {
        assert more[x].(texts := turns[x].texts) == turns[x];
      }
    }
    assert !(j < k) && !(k < j);
  }

  lemma GrowthKeepsHeld(turns: seq<Turn>, more: seq<Turn>, i: nat, h: Half, d: nat, n: nat, key: Key)
    requires Grown(turns, more) && HeldOk(turns, i, h, d, n, key)
    ensures HeldOk(more, i, h, d, n, key)
  {
    TurnOfGrown(turns, more, d);
    var j := TurnOf(turns, d);
    assert more[j].(texts := turns[j].texts) == turns[j];
  }

  /** What a side holds and has opened survives the growth of the turns and of its own sending chain. */
  lemma GrowthKeepsStores(turns: seq<Turn>, more: seq<Turn>, i: nat, h: Half, g: Half)
    requires Grown(turns, more) && StashSide(turns, i, h) && OpenedSide(turns, i, h)
    requires g.recv == h.recv && g.done == h.done && g.st.nRecv == h.st.nRecv && g.st.skipped == h.st.skipped
    ensures StashSide(more, i, g) && OpenedSide(more, i, g)
  {
    forall d: nat, n: nat | Find(g.st.skipped, d, n).Some?
      ensures HeldOk(more, i, g, d, n, Find(g.st.skipped, d, n).value.key)
    {
      GrowthKeepsHeld(turns, more, i, h, d, n, Find(h.st.skipped, d, n).value.key);
    }
    forall p | p in g.done ensures p.0 < |more| && p.0 % 2 != i && p.1 < Limit(more, g, p.0) {
      assert turns[p.0].texts <= more[p.0].texts;
    }
  }

  lemma SameTurnKeepsTurns(sk: Key, ekR: nat, turns: seq<Turn>, own: nat, text: string)
    requires TurnsOk(sk, ekR, turns) && |turns| - 2 <= own < |turns|
    ensures var more := turns[own := turns[own].(texts := turns[own].texts + [text])];
            TurnsOk(sk, ekR, more) && Grown(turns, more)
  {
    var more := turns[own := turns[own].(texts := turns[own].texts + [text])];
    forall j | 0 <= j < |more| ensures Linked(sk, ekR, more, j) {
      assert Linked(sk, ekR, turns, j);
    }
  }

  lemma SendOnOwn(sk: Key, ekR: nat, turns: seq<Turn>, i: nat, h: Half, me: nat, kem: nat, now: nat, text: string)
    requires TurnsOk(sk, ekR, turns) && HalfOk(sk, ekR, turns, i, h) && !TurnsNow(h.st)
    ensures Keyed(h.st) && 0 <= Own(turns, i) < |turns| && h.recv < Own(turns, i)
    ensures HalfOk(sk, ekR, SendTurns(turns, i, h.st, me, kem, now, text), i, h.(st := Encrypt(h.st, me, kem, now, text).0))
  {
    var own := Own(turns, i);
    assert own >= 0;
    var more := SendTurns(turns, i, h.st, me, kem, now, text);
    var g := h.(st := Encrypt(h.st, me, kem, now, text).0);
    SameTurnKeepsTurns(sk, ekR, turns, own, text);
    GrowthKeepsStores(turns, more, i, h, g);
  }

  lemma SendOnPeer(sk: Key, ekR: nat, turns: seq<Turn>, i: nat, h: Half, own: nat, text: string)
    requires TurnsOk(sk, ekR, turns) && HalfOk(sk, ekR, turns, i, h)
    requires own < |turns| && own == Own(turns, 1 - i)
    ensures HalfOk(sk, ekR, turns[own := turns[own].(texts := turns[own].texts + [text])], i, h)
  {
    var more := turns[own := turns[own].(texts := turns[own].texts + [text])];
    SameTurnKeepsTurns(sk, ekR, turns, own, text);
    GrowthKeepsStores(turns, more, i, h, h);
  }

  /** Sending on the open chain: one more text, the roots as they were. */
  lemma SendOnKeeps(s: Sys, i: nat, me: nat, kem: nat, now: nat, text: string)
    requires Inv(s) && i < 2 && !TurnsNow(HalfOf(s, i).st)
    ensures Keyed(HalfOf(s, i).st) && Inv(Send(s, i, me, kem, now, text))
  {
    hide HalfOk, TurnsOk, Linked;
    InvOf(s, i);
    InvOf(s, 1 - i);
    SendOnOwn(s.sk, s.ekR, s.turns, i, HalfOf(s, i), me, kem, now, text);
    var own := Own(s.turns, i);
    SameTurnKeepsTurns(s.sk, s.ekR, s.turns, own, text);
    SendOnPeer(s.sk, s.ekR, s.turns, 1 - i, HalfOf(s, 1 - i), own, text);
    var t := Send(s, i, me, kem, now, text);
    assert HalfOf(t, 1 - i) == HalfOf(s, 1 - i);
    InvFrom(t, i);
  }

  /** What side i owes is an answer to the key outstanding on the turn it received last. */
  predicate Answers(turns: seq<Turn>, h: Half) {
    if 0 <= h.recv < |turns| && turns[h.recv].pq.Some? then
      h.st.pendingCt.Some? && h.st.pendingCt.value.KemCt? && Some(h.st.pendingCt.value.key) == turns[h.recv].pq
    else
      h.st.pendingCt.None?
  }

  lemma NewTurnLinked(sk: Key, ekR: nat, turns: seq<Turn>, i: nat, h: Half, me: nat, kem: nat, now: nat, text: string)
    requires TurnsOk(sk, ekR, turns) && HalfOk(sk, ekR, turns, i, h)
    requires TurnsNow(h.st) && Answers(turns, h)
    ensures h.recv == |turns| - 1
    ensures var more := SendTurns(turns, i, h.st, me, kem, now, text);
            |more| == |turns| + 1 && Linked(sk, ekR, more, |turns|)
  {
    assert h.recv == |turns| - 1;
    var more := SendTurns(turns, i, h.st, me, kem, now, text);
    var last: nat := |turns|;
    assert more[last].pn == (if last < 2 then 0 else |more[last - 2].texts|);
    assert more[last].ct == h.st.pendingCt;
    assert PendingOk(h.st);
  }

  lemma NewTurnKeepsTurns(sk: Key, ekR: nat, turns: seq<Turn>, t: Turn)
    requires TurnsOk(sk, ekR, turns)
    requires Linked(sk, ekR, turns + [t], |turns|)
    requires t.pub != ekR && (forall u :: u in turns ==> u.pub != t.pub && (u.pq.Some? ==> u.pq != t.pq))
    ensures TurnsOk(sk, ekR, turns + [t]) && Grown(turns, turns + [t])
  {
    var more := turns + [t];
    forall j | 0 <= j < |more| ensures Linked(sk, ekR, more, j) {
      if j < |turns| { assert Linked(sk, ekR, turns, j); }
    }
    assert forall j :: 0 <= j < |turns| ==> more[j] == turns[j] && turns[j] in turns;
  }

  lemma NewTurnOwn(sk: Key, ekR: nat, turns: seq<Turn>, i: nat, h: Half, me: nat, kem: nat, now: nat, text: string)
    requires TurnsOk(sk, ekR, turns) && HalfOk(sk, ekR, turns, i, h) && TurnsNow(h.st) && Answers(turns, h)
    requires Grown(turns, SendTurns(turns, i, h.st, me, kem, now, text))
    ensures Keyed(h.st)
    ensures HalfOk(sk, ekR, SendTurns(turns, i, h.st, me, kem, now, text), i, h.(st := Encrypt(h.st, me, kem, now, text).0))
  {
    var more := SendTurns(turns, i, h.st, me, kem, now, text);
    var g := h.(st := Encrypt(h.st, me, kem, now, text).0);
    GrowthKeepsStores(turns, more, i, h, g);
    assert Placed(more, i, g) && !MustTurn(more, i, g);
  }

  lemma NewTurnPeer(sk: Key, ekR: nat, turns: seq<Turn>, i: nat, h: Half, t: Turn)
    requires TurnsOk(sk, ekR, turns) && HalfOk(sk, ekR, turns, i, h)
    requires (|turns| - 1) % 2 == i && Grown(turns, turns + [t])
    ensures HalfOk(sk, ekR, turns + [t], i, h)
  {
    var more := turns + [t];
    GrowthKeepsStores(turns, more, i, h, h);
    assert Placed(more, i, h) && !MustTurn(more, i, h) && !MustTurn(turns, i, h);
    assert Own(more, i) == Own(turns, i);
  }

  /** The turn: a new chain the peer will be able to follow, because what is owed answers its current key. */
  lemma SendTurnKeeps(s: Sys, i: nat, me: nat, kem: nat, now: nat, text: string)
    requires Inv(s) && i < 2 && TurnsNow(HalfOf(s, i).st)
    requires FreshDraw(s, me, kem) && Answers(s.turns, HalfOf(s, i))
    ensures Keyed(HalfOf(s, i).st) && Inv(Send(s, i, me, kem, now, text))
  {
    var h := HalfOf(s, i);
    InvOf(s, i);
    InvOf(s, 1 - i);
    var more := SendTurns(s.turns, i, h.st, me, kem, now, text);
    NewTurnLinked(s.sk, s.ekR, s.turns, i, h, me, kem, now, text);
    var t := more[|s.turns|];
    NewTurnKeepsTurns(s.sk, s.ekR, s.turns, t);
    NewTurnOwn(s.sk, s.ekR, s.turns, i, h, me, kem, now, text);
    NewTurnPeer(s.sk, s.ekR, s.turns, 1 - i, HalfOf(s, 1 - i), t);
    assert HalfOf(Send(s, i, me, kem, now, text), 1 - i) == HalfOf(s, 1 - i);
    InvFrom(Send(s, i, me, kem, now, text), i);
  }
}
