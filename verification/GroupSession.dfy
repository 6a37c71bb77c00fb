/**
 * One member's view of one group at one epoch (impl/lib/group.ts, `GroupSession`):
 * its sending chain, a receiving chain per other member, and the MAC addressed to
 * it on every frame. Members are named by their public key.
 */
module GroupSession {
  import opened Keys
  import opened SkippedKeys
  import opened SenderKey

  /** The per-recipient MAC: its key comes from the pair's ECDH, the group and the epoch. */
  datatype MsgMac = MsgMac(pair: DhOut, gid: Gid, epoch: nat, header: GroupHeader, body: GroupBody) | OtherMac(id: nat)

  datatype GroupFrame = GroupFrame(header: GroupHeader, macs: map<nat, MsgMac>, body: GroupBody) | NotAFrame

  datatype View = View(me: nat, gid: Gid, epoch: nat, secret: nat, members: seq<nat>,
                             sending: Sender, receivers: map<nat, Receiver>, maxSkip: nat, ttl: nat)

  datatype Received = Received(from: nat, text: string) | Nothing | NeedsKey(member: nat)

  function NewView(me: nat, gid: Gid, epoch: nat, secret: nat, members: seq<nat>, chain: Key, maxSkip: nat, ttl: nat): View {
    View(me, gid, epoch, secret, members, Sender(chain, 0), map[], maxSkip, ttl)
  }

  // ------------------------------------------------------------------------
  // sending
  // ------------------------------------------------------------------------

  function MacFor(s: View, peer: nat, header: GroupHeader, body: GroupBody): MsgMac {
    MsgMac(Dh(s.me, peer), s.gid, s.epoch, header, body)
  }

  function MacsFor(s: View, header: GroupHeader, body: GroupBody): map<nat, MsgMac> {
    map m | m in s.members && m != s.me :: MacFor(s, m, header, body)
  }

  function Say(s: View, text: string): (View, GroupFrame) {
    var header := GroupHeader(s.gid, s.me, s.epoch, s.sending.n);
    var (next, p) := Seal(s.sending, header, text);
    (s.(sending := next), GroupFrame(header, MacsFor(s, header, p.body), p.body))
  }

  function SaidAll(s: View, texts: seq<string>): (fs: seq<GroupFrame>)
    ensures |fs| == |texts|
    decreases |texts|
  {
    if texts == [] then [] else [Say(s, texts[0]).1] + SaidAll(Say(s, texts[0]).0, texts[1..])
  }

  /**
   * What a member says in turn: each frame under the group, the epoch and its own counter, sealed
   * under a key of its own from the chain, with a MAC for every other member and nobody else.
   */
  lemma {:induction false} SaidInTurn(s: View, texts: seq<string>, k: nat)
    requires k < |texts|
    ensures var h := GroupHeader(s.gid, s.me, s.epoch, s.sending.n + k);
            var body := GroupSealed(Msg(Walk(s.sending.key, k)), s.sending.n + k, h, texts[k]);
            && SaidAll(s, texts)[k].GroupFrame? && SaidAll(s, texts)[k].header == h && SaidAll(s, texts)[k].body == body
            && forall p :: (p in SaidAll(s, texts)[k].macs <==> p in s.members && p != s.me)
                 && (p in SaidAll(s, texts)[k].macs ==> SaidAll(s, texts)[k].macs[p] == MsgMac(Dh(s.me, p), s.gid, s.epoch, h, body))
    decreases |texts|
  {
    if k > 0 {
      SaidInTurn(Say(s, texts[0]).0, texts[1..], k - 1);
      assert Walk(s.sending.key, 1) == Next(Walk(s.sending.key, 0));
      WalkOn(s.sending.key, 1, k);
    }
  }

  // ------------------------------------------------------------------------
  // receiving chains
  // ------------------------------------------------------------------------

  /** A copy of a key we already hold further along is set aside; any other replaces the chain. */
  function SetSenderKey(s: View, member: nat, chain: Key, ctr: nat): View {
    if member == s.me || (member in s.receivers && ctr < s.receivers[member].n) then s
    else s.(receivers := s.receivers[member := Receiver(chain, ctr, map[], s.maxSkip, s.ttl)])
  }

  predicate Addressed(s: View, f: GroupFrame) {
    && f.GroupFrame?
    && f.header.sender in s.members && f.header.sender != s.me
    && s.me in f.macs
    && f.macs[s.me] == MsgMac(Dh(s.me, f.header.sender), s.gid, s.epoch, f.header, f.body)
  }

  /** The MAC is checked before anything else moves; a jump past the bound asks for the key again. */
  function Hear(s: View, now: nat, f: GroupFrame): (View, Received) {
    if !Addressed(s, f) then (s, Nothing)
    else
      var from := f.header.sender;
      if from !in s.receivers then (s, NeedsKey(from))
      else
        var (r, o) := Open(s.receivers[from], now, Packet(f.header.ctr, f.header, f.body));
        (s.(receivers := s.receivers[from := r]),
         match o
         case Opened(text) => Received(from, text)
         case Refused => Nothing
         case SkipBound(_) => NeedsKey(from))
  }

  // ------------------------------------------------------------------------
  // what a stored chain keeps
  // ------------------------------------------------------------------------

  /** Anything that can happen to a session: a key distributed, a frame heard, a frame sent. */
  datatype Happening = KeyArrives(member: nat, chain: Key, ctr: nat) | FrameArrives(now: nat, frame: GroupFrame) | Speaks(text: string)

  function After(s: View, h: Happening): View {
    match h
    case KeyArrives(member, chain, ctr) => SetSenderKey(s, member, chain, ctr)
    case FrameArrives(now, f) => Hear(s, now, f).0
    case Speaks(text) => Say(s, text).0
  }

  function AfterAll(s: View, hs: seq<Happening>): View
    decreases |hs|
  {
    if hs == [] then s else AfterAll(After(s, hs[0]), hs[1..])
  }

  /** What the session's stored chains opened: the sender and the counter. */
  function OpeningOf(s: View, h: Happening): Option<(nat, nat)> {
    if h.FrameArrives? && Hear(s, h.now, h.frame).1.Received? then Some((h.frame.header.sender, h.frame.header.ctr)) else None
  }

  predicate Opens(s: View, h: Happening, member: nat, ctr: nat) {
    OpeningOf(s, h) == Some((member, ctr))
  }

  /** A chain holds only counters it has passed. */
  ghost predicate ChainOk(r: Receiver) {
    forall i: nat :: i in r.skipped ==> i < r.n
  }

  ghost predicate ChainsOk(s: View) {
    forall m :: m in s.receivers ==> ChainOk(s.receivers[m])
  }

  lemma OpenKeepsChain(r: Receiver, now: nat, p: Packet)
    requires ChainOk(r)
    ensures ChainOk(Open(r, now, p).0) && r.n <= Open(r, now, p).0.n
    ensures forall i: nat :: i in Open(r, now, p).0.skipped ==> i in r.skipped || i >= r.n
  {
  }

  lemma AfterKeepsChains(s: View, h: Happening)
    requires ChainsOk(s)
    ensures ChainsOk(After(s, h))
  {
    if h.FrameArrives? && Addressed(s, h.frame) && h.frame.header.sender in s.receivers {
      var f := h.frame;
      OpenKeepsChain(s.receivers[f.header.sender], h.now, Packet(f.header.ctr, f.header, f.body));
    }
  }

  /** A stored chain is never wound back. */
  lemma NeverBack(s: View, h: Happening, m: nat)
    requires ChainsOk(s) && m in s.receivers
    ensures m in After(s, h).receivers && s.receivers[m].n <= After(s, h).receivers[m].n
  {
    if h.FrameArrives? && Addressed(s, h.frame) && h.frame.header.sender in s.receivers {
      var f := h.frame;
      OpenKeepsChain(s.receivers[f.header.sender], h.now, Packet(f.header.ctr, f.header, f.body));
    }
  }

  lemma {:induction false} NeverBackOverall(s: View, hs: seq<Happening>, m: nat)
    requires ChainsOk(s) && m in s.receivers
    ensures m in AfterAll(s, hs).receivers && s.receivers[m].n <= AfterAll(s, hs).receivers[m].n
    decreases |hs|
  {
    if hs == [] {
    } else {
      AfterKeepsChains(s, hs[0]);
      NeverBack(s, hs[0], m);
      NeverBackOverall(After(s, hs[0]), hs[1..], m);
    }
  }

  /** The stored chain of `m` has gone past this counter and kept no key for it. */
  ghost predicate Shut(s: View, m: nat, ctr: nat) {
    m in s.receivers && ctr < s.receivers[m].n && ctr !in s.receivers[m].skipped
  }

  lemma OpeningShuts(s: View, h: Happening, m: nat, ctr: nat)
    requires ChainsOk(s) && Opens(s, h, m, ctr)
    ensures !Shut(s, m, ctr) && Shut(After(s, h), m, ctr)
  {
    var f := h.frame;
    assert ChainOk(s.receivers[m]);
  }

  lemma ShutStays(s: View, h: Happening, m: nat, ctr: nat)
    requires ChainsOk(s) && Shut(s, m, ctr)
    ensures Shut(After(s, h), m, ctr)
  {
    if h.FrameArrives? && Addressed(s, h.frame) && h.frame.header.sender in s.receivers {
      var f := h.frame;
      OpenKeepsChain(s.receivers[f.header.sender], h.now, Packet(f.header.ctr, f.header, f.body));
    }
  }

  lemma {:induction false} ShutIsNotOpened(s: View, hs: seq<Happening>, m: nat, ctr: nat, k: nat)
    requires ChainsOk(s) && Shut(s, m, ctr) && k < |hs|
    ensures !Opens(AfterAll(s, hs[..k]), hs[k], m, ctr)
    decreases |hs|
  {
    if k == 0 {
      assert hs[..k] == [];
      if Opens(s, hs[0], m, ctr) {
        OpeningShuts(s, hs[0], m, ctr);
      }
    } else {
      AfterKeepsChains(s, hs[0]);
      ShutStays(s, hs[0], m, ctr);
      ShutIsNotOpened(After(s, hs[0]), hs[1..], m, ctr, k - 1);
      assert hs[..k][1..] == hs[1..][..k - 1];
    }
  }

  /**
   * Through any mix of frames and distributed keys, stale and repeated ones
   * included, a counter opened on a stored chain is never opened on it again.
   */
  lemma {:induction false} NeverTwice(s: View, hs: seq<Happening>, m: nat, ctr: nat, j: nat, k: nat)
    requires ChainsOk(s) && j < k < |hs|
    requires Opens(AfterAll(s, hs[..j]), hs[j], m, ctr)
    ensures !Opens(AfterAll(s, hs[..k]), hs[k], m, ctr)
    decreases |hs|
  {
    AfterKeepsChains(s, hs[0]);
    assert hs[..k][1..] == hs[1..][..k - 1];
    if j == 0 {
      assert hs[..j] == [];
      OpeningShuts(s, hs[0], m, ctr);
      ShutIsNotOpened(After(s, hs[0]), hs[1..], m, ctr, k - 1);
    } else {
      assert hs[..j][1..] == hs[1..][..j - 1];
      NeverTwice(After(s, hs[0]), hs[1..], m, ctr, j - 1, k - 1);
    }
  }

  /**
   * Only the claimed sender or the recipient can have made what a member opens: the
   * MAC it checked is keyed by the two of them, over exactly this header and body.
   */
  lemma OpenedIsAddressed(s: View, now: nat, f: GroupFrame)
    requires Hear(s, now, f).1.Received?
    ensures f.header.sender in s.members && f.header.sender != s.me
    ensures s.me in f.macs && f.macs[s.me] == MsgMac(Dh(f.header.sender, s.me), s.gid, s.epoch, f.header, f.body)
    ensures Hear(s, now, f).1.from == f.header.sender
  {
    DhCommutes(s.me, f.header.sender);
  }

  /**
   * Exactly when a frame is heard, or the sender's key asked for: addressed by this pair's MAC, it
   * opens on the chain held for its sender; it is asked for when there is no such chain, or the
   * counter is over the bound ahead of it.
   */
  lemma HeardExactly(s: View, now: nat, f: GroupFrame, from: nat, text: string)
    requires ChainsOk(s)
    ensures Hear(s, now, f).1 == Received(from, text)
       <==> && Addressed(s, f) && f.header.sender == from && from in s.receivers
            && Open(s.receivers[from], now, Packet(f.header.ctr, f.header, f.body)).1 == Opened(text)
    ensures Hear(s, now, f).1 == NeedsKey(from)
       <==> && Addressed(s, f) && f.header.sender == from
            && (from in s.receivers ==> f.header.ctr > s.receivers[from].n + s.receivers[from].maxSkip)
  {
  }

  /** Whatever a session keeps pace with, it hears: all that is said from one state on, in order. */
  lemma {:induction false} HeardAllAsSaid(s: View, t: View, nows: seq<nat>, texts: seq<string>)
    requires s.me != t.me && s.gid == t.gid && s.epoch == t.epoch && s.members == t.members && |nows| == |texts|
    requires s.me in s.members && t.me in s.members
    requires s.me in t.receivers && t.receivers[s.me].n == s.sending.n && t.receivers[s.me].key == s.sending.key
    requires ChainOk(t.receivers[s.me])
    ensures forall k :: 0 <= k < |texts| ==> HeardAt(s, t, nows, texts)[k] == Received(s.me, texts[k])
    decreases |texts|
  {
    if texts != [] {
      HeardAsSaid(s, t, nows[0], texts[0]);
      var (s', f) := Say(s, texts[0]);
      var t' := Hear(t, nows[0], f).0;
      OpenKeepsChain(t.receivers[s.me], nows[0], Packet(f.header.ctr, f.header, f.body));
      HeardAllAsSaid(s', t', nows[1..], texts[1..]);
    }
  }

  /** What the hearer makes of each thing said in turn. */
  function HeardAt(s: View, t: View, nows: seq<nat>, texts: seq<string>): (rs: seq<Received>)
    requires |nows| == |texts|
    ensures |rs| == |texts|
    decreases |texts|
  {
    if texts == [] then []
    else
      var (s', f) := Say(s, texts[0]);
      var (t', r) := Hear(t, nows[0], f);
      [r] + HeardAt(s', t', nows[1..], texts[1..])
  }

  /** A member holding the sender's current chain opens what the sender says, to its own text. */
  lemma HeardAsSaid(s: View, t: View, now: nat, text: string)
    requires s.me != t.me && s.gid == t.gid && s.epoch == t.epoch && s.members == t.members
    requires s.me in s.members && t.me in s.members
    requires s.me in t.receivers && t.receivers[s.me].n == s.sending.n && t.receivers[s.me].key == s.sending.key
    requires ChainOk(t.receivers[s.me])
    ensures var (s', f) := Say(s, text);
            var (t', r) := Hear(t, now, f);
            && r == Received(s.me, text)
            && t'.receivers[s.me].key == s'.sending.key && t'.receivers[s.me].n == s'.sending.n
  {
    DhCommutes(s.me, t.me);
    var f := Say(s, text).1;
    assert t.me in f.macs;
    assert Addressed(t, f);
  }

  // ------------------------------------------------------------------------
  // the session in place
  // ------------------------------------------------------------------------

  class GroupSession {
    const me: nat
    const gid: Gid
    const epoch: nat
    const secret: nat
    const maxSkip: nat
    const ttl: nat
    var members: seq<nat>
    var sendKey: Key
    var sendCtr: nat
    var receivers: map<nat, Receiver>

    ghost function Value(): View
      reads this
    {
      View(me, gid, epoch, secret, members, Sender(sendKey, sendCtr), receivers, maxSkip, ttl)
    }

    constructor (me: nat, gid: Gid, epoch: nat, secret: nat, members: seq<nat>, chain: Key, maxSkip: nat, ttl: nat)
      ensures Value() == NewView(me, gid, epoch, secret, members, chain, maxSkip, ttl)
    {
      this.me, this.gid, this.epoch, this.secret := me, gid, epoch, secret;
      this.maxSkip, this.ttl, this.members := maxSkip, ttl, members;
      sendKey, sendCtr, receivers := chain, 0, map[];
    }

    method TakeSenderKey(member: nat, chain: Key, ctr: nat)
      modifies this
      ensures Value() == SetSenderKey(old(Value()), member, chain, ctr)
    {
      if member == me {
        return;
      }
      if member in receivers && ctr < receivers[member].n {
        return;
      }
      receivers := receivers[member := Receiver(chain, ctr, map[], maxSkip, ttl)];
    }

    method Broadcast(text: string) returns (f: GroupFrame)
      modifies this
      ensures (Value(), f) == Say(old(Value()), text)
    {
      var header := GroupHeader(gid, me, epoch, sendCtr);
      var body := GroupSealed(Msg(sendKey), sendCtr, header, text);
      var macs: map<nat, MsgMac> := map[];
      var i := 0;
      while i < |members|
        invariant i <= |members|
        invariant macs == map m | m in members[..i] && m != me :: MsgMac(Dh(me, m), gid, epoch, header, body)
      {
        if members[i] != me {
          macs := macs[members[i] := MsgMac(Dh(me, members[i]), gid, epoch, header, body)];
        }
        i := i + 1;
      }
      assert members[..i] == members;
      assert macs == MacsFor(Value(), header, body);
      sendKey, sendCtr := Next(sendKey), sendCtr + 1;
      f := GroupFrame(header, macs, body);
    }

    method Take(now: nat, f: GroupFrame) returns (r: Received)
      modifies this
      ensures (Value(), r) == Hear(old(Value()), now, f)
    {
      if f.NotAFrame? || f.header.sender !in members || f.header.sender == me {
        return Nothing;
      }
      var from := f.header.sender;
      if me !in f.macs || f.macs[me] != MsgMac(Dh(me, from), gid, epoch, f.header, f.body) {
        return Nothing;
      }
      if from !in receivers {
        return NeedsKey(from);
      }
      var (chain, o) := Open(receivers[from], now, Packet(f.header.ctr, f.header, f.body));
      receivers := receivers[from := chain];
      match o
      case Opened(text) => return Received(from, text);
      case Refused => return Nothing;
      case SkipBound(_) => return NeedsKey(from);
    }
  }
}
