/**
 * The ratchet over key buffers zeroed in place (impl/eh2/ratchet.ts), refining the
 * ratchet on values: whatever is wiped, on every way out of `encrypt` and `decrypt`,
 * no live root, chain or stashed key is touched.
 */
module TsRatchet {
  import opened Keys
  import opened SkippedKeys
  import opened Buffers
  import opened Ratchet
  import C = Conversation

  /** A call's answer; `BadPeerKey` is thrown after the frame has been accepted. */
  datatype TsOutcome = Answer(outcome: Outcome) | BadPeerKey

  /** The engine agrees with the ratchet on values, except that an encapsulation key that is none is reported. */
  function TsDecrypt(s: State, now: nat, m: nat, f: Frame): (State, TsOutcome) {
    match f
    case Undecodable => (s, Answer(Refused))
    case Frame(h, _) => Report(s, h, Decrypt(s, now, m, f))
  }

  /** The clock may stand behind the last contribution: here the difference goes below zero. */
  predicate TsTimeToIssue(s: State, now: nat) {
    s.pqKey.None? && (s.stepsSincePq >= s.opts.pqEverySteps || now - s.lastPqAt >= s.opts.pqEveryMs)
  }

  function TsOpenChain(s: State, me: nat, kem: nat, now: nat): State {
    OpenChain(s, me, kem, now).(pqKey := if TsTimeToIssue(OwedTaken(s, now), now) then Some(kem) else s.pqKey)
  }

  /** The part of a turn that steps the keys. */
  function KeysStepped(s: State, me: nat, now: nat): State {
    var ikm := OwedIkm(s, Dh(me, s.dhPeer));
    OwedTaken(s, now).(dhSelf := Some(me), rk := Root(s.rk, ikm), ckSend := Some(Chain(s.rk, ikm)))
  }

  lemma SteppedOpens(s: State, me: nat, kem: nat, now: nat)
    ensures var t := KeysStepped(s, me, now);
            TsOpenChain(s, me, kem, now)
            == t.(pn := t.nSend, nSend := 0, stepBeforeSend := false, pqKey := if TsTimeToIssue(t, now) then Some(kem) else t.pqKey)
  {
  }

  function TsEncrypt(s: State, me: nat, kem: nat, now: nat, text: string): (State, Frame)
    requires Keyed(s)
  {
    var t := if s.stepBeforeSend || s.ckSend.None? then TsOpenChain(s, me, kem, now) else s;
    (t.(ckSend := Some(Next(t.ckSend.value)), nSend := t.nSend + 1), FrameOf(t.ckSend.value, HeaderOf(t), text))
  }

  /**
   * The two engines send alike unless no time at all is asked for between contributions and
   * the clock has gone back: then only the Rust engine issues a key.
   */
  lemma EnginesSendAlike(s: State, me: nat, kem: nat, now: nat, text: string)
    requires Keyed(s)
    ensures TsEncrypt(s, me, kem, now, text) == Encrypt(s, me, kem, now, text)
       <==> !((s.stepBeforeSend || s.ckSend.None?) && s.opts.pqEveryMs == 0 && now < s.lastPqAt && s.pendingSs.None?
              && s.pqKey.None? && s.stepsSincePq + 1 < s.opts.pqEverySteps)
  {
    if s.stepBeforeSend || s.ckSend.None? {
      assert TsEncrypt(s, me, kem, now, text).0.pqKey == TsOpenChain(s, me, kem, now).pqKey;
      assert Encrypt(s, me, kem, now, text).0.pqKey == OpenChain(s, me, kem, now).pqKey;
    }
  }

  predicate Bounded(mem: Memory, next: nat) {
    forall a :: a in mem ==> a < next
  }

  /** The roots live in buffers of their own, and so does every stashed key. */
  ghost predicate Layout(mem: Memory, next: nat, rk: nat, ckSend: Option<nat>, ckRecv: Option<nat>, s: Store, max: nat) {
    && Bounded(mem, next)
    && rk in mem && !Holds(s, rk)
    && (ckSend.Some? ==> ckSend.value in mem && !Holds(s, ckSend.value) && ckSend.value != rk)
    && (ckRecv.Some? ==> ckRecv.value in mem && !Holds(s, ckRecv.value) && ckRecv.value != rk && ckRecv != ckSend)
    && max >= 1 && WellFormed(s, max) && Pointed(mem, s)
  }

  /** Something still needs this buffer. */
  ghost predicate Live(a: nat, rk: nat, ckSend: Option<nat>, ckRecv: Option<nat>, s: Store) {
    a == rk || Some(a) == ckSend || Some(a) == ckRecv || Holds(s, a)
  }

  function LoadOpt(mem: Memory, a: Option<nat>): Option<Key> {
    if a.Some? then Some(Load(mem, At(a.value))) else None
  }

  /** Writing to buffers nothing needs leaves the layout and every key as they were. */
  lemma LayoutFrame(before: Memory, after: Memory, next: nat, later: nat, rk: nat, ckSend: Option<nat>, ckRecv: Option<nat>,
                    s: Store, max: nat, gone: set<nat>)
    requires Layout(before, next, rk, ckSend, ckRecv, s, max)
    requires KeptOutside(before, after, gone) && Bounded(after, later)
    requires forall a :: a in gone ==> !Live(a, rk, ckSend, ckRecv, s)
    ensures Layout(after, later, rk, ckSend, ckRecv, s, max)
    ensures Deref(after, s) == Deref(before, s) && Load(after, At(rk)) == Load(before, At(rk))
    ensures LoadOpt(after, ckSend) == LoadOpt(before, ckSend) && LoadOpt(after, ckRecv) == LoadOpt(before, ckRecv)
  {
    DerefFrame(before, after, s, max, gone);
  }

  /** Of the buffers made since, exactly these are not wiped. */
  predicate NewOnly(before: Memory, mem: Memory, some: set<nat>) {
    && (forall a :: a in some ==> a in mem && a !in before)
    && (forall a :: a in mem && a !in before ==> (a in some <==> mem[a] != Wiped))
  }

  /** What is not wiped is exactly what something needs and these, which nothing needs. */
  ghost predicate TidyAt(mem: Memory, loose: set<nat>, rk: nat, ckSend: Option<nat>, ckRecv: Option<nat>, s: Store) {
    && (forall a :: a in loose ==> a in mem && !Live(a, rk, ckSend, ckRecv, s))
    && (forall a :: a in mem ==> (mem[a] != Wiped <==> a in loose || Live(a, rk, ckSend, ckRecv, s)))
  }

  /** No buffer has been written but with zeros. */
  predicate OnlyWiped(before: Memory, mem: Memory) {
    forall a :: a in before ==> a in mem && (mem[a] == before[a] || mem[a] == Wiped)
  }

  function Among(keys: seq<nat>): (all: set<nat>)
    ensures forall a :: a in all <==> a in keys
  {
    set a | a in keys
  }

  /** The end of a walk, unless the walk stands where it started. */
  function Beside(end: nat, ck: nat): set<nat> {
    if end == ck then {} else {end}
  }

  predicate Distinct(keys: seq<nat>) {
    forall i, j :: 0 <= i < j < |keys| ==> keys[i] != keys[j]
  }

  function Ats(keys: seq<nat>): seq<Key> {
    seq(|keys|, i requires 0 <= i < |keys| => At(keys[i]))
  }

  function Loads(mem: Memory, keys: seq<nat>): seq<Key> {
    seq(|keys|, i requires 0 <= i < |keys| => Load(mem, At(keys[i])))
  }

  /** Memory after one link of a walk. */
  function Linked(mem: Memory, next: nat, ck: nat, end: nat): Memory
    requires end in mem
  {
    var m := mem[next := Msg(mem[end])][next + 1 := Next(mem[end])];
    if end != ck then m[end := Wiped] else m
  }

  /** New buffers hold the message keys passed over, and the walk stands in the one it started from or a new one. */
  ghost predicate Walked(mem: Memory, keys: seq<nat>, low: nat, start: Key, ck: nat, end: nat) {
    && Distinct(keys)
    && (forall i :: 0 <= i < |keys| ==> keys[i] in mem && keys[i] >= low && mem[keys[i]] == Msg(Walk(start, i)))
    && end in mem && end !in keys && (end == ck || end >= low) && mem[end] == Walk(start, |keys|)
    && (keys == [] <==> end == ck)
  }

  /** One more link: its message key and where the walk stands now are the new buffers not wiped. */
  lemma LinkedNew(first: Memory, mem: Memory, low: nat, next: nat, keys: seq<nat>, ck: nat, end: nat)
    requires Bounded(first, low) && Bounded(mem, next) && low <= next && ck in first && end in mem && end !in keys
    requires NewOnly(first, mem, Among(keys) + Beside(end, ck))
    ensures NewOnly(first, Linked(mem, next, ck, end), Among(keys + [next]) + Beside(next + 1, ck))
  {
    assert next !in mem && next + 1 !in mem && Beside(next + 1, ck) == {next + 1};
  }

  lemma WalkedOn(first: Memory, mem: Memory, low: nat, next: nat, keys: seq<nat>, start: Key, ck: nat, end: nat)
    requires Bounded(first, low) && Bounded(mem, next) && low <= next && ck in first
    requires KeptOutside(first, mem, {}) && Walked(mem, keys, low, start, ck, end)
    ensures KeptOutside(first, Linked(mem, next, ck, end), {})
    ensures Walked(Linked(mem, next, ck, end), keys + [next], low, start, ck, next + 1)
  {
    var m, more := Linked(mem, next, ck, end), keys + [next];
    assert next !in mem && next + 1 !in mem;
    forall i | 0 <= i < |more| ensures more[i] in m && more[i] >= low && more[i] <= next && m[more[i]] == Msg(Walk(start, i)) {
      if i < |keys| {
        assert more[i] == keys[i] && keys[i] != end && keys[i] in mem;
      } else {
        assert more[i] == next && i == |keys|;
      }
    }
    assert Distinct(more) by {
      forall i, j | 0 <= i < j < |more| ensures more[i] != more[j] {
        assert more[i] == keys[i] && keys[i] in mem;
      }
    }
    assert Walk(start, |keys| + 1) == Next(Walk(start, |keys|));
  }

  class TsRatchet {
    const opts: Opts
    var mem: Memory
    var next: nat
    var rk: nat
    var dhSelf: Option<nat>
    var dhPeer: nat
    var ckSend: Option<nat>
    var ckRecv: Option<nat>
    var nSend: nat
    var nRecv: nat
    var pn: nat
    var stepBeforeSend: bool
    const skipped: Skipped
    var pqKey: Option<nat>
    var pendingSs: Option<KemSs>
    var pendingCt: Option<KemCt>
    var ctInFlight: Option<KemCt>
    var seenPeerPq: Option<KemPub>
    var stepsSincePq: nat
    var lastPqAt: nat
    var pqStepsDone: nat

    /** Buffers nothing needs that were never wiped. */
    ghost var strays: set<nat>

    /** The state with the keys in place of their buffers. */
    ghost function Value(): State
      reads this, skipped
    {
      State(opts, Load(mem, At(rk)), dhSelf, dhPeer, LoadOpt(mem, ckSend), LoadOpt(mem, ckRecv), nSend, nRecv, pn,
            stepBeforeSend, Deref(mem, skipped.chains),
            pqKey, pendingSs, pendingCt, ctInFlight, seenPeerPq, stepsSincePq, lastPqAt, pqStepsDone)
    }

    ghost predicate Valid()
      reads this, skipped
    {
      && (ckSend.Some? ==> dhSelf.Some?)
      && skipped.ttl == opts.ttl && skipped.maxChains == opts.maxChains
      && Layout(mem, next, rk, ckSend, ckRecv, skipped.chains, opts.maxChains)
    }

    ghost predicate Tidy(loose: set<nat>)
      reads this, skipped
    {
      TidyAt(mem, loose, rk, ckSend, ckRecv, skipped.chains)
    }

    /** The strays are exactly the buffers nothing needs that are not wiped. */
    ghost predicate Clean()
      reads this, skipped
    {
      Tidy(strays)
    }

    /** The first root key is the handshake's own SK buffer (0); the first step consumes it and it is wiped. */
    constructor (hs: HandshakeResult, opts: Opts, now: nat)
      requires hs.role.Initiator? ==> hs.ekSelf.Some?
      requires opts.maxChains >= 1
      ensures Valid() && Clean() && strays == {} && fresh(skipped)
      ensures Value() == FromHandshake(hs, opts, now)
      ensures 0 in mem && mem[0] == Wiped
    {
      hide Layout, TidyAt, Load, LoadOpt, Deref, Live, Holds, Bounded;
      this.opts := opts;
      mem, next, strays := map[0 := hs.sk], 1, {};
      rk, ckSend, ckRecv := 0, None, None;
      dhSelf, dhPeer := hs.ekSelf, hs.ekPeer;
      nSend, nRecv, pn := 0, 0, 0;
      stepBeforeSend := !hs.role.Initiator?;
      skipped := new Skipped(opts.ttl, opts.maxChains);
      pqKey, pendingSs, pendingCt, ctInFlight, seenPeerPq := None, None, None, None, None;
      stepsSincePq, lastPqAt, pqStepsDone := 0, now, 0;
      new;
      var ikm := Classical(hs.firstStep);
      FirstStep(ikm, hs.role.Initiator?);
    }

    /** SK stepped into the first root and chain, and wiped. */
    method FirstStep(ikm: Ikm, initiator: bool)
      requires mem.Keys == {0} && next == 1 && rk == 0 && ckSend.None? && ckRecv.None?
      requires skipped.chains == [] && skipped.ttl == opts.ttl && skipped.maxChains == opts.maxChains >= 1
      requires strays == {} && (initiator ==> dhSelf.Some?)
      modifies this`mem, this`next, this`rk, this`ckSend, this`ckRecv
      ensures Valid() && Clean() && 0 in mem && mem[0] == Wiped
      ensures var sk := old(mem)[0];
              && Load(mem, At(rk)) == Root(sk, ikm) && Deref(mem, skipped.chains) == []
              && LoadOpt(mem, ckSend) == (if initiator then Some(Chain(sk, ikm)) else None)
              && LoadOpt(mem, ckRecv) == (if initiator then None else Some(Chain(sk, ikm)))
    {
      hide Layout, TidyAt, Load, LoadOpt, Deref, Live, Holds;
      ghost var sk := mem[0];
      var root, chain := StepSk(ikm);
      rk := root;
      if initiator {
        ckSend := Some(chain);
      } else {
        ckRecv := Some(chain);
      }
      FirstLayout(mem, sk, ikm, ckSend, ckRecv, opts.maxChains);
    }

    method StepSk(ikm: Ikm) returns (root: nat, chain: nat)
      requires mem.Keys == {0} && next == 1 && rk == 0
      modifies this`mem, this`next
      ensures mem == map[0 := Wiped, 1 := Root(old(mem)[0], ikm), 2 := Chain(old(mem)[0], ikm)] && next == 3 && root == 1 && chain == 2
    {
      root := New(Root(mem[rk], ikm));
      chain := New(Chain(mem[rk], ikm));
      Fill(rk);
    }

    // ----------------------------------------------------------------------
    // buffers
    // ----------------------------------------------------------------------

    method New(k: Key) returns (a: nat)
      requires Bounded(mem, next)
      modifies this`mem, this`next
      ensures Bounded(mem, next) && a == old(next) && next == a + 1 && a !in old(mem)
      ensures mem == old(mem)[a := k]
    {
      a := next;
      mem, next := mem[a := k], next + 1;
    }

    method Fill(a: nat)
      requires a in mem
      modifies this`mem
      ensures mem == old(mem)[a := Wiped]
    {
      mem := mem[a := Wiped];
    }

    method FillAll(bufs: seq<nat>)
      requires forall i :: 0 <= i < |bufs| ==> bufs[i] in mem
      modifies this`mem
      ensures mem.Keys == old(mem).Keys
      ensures forall a :: a in mem ==> mem[a] == (if a in bufs then Wiped else old(mem)[a])
    {
      var i := 0;
      while i < |bufs|
        invariant i <= |bufs| && mem.Keys == old(mem).Keys
        invariant forall a :: a in mem ==> mem[a] == (if a in bufs[..i] then Wiped else old(mem)[a])
      {
        Fill(bufs[i]);
        i := i + 1;
      }
    }

    /** One link: its message key and the next chain key in new buffers; the link itself is wiped unless it is the live one. */
    method Forward(ck: nat, end: nat) returns (mk: nat, forward: nat)
      requires Bounded(mem, next) && end in mem
      modifies this`mem, this`next
      ensures Bounded(mem, next) && mk == old(next) && forward == mk + 1 && next == mk + 2
      ensures mem == Linked(old(mem), old(next), ck, end)
    {
      mk := New(Msg(mem[end]));
      forward := New(Next(mem[end]));
      if end != ck {
        Fill(end);
      }
    }

    /** Walks a chain forward into new buffers; what it walked over is wiped, the buffer it started from is not. */
    method Advance(ck: nat, from: nat, to: nat) returns (ok: bool, keys: seq<nat>, end: nat)
      requires Bounded(mem, next) && ck in mem
      modifies this`mem, this`next
      ensures Bounded(mem, next) && next >= old(next) && KeptOutside(old(mem), mem, {})
      ensures ok <==> !TooFar(from, to, opts.maxSkip)
      ensures ok ==> |keys| == Steps(from, to) && Walked(mem, keys, old(next), old(mem)[ck], ck, end)
      ensures if ok then NewOnly(old(mem), mem, Among(keys) + Beside(end, ck)) else mem == old(mem)
    {
      hide Linked;
      keys, end := [], ck;
      if to > from + opts.maxSkip {
        return false, keys, end;
      }
      var i := from;
      while i < to
        invariant from <= i && (i <= to || i == from) && |keys| == i - from
        invariant Bounded(mem, next) && next >= old(next) && KeptOutside(old(mem), mem, {})
        invariant Walked(mem, keys, old(next), old(mem)[ck], ck, end)
        invariant NewOnly(old(mem), mem, Among(keys) + Beside(end, ck))
      {
        ghost var before, low := mem, next;
        var mk, forward := Forward(ck, end);
        LinkedNew(old(mem), before, old(next), low, keys, ck, end);
        WalkedOn(old(mem), before, old(next), low, keys, old(mem)[ck], ck, end);
        keys := keys + [mk];
        end := forward;
        i := i + 1;
      }
      ok := true;
    }

    // ----------------------------------------------------------------------
    // the store
    // ----------------------------------------------------------------------

    /** Wipes the keys of one chain, all of them or the stale ones. */
    method WipeKeys(keys: map<nat, Held>, all: bool, now: nat) returns (ghost gone: set<nat>)
      requires forall n :: n in keys ==> keys[n].key.At? && keys[n].key.addr in mem
      modifies this`mem
      ensures mem.Keys == old(mem).Keys && KeptOutside(old(mem), mem, gone)
      ensures forall a :: a in gone ==> MarkedIn(keys, a, all, now, opts.ttl)
      ensures forall n :: n in keys && (all || !Fresh(keys[n], now, opts.ttl)) ==> keys[n].key.addr in gone
      ensures forall a :: a in gone ==> a in mem && mem[a] == Wiped
    {
      gone := {};
      var todo := keys.Keys;
      while todo != {}
        invariant todo <= keys.Keys
        invariant mem.Keys == old(mem).Keys && KeptOutside(old(mem), mem, gone)
        invariant forall a :: a in gone ==> MarkedIn(keys, a, all, now, opts.ttl)
        invariant forall n :: n in keys && n !in todo && (all || !Fresh(keys[n], now, opts.ttl)) ==> keys[n].key.addr in gone
        invariant forall a :: a in gone ==> a in mem && mem[a] == Wiped
        decreases |todo|
      {
        var n :| n in todo;
        if all || !Fresh(keys[n], now, opts.ttl) {
          Fill(keys[n].key.addr);
          gone := gone + {keys[n].key.addr};
        }
        todo := todo - {n};
      }
    }

    /** Wipes every key in the stash that has aged, and no other buffer. */
    method WipeStale(now: nat) returns (ghost gone: set<nat>)
      requires Valid()
      modifies this`mem
      ensures mem.Keys == old(mem).Keys && KeptOutside(old(mem), mem, gone)
      ensures forall a :: a in gone ==> AgedOut(skipped.chains, a, now, opts.ttl)
      ensures StaleIn(skipped.chains, |skipped.chains|, now, opts.ttl, gone)
      ensures forall a :: a in gone ==> a in mem && mem[a] == Wiped
    {
      hide AgedOut, Pointed, Holds, Find, WellFormed, Fresh, MarkedIn, StaleIn, Live;
      NoneStale(skipped.chains, now, opts.ttl);
      gone := {};
      var i := 0;
      while i < |skipped.chains|
        invariant i <= |skipped.chains|
        invariant mem.Keys == old(mem).Keys && KeptOutside(old(mem), mem, gone)
        invariant forall a :: a in gone ==> AgedOut(skipped.chains, a, now, opts.ttl)
        invariant StaleIn(skipped.chains, i, now, opts.ttl, gone)
        invariant forall a :: a in gone ==> a in mem && mem[a] == Wiped
      {
        EntriesPointed(old(mem), skipped.chains, opts.maxChains, i);
        ghost var more := WipeKeys(skipped.chains[i].keys, false, now);
        AgedEntries(skipped.chains, opts.maxChains, i, now, opts.ttl, more);
        StaleMore(skipped.chains, i, now, opts.ttl, gone, more);
        gone := gone + more;
        i := i + 1;
      }
    }

    /** Dropping aged keys wipes exactly what is dropped. */
    method Prune(now: nat)
      requires Valid() && Clean()
      modifies this`mem, skipped
      ensures Valid() && Clean() && Value() == Pruned(old(Value()), now)
      ensures mem.Keys == old(mem).Keys && OnlyWiped(old(mem), mem)
      ensures forall a :: Holds(skipped.chains, a) ==> old(Holds(skipped.chains, a))
      ensures forall a :: old(Holds(skipped.chains, a)) && !Holds(skipped.chains, a) ==> a in mem && mem[a] == Wiped
      ensures forall a :: old(AgedOut(skipped.chains, a, now, opts.ttl)) <==> old(Holds(skipped.chains, a)) && !Holds(skipped.chains, a)
      ensures forall a :: a in mem && (old(Holds(skipped.chains, a)) ==> Holds(skipped.chains, a)) ==> mem[a] == old(mem)[a]
    {
      hide AgedOut, StaleIn, Pointed, Holds, Deref, LoadHeld, Find, Young, Aged, NonEmpty, OnePerPub;
      ghost var s := skipped.chains;
      ghost var gone := WipeStale(now);
      PrunePointed(old(mem), s, opts.maxChains, now, opts.ttl);
      DerefPrune(old(mem), s, now, opts.ttl);
      skipped.Prune(now);
      AgedOutUnheld(old(mem), s, opts.maxChains, now, opts.ttl, gone);
      StaleWiped(s, opts.maxChains, now, opts.ttl, gone);
      AgedIsGone(s, now, opts.ttl, gone);
      LayoutFrame(old(mem), mem, next, next, rk, ckSend, ckRecv, skipped.chains, opts.maxChains, gone);
    }

    /** Stashing a key wipes the chain it evicts, if any, and nothing else; a key it replaces is left as it was. */
    method StashPut(pub: nat, n: nat, a: nat, now: nat, ghost loose: set<nat>) returns (ghost gone: set<nat>)
      requires Valid() && Tidy(loose) && a in loose
      modifies this`mem, skipped
      ensures Valid() && mem.Keys == old(mem).Keys && KeptOutside(old(mem), mem, gone)
      ensures Tidy(loose - {a} + HeldAt(old(skipped.chains), pub, n))
      ensures forall b :: b in loose ==> b in mem && mem[b] == old(mem)[b]
      ensures forall b :: b in gone ==> Holds(old(skipped.chains), b) && b in mem && mem[b] == Wiped
      ensures skipped.chains == PutKey(old(skipped.chains), opts.maxChains, pub, n, At(a), now)
      ensures Value() == old(Value()).(skipped := PutKey(old(Value()).skipped, opts.maxChains, pub, n, old(mem)[a], now))
    {
      hide Pointed, Deref, LoadHeld, Find, OnePerPub, TidyAt, HeldAt;
      gone := {};
      ghost var s := skipped.chains;
      LooseIsSpare(mem, loose, rk, ckSend, ckRecv, s);
      var i := skipped.IndexOf(pub);
      if i == |skipped.chains| == opts.maxChains {
        EntriesPointed(mem, s, opts.maxChains, 0);
        gone := WipeKeys(skipped.chains[0].keys, true, now);
        EntriesHeld(s, opts.maxChains, 0, now, opts.ttl, gone);
        EvictedGone(old(mem), s, opts.maxChains, pub, n, a, now, opts.ttl, gone);
      }
      PutPointed(old(mem), s, opts.maxChains, pub, n, a, now);
      DerefPut(old(mem), s, opts.maxChains, pub, n, a, now);
      skipped.Put(pub, n, At(a), now);
      LayoutFrame(old(mem), mem, next, next, rk, ckSend, ckRecv, skipped.chains, opts.maxChains, gone);
      PutTidy(old(mem), mem, next, loose, rk, ckSend, ckRecv, s, opts.maxChains, pub, n, a, now, gone);
    }

    /** Stashes buffers keys[0], keys[1], .. at counters start, start + 1, .. */
    method StashAll(pub: nat, start: nat, keys: seq<nat>, now: nat, ghost loose: set<nat>)
      requires Valid() && Tidy(loose) && Distinct(keys) && Among(keys) <= loose
      modifies this`mem, skipped
      ensures Valid() && mem.Keys == old(mem).Keys && OnlyWiped(old(mem), mem)
      ensures forall a :: a in loose && a !in keys ==> a in mem && mem[a] == old(mem)[a]
      ensures Tidy(loose - Among(keys) + HeldIn(old(skipped.chains), pub, start, |keys|))
      ensures skipped.chains == PutKeys(old(skipped.chains), opts.maxChains, pub, start, Ats(keys), now)
      ensures Value() == old(Value()).(skipped := PutKeys(old(Value()).skipped, opts.maxChains, pub, start, Loads(old(mem), keys), now))
    {
      hide Layout, Holds, Deref, PutKey, TidyAt, HeldAt, HeldIn, Find, PutKeys, Ats;
      ghost var s := skipped.chains;
      var i := 0;
      StoreWell(mem, next, rk, ckSend, ckRecv, s, opts.maxChains);
      StashStart(s, opts.maxChains, pub, start, old(Value()).skipped, old(mem), keys, now, rk, ckSend, ckRecv, loose);
      LooseIsSpare(mem, loose, rk, ckSend, ckRecv, s);
      while i < |keys|
        invariant i <= |keys|
        invariant Valid() && mem.Keys == old(mem).Keys && OnlyWiped(old(mem), mem)
        invariant forall a :: a in loose && a !in keys[..i] ==> a in mem && mem[a] == old(mem)[a]
        invariant Tidy(loose - Among(keys[..i]) + HeldIn(s, pub, start, i))
        invariant skipped.chains == PutKeys(s, opts.maxChains, pub, start, Ats(keys[..i]), now)
        invariant Value() == old(Value()).(skipped := PutKeys(old(Value()).skipped, opts.maxChains, pub, start, Loads(old(mem), keys[..i]), now))
      {
        NotAmong(keys, i);
        PutOneMore(old(Value()).skipped, opts.maxChains, pub, start, old(mem), keys, i, now);
        PutOneMoreAt(s, opts.maxChains, pub, start, keys, i, now);
        OneMoreHeld(old(mem), s, opts.maxChains, pub, start, keys, i, now, loose, rk, ckSend, ckRecv);
        ghost var gone := StashPut(pub, start + i, keys[i], now, loose - Among(keys[..i]) + HeldIn(s, pub, start, i));
        i := i + 1;
      }
      assert keys[..i] == keys;
    }

    /** The peer's encapsulation key: remembered once the frame is in, reported when it is none. */
    method NotePeer(pub: Option<KemPub>, m: nat) returns (bad: bool)
      requires Valid()
      modifies this`pendingSs, this`pendingCt, this`seenPeerPq
      ensures Valid() && Value() == NotePeerPq(old(Value()), pub, m)
      ensures bad <==> pub == Some(MalformedPub) && old(seenPeerPq) != pub
    {
      if pub.None? || seenPeerPq == pub {
        return false;
      }
      match Encapsulate(pub.value, m)
      case None => return true;
      case Some((ct, ss)) =>
        pendingSs, pendingCt, seenPeerPq := Some(ss), Some(ct), pub;
        return false;
    }

    // ----------------------------------------------------------------------
    // receiving
    // ----------------------------------------------------------------------

    /** The live receiving chain and all that is spent are wiped, the next one moves in. */
    method SwapChain(chain: nat, rest: seq<nat>, ghost loose: set<nat>)
      requires Valid() && ckRecv.Some? && Tidy(loose) && chain in loose && Among(rest) <= loose && chain !in rest
      modifies this`mem, this`ckRecv
      ensures Valid() && Value() == old(Value()).(ckRecv := Some(old(mem)[chain]))
      ensures Tidy(loose - Among(rest) - {chain}) && OnlyWiped(old(mem), mem)
      ensures forall a :: a in rest || Some(a) == old(ckRecv) ==> a in mem && mem[a] == Wiped
    {
      hide Holds, Deref, Layout, Live, TidyAt;
      ghost var before := mem;
      var spent := [ckRecv.value] + rest;
      RootIsLive(mem, loose, rk, ckSend, ckRecv, skipped.chains);
      SpentAreDead(rk, ckSend, ckRecv, skipped.chains, rk, chain, spent, rest, mem, next, opts.maxChains, loose);
      FillAll(spent);
      LayoutFrame(before, mem, next, next, rk, ckSend, Some(chain), skipped.chains, opts.maxChains, set a | a in spent);
      SpentTidy(before, mem, loose, spent, rest, rk, ckSend, ckRecv, rk, ckSend, chain, skipped.chains);
      ckRecv := Some(chain);
    }

    /** A frame on the current chain opened: stash what was passed, wipe what is spent, move on. */
    method CommitSame(pub: nat, n: nat, now: nat, keys: seq<nat>, mk: nat, end: nat, nextCk: nat)
      requires Valid() && ckRecv.Some? && Distinct(keys) && Fork(keys, mk, end, nextCk)
      requires var made := Tried(keys, mk, end, nextCk, ckRecv.value); Tidy(strays + made) && strays !! made
      modifies this`mem, this`ckRecv, this`nRecv, this`strays, skipped
      ensures Valid() && Clean() && OnlyWiped(old(mem), mem)
      ensures strays == old(strays) + HeldIn(old(skipped.chains), pub, old(nRecv), |keys|)
      ensures forall a :: a in [mk, end, old(ckRecv).value] ==> a in mem && mem[a] == Wiped
      ensures Value() == old(Value()).(skipped := PutKeys(old(Value()).skipped, opts.maxChains, pub, old(nRecv), Loads(old(mem), keys), now),
                                       ckRecv := Some(old(mem)[nextCk]), nRecv := n + 1)
    {
      hide Layout, Holds, Deref, PutKeys, Loads, TidyAt, HeldIn;
      ghost var held := HeldIn(skipped.chains, pub, nRecv, |keys|);
      ghost var loose := strays + Tried(keys, mk, end, nextCk, ckRecv.value);
      HeldIsLive(mem, loose, rk, ckSend, ckRecv, skipped.chains, pub, nRecv, |keys|);
      StashAll(pub, nRecv, keys, now, loose);
      MoveOn(n, keys, mk, end, nextCk, held);
    }

    /** The keys stashed, the rest of the scratch is wiped and the next link moves in. */
    method MoveOn(n: nat, ghost keys: seq<nat>, mk: nat, end: nat, nextCk: nat, ghost held: set<nat>)
      requires Valid() && ckRecv.Some? && Fork(keys, mk, end, nextCk)
      requires var made := Tried(keys, mk, end, nextCk, ckRecv.value);
               Tidy(strays + made - Among(keys) + held) && strays !! made && held !! made
      modifies this`mem, this`ckRecv, this`nRecv, this`strays
      ensures Valid() && Clean() && strays == old(strays) + held && OnlyWiped(old(mem), mem)
      ensures forall a :: a in [mk, end, old(ckRecv).value] ==> a in mem && mem[a] == Wiped
      ensures Value() == old(Value()).(ckRecv := Some(old(mem)[nextCk]), nRecv := n + 1)
    {
      hide Layout, Holds, Deref, Live, Load, LoadOpt, TidyAt;
      var rest := [mk] + (if Some(end) != ckRecv then [end] else []);
      SameLoose(strays, keys, mk, end, nextCk, rest, ckRecv.value, held);
      SwapChain(nextCk, rest, strays + Tried(keys, mk, end, nextCk, ckRecv.value) - Among(keys) + held);
      strays := strays + held;
      nRecv := n + 1;
    }

    /** Tries the message key of the link at `end`; when the body does not open, all scratch is wiped again. */
    method TryOpen(end: nat, h: Header, body: Body, scratch: seq<nat>) returns (pt: Option<string>, mk: nat, nextCk: nat)
      requires Bounded(mem, next) && end in mem && forall i :: 0 <= i < |scratch| ==> scratch[i] in mem
      modifies this`mem, this`next
      ensures Bounded(mem, next) && mk == old(next) && nextCk == mk + 1 && next == mk + 2
      ensures pt == Open(Msg(old(mem)[end]), h.n, h, body)
      ensures pt.Some? ==> mem == old(mem)[mk := Msg(old(mem)[end])][nextCk := Next(old(mem)[end])]
      ensures pt.None? ==> KeptOutside(old(mem), mem, set a | a in scratch)
      ensures pt.None? ==> NewOnly(old(mem), mem, {}) && forall a :: a in scratch ==> a in mem && mem[a] == Wiped
    {
      mk := New(Msg(mem[end]));
      nextCk := New(Next(mem[end]));
      pt := Open(mem[mk], h.n, h, body);
      if pt.None? {
        FillAll([mk, nextCk] + scratch);
      }
    }

    /** The chain in `live` walked to the frame's counter and the body tried there; nothing but new buffers is written. */
    method TryWalk(live: nat, from: nat, h: Header, body: Body) returns (r: Outcome, keys: seq<nat>, mk: nat, end: nat, nextCk: nat)
      requires Bounded(mem, next) && live in mem && from <= h.n
      modifies this`mem, this`next
      ensures Bounded(mem, next) && next >= old(next) && KeptOutside(old(mem), mem, {})
      ensures var k := h.n - from;
              r == (if TooFar(from, h.n, opts.maxSkip) then SkipBound(k)
                    else match Open(Msg(Walk(old(mem)[live], k)), h.n, h, body) case None => Refused case Some(text) => Opened(text))
      ensures r.Opened? ==> Distinct(keys) && Fork(keys, mk, end, nextCk) && nextCk in mem
      ensures r.Opened? ==> Loads(mem, keys) == PassedKeys(old(mem)[live], h.n - from) && mem[nextCk] == Next(Walk(old(mem)[live], h.n - from))
      ensures NewOnly(old(mem), mem, if r.Opened? then Tried(keys, mk, end, nextCk, live) else {})
    {
      hide Open, Walk, Load, Walked;
      mk, nextCk := 0, 0;
      ghost var before, low := mem, next;
      var ok;
      ok, keys, end := Advance(live, from, h.n);
      if !ok {
        return SkipBound(h.n - from), keys, mk, end, nextCk;
      }
      var scratch := (if end != live then [end] else []) + keys;
      ghost var walked := mem;
      WalkLoads(walked, walked, keys, low, before[live], live, end);
      WalkShape(walked, keys, low, before[live], live, end);
      var pt;
      pt, mk, nextCk := TryOpen(end, h, body, scratch);
      if pt.None? {
        KeptThrough(before, walked, mem, scratch);
        WipedAgain(before, walked, mem, Among(keys) + Beside(end, live), scratch);
        return Refused, keys, mk, end, nextCk;
      }
      LoadsKept(walked, mem, keys, {});
      TwoMore(before, walked, mem, Among(keys) + Beside(end, live), mk, nextCk, Tried(keys, mk, end, nextCk, live));
      r := Opened(pt.value);
    }

    /** Everything a frame on the current chain needs, on the side; `now` and `m` only name the call this is part of. */
    method TrySame(h: Header, body: Body, ghost now: nat, ghost m: nat)
      returns (r: Outcome, keys: seq<nat>, mk: nat, end: nat, nextCk: nat)
      requires Valid()
      modifies this`mem, this`next
      ensures Valid() && Value() == old(Value())
      ensures r == DecryptSame(Value(), now, m, h, body).1
      ensures r.Opened? ==> ckRecv.Some? && nRecv <= h.n
      ensures r.Opened? ==> Distinct(keys) && Fork(keys, mk, end, nextCk) && nextCk in mem
      ensures r.Opened? ==> Loads(mem, keys) == PassedKeys(Value().ckRecv.value, h.n - nRecv)
                            && mem[nextCk] == Next(Walk(Value().ckRecv.value, h.n - nRecv))
      ensures KeptOutside(old(mem), mem, {}) && NewOnly(old(mem), mem, if r.Opened? then Tried(keys, mk, end, nextCk, ckRecv.value) else {})
    {
      hide Holds, Live, Deref, PutKeys, WellFormed, Pointed, NotePeerPq, Walk, Loads, Distinct, Open;
      keys, mk, end, nextCk := [], 0, 0, 0;
      if ckRecv.None? || h.n < nRecv {
        return Refused, keys, mk, end, nextCk;
      }
      ghost var before, low := mem, next;
      NewIsSpare(before, low, rk, ckSend, ckRecv, skipped.chains, opts.maxChains);
      r, keys, mk, end, nextCk := TryWalk(ckRecv.value, nRecv, h, body);
      LayoutFrame(before, mem, low, next, rk, ckSend, ckRecv, skipped.chains, opts.maxChains, {});
    }

    /** A frame on the current chain; only the keys that those passed over replace in the stash are left unwiped. */
    method ReceiveSame(now: nat, m: nat, h: Header, body: Body) returns (o: TsOutcome, ghost left: seq<nat>)
      requires Valid() && Clean() && h.dhPub == dhPeer
      modifies this, skipped
      ensures Valid() && Clean() && OnlyWiped(old(mem), mem)
      ensures (Value(), o) == Report(old(Value()), h, DecryptSame(old(Value()), now, m, h, body))
      ensures LeftTo(old(strays), strays, left)
      ensures var fits := DecryptSame(old(Value()), now, m, h, body).1.Opened?;
              && (forall a :: a in left ==> fits && old(Holds(skipped.chains, a)))
              && Loads(mem, left) == if fits then ReplacedKeys(old(Value()), h) else []
    {
      hide Layout, Holds, Live, Deref, PutKeys, TidyAt, NewOnly, HeldBufs, HeldKeys, KeptOutside, NotePeerPq, DecryptSame, Loads, PassedKeys, OnlyWiped;
      SameSplits(Value(), now, m, h, body);
      ghost var before, low, s, stash := mem, next, Value(), skipped.chains;
      var r, keys, mk, end, nextCk := TrySame(h, body, now, m);
      if !r.Opened? {
        NewTidy(before, mem, low, strays, {}, rk, ckSend, ckRecv, stash, opts.maxChains);
        left := [];
        NoneLeft(mem);
        NoneMore(before, mem, strays);
        return Answer(r), left;
      }
      NewTidy(before, mem, low, strays, Tried(keys, mk, end, nextCk, ckRecv.value), rk, ckSend, ckRecv, stash, opts.maxChains);
      SameLoads(mem, keys, s.ckRecv.value, h.n - nRecv);
      left := HeldBufs(stash, h.dhPub, nRecv, |keys|);
      HeldAsKeys(before, low, strays, rk, ckSend, ckRecv, stash, opts.maxChains, h.dhPub, nRecv, |keys|);
      ghost var mid := mem;
      CommitSame(h.dhPub, h.n, now, keys, mk, end, nextCk);
      WipedSince(before, mid, mem);
      KeptLeft(before, mem, left, strays, rk, ckSend, ckRecv, skipped.chains);
      var bad := NotePeer(h.pqPub, m);
      return if bad then BadPeerKey else Answer(r), left;
    }

    /** Stashes what the closed chain still owes, then what the new one passed. */
    method StashBoth(now: nat, pub: nat, closing: seq<nat>, keys: seq<nat>, ghost loose: set<nat>)
      requires Valid() && Tidy(loose) && pub != dhPeer
      requires Distinct(closing + keys) && Among(closing + keys) <= loose
      modifies this`mem, skipped
      ensures Valid() && OnlyWiped(old(mem), mem)
      ensures Tidy(loose - Among(closing) - Among(keys) + Replaced(old(skipped.chains), opts.maxChains, dhPeer, nRecv, |closing|, pub, |keys|))
      ensures forall a :: a in loose && a !in closing + keys ==> a in mem && mem[a] == old(mem)[a]
      ensures Value() == old(Value()).(skipped := PutKeys(PutKeys(old(Value()).skipped, opts.maxChains, dhPeer, nRecv, Loads(old(mem), closing), now),
                                                          opts.maxChains, pub, 0, Loads(old(mem), keys), now))
    {
      hide Layout, Holds, Deref, PutKeys, Loads, TidyAt, HeldIn;
      TwoParts(closing, keys);
      ghost var first, s := mem, skipped.chains;
      StoreWell(mem, next, rk, ckSend, ckRecv, s, opts.maxChains);
      BothReplaced(mem, loose, rk, ckSend, ckRecv, s, opts.maxChains, dhPeer, nRecv, closing, now, pub, keys);
      StashAll(dhPeer, nRecv, closing, now, loose);
      LoadsSame(first, mem, keys);
      StashAll(pub, 0, keys, now, loose - Among(closing) + HeldIn(s, dhPeer, nRecv, |closing|));
    }

    /** Wipes the old root and receiving chain and all that is spent; what will be live then is as it was. */
    method WipeSpent(root: nat, chain: nat, rest: seq<nat>, ghost loose: set<nat>)
      requires Valid() && Tidy(loose)
      requires root in loose && chain in loose && Among(rest) <= loose && root != chain && root !in rest && chain !in rest
      modifies this`mem
      ensures Layout(mem, next, root, ckSend, Some(chain), skipped.chains, opts.maxChains) && OnlyWiped(old(mem), mem)
      ensures TidyAt(mem, loose - Among(rest) - {root, chain}, root, ckSend, Some(chain), skipped.chains)
      ensures forall a :: a in rest || a == rk || Some(a) == ckRecv ==> a in mem && mem[a] == Wiped
      ensures Deref(mem, skipped.chains) == Deref(old(mem), skipped.chains) && LoadOpt(mem, ckSend) == LoadOpt(old(mem), ckSend)
      ensures Load(mem, At(root)) == old(mem)[root] && LoadOpt(mem, Some(chain)) == Some(old(mem)[chain])
    {
      hide Holds, Deref, Layout, Live, TidyAt;
      ghost var before := mem;
      var spent := [rk] + (if ckRecv.Some? then [ckRecv.value] else []) + rest;
      RootIsLive(mem, loose, rk, ckSend, ckRecv, skipped.chains);
      SpentAreDead(rk, ckSend, ckRecv, skipped.chains, root, chain, spent, rest, before, next, opts.maxChains, loose);
      FillAll(spent);
      SpentTidy(before, mem, loose, spent, rest, rk, ckSend, ckRecv, root, ckSend, chain, skipped.chains);
      LayoutFrame(before, mem, next, next, root, ckSend, Some(chain), skipped.chains, opts.maxChains, set a | a in spent);
    }

    /** The old root and receiving chain and all that is spent are wiped, the new ones move in. */
    method SwapRoots(root: nat, chain: nat, rest: seq<nat>, ghost loose: set<nat>)
      requires Valid() && Tidy(loose)
      requires root in loose && chain in loose && Among(rest) <= loose && root != chain && root !in rest && chain !in rest
      modifies this`mem, this`rk, this`ckRecv
      ensures Valid() && Value() == old(Value()).(rk := old(mem)[root], ckRecv := Some(old(mem)[chain]))
      ensures Tidy(loose - Among(rest) - {root, chain}) && OnlyWiped(old(mem), mem)
      ensures forall a :: a in rest || a == old(rk) || Some(a) == old(ckRecv) ==> a in mem && mem[a] == Wiped
    {
      hide Layout, Live, Deref, Load, LoadOpt, TidyAt;
      WipeSpent(root, chain, rest, loose);
      rk, ckRecv := root, Some(chain);
    }

    /** The peer's turn opened: stash what both chains passed, wipe what is spent, move on. */
    method CommitTurn(now: nat, h: Header, p: Scratch)
      requires Valid() && Apart(p) && Tidy(strays + Parts(p)) && strays !! Parts(p) && h.dhPub != dhPeer
      modifies this`mem, this`rk, this`ckRecv, this`dhPeer, this`nRecv, this`strays, skipped
      ensures Valid() && Clean() && OnlyWiped(old(mem), mem)
      ensures strays == old(strays) + Replaced(old(skipped.chains), opts.maxChains, old(dhPeer), old(nRecv), |p.closing|, h.dhPub, |p.keys|)
      ensures forall a :: a in p.spent || a == old(rk) || Some(a) == old(ckRecv) ==> a in mem && mem[a] == Wiped
      ensures Value() == Moved(old(Value()), now, h, Loads(old(mem), p.closing), Loads(old(mem), p.keys), old(mem)[p.rk], old(mem)[p.nextCk])
    {
      hide Layout, Holds, Deref, PutKeys, Loads, TidyAt, Replaced;
      ghost var held := Replaced(skipped.chains, opts.maxChains, dhPeer, nRecv, |p.closing|, h.dhPub, |p.keys|);
      ghost var loose := strays + Parts(p);
      HeldApartFrom(mem, loose, rk, ckSend, ckRecv, skipped.chains, opts.maxChains, dhPeer, nRecv, |p.closing|, h.dhPub, |p.keys|);
      ghost var before := mem;
      StashBoth(now, h.dhPub, p.closing, p.keys, loose);
      ghost var mid := mem;
      PartsLeft(strays, p, held);
      SwapRoots(p.rk, p.nextCk, p.spent, loose - Among(p.closing) - Among(p.keys) + held);
      OnlyWipedOn(before, mid, mem);
      strays := strays + held;
      dhPeer, nRecv := h.dhPub, h.n + 1;
    }

    /** The keys the current chain still owes up to the peer's count, and the link walked to, when it is a new one. */
    method CloseChain(pn: nat) returns (ok: bool, keys: seq<nat>, links: seq<nat>)
      requires Valid()
      modifies this`mem, this`next
      ensures Bounded(mem, next) && next >= old(next) && KeptOutside(old(mem), mem, {})
      ensures !ok <==> ckRecv.Some? && TooFar(nRecv, pn, opts.maxSkip)
      ensures ok ==> Loads(mem, keys) == ClosingKeys(old(Value()), pn) && Loads(mem, keys + links) == ClosedOver(old(Value()), pn)
      ensures ok ==> Distinct(keys + links) && |links| <= 1
      ensures if ok then NewOnly(old(mem), mem, Among(keys + links)) else mem == old(mem)
    {
      hide Holds, Deref;
      if ckRecv.None? {
        return true, [], [];
      }
      ghost var start, low := mem[ckRecv.value], next;
      var end;
      ok, keys, end := Advance(ckRecv.value, nRecv, pn);
      links := if end != ckRecv.value then [end] else [];
      if ok {
        WalkLoads(mem, mem, keys, low, start, ckRecv.value, end);
        ClosedLoads(mem, keys, low, start, ckRecv.value, end, links);
      }
    }

    /** The new root and the new chain walked to n, each in buffers of their own. */
    method WalkNew(root: Key, chain: Key, n: nat) returns (ok: bool, srk: nat, sck: nat, keys: seq<nat>, end: nat)
      requires Bounded(mem, next) && root != Wiped && chain != Wiped
      modifies this`mem, this`next
      ensures Bounded(mem, next) && next >= old(next) && KeptOutside(old(mem), mem, {})
      ensures ok <==> !TooFar(0, n, opts.maxSkip)
      ensures srk == old(next) && sck == srk + 1 && srk in mem && sck in mem && mem[srk] == root
      ensures ok ==> Distinct(keys) && Loads(mem, keys) == PassedKeys(chain, n)
      ensures ok ==> forall i :: 0 <= i < |keys| ==> keys[i] in mem && keys[i] >= old(next) + 2
      ensures ok ==> end in mem && end !in keys && (end == sck || end >= old(next) + 2) && mem[end] == Walk(chain, n)
      ensures if ok then NewOnly(old(mem), mem, Among(keys) + {srk, sck, end}) else NewOnly(old(mem), mem, {srk, sck}) && mem[sck] == chain
    {
      hide NewOnly, Walked;
      ghost var before := mem;
      srk := New(root);
      sck := New(chain);
      ghost var mid, low := mem, next;
      NewPair(before, mid, srk, sck);
      ok, keys, end := Advance(sck, 0, n);
      if ok {
        NewOnlyJoin(before, mid, mem, {srk, sck}, Among(keys) + Beside(end, sck), Among(keys) + {srk, sck, end});
        WalkShape(mem, keys, low, chain, sck, end);
        WalkLoads(mem, mem, keys, low, chain, sck, end);
      }
    }

    /** The body tried at the end of a new chain that was walked beside `first`. */
    method TryNew(srk: nat, sck: nat, keys: seq<nat>, end: nat, h: Header, body: Body, scratch: seq<nat>, ghost first: Memory, ghost low: nat)
      returns (r: Outcome, nextCk: nat, spent: seq<nat>)
      requires Bounded(mem, next) && Bounded(first, low) && KeptOutside(first, mem, {}) && NewOnly(first, mem, Among(keys) + {srk, sck, end})
      requires srk == low && sck == low + 1 && srk in mem && sck in mem && Distinct(keys)
      requires forall i :: 0 <= i < |keys| ==> keys[i] in mem && keys[i] >= low + 2
      requires end in mem && end !in keys && (end == sck || end >= low + 2) && forall a :: a in scratch ==> a in mem
      modifies this`mem, this`next
      ensures Bounded(mem, next) && next >= old(next)
      ensures r == match Open(Msg(old(mem)[end]), h.n, h, body) case None => Refused case Some(text) => Opened(text)
      ensures r.Refused? ==> KeptOutside(first, mem, set a | a in scratch)
      ensures r.Refused? ==> NewOnly(first, mem, {}) && forall a :: a in scratch ==> a in mem && mem[a] == Wiped
      ensures r.Opened? ==> KeptOutside(old(mem), mem, {}) && KeptOutside(first, mem, {})
      ensures r.Opened? ==> NewOnly(first, mem, Among(keys) + Among(spent) + {srk, nextCk}) && Loads(mem, keys) == old(Loads(mem, keys))
      ensures r.Opened? ==> forall a :: a in keys + spent + [srk, nextCk] ==> a in mem && a >= low
      ensures r.Opened? ==> srk != nextCk && srk !in keys + spent && nextCk !in keys + spent && forall a :: a in spent ==> a !in keys
      ensures r.Opened? ==> mem[srk] == old(mem)[srk] && mem[nextCk] == Next(old(mem)[end])
    {
      hide Open, Load, Loads, NewOnly, Among, Distinct;
      var mine := [srk, sck] + (if end != sck then [end] else []) + keys;
      ghost var walked := mem;
      var pt, mk;
      pt, mk, nextCk := TryOpen(end, h, body, mine + scratch);
      spent := [mk, sck] + (if end != sck then [end] else []);
      if pt.None? {
        NewChainWiped(first, walked, mem, low, srk, sck, end, keys, mine, scratch);
        return Refused, nextCk, spent;
      }
      NewChainOpened(first, walked, mem, low, mk, srk, sck, keys, end, nextCk, spent);
      r := Opened(pt.value);
    }

    /** A receiving chain of its own, walked to n, and the body tried there; over the bound, the two step keys stay behind. */
    method OpenNew(root: Key, chain: Key, h: Header, body: Body, scratch: seq<nat>)
      returns (r: Outcome, srk: nat, keys: seq<nat>, nextCk: nat, spent: seq<nat>)
      requires Bounded(mem, next) && (forall a :: a in scratch ==> a in mem) && root != Wiped && chain != Wiped
      modifies this`mem, this`next
      ensures Bounded(mem, next) && next >= old(next)
      ensures r == (if TooFar(0, h.n, opts.maxSkip) then SkipBound(h.n)
                    else match Open(Msg(Walk(chain, h.n)), h.n, h, body) case None => Refused case Some(text) => Opened(text))
      ensures r.Refused? ==> KeptOutside(old(mem), mem, set a | a in scratch)
      ensures r.Refused? ==> NewOnly(old(mem), mem, {}) && forall a :: a in scratch ==> a in mem && mem[a] == Wiped
      ensures !r.Refused? ==> KeptOutside(old(mem), mem, {})
      ensures r.Opened? ==> NewOnly(old(mem), mem, Among(keys) + Among(spent) + {srk, nextCk})
      ensures r.SkipBound? ==> NewOnly(old(mem), mem, {srk, nextCk}) && srk != nextCk && srk in mem && nextCk in mem && mem[srk] == root && mem[nextCk] == chain
      ensures r.Opened? ==> Distinct(keys) && Loads(mem, keys) == PassedKeys(chain, h.n)
      ensures r.Opened? ==> forall a :: a in keys + spent + [srk, nextCk] ==> a in mem && a >= old(next)
      ensures r.Opened? ==> srk != nextCk && srk !in keys + spent && nextCk !in keys + spent && forall a :: a in spent ==> a !in keys
      ensures r.Opened? ==> mem[srk] == root && mem[nextCk] == Next(Walk(chain, h.n))
    {
      hide Open, Walk, Load, NewOnly;
      ghost var first, low := mem, next;
      var ok, sck, end;
      ok, srk, sck, keys, end := WalkNew(root, chain, h.n);
      nextCk, spent := sck, [];
      if !ok {
        return SkipBound(h.n), srk, keys, nextCk, spent;
      }
      r, nextCk, spent := TryNew(srk, sck, keys, end, h, body, scratch, first, low);
    }

    /** Input of the peer's root step. */
    method TurnInput(h: Header) returns (ikm: Option<Ikm>)
      requires dhSelf.Some? && (h.pqCt.Some? ==> pqKey.Some?)
      ensures ikm == TurnIkm(Value(), h)
    {
      var dh := Dh(dhSelf.value, h.dhPub);
      if h.pqCt.None? {
        return Some(Classical(dh));
      }
      match Decapsulate(pqKey.value, h.pqCt.value)
      case None => return None;
      case Some(ss) => return Some(Hybrid(dh, ss));
    }

    /** With the current chain closed beside the state since `before`, the new one opened beside it too. */
    method OpenBeside(root: Key, chain: Key, h: Header, body: Body, closing: seq<nat>, links: seq<nat>, ghost before: Memory)
      returns (r: Outcome, p: Scratch, ghost left: seq<nat>)
      requires Bounded(mem, next) && KeptOutside(before, mem, {}) && root != Wiped && chain != Wiped
      requires NewOnly(before, mem, Among(closing + links)) && Distinct(closing + links)
      modifies this`mem, this`next
      ensures Bounded(mem, next) && KeptOutside(before, mem, {})
      ensures r == (if TooFar(0, h.n, opts.maxSkip) then SkipBound(h.n)
                    else match Open(Msg(Walk(chain, h.n)), h.n, h, body) case None => Refused case Some(text) => Opened(text))
      ensures r.Opened? ==> Apart(p) && NewOnly(before, mem, Parts(p)) && p.closing == closing
      ensures r.Opened? ==> Loads(mem, closing) == old(Loads(mem, closing)) && Loads(mem, p.keys) == PassedKeys(chain, h.n)
                            && p.rk in mem && p.nextCk in mem && mem[p.rk] == root && mem[p.nextCk] == Next(Walk(chain, h.n))
      ensures !r.Opened? ==> Distinct(left) && NewOnly(before, mem, Among(left))
      ensures !r.Opened? ==> Loads(mem, left) == if r.SkipBound? then old(Loads(mem, closing + links)) + [root, chain] else []
    {
      hide Holds, Live, Open, NewOnly, Walk, PassedKeys, Load, Among, Distinct, Loads;
      ghost var closed := mem;
      var scratch := closing + links;
      NewAreNew(before, closed, scratch);
      var srk, keys, nextCk, spent;
      r, srk, keys, nextCk, spent := OpenNew(root, chain, h, body, scratch);
      p, left := Scratch(closing, srk, keys, nextCk, spent + links), [];
      if r.Refused? {
        KeptThrough(before, closed, mem, scratch);
        WipedAgain(before, closed, mem, Among(scratch), scratch);
        NoneLeft(mem);
        return r, p, left;
      }
      LoadsKept(closed, mem, scratch, {});
      LoadsKept(closed, mem, closing, {});
      if r.SkipBound? {
        left := scratch + [srk, nextCk];
        StepsLeft(before, closed, mem, scratch, srk, nextCk);
      } else {
        OpenedParts(before, closed, mem, closing, links, srk, keys, nextCk, spent);
      }
    }

    /**
     * The current chain closed, then the new one opened; only new buffers are written. What a
     * frame leaves behind when its ciphertext does not decapsulate or its counter is over the
     * bound is never wiped: what was derived of the closed chain, and then the two step keys.
     */
    method CloseAndOpen(h: Header, body: Body) returns (r: Outcome, p: Scratch, ghost left: seq<nat>)
      requires Valid() && dhSelf.Some? && (h.pqCt.Some? ==> pqKey.Some?)
      modifies this`mem, this`next
      ensures Bounded(mem, next) && KeptOutside(old(mem), mem, {})
      ensures r == TurnOutcome(old(Value()), h, body)
      ensures r.Opened? ==> Apart(p) && TurnIkm(old(Value()), h).Some? && NewOnly(old(mem), mem, Parts(p))
      ensures r.Opened? ==> var s, ikm := old(Value()), TurnIkm(old(Value()), h).value;
                && Loads(mem, p.closing) == ClosingKeys(s, h.pn) && Loads(mem, p.keys) == PassedKeys(Chain(s.rk, ikm), h.n)
                && p.rk in mem && p.nextCk in mem && mem[p.rk] == Root(s.rk, ikm) && mem[p.nextCk] == Next(Walk(Chain(s.rk, ikm), h.n))
      ensures !r.Opened? ==> Distinct(left) && NewOnly(old(mem), mem, Among(left)) && Loads(mem, left) == AbandonedKeys(old(Value()), h)
    {
      hide Holds, Live, Deref, WellFormed, Pointed, ClosingKeys, ClosedOver, Loads, Open, NewOnly, Walk, PassedKeys, LoadHeld, Among, Distinct;
      p, left := Scratch([], 0, [], 0, []), [];
      ghost var before, s := mem, Value();
      var ok, closing, links := CloseChain(h.pn);
      if !ok {
        NoneLeft(mem);
        SameMemory(before);
        return SkipBound(h.pn - nRecv), p, left;
      }
      var ikm := TurnInput(h);
      if ikm.None? {
        left := closing + links;
        return Refused, p, left;
      }
      r, p, left := OpenBeside(Root(mem[rk], ikm.value), Chain(mem[rk], ikm.value), h, body, closing, links, before);
    }

    /** The peer's step on the side: whatever comes of it, every live buffer is as it was. */
    method TryTurn(h: Header, body: Body, ghost now: nat, ghost m: nat) returns (r: Outcome, p: Scratch, ghost left: seq<nat>)
      requires Valid()
      modifies this`mem, this`next
      ensures Valid() && Value() == old(Value()) && KeptOutside(old(mem), mem, {})
      ensures r == DecryptTurn(Value(), now, m, h, body).1
      ensures r.Opened? ==> Apart(p) && dhSelf.Some? && TurnIkm(Value(), h).Some? && NewOnly(old(mem), mem, Parts(p))
      ensures r.Opened? ==> var s, ikm := Value(), TurnIkm(Value(), h).value;
                && Loads(mem, p.closing) == ClosingKeys(s, h.pn) && Loads(mem, p.keys) == PassedKeys(Chain(s.rk, ikm), h.n)
                && p.rk in mem && p.nextCk in mem && mem[p.rk] == Root(s.rk, ikm) && mem[p.nextCk] == Next(Walk(Chain(s.rk, ikm), h.n))
      ensures !r.Opened? ==> Distinct(left) && NewOnly(old(mem), mem, Among(left)) && Loads(mem, left) == AbandonedKeys(Value(), h)
    {
      hide Holds, Live, Deref, WellFormed, Pointed, ClosingKeys, ClosedOver, Loads, Open, Walk, NewOnly, PassedKeys, Distinct, Among;
      p, left := Scratch([], 0, [], 0, []), [];
      if dhSelf.None? || (h.pqCt.Some? && pqKey.None?) {
        SameMemory(mem);
        NoneLeft(mem);
        return Refused, p, left;
      }
      ghost var before, low, s := mem, next, Value();
      TurnOutcomeIs(s, now, m, h, body);
      r, p, left := CloseAndOpen(h, body);
      LayoutFrame(before, mem, low, next, rk, ckSend, ckRecv, skipped.chains, opts.maxChains, {});
    }

    lemma SameMemory(before: Memory)
      ensures KeptOutside(before, before, {}) && NewOnly(before, before, Among([]))
    {
    }

    /** A turn prepared is taken as a whole. */
    method TakeTurn(now: nat, h: Header, p: Scratch, ghost ikm: Ikm)
      requires Valid() && Apart(p) && Tidy(strays + Parts(p)) && strays !! Parts(p) && h.dhPub != dhPeer
      requires Loads(mem, p.closing) == ClosingKeys(Value(), h.pn) && Loads(mem, p.keys) == PassedKeys(Chain(Value().rk, ikm), h.n)
      requires p.rk in mem && p.nextCk in mem && mem[p.rk] == Root(Value().rk, ikm) && mem[p.nextCk] == Next(Walk(Chain(Value().rk, ikm), h.n))
      modifies this, skipped
      ensures Valid() && Clean() && Value() == Turned(old(Value()), now, h, ikm) && seenPeerPq == old(seenPeerPq) && OnlyWiped(old(mem), mem)
      ensures strays == old(strays) + Replaced(old(skipped.chains), opts.maxChains, old(dhPeer), old(nRecv), |ClosingKeys(old(Value()), h.pn)|, h.dhPub, h.n)
    {
      hide Layout, Holds, Live, Deref, PutKeys, ClosingKeys, Moved, Settled, Turned, Loads, TidyAt, Replaced, PassedKeys;
      ghost var s := Value();
      LoadsLength(mem, p.closing, ClosingKeys(s, h.pn));
      LoadsLength(mem, p.keys, PassedKeys(Chain(s.rk, ikm), h.n));
      MovedIsTurned(s, now, h, ikm);
      CommitTurn(now, h, p);
      Settle(now, h);
    }

    /** The peer's turn; unwiped stay exactly what a failed turn abandons, or the keys that those passed over replace in the stash. */
    method ReceiveTurn(now: nat, m: nat, h: Header, body: Body) returns (o: TsOutcome, ghost left: seq<nat>)
      requires Valid() && Clean() && h.dhPub != dhPeer
      modifies this, skipped
      ensures Valid() && Clean() && OnlyWiped(old(mem), mem)
      ensures (Value(), o) == Report(old(Value()), h, DecryptTurn(old(Value()), now, m, h, body))
      ensures LeftTo(old(strays), strays, left)
      ensures var fits := DecryptTurn(old(Value()), now, m, h, body).1.Opened?;
              && (forall a :: a in left ==> if fits then old(Holds(skipped.chains, a)) else a !in old(mem))
              && Loads(mem, left) == if fits then ReplacedKeys(old(Value()), h) else AbandonedKeys(old(Value()), h)
    {
      hide Layout, Holds, Live, Deref, PutKeys, NotePeerPq, TurnIkm, ClosingKeys, Moved, Settled, Turned, DecryptTurn, Loads, TidyAt, NewOnly, KeptOutside,
           ReplacedBufs, AbandonedKeys, PassedKeys, OnlyWiped;
      TurnSplits(Value(), now, m, h, body);
      ghost var before, low, s, stash := mem, next, Value(), skipped.chains;
      var r, p;
      r, p, left := TryTurn(h, body, now, m);
      if !r.Opened? {
        NewTidy(before, mem, low, strays, Among(left), rk, ckSend, ckRecv, stash, opts.maxChains);
        NoneMore(before, mem, strays);
        strays := strays + Among(left);
        return Answer(r), left;
      }
      NewTidy(before, mem, low, strays, Parts(p), rk, ckSend, ckRecv, stash, opts.maxChains);
      ghost var mid := mem;
      left := ReplacedBufs(stash, opts.maxChains, s.dhPeer, s.nRecv, |ClosingKeys(s, h.pn)|, h.dhPub, h.n);
      ReplacedAsKeys(before, low, strays, rk, ckSend, ckRecv, stash, s, h);
      TakeTurn(now, h, p, TurnIkm(s, h).value);
      WipedSince(before, mid, mem);
      KeptLeft(before, mem, left, strays, rk, ckSend, ckRecv, skipped.chains);
      var bad := NotePeer(h.pqPub, m);
      return if bad then BadPeerKey else Answer(r), left;
    }

    /** What a turn of the peer's settles apart from the keys. */
    method Settle(now: nat, h: Header)
      requires Valid()
      modifies this`stepBeforeSend, this`ctInFlight, this`pqKey, this`stepsSincePq, this`lastPqAt, this`pqStepsDone
      ensures Valid() && Value() == Settled(old(Value()), now, h)
    {
      hide Layout, Deref, Load, LoadOpt;
      stepBeforeSend, ctInFlight := true, None;
      if h.pqCt.Some? {
        CountAnswer(now);
      }
    }

    /** The peer's ciphertext answered our key: it is spent. */
    method CountAnswer(now: nat)
      requires Valid()
      modifies this`pqKey, this`stepsSincePq, this`lastPqAt, this`pqStepsDone
      ensures Valid() && Value() == AnswerTaken(old(Value()), now)
    {
      hide Layout, Deref, Load, LoadOpt;
      pqKey, stepsSincePq, lastPqAt, pqStepsDone := None, 0, now, pqStepsDone + 1;
    }

    /** A held key's frame opened: the key is wiped and gone. */
    method SpendStashed(pub: nat, n: nat)
      requires Valid() && Clean() && Find(skipped.chains, pub, n).Some?
      modifies this`mem, skipped
      ensures Valid() && Clean() && Value() == old(Value()).(skipped := DropKey(old(Value()).skipped, pub, n)) && OnlyWiped(old(mem), mem)
      ensures forall a :: old(Holds(skipped.chains, a)) && !Holds(skipped.chains, a) ==> a in mem && mem[a] == Wiped
    {
      hide Deref, WellFormed, Find, DropKey, LoadOpt;
      ghost var s, before := skipped.chains, mem;
      var held := skipped.Peek(pub, n);
      var a := held.value.addr;
      DropPointed(mem, s, opts.maxChains, pub, n, a);
      DerefDrop(mem, s, pub, n);
      Fill(a);
      skipped.Drop(pub, n);
      LayoutFrame(before, mem, next, next, rk, ckSend, ckRecv, skipped.chains, opts.maxChains, {a});
      DropTidy(s, opts.maxChains, pub, n, a);
    }

    /**
     * One frame in. On every way out the state is the one the ratchet on values reaches, no
     * buffer is written but with zeros, and what is not wiped is exactly what something needs,
     * what had been left before, and `left`: new buffers of a turn that failed after the
     * current chain was closed, or the buffers of stashed keys that an opened frame replaced.
     */
    method Receive(now: nat, m: nat, f: Frame) returns (o: TsOutcome, ghost left: seq<nat>)
      requires Valid() && Clean()
      modifies this, skipped
      ensures Valid() && Clean() && OnlyWiped(old(mem), mem)
      ensures (Value(), o) == TsDecrypt(old(Value()), now, m, f)
      ensures LeftTo(old(strays), strays, left) && Loads(mem, left) == LeftBy(old(Value()), now, m, f)
      ensures strays == old(strays) <==> LeftBy(old(Value()), now, m, f) == []
      ensures forall a :: a in left ==> if Decrypt(old(Value()), now, m, f).1.Opened? then old(Holds(skipped.chains, a)) else a !in old(mem)
      ensures f.Frame? ==> forall a :: old(AgedOut(skipped.chains, a, now, opts.ttl)) ==> a in mem && mem[a] == Wiped
    {
      hide AgedOut, Layout, Holds, Live, Deref, PutKeys, NotePeerPq, DecryptTurn, DecryptSame, PruneKeys, Find, TidyAt, ReplacedKeys,
           AbandonedKeys, ClosingKeys, Loads, OnlyWiped;
      left := [];
      ghost var before, had := mem, strays;
      NoneLeft(mem);
      NoneMore(mem, mem, strays);
      if f.Undecodable? {
        return Answer(Refused), left;
      }
      var h, body := f.header, f.body;
      ghost var stash := skipped.chains;
      Prune(now);
      assert forall a :: AgedOut(stash, a, now, opts.ttl) ==> a in mem && mem[a] == Wiped;
      ghost var mid := mem;
      NoneLeft(mem);
      StashedKey(mem, skipped.chains, h.dhPub, h.n);
      var stashed := skipped.Peek(h.dhPub, h.n);
      if stashed.Some? {
        var pt := Open(Load(mem, stashed.value), h.n, h, body);
        if pt.None? {
          return Answer(Refused), left;
        }
        SpendStashed(h.dhPub, h.n);
        NoneLeft(mem);
        OnlyWipedOn(before, mid, mem);
        StaysWiped(mid, mem);
        var bad := NotePeer(h.pqPub, m);
        return if bad then BadPeerKey else Answer(Opened(pt.value)), left;
      }
      if h.dhPub == dhPeer {
        o, left := ReceiveSame(now, m, h, body);
      } else {
        o, left := ReceiveTurn(now, m, h, body);
      }
      LeftSome(had, strays, mem, left);
      OnlyWipedOn(before, mid, mem);
      StaysWiped(mid, mem);
    }

    // ----------------------------------------------------------------------
    // sending
    // ----------------------------------------------------------------------

    /** Takes the secret owed to the peer, if any, into the input of the next root step. */
    method MixOwed(dh: DhOut, now: nat) returns (ikm: Ikm)
      requires Valid()
      modifies this`pendingSs, this`pendingCt, this`ctInFlight, this`stepsSincePq, this`lastPqAt, this`pqStepsDone
      ensures Valid() && ikm == OwedIkm(old(Value()), dh) && Value() == OwedTaken(old(Value()), now)
    {
      hide Layout, Deref, Load, LoadOpt;
      if pendingSs.Some? {
        ikm := Hybrid(dh, pendingSs.value);
        pendingSs, ctInFlight, pendingCt := None, pendingCt, None;
        stepsSincePq, lastPqAt, pqStepsDone := 0, now, pqStepsDone + 1;
      } else {
        ikm := Classical(dh);
        stepsSincePq := stepsSincePq + 1;
      }
    }

    /** A root and a chain in new buffers; the old root and sending chain are wiped. */
    method FreshRoots(ikm: Ikm) returns (root: nat, chain: nat)
      requires Valid() && Clean()
      modifies this`mem, this`next
      ensures Layout(mem, next, root, Some(chain), ckRecv, skipped.chains, opts.maxChains)
      ensures TidyAt(mem, strays, root, Some(chain), ckRecv, skipped.chains)
      ensures forall a :: a == rk || Some(a) == ckSend ==> a in mem && mem[a] == Wiped
      ensures Deref(mem, skipped.chains) == Deref(old(mem), skipped.chains) && LoadOpt(mem, ckRecv) == LoadOpt(old(mem), ckRecv)
      ensures Load(mem, At(root)) == Root(old(Value()).rk, ikm) && LoadOpt(mem, Some(chain)) == Some(Chain(old(Value()).rk, ikm))
    {
      hide Layout, TidyAt, Live, Holds, Deref, Load, LoadOpt;
      ghost var before, low := mem, next;
      NewRoots(before, low, rk, ckSend, ckRecv, skipped.chains, opts.maxChains);
      root := New(Root(mem[rk], ikm));
      chain := New(Chain(mem[rk], ikm));
      Fill(rk);
      if ckSend.Some? {
        Fill(ckSend.value);
      }
      SendRootsMoved(before, mem, strays, low, next, rk, ckSend, ckRecv, root, chain, skipped.chains, opts.maxChains);
    }

    /** Old root and sending chain wiped, new ones in. */
    method SwapSend(ikm: Ikm)
      requires Valid() && Clean() && dhSelf.Some?
      modifies this`mem, this`next, this`rk, this`ckSend
      ensures Valid() && Clean() && ckSend.Some?
      ensures forall a :: a == old(rk) || Some(a) == old(ckSend) ==> a in mem && mem[a] == Wiped
      ensures Value() == old(Value()).(rk := Root(old(Value()).rk, ikm), ckSend := Some(Chain(old(Value()).rk, ikm)))
    {
      hide Layout, Live, Deref, Load, LoadOpt, TidyAt;
      var root, chain := FreshRoots(ikm);
      rk, ckSend := root, Some(chain);
    }

    /** A fresh chain is announced: the counters start over, and it may be time for a KEM key of our own. */
    method Announce(kem: nat, now: nat)
      requires Valid()
      modifies this`pn, this`nSend, this`stepBeforeSend, this`pqKey
      ensures Valid()
      ensures Value() == old(Value()).(pn := old(nSend), nSend := 0, stepBeforeSend := false,
                                       pqKey := if TsTimeToIssue(old(Value()), now) then Some(kem) else old(pqKey))
    {
      hide Layout, Deref, Load, LoadOpt;
      pn, nSend := nSend, 0;
      stepBeforeSend := false;
      if pqKey.None? && (stepsSincePq >= opts.pqEverySteps || now - lastPqAt >= opts.pqEveryMs) {
        pqKey := Some(kem);
      }
    }

    method NewRatchetKey(me: nat)
      requires Valid()
      modifies this`dhSelf
      ensures Valid() && Value() == old(Value()).(dhSelf := Some(me))
    {
      hide Layout, Deref, Load, LoadOpt;
      dhSelf := Some(me);
    }

    /** A new ratchet key and a root step with whatever is owed. */
    method StepKeys(me: nat, now: nat)
      requires Valid() && Clean()
      modifies this`mem, this`next, this`rk, this`ckSend, this`dhSelf,
               this`pendingSs, this`pendingCt, this`ctInFlight, this`stepsSincePq, this`lastPqAt, this`pqStepsDone
      ensures Valid() && Clean() && ckSend.Some? && Value() == KeysStepped(old(Value()), me, now)
    {
      hide Layout, Deref, Load, LoadOpt, TidyAt;
      NewRatchetKey(me);
      var ikm := MixOwed(Dh(me, dhPeer), now);
      SwapSend(ikm);
    }

    /** The turn: the keys stepped, a fresh chain announced. */
    method StepRoot(me: nat, kem: nat, now: nat)
      requires Valid() && Clean()
      modifies this`mem, this`next, this`rk, this`ckSend, this`dhSelf, this`pn, this`nSend, this`stepBeforeSend, this`pqKey,
               this`pendingSs, this`pendingCt, this`ctInFlight, this`stepsSincePq, this`lastPqAt, this`pqStepsDone
      ensures Valid() && Clean() && ckSend.Some? && Value() == TsOpenChain(old(Value()), me, kem, now)
    {
      hide Layout, Deref, Load, LoadOpt, TidyAt, KeysStepped, TsOpenChain, TsTimeToIssue;
      ghost var s := Value();
      StepKeys(me, now);
      Announce(kem, now);
      SteppedOpens(s, me, kem, now);
    }

    /** The next sending link in a new buffer and the message key of this one; the live link and the message key are wiped. */
    method FreshLink() returns (key: Key, forward: nat)
      requires Valid() && Clean() && ckSend.Some?
      modifies this`mem, this`next
      ensures Layout(mem, next, rk, Some(forward), ckRecv, skipped.chains, opts.maxChains)
      ensures TidyAt(mem, strays, rk, Some(forward), ckRecv, skipped.chains)
      ensures ckSend.value in mem && mem[ckSend.value] == Wiped
      ensures Deref(mem, skipped.chains) == Deref(old(mem), skipped.chains) && Load(mem, At(rk)) == Load(old(mem), At(rk))
      ensures LoadOpt(mem, ckRecv) == LoadOpt(old(mem), ckRecv)
      ensures key == Msg(old(Value()).ckSend.value) && LoadOpt(mem, Some(forward)) == Some(Next(old(Value()).ckSend.value))
    {
      hide Holds, Deref, WellFormed, Pointed;
      ghost var before, low := mem, next;
      NewIsSpare(before, low, rk, ckSend, ckRecv, skipped.chains, opts.maxChains);
      var live := ckSend.value;
      var mk := New(Msg(mem[live]));
      forward := New(Next(mem[live]));
      Fill(live);
      key := mem[mk];
      Fill(mk);
      LayoutFrame(before, mem, low, next, rk, None, ckRecv, skipped.chains, opts.maxChains, {live});
      assert !Live(forward, rk, ckSend, ckRecv, skipped.chains) && !Live(mk, rk, ckSend, ckRecv, skipped.chains);
    }

    /** The message key of the sending chain; the chain moves on in a new buffer and the old one is wiped. */
    method TakeSendKey() returns (key: Key)
      requires Valid() && Clean() && ckSend.Some?
      modifies this`mem, this`next, this`ckSend
      ensures Valid() && Clean() && ckSend.Some? && key == Msg(old(Value()).ckSend.value)
      ensures Value() == old(Value()).(ckSend := Some(Next(old(Value()).ckSend.value)))
    {
      hide Layout, Live, Deref, Load, LoadOpt, TidyAt;
      var forward;
      key, forward := FreshLink();
      ckSend := Some(forward);
    }

    /** One frame out: the same frame and the same state as on values, and all that nothing needs any more is wiped. */
    method Send(me: nat, kem: nat, now: nat, text: string) returns (f: Frame)
      requires Valid() && Clean()
      modifies this
      ensures Valid() && Clean() && strays == old(strays)
      ensures (Value(), f) == TsEncrypt(old(Value()), me, kem, now, text)
    {
      hide Layout, Deref, TsOpenChain, TidyAt;
      if stepBeforeSend || ckSend.None? {
        StepRoot(me, kem, now);
      }
      var key := TakeSendKey();
      var header := Header(dhSelf.value, pn, nSend, ctInFlight, if pqKey.Some? then Some(KemPub(pqKey.value)) else None);
      f := Frame(header, Sealed(key, nSend, header, text));
      nSend := nSend + 1;
    }
  }

  /** The buffers of a session's first step. */
  lemma FirstLayout(mem: Memory, sk: Key, ikm: Ikm, ckSend: Option<nat>, ckRecv: Option<nat>, max: nat)
    requires mem == map[0 := Wiped, 1 := Root(sk, ikm), 2 := Chain(sk, ikm)] && max >= 1
    requires (ckSend == Some(2) && ckRecv.None?) || (ckRecv == Some(2) && ckSend.None?)
    ensures Layout(mem, 3, 1, ckSend, ckRecv, [], max) && TidyAt(mem, {}, 1, ckSend, ckRecv, [])
    ensures Load(mem, At(1)) == Root(sk, ikm) && Deref(mem, []) == []
    ensures LoadOpt(mem, ckSend) == (if ckSend.Some? then Some(Chain(sk, ikm)) else None)
    ensures LoadOpt(mem, ckRecv) == (if ckRecv.Some? then Some(Chain(sk, ikm)) else None)
  {
  }

  lemma StoreWell(mem: Memory, next: nat, rk: nat, ckSend: Option<nat>, ckRecv: Option<nat>, s: Store, max: nat)
    requires Layout(mem, next, rk, ckSend, ckRecv, s, max)
    ensures max >= 1 && WellFormed(s, max)
  {
  }

  /** Looking up an address and loading it is looking up the key. */
  lemma StashedKey(mem: Memory, s: Store, pub: nat, n: nat)
    ensures Find(Deref(mem, s), pub, n)
         == (match Find(s, pub, n) case Some(h) => Some(Held(Load(mem, h.key), h.at)) case None => None)
  {
    DerefFind(mem, s, pub, n);
  }

  lemma NewRoots(mem: Memory, next: nat, rk: nat, ckSend: Option<nat>, ckRecv: Option<nat>, s: Store, max: nat)
    requires Layout(mem, next, rk, ckSend, ckRecv, s, max)
    ensures Bounded(mem, next) && rk in mem && (ckSend.Some? ==> ckSend.value in mem && ckSend.value != rk) && Load(mem, At(rk)) == mem[rk]
  {
  }

  /** The old root and sending chain wiped, two new buffers made. */
  predicate RootsMade(before: Memory, after: Memory, rk: nat, ckSend: Option<nat>, root: nat, chain: nat) {
    && after.Keys == before.Keys + {root, chain}
    && (forall a :: a in before ==> after[a] == if a == rk || Some(a) == ckSend then Wiped else before[a])
  }

  /** With the old root and sending chain wiped, the new ones stand in a sound and tidy layout. */
  lemma SendRootsMoved(before: Memory, after: Memory, loose: set<nat>, low: nat, next: nat, rk: nat, ckSend: Option<nat>, ckRecv: Option<nat>,
                       root: nat, chain: nat, s: Store, max: nat)
    requires Layout(before, low, rk, ckSend, ckRecv, s, max) && TidyAt(before, loose, rk, ckSend, ckRecv, s) && Bounded(after, next)
    requires root >= low && chain >= low && root != chain && RootsMade(before, after, rk, ckSend, root, chain)
    requires after[root] != Wiped && after[chain] != Wiped
    ensures Layout(after, next, root, Some(chain), ckRecv, s, max) && TidyAt(after, loose, root, Some(chain), ckRecv, s)
    ensures Deref(after, s) == Deref(before, s) && LoadOpt(after, ckRecv) == LoadOpt(before, ckRecv)
    ensures Load(after, At(root)) == after[root] && LoadOpt(after, Some(chain)) == Some(after[chain])
  {
    hide WellFormed, Pointed, Holds, Deref;
    NewIsSpare(before, low, rk, ckSend, ckRecv, s, max);
    DerefFrame(before, after, s, max, {rk} + (if ckSend.Some? then {ckSend.value} else {}));
    LiveIsHere(before, low, rk, ckSend, ckRecv, s, max);
  }

  /** Buffers a turn has prepared: keys to stash, the new root and chain, and what is spent once they are in. */
  datatype Scratch = Scratch(closing: seq<nat>, rk: nat, keys: seq<nat>, nextCk: nat, spent: seq<nat>)

  /** No part of what was prepared is used twice. */
  predicate Apart(p: Scratch) {
    && Distinct(p.closing + p.keys)
    && p.rk != p.nextCk && p.rk !in p.closing + p.keys + p.spent && p.nextCk !in p.closing + p.keys + p.spent
    && forall a :: a in p.spent ==> a !in p.closing + p.keys
  }

  /** The peer's turn taken with given keys for the two chains, the root and the receiving chain. */
  function Moved(s: State, now: nat, h: Header, closing: seq<Key>, keys: seq<Key>, root: Key, chain: Key): State {
    var closed := PutKeys(s.skipped, s.opts.maxChains, s.dhPeer, s.nRecv, closing, now);
    s.(skipped := PutKeys(closed, s.opts.maxChains, h.dhPub, 0, keys, now),
       rk := root, ckRecv := Some(chain), dhPeer := h.dhPub, nRecv := h.n + 1)
  }

  /** What else a turn changes: the answered key is spent, the carried ciphertext is in. */
  function Settled(s: State, now: nat, h: Header): State {
    (if h.pqCt.Some? then AnswerTaken(s, now) else s).(stepBeforeSend := true, ctInFlight := None)
  }

  lemma MovedIsTurned(s: State, now: nat, h: Header, ikm: Ikm)
    ensures Settled(Moved(s, now, h, ClosingKeys(s, h.pn), PassedKeys(Chain(s.rk, ikm), h.n), Root(s.rk, ikm), Next(Walk(Chain(s.rk, ikm), h.n))), now, h)
         == Turned(s, now, h, ikm)
  {
  }

  /** A frame on the current chain either opens and moves it on, or leaves the state alone. */
  lemma SameSplits(s: State, now: nat, m: nat, h: Header, body: Body)
    ensures var (t, o) := DecryptSame(s, now, m, h, body);
            if o.Opened? then
              && s.ckRecv.Some? && s.nRecv <= h.n
              && t == NotePeerPq(s.(skipped := PutKeys(s.skipped, s.opts.maxChains, h.dhPub, s.nRecv, PassedKeys(s.ckRecv.value, h.n - s.nRecv), now),
                                    ckRecv := Some(Next(Walk(s.ckRecv.value, h.n - s.nRecv))), nRecv := h.n + 1), h.pqPub, m)
            else t == s
  {
    hide PutKeys, NotePeerPq, PassedKeys;
  }

  /** A turn either opens and is taken as a whole, or leaves the state alone. */
  lemma TurnSplits(s: State, now: nat, m: nat, h: Header, body: Body)
    ensures var (t, o) := DecryptTurn(s, now, m, h, body);
            if o.Opened? then s.dhSelf.Some? && TurnIkm(s, h).Some? && t == NotePeerPq(Turned(s, now, h, TurnIkm(s, h).value), h.pqPub, m)
            else t == s
  {
  }

  lemma RootIsLive(mem: Memory, loose: set<nat>, rk: nat, ckSend: Option<nat>, ckRecv: Option<nat>, s: Store)
    requires TidyAt(mem, loose, rk, ckSend, ckRecv, s)
    ensures rk !in loose
  {
  }

  /** Once new roots have moved in, nothing needs the old root, the old receiving chain or what was spent. */
  lemma SpentAreDead(rk: nat, ckSend: Option<nat>, ckRecv: Option<nat>, s: Store, root: nat, chain: nat,
                     spent: seq<nat>, rest: seq<nat>, mem: Memory, next: nat, max: nat, loose: set<nat>)
    requires Layout(mem, next, rk, ckSend, ckRecv, s, max) && TidyAt(mem, loose, rk, ckSend, ckRecv, s)
    requires (root in loose || root == rk) && chain in loose && Among(rest) <= loose && chain !in rest
    requires root in loose ==> root != chain && root !in rest
    requires spent == (if root == rk then [] else [rk]) + (if ckRecv.Some? then [ckRecv.value] else []) + rest
    ensures forall a :: a in spent ==> a in mem && !Live(a, root, ckSend, Some(chain), s)
    ensures Layout(mem, next, root, ckSend, Some(chain), s, max) && Bounded(mem, next) && root != chain
  {
    hide Holds, WellFormed, Pointed;
    forall a | a in spent ensures a in mem && !Live(a, root, ckSend, Some(chain), s) {
      assert a == rk || Some(a) == ckRecv || a in rest;
    }
  }

  lemma TwoParts(a: seq<nat>, b: seq<nat>)
    requires Distinct(a + b)
    ensures Distinct(a) && Distinct(b) && forall x :: x in a ==> x !in b
  {
    forall i, j | 0 <= i < j < |b| ensures b[i] != b[j] {
      assert (a + b)[|a| + i] == b[i] && (a + b)[|a| + j] == b[j];
    }
    forall i, j | 0 <= i < j < |a| ensures a[i] != a[j] {
      assert (a + b)[i] == a[i] && (a + b)[j] == a[j];
    }
    forall i, j | 0 <= i < |a| && 0 <= j < |b| ensures a[i] != b[j] {
      assert (a + b)[i] == a[i] && (a + b)[|a| + j] == b[j];
    }
  }

  lemma LoadsKept(before: Memory, after: Memory, keys: seq<nat>, gone: set<nat>)
    requires KeptOutside(before, after, gone) && forall i :: 0 <= i < |keys| ==> keys[i] in before && keys[i] !in gone
    ensures Loads(after, keys) == Loads(before, keys) && forall i :: 0 <= i < |keys| ==> keys[i] in after
  {
  }

  lemma LoadsSame(before: Memory, after: Memory, keys: seq<nat>)
    requires forall a :: a in keys ==> a in before && a in after && after[a] == before[a]
    ensures Loads(after, keys) == Loads(before, keys)
  {
    forall i | 0 <= i < |keys| ensures Load(after, At(keys[i])) == Load(before, At(keys[i])) {
      assert keys[i] in keys;
    }
  }

  // ------------------------------------------------------------------------
  // what is wiped and what is not
  // ------------------------------------------------------------------------

  /** What a walk that opened its frame has made. */
  function Tried(keys: seq<nat>, mk: nat, end: nat, nextCk: nat, live: nat): set<nat> {
    Among(keys) + {mk, nextCk} + Beside(end, live)
  }

  predicate Fork(keys: seq<nat>, mk: nat, end: nat, nextCk: nat) {
    nextCk !in keys && mk !in keys && end !in keys && mk != nextCk && end != nextCk && end != mk
  }

  /** These buffers are what is left over now and was not before. */
  predicate LeftTo(before: set<nat>, strays: set<nat>, left: seq<nat>) {
    Distinct(left) && before !! Among(left) && strays == before + Among(left)
  }

  function Parts(p: Scratch): set<nat> {
    Among(p.closing) + Among(p.keys) + Among(p.spent) + {p.rk, p.nextCk}
  }

  /** What a turn comes to once a ratchet key and any KEM key it needs are there. */
  function TurnOutcome(s: State, h: Header, body: Body): Outcome
    requires s.dhSelf.Some?
  {
    if s.ckRecv.Some? && TooFar(s.nRecv, h.pn, s.opts.maxSkip) then SkipBound(h.pn - s.nRecv)
    else match TurnIkm(s, h)
      case None => Refused
      case Some(ikm) =>
        if TooFar(0, h.n, s.opts.maxSkip) then SkipBound(h.n)
        else match Open(Msg(Walk(Chain(s.rk, ikm), h.n)), h.n, h, body)
          case None => Refused
          case Some(text) => Opened(text)
  }

  lemma TurnOutcomeIs(s: State, now: nat, m: nat, h: Header, body: Body)
    requires s.dhSelf.Some? && (h.pqCt.Some? ==> s.pqKey.Some?)
    ensures DecryptTurn(s, now, m, h, body).1 == TurnOutcome(s, h, body)
  {
    hide Turned, NotePeerPq;
  }

  /** What closing the current chain derives: the keys it owes, and the link walked to. */
  function ClosedOver(s: State, pn: nat): seq<Key> {
    ClosingKeys(s, pn) + (if s.ckRecv.Some? && pn > s.nRecv then [Walk(s.ckRecv.value, pn - s.nRecv)] else [])
  }

  /** The keys a turn that does not open leaves in memory. */
  function AbandonedKeys(s: State, h: Header): seq<Key> {
    if s.dhSelf.None? || (h.pqCt.Some? && s.pqKey.None?) || (s.ckRecv.Some? && TooFar(s.nRecv, h.pn, s.opts.maxSkip)) then []
    else match TurnIkm(s, h)
      case None => ClosedOver(s, h.pn)
      case Some(ikm) => if TooFar(0, h.n, s.opts.maxSkip) then ClosedOver(s, h.pn) + [Root(s.rk, ikm), Chain(s.rk, ikm)] else []
  }

  /** The keys held at `count` counters from `start` on. */
  function HeldKeys(s: Store, pub: nat, start: nat, count: nat): seq<Key> {
    if count == 0 then []
    else HeldKeys(s, pub, start, count - 1) + (match Find(s, pub, start + count - 1) case Some(h) => [h.key] case None => [])
  }

  /** The stashed keys that opening this frame puts others over. A put of the closed chain may evict the new one's first. */
  function ReplacedKeys(p: State, h: Header): seq<Key> {
    if h.dhPub == p.dhPeer then HeldKeys(p.skipped, h.dhPub, p.nRecv, Steps(p.nRecv, h.n))
    else
      var count := |ClosingKeys(p, h.pn)|;
      HeldKeys(p.skipped, p.dhPeer, p.nRecv, count)
      + if count > 0 && EvictedBy(p.skipped, p.opts.maxChains, p.dhPeer, h.dhPub) then [] else HeldKeys(p.skipped, h.dhPub, 0, h.n)
  }

  /** The keys that receiving this frame leaves unwiped though nothing needs them any more. */
  function LeftBy(s: State, now: nat, m: nat, f: Frame): seq<Key> {
    match f
    case Undecodable => []
    case Frame(h, _) =>
      var p := Pruned(s, now);
      if Find(p.skipped, h.dhPub, h.n).Some? then []
      else if Decrypt(s, now, m, f).1.Opened? then ReplacedKeys(p, h)
      else if h.dhPub != p.dhPeer then AbandonedKeys(p, h)
      else []
  }

  predicate HeldBetween(s: Store, pub: nat, from: nat, end: nat) {
    exists n: nat :: from <= n < end && Find(s, pub, n).Some?
  }

  lemma {:induction false} HeldKeysIff(s: Store, pub: nat, start: nat, count: nat)
    ensures HeldKeys(s, pub, start, count) != [] <==> HeldBetween(s, pub, start, start + count)
  {
    hide Find;
    if count > 0 {
      HeldKeysIff(s, pub, start, count - 1);
      if Find(s, pub, start + count - 1).Some? {
        assert HeldBetween(s, pub, start, start + count);
      }
    }
  }

  /** A put of this frame's comes where a key is held already. */
  predicate PutsOnHeld(p: State, h: Header) {
    if h.dhPub == p.dhPeer then HeldBetween(p.skipped, h.dhPub, p.nRecv, h.n)
    else
      var closing := p.ckRecv.Some? && h.pn > p.nRecv;
      || (closing && HeldBetween(p.skipped, p.dhPeer, p.nRecv, h.pn))
      || (HeldBetween(p.skipped, h.dhPub, 0, h.n) && !(closing && EvictedBy(p.skipped, p.opts.maxChains, p.dhPeer, h.dhPub)))
  }

  /** The turn gets as far as closing the chain, and then its ciphertext is none or its counter is over the bound. */
  predicate Abandons(p: State, h: Header) {
    && p.dhSelf.Some? && (h.pqCt.Some? ==> p.pqKey.Some?) && (p.ckRecv.Some? ==> h.pn <= p.nRecv + p.opts.maxSkip)
    && if h.pqCt == Some(WrongLengthCt) then p.ckRecv.Some? && h.pn > p.nRecv else h.n > p.opts.maxSkip
  }

  /**
   * Exactly when a key is left: the frame opens and puts a key where one is held, or it does
   * not, comes under an unknown ratchet key, and its turn fails after closing the chain.
   */
  lemma WhenKeysAreLeft(s: State, now: nat, m: nat, f: Frame)
    ensures LeftBy(s, now, m, f) != [] <==>
              && f.Frame? && Find(Pruned(s, now).skipped, f.header.dhPub, f.header.n).None?
              && if Decrypt(s, now, m, f).1.Opened? then PutsOnHeld(Pruned(s, now), f.header)
                 else f.header.dhPub != s.dhPeer && Abandons(Pruned(s, now), f.header)
  {
    hide Decrypt, Find, PruneKeys, EvictedBy, HeldBetween;
    if f.Frame? {
      var p, h := Pruned(s, now), f.header;
      if Find(p.skipped, h.dhPub, h.n).None? {
        if Decrypt(s, now, m, f).1.Opened? {
          WhenReplaced(p, h);
        } else {
          WhenAbandoned(p, h);
        }
      }
    }
  }

  lemma WhenAbandoned(p: State, h: Header)
    ensures AbandonedKeys(p, h) != [] <==> Abandons(p, h)
  {
  }

  lemma WhenReplaced(p: State, h: Header)
    ensures ReplacedKeys(p, h) != [] <==> PutsOnHeld(p, h)
  {
    hide Find, EvictedBy;
    if h.dhPub == p.dhPeer {
      HeldKeysIff(p.skipped, h.dhPub, p.nRecv, Steps(p.nRecv, h.n));
    } else {
      HeldKeysIff(p.skipped, p.dhPeer, p.nRecv, |ClosingKeys(p, h.pn)|);
      HeldKeysIff(p.skipped, h.dhPub, 0, h.n);
    }
  }

  /** A frame nobody sealed, under a ratchet key never seen, with one key owed and a counter one over the bound: four keys stay. */
  lemma ForgedTurnLeavesKeys(s: State, now: nat, m: nat, d: nat, noise: nat)
    requires s.dhSelf.Some? && s.ckRecv.Some? && s.opts.maxSkip >= 1
    requires d != s.dhPeer && Find(Pruned(s, now).skipped, d, s.opts.maxSkip + 1).None?
    ensures var f := Frame(Header(d, s.nRecv + 1, s.opts.maxSkip + 1, None, None), Noise(noise));
            var ck, ikm := s.ckRecv.value, Classical(Dh(s.dhSelf.value, d));
            && Decrypt(s, now, m, f) == (Pruned(s, now), SkipBound(s.opts.maxSkip + 1))
            && LeftBy(s, now, m, f) == [Msg(ck), Next(ck), Root(s.rk, ikm), Chain(s.rk, ikm)]
  {
    hide PruneKeys, Find;
    OneClosed(s.ckRecv.value);
  }

  /** The same with a ciphertext of the wrong length: the key owed and the link walked to stay. */
  lemma WrongLengthLeavesKeys(s: State, now: nat, m: nat, d: nat, n: nat, noise: nat)
    requires s.dhSelf.Some? && s.ckRecv.Some? && s.pqKey.Some? && s.opts.maxSkip >= 1
    requires d != s.dhPeer && Find(Pruned(s, now).skipped, d, n).None?
    ensures var f := Frame(Header(d, s.nRecv + 1, n, Some(WrongLengthCt), None), Noise(noise));
            && Decrypt(s, now, m, f) == (Pruned(s, now), Refused)
            && LeftBy(s, now, m, f) == [Msg(s.ckRecv.value), Next(s.ckRecv.value)]
  {
    hide PruneKeys, Find;
    OneClosed(s.ckRecv.value);
  }

  lemma OneClosed(ck: Key)
    ensures PassedKeys(ck, 1) == [Msg(ck)] && Walk(ck, 1) == Next(ck)
  {
    assert Walk(ck, 0) == ck;
  }

  /** A peer that turns back to an old ratchet key: the frame opens, and the key still held for it there stays. */
  lemma ReusedKeyReplaces(s: State, now: nat, m: nat, d: nat, text: string)
    requires s.dhSelf.Some? && s.opts.maxSkip >= 1 && d != s.dhPeer
    requires Find(Pruned(s, now).skipped, d, 0).Some? && Find(Pruned(s, now).skipped, d, 1).None?
    ensures var h := Header(d, 0, 1, None, None);
            var f := Frame(h, Sealed(Msg(Next(Chain(s.rk, Classical(Dh(s.dhSelf.value, d))))), 1, h, text));
            && Decrypt(s, now, m, f).1 == Opened(text)
            && LeftBy(s, now, m, f) == [Find(Pruned(s, now).skipped, d, 0).value.key]
  {
    hide PruneKeys, Find, Turned, NotePeerPq, EvictedBy;
    OneClosed(Chain(s.rk, Classical(Dh(s.dhSelf.value, d))));
    var p := Pruned(s, now);
    assert ClosingKeys(p, 0) == [];
    assert HeldKeys(p.skipped, d, 0, 0) == [] && HeldKeys(p.skipped, p.dhPeer, p.nRecv, 0) == [];
    assert HeldKeys(p.skipped, d, 0, 1) == [Find(p.skipped, d, 0).value.key];
  }

  lemma HeldIsOk(turns: seq<C.Turn>, i: nat, v: C.Half, d: nat, n: nat)
    requires C.StashSide(turns, i, v)
    ensures Find(v.st.skipped, d, n).Some? ==> C.HeldOk(turns, i, v, d, n, Find(v.st.skipped, d, n).value.key)
  {
  }

  lemma NoneAhead(sk: Key, ekR: nat, turns: seq<C.Turn>, i: nat, v: C.Half, n: nat)
    requires C.TurnsOk(sk, ekR, turns) && C.HalfOk(sk, ekR, turns, i, v) && n >= v.st.nRecv
    ensures Find(v.st.skipped, v.st.dhPeer, n).None?
  {
    if v.recv >= 0 { C.TurnOfOwn(sk, ekR, turns, v.recv); }
    HeldIsOk(turns, i, v, v.st.dhPeer, n);
  }

  lemma NoneBeyond(turns: seq<C.Turn>, i: nat, v: C.Half, pub: nat, n: nat)
    requires C.StashSide(turns, i, v) && C.TurnOf(turns, pub) > v.recv
    ensures Find(v.st.skipped, pub, n).None?
  {
    HeldIsOk(turns, i, v, pub, n);
  }

  /** In a conversation with an honest peer a frame that opens leaves nothing unwiped: no key in the stash is ever replaced. */
  lemma HonestReplacesNothing(sk: Key, ekR: nat, turns: seq<C.Turn>, i: nat, h: C.Half, now: nat, m: nat, f: Frame)
    requires C.TurnsOk(sk, ekR, turns) && C.HalfOk(sk, ekR, turns, i, h) && C.Admissible(sk, turns, f)
    requires Decrypt(h.st, now, m, f).1.Opened?
    ensures LeftBy(h.st, now, m, f) == []
  {
    hide Decrypt, Find, C.TurnsOk, C.SendSide, C.RecvSide, PruneKeys, EvictedBy, LeftBy;
    var p := h.(st := Pruned(h.st, now));
    Framed(h.st, now, m, f);
    WhenKeysAreLeft(h.st, now, m, f);
    C.PruneKeepsHalf(sk, ekR, turns, i, h, now);
    var hd := f.header;
    forall n: nat | n >= p.st.nRecv ensures Find(p.st.skipped, p.st.dhPeer, n).None? { NoneAhead(sk, ekR, turns, i, p, n); }
    if Find(p.st.skipped, hd.dhPub, hd.n).None? && hd.dhPub != p.st.dhPeer {
      var g := C.OpeningKeepsTurn(sk, ekR, turns, i, h, now, m, f);
      forall n: nat ensures Find(p.st.skipped, hd.dhPub, n).None? { NoneBeyond(turns, i, p, hd.dhPub, n); }
    }
  }

  lemma Framed(s: State, now: nat, m: nat, f: Frame)
    requires Decrypt(s, now, m, f).1.Opened?
    ensures f.Frame?
  {
  }

  // ------------------------------------------------------------------------
  // what is left, by its buffers
  // ------------------------------------------------------------------------

  lemma NoneLeft(mem: Memory)
    ensures Loads(mem, []) == [] && Distinct([]) && Among([]) == {}
  {
  }

  lemma StaysWiped(mid: Memory, mem: Memory)
    requires OnlyWiped(mid, mem)
    ensures forall a :: a in mid && mid[a] == Wiped ==> a in mem && mem[a] == Wiped
  {
  }

  lemma LeftSome(before: set<nat>, strays: set<nat>, mem: Memory, left: seq<nat>)
    requires LeftTo(before, strays, left)
    ensures strays == before <==> Loads(mem, left) == []
  {
    if left != [] {
      assert left[0] in Among(left) && |Loads(mem, left)| == |left|;
    }
  }

  lemma LoadsJoin(mem: Memory, a: seq<nat>, b: seq<nat>)
    ensures Loads(mem, a + b) == Loads(mem, a) + Loads(mem, b)
  {
  }

  lemma DistinctJoin(a: seq<nat>, b: seq<nat>)
    requires Distinct(a) && Distinct(b) && Among(a) !! Among(b)
    ensures Distinct(a + b) && Among(a + b) == Among(a) + Among(b)
  {
    var all := a + b;
    forall i, j | 0 <= i < j < |all| ensures all[i] != all[j] {
      if i < |a| <= j {
        assert all[i] in a && all[j] in b;
      }
    }
  }

  /** A turn over the bound leaves what was made before it and the two step keys. */
  lemma StepsLeft(before: Memory, closed: Memory, mem: Memory, scratch: seq<nat>, root: nat, chain: nat)
    requires Distinct(scratch) && NewOnly(before, closed, Among(scratch)) && KeptOutside(before, closed, {})
    requires KeptOutside(closed, mem, {}) && NewOnly(closed, mem, {root, chain}) && root != chain
    ensures var left := scratch + [root, chain];
            && Distinct(left) && NewOnly(before, mem, Among(left))
            && Loads(mem, left) == Loads(mem, scratch) + [mem[root], mem[chain]]
  {
    var two := [root, chain];
    assert Among(two) == {root, chain};
    DistinctJoin(scratch, two);
    LoadsJoin(mem, scratch, two);
    NewOnlyJoin(before, closed, mem, Among(scratch), {root, chain}, Among(scratch + two));
  }

  /** A turn whose frame opened has made exactly the parts that were prepared. */
  lemma OpenedParts(before: Memory, closed: Memory, mem: Memory, closing: seq<nat>, links: seq<nat>,
                    root: nat, keys: seq<nat>, chain: nat, spent: seq<nat>)
    requires Distinct(closing + links) && NewOnly(before, closed, Among(closing + links)) && KeptOutside(before, closed, {})
    requires KeptOutside(closed, mem, {}) && NewOnly(closed, mem, Among(keys) + Among(spent) + {root, chain})
    requires Distinct(keys) && root != chain && root !in keys + spent && chain !in keys + spent && forall a :: a in spent ==> a !in keys
    ensures var p := Scratch(closing, root, keys, chain, spent + links); Apart(p) && NewOnly(before, mem, Parts(p))
  {
    var p := Scratch(closing, root, keys, chain, spent + links);
    TwoParts(closing, links);
    forall a | a in closing + links ensures a in closed {
      assert a in Among(closing + links);
    }
    forall a | a in keys + spent + [root, chain] ensures a !in closed {
      assert a in Among(keys) + Among(spent) + {root, chain};
    }
    DistinctJoin(closing, keys);
    NewOnlyJoin(before, closed, mem, Among(closing + links), Among(keys) + Among(spent) + {root, chain}, Parts(p));
  }

  /** The buffers of a closed chain hold the keys it owes and the link walked to. */
  lemma ClosedLoads(mem: Memory, keys: seq<nat>, low: nat, start: Key, ck: nat, end: nat, links: seq<nat>)
    requires Walked(mem, keys, low, start, ck, end) && links == if end != ck then [end] else []
    ensures Distinct(keys + links) && Among(keys + links) == Among(keys) + Beside(end, ck)
    ensures Loads(mem, keys + links) == PassedKeys(start, |keys|) + if |keys| > 0 then [Walk(start, |keys|)] else []
  {
    DistinctJoin(keys, links);
    LoadsJoin(mem, keys, links);
    WalkLoads(mem, mem, keys, low, start, ck, end);
  }

  lemma NewPair(before: Memory, mem: Memory, a: nat, b: nat)
    requires a !in before && b !in before && a != b && a in mem && b in mem && mem == before[a := mem[a]][b := mem[b]]
    requires mem[a] != Wiped && mem[b] != Wiped
    ensures KeptOutside(before, mem, {}) && NewOnly(before, mem, {a, b})
  {
  }

  lemma NewAreNew(before: Memory, mem: Memory, some: seq<nat>)
    requires NewOnly(before, mem, Among(some))
    ensures forall a :: a in some ==> a in mem && a !in before
    ensures forall i :: 0 <= i < |some| ==> some[i] in mem && some[i] !in before
  {
  }

  lemma NoneMore(before: Memory, mem: Memory, strays: set<nat>)
    requires before == mem || KeptOutside(before, mem, {})
    ensures OnlyWiped(before, mem) && strays + {} == strays
  {
  }

  lemma WipedSince(before: Memory, mid: Memory, mem: Memory)
    requires KeptOutside(before, mid, {}) && OnlyWiped(mid, mem)
    ensures OnlyWiped(before, mem)
  {
  }

  lemma OnlyWipedOn(before: Memory, mid: Memory, mem: Memory)
    requires OnlyWiped(before, mid) && OnlyWiped(mid, mem)
    ensures OnlyWiped(before, mem)
  {
  }

  /** What is left holds what it held. */
  lemma KeptLeft(before: Memory, mem: Memory, left: seq<nat>, strays: set<nat>, rk: nat, ckSend: Option<nat>, ckRecv: Option<nat>, s: Store)
    requires OnlyWiped(before, mem) && TidyAt(mem, strays, rk, ckSend, ckRecv, s) && Among(left) <= strays
    requires forall a :: a in left ==> a in before
    ensures Loads(mem, left) == Loads(before, left)
  {
    hide Live;
    LoadsSame(before, mem, left);
  }

  lemma LooseIsSpare(mem: Memory, loose: set<nat>, rk: nat, ckSend: Option<nat>, ckRecv: Option<nat>, s: Store)
    requires TidyAt(mem, loose, rk, ckSend, ckRecv, s)
    ensures forall a :: a in loose ==> a in mem && mem[a] != Wiped && !Live(a, rk, ckSend, ckRecv, s) && !Holds(s, a)
  {
    hide Holds;
  }

  lemma LoadsLength(mem: Memory, bufs: seq<nat>, keys: seq<Key>)
    requires Loads(mem, bufs) == keys
    ensures |bufs| == |keys|
  {
  }

  lemma SameLoads(mem: Memory, bufs: seq<nat>, ck: Key, k: nat)
    requires Loads(mem, bufs) == PassedKeys(ck, k)
    ensures |bufs| == k
  {
  }

  /** A walk's link is not among its keys. */
  lemma WalkShape(mem: Memory, keys: seq<nat>, low: nat, start: Key, ck: nat, end: nat)
    requires Walked(mem, keys, low, start, ck, end)
    ensures Distinct(keys) && end in mem && end !in keys && (end == ck || end >= low) && mem[end] == Walk(start, |keys|)
  {
  }

  /** What is left loose once the keys are held, the rest is wiped and the next link is live. */
  lemma SameLoose(strays: set<nat>, keys: seq<nat>, mk: nat, end: nat, next: nat, rest: seq<nat>, live: nat, held: set<nat>)
    requires rest == [mk] + (if end != live then [end] else []) && Fork(keys, mk, end, next)
    requires strays !! Tried(keys, mk, end, next, live) && held !! Tried(keys, mk, end, next, live)
    ensures var loose := strays + Tried(keys, mk, end, next, live) - Among(keys) + held;
            && next in loose && Among(rest) <= loose && next !in rest && loose - Among(rest) - {next} == strays + held
    ensures mk in rest && (end == live || end in rest)
  {
  }

  /** A new chain whose frame did not open is wiped as a whole, and the scratch with it. */
  lemma NewChainWiped(first: Memory, walked: Memory, mem: Memory, low: nat, srk: nat, sck: nat, end: nat,
                      keys: seq<nat>, mine: seq<nat>, scratch: seq<nat>)
    requires Bounded(first, low) && KeptOutside(first, walked, {}) && NewOnly(first, walked, Among(keys) + {srk, sck, end})
    requires KeptOutside(walked, mem, set a | a in mine + scratch) && NewOnly(walked, mem, {})
    requires forall a :: a in mine + scratch ==> a in mem && mem[a] == Wiped
    requires mine == [srk, sck] + (if end != sck then [end] else []) + keys
    requires srk >= low && sck >= low && (end == sck || end >= low) && forall i :: 0 <= i < |keys| ==> keys[i] >= low
    ensures KeptOutside(first, mem, set a | a in scratch) && NewOnly(first, mem, {}) && forall a :: a in scratch ==> a in mem && mem[a] == Wiped
  {
    KeptButScratch(first, walked, mem, low, mine, scratch);
    WipedAgain(first, walked, mem, Among(keys) + {srk, sck, end}, mine + scratch);
  }

  /** A new chain that opened its frame: what it has made, with its keys as they were. */
  lemma NewChainOpened(first: Memory, walked: Memory, mem: Memory, low: nat, mk: nat, srk: nat, sck: nat, keys: seq<nat>, end: nat, nextCk: nat, spent: seq<nat>)
    requires KeptOutside(first, walked, {}) && NewOnly(first, walked, Among(keys) + {srk, sck, end})
    requires Bounded(walked, mk) && nextCk == mk + 1 && srk == low && sck == low + 1 && low <= mk
    requires srk in walked && sck in walked && end in walked && end !in keys && (end == sck || end >= low + 2)
    requires forall i :: 0 <= i < |keys| ==> keys[i] in walked && keys[i] >= low + 2
    requires spent == [mk, sck] + (if end != sck then [end] else [])
    requires mk in mem && nextCk in mem && mem == walked[mk := mem[mk]][nextCk := mem[nextCk]] && mem[mk] != Wiped && mem[nextCk] != Wiped
    ensures KeptOutside(walked, mem, {}) && KeptOutside(first, mem, {})
    ensures NewOnly(first, mem, Among(keys) + Among(spent) + {srk, nextCk}) && Loads(mem, keys) == Loads(walked, keys)
    ensures forall a :: a in keys + spent + [srk, nextCk] ==> a in mem && a >= low
    ensures srk != nextCk && srk !in keys + spent && nextCk !in keys + spent && forall a :: a in spent ==> a !in keys
  {
    hide NewOnly, Load;
    LoadsKept(walked, mem, keys, {});
    TwoMore(first, walked, mem, Among(keys) + {srk, sck, end}, mk, nextCk, Among(keys) + Among(spent) + {srk, nextCk});
    OpenedApart(walked, low, mk, srk, sck, keys, end, spent);
  }

  lemma TwoMore(before: Memory, mid: Memory, mem: Memory, some: set<nat>, a: nat, b: nat, more: set<nat>)
    requires NewOnly(before, mid, some) && KeptOutside(before, mid, {})
    requires a !in mid && b !in mid && a in mem && b in mem && a != b && mem == mid[a := mem[a]][b := mem[b]]
    requires mem[a] != Wiped && mem[b] != Wiped && more == some + {a, b}
    ensures NewOnly(before, mem, more)
  {
  }

  /** The buffers of a new chain, its message key and its next link are all different ones. */
  lemma OpenedApart(walked: Memory, low: nat, mk: nat, srk: nat, sck: nat, keys: seq<nat>, end: nat, spent: seq<nat>)
    requires Bounded(walked, mk) && srk == low && sck == low + 1 && srk in walked && sck in walked && end in walked && end !in keys
    requires forall i :: 0 <= i < |keys| ==> keys[i] in walked && keys[i] >= low + 2
    requires end == sck || end >= low + 2
    requires spent == [mk, sck] + (if end != sck then [end] else [])
    ensures forall a :: a in keys + spent + [srk, mk + 1] ==> (a in walked || a == mk || a == mk + 1) && a >= low
    ensures srk != mk + 1 && srk !in keys + spent && mk + 1 !in keys + spent && forall a :: a in spent ==> a !in keys
  {
  }

  /** New buffers, wiped but for some, leave everything else as tidy as it was. */
  lemma NewTidy(before: Memory, mem: Memory, next: nat, loose: set<nat>, some: set<nat>, rk: nat, ckSend: Option<nat>, ckRecv: Option<nat>,
                s: Store, max: nat)
    requires Layout(before, next, rk, ckSend, ckRecv, s, max)
    requires TidyAt(before, loose, rk, ckSend, ckRecv, s) && KeptOutside(before, mem, {}) && NewOnly(before, mem, some)
    ensures TidyAt(mem, loose + some, rk, ckSend, ckRecv, s) && loose !! some && some !! before.Keys
  {
    LiveIsHere(before, next, rk, ckSend, ckRecv, s, max);
    hide Live, Layout;
  }

  /** Everything needed is somewhere in memory. */
  lemma LiveIsHere(mem: Memory, next: nat, rk: nat, ckSend: Option<nat>, ckRecv: Option<nat>, s: Store, max: nat)
    requires Layout(mem, next, rk, ckSend, ckRecv, s, max)
    ensures forall a :: Live(a, rk, ckSend, ckRecv, s) ==> a in mem
  {
  }

  /** Wiping what is spent, when the new live buffers take the place of the old. */
  lemma SpentTidy(before: Memory, mem: Memory, loose: set<nat>, spent: seq<nat>, rest: seq<nat>, rk: nat, ckSend: Option<nat>, ckRecv: Option<nat>,
                  root: nat, send: Option<nat>, chain: nat, s: Store)
    requires TidyAt(before, loose, rk, ckSend, ckRecv, s) && mem.Keys == before.Keys
    requires forall a :: a in mem ==> mem[a] == (if a in spent then Wiped else before[a])
    requires chain in loose && (root in loose || root == rk) && root != chain && send == ckSend
    requires forall a :: a in spent ==> a in mem && !Live(a, root, send, Some(chain), s)
    requires spent == (if root == rk then [] else [rk]) + (if ckRecv.Some? then [ckRecv.value] else []) + rest && Among(rest) <= loose
    ensures TidyAt(mem, loose - Among(rest) - {root, chain}, root, send, Some(chain), s)
    ensures root == rk ==> TidyAt(mem, loose - Among(rest) - {chain}, root, send, Some(chain), s)
  {
    hide Holds;
    assert forall a :: a in spent <==> (a == rk && root != rk) || Some(a) == ckRecv || a in rest;
    assert root == rk ==> loose - Among(rest) - {root, chain} == loose - Among(rest) - {chain};
  }

  lemma NewOnlyJoin(before: Memory, mid: Memory, mem: Memory, some: set<nat>, more: set<nat>, all: set<nat>)
    requires NewOnly(before, mid, some) && NewOnly(mid, mem, more) && KeptOutside(before, mid, {}) && KeptOutside(mid, mem, {})
    requires all == some + more
    ensures NewOnly(before, mem, all)
  {
  }

  /** All that had been written since is wiped again. */
  lemma WipedAgain(before: Memory, mid: Memory, mem: Memory, some: set<nat>, scratch: seq<nat>)
    requires NewOnly(before, mid, some) && NewOnly(mid, mem, {}) && KeptOutside(mid, mem, Among(scratch))
    requires forall a :: a in scratch ==> a in mem && mem[a] == Wiped
    requires forall a :: a in some ==> a in scratch
    ensures NewOnly(before, mem, {})
  {
  }

  /** Taking a key out of the stash: every other buffer held before is held still. */
  lemma DropTidy(s: Store, max: nat, pub: nat, n: nat, a: nat)
    requires WellFormed(s, max) && Find(s, pub, n).Some? && Find(s, pub, n).value.key == At(a)
    ensures forall b :: Holds(s, b) && !Holds(DropKey(s, pub, n), b) ==> b == a
  {
    hide WellFormed, DropKey;
    forall b | Holds(s, b) && !Holds(DropKey(s, pub, n), b) ensures b == a {
      var d: nat, k: nat :| Find(s, d, k).Some? && Find(s, d, k).value.key == At(b);
      DropFind(s, max, pub, n, d, k);
    }
  }

  /** What this engine answers where the ratchet on values gives `r`. */
  function Report(s: State, h: Header, r: (State, Outcome)): (State, TsOutcome) {
    (r.0, if r.1.Opened? && h.pqPub == Some(MalformedPub) && s.seenPeerPq != h.pqPub then BadPeerKey else Answer(r.1))
  }

  /**
   * Transactional: a frame that is refused or over the bound leaves every key and every
   * counter as it was, except stash entries that had aged. A malformed encapsulation key is
   * reported only on a frame that opened, and changes nothing beyond what the frame did.
   */
  lemma TransactionalInPlace(s: State, now: nat, m: nat, f: Frame)
    ensures var (t, o) := TsDecrypt(s, now, m, f);
            && (o.Answer? && !o.outcome.Opened? ==> t == if f.Frame? then Pruned(s, now) else s)
            && (o.BadPeerKey? <==> f.Frame? && f.header.pqPub == Some(MalformedPub) && s.seenPeerPq != f.header.pqPub
                                   && Decrypt(s, now, m, f).1.Opened?)
            && (o.BadPeerKey? ==> t.pendingSs == s.pendingSs && t.pendingCt == s.pendingCt && t.seenPeerPq == s.seenPeerPq)
  {
    hide Decrypt, Pruned;
    if !Decrypt(s, now, m, f).1.Opened? {
      RefusalChangesNothing(s, now, m, f);
    }
    if f.Frame? && f.header.pqPub == Some(MalformedPub) {
      MalformedOwesNothing(s, now, m, f);
    }
  }

  lemma MalformedOwesNothing(s: State, now: nat, m: nat, f: Frame)
    requires f.Frame? && f.header.pqPub == Some(MalformedPub)
    ensures var t := Decrypt(s, now, m, f).0;
            t.pendingSs == s.pendingSs && t.pendingCt == s.pendingCt && t.seenPeerPq == s.seenPeerPq
  {
    hide PutKeys, PruneKeys, DropKey, Find, PassedKeys, TurnIkm, ClosingKeys, Dh, Open;
  }

  lemma KeptThrough(first: Memory, mid: Memory, last: Memory, scratch: seq<nat>)
    requires KeptOutside(first, mid, {}) && KeptOutside(mid, last, set a | a in scratch)
    requires forall i :: 0 <= i < |scratch| ==> scratch[i] !in first
    ensures KeptOutside(first, last, {})
  {
  }

  lemma KeptButScratch(first: Memory, mid: Memory, last: Memory, low: nat, mine: seq<nat>, scratch: seq<nat>)
    requires Bounded(first, low) && KeptOutside(first, mid, {}) && KeptOutside(mid, last, set a | a in mine + scratch)
    requires forall i :: 0 <= i < |mine| ==> mine[i] >= low
    ensures KeptOutside(first, last, set a | a in scratch)
  {
  }

  /** The buffers of a walk hold the keys of the walk. */
  lemma WalkLoads(walked: Memory, mem: Memory, keys: seq<nat>, low: nat, start: Key, ck: nat, end: nat)
    requires Walked(walked, keys, low, start, ck, end) && KeptOutside(walked, mem, {})
    ensures Loads(mem, keys) == PassedKeys(start, |keys|)
    ensures forall i :: 0 <= i < |keys| ==> keys[i] in mem && keys[i] >= low
  {
  }

  lemma NotAmong(keys: seq<nat>, i: nat)
    requires Distinct(keys) && i < |keys|
    ensures keys[i] !in keys[..i] && keys[..i + 1] == keys[..i] + [keys[i]]
  {
  }

  lemma PutOneMore(s: Store, max: nat, pub: nat, start: nat, mem: Memory, keys: seq<nat>, i: nat, now: nat)
    requires i < |keys| && keys[i] in mem
    ensures PutKeys(s, max, pub, start, Loads(mem, keys[..i + 1]), now)
         == PutKey(PutKeys(s, max, pub, start, Loads(mem, keys[..i]), now), max, pub, start + i, mem[keys[i]], now)
  {
    assert Loads(mem, keys[..i + 1])[..i] == Loads(mem, keys[..i]);
  }

  /** A buffer allocated later is not one anything needs. */
  lemma NewIsSpare(mem: Memory, next: nat, rk: nat, ckSend: Option<nat>, ckRecv: Option<nat>, s: Store, max: nat)
    requires Layout(mem, next, rk, ckSend, ckRecv, s, max)
    ensures forall a :: a >= next ==> !Live(a, rk, ckSend, ckRecv, s)
  {
    forall a | a >= next ensures !Holds(s, a) {
      forall d: nat, n: nat | Find(s, d, n).Some? ensures Find(s, d, n).value.key != At(a) {
      }
    }
  }

  // ------------------------------------------------------------------------
  // which buffers a wipe may reach
  // ------------------------------------------------------------------------

  lemma EntriesPointed(mem: Memory, s: Store, max: nat, i: nat)
    requires WellFormed(s, max) && Pointed(mem, s) && i < |s|
    ensures forall n :: n in s[i].keys ==> s[i].keys[n].key.At? && s[i].keys[n].key.addr in mem
  {
    forall n | n in s[i].keys ensures s[i].keys[n].key.At? && s[i].keys[n].key.addr in mem {
      EntryFound(s, max, i, n);
    }
  }

  lemma EntriesHeld(s: Store, max: nat, i: nat, now: nat, ttl: nat, gone: set<nat>)
    requires WellFormed(s, max) && i < |s|
    requires forall a :: a in gone ==> MarkedIn(s[i].keys, a, true, now, ttl)
    ensures forall a :: a in gone ==> Holds(s, a)
  {
    forall a | a in gone ensures Holds(s, a) {
      var n :| n in s[i].keys && s[i].keys[n].key == At(a);
      EntryFound(s, max, i, n);
    }
  }

  /** The buffer of some key of this chain, of any or of one that has aged. */
  predicate MarkedIn(keys: map<nat, Held>, a: nat, all: bool, now: nat, ttl: nat) {
    exists n :: n in keys && keys[n].key == At(a) && (all || !Fresh(keys[n], now, ttl))
  }

  /** The buffer of an entry that has been held longer than the lifetime. */
  ghost predicate AgedOut(s: Store, a: nat, now: nat, ttl: nat) {
    exists d: nat, n: nat :: Find(s, d, n).Some? && Find(s, d, n).value.key == At(a) && now > Find(s, d, n).value.at + ttl
  }

  lemma AgedEntries(s: Store, max: nat, i: nat, now: nat, ttl: nat, gone: set<nat>)
    requires WellFormed(s, max) && i < |s|
    requires forall a :: a in gone ==> MarkedIn(s[i].keys, a, false, now, ttl)
    ensures forall a :: a in gone ==> AgedOut(s, a, now, ttl)
  {
    forall a | a in gone ensures AgedOut(s, a, now, ttl) {
      var n :| n in s[i].keys && s[i].keys[n].key == At(a) && !Fresh(s[i].keys[n], now, ttl);
      EntryFound(s, max, i, n);
    }
  }

  lemma AgedOutUnheld(mem: Memory, s: Store, max: nat, now: nat, ttl: nat, gone: set<nat>)
    requires WellFormed(s, max) && Pointed(mem, s)
    requires forall a :: a in gone ==> AgedOut(s, a, now, ttl)
    ensures forall a :: a in gone ==> Holds(s, a) && !Holds(PruneKeys(s, now, ttl), a)
  {
    PrunePointed(mem, s, max, now, ttl);
    forall a | a in gone ensures Holds(s, a) && !Holds(PruneKeys(s, now, ttl), a) {
      var d: nat, n: nat :| Find(s, d, n).Some? && Find(s, d, n).value.key == At(a) && !Fresh(Find(s, d, n).value, now, ttl);
    }
  }

  /** All stale entries of the first k chains are among these. */
  ghost predicate StaleIn(s: Store, k: nat, now: nat, ttl: nat, gone: set<nat>) {
    forall i, n :: 0 <= i < k && i < |s| && n in s[i].keys && !Fresh(s[i].keys[n], now, ttl) && s[i].keys[n].key.At? ==>
      s[i].keys[n].key.addr in gone
  }

  lemma NoneStale(s: Store, now: nat, ttl: nat)
    ensures StaleIn(s, 0, now, ttl, {})
  {
  }

  lemma StaleMore(s: Store, k: nat, now: nat, ttl: nat, gone: set<nat>, more: set<nat>)
    requires k < |s| && StaleIn(s, k, now, ttl, gone)
    requires forall n :: n in s[k].keys ==> s[k].keys[n].key.At?
    requires forall n :: n in s[k].keys && (!Fresh(s[k].keys[n], now, ttl)) ==> s[k].keys[n].key.addr in more
    ensures StaleIn(s, k + 1, now, ttl, gone + more)
  {
  }

  /** What pruning drops is what was wiped. */
  lemma StaleWiped(s: Store, max: nat, now: nat, ttl: nat, gone: set<nat>)
    requires WellFormed(s, max) && StaleIn(s, |s|, now, ttl, gone)
    ensures forall a :: Holds(s, a) && !Holds(PruneKeys(s, now, ttl), a) ==> a in gone
  {
    hide WellFormed, PruneKeys;
    forall a | Holds(s, a) && !Holds(PruneKeys(s, now, ttl), a) ensures a in gone {
      var d: nat, n: nat :| Find(s, d, n).Some? && Find(s, d, n).value.key == At(a);
      PruneFind(s, max, now, ttl, d, n);
      FindAny(s, d, n);
      var i := Position(s, d);
      assert s[i].keys[n].key == At(a);
    }
  }

  lemma AgedIsGone(s: Store, now: nat, ttl: nat, gone: set<nat>)
    requires StaleIn(s, |s|, now, ttl, gone)
    ensures forall a :: AgedOut(s, a, now, ttl) ==> a in gone
  {
    forall a | AgedOut(s, a, now, ttl) ensures a in gone {
      var d: nat, n: nat :| Find(s, d, n).Some? && Find(s, d, n).value.key == At(a) && now > Find(s, d, n).value.at + ttl;
      FindAny(s, d, n);
      var i := Position(s, d);
      assert s[i].keys[n].key == At(a);
    }
  }

  /** The buffer of the key held at this place, if any: what a put there replaces. */
  function HeldAt(s: Store, pub: nat, n: nat): set<nat> {
    match Find(s, pub, n)
    case Some(h) => if h.key.At? then {h.key.addr} else {}
    case None => {}
  }

  /** The buffers of the keys held at `count` counters from `start` on, in their order. */
  function HeldBufs(s: Store, pub: nat, start: nat, count: nat): seq<nat> {
    if count == 0 then []
    else HeldBufs(s, pub, start, count - 1)
         + (match Find(s, pub, start + count - 1) case Some(h) => if h.key.At? then [h.key.addr] else [] case None => [])
  }

  function HeldIn(s: Store, pub: nat, start: nat, count: nat): set<nat> {
    Among(HeldBufs(s, pub, start, count))
  }

  /** What the puts of a turn replace: keys held of the chain being closed, and of the new one unless the first puts evict it. */
  function ReplacedBufs(s: Store, max: nat, closed: nat, start: nat, count: nat, pub: nat, n: nat): seq<nat> {
    HeldBufs(s, closed, start, count) + if count > 0 && EvictedBy(s, max, closed, pub) then [] else HeldBufs(s, pub, 0, n)
  }

  function Replaced(s: Store, max: nat, closed: nat, start: nat, count: nat, pub: nat, n: nat): set<nat> {
    Among(ReplacedBufs(s, max, closed, start, count, pub, n))
  }

  lemma HeldInMore(s: Store, pub: nat, start: nat, count: nat)
    ensures HeldIn(s, pub, start, count + 1) == HeldIn(s, pub, start, count) + HeldAt(s, pub, start + count)
    ensures HeldIn(s, pub, start, 0) == {}
  {
    hide Find;
  }

  /** What is held at these counters is held by the stash, once each. */
  lemma {:induction false} HeldBufsHeld(s: Store, pub: nat, start: nat, count: nat)
    ensures forall a :: a in HeldBufs(s, pub, start, count) ==> HeldUnder(s, pub, start, count, a) && Holds(s, a)
  {
    hide Find;
    if count > 0 {
      HeldBufsHeld(s, pub, start, count - 1);
      forall a | a in HeldBufs(s, pub, start, count) ensures HeldUnder(s, pub, start, count, a) && Holds(s, a) {
        if a in HeldBufs(s, pub, start, count - 1) {
          var n: nat :| start <= n < start + count - 1 && Find(s, pub, n).Some? && Find(s, pub, n).value.key == At(a);
        } else {
          assert Find(s, pub, start + count - 1).value.key == At(a);
        }
      }
    }
  }

  ghost predicate HeldUnder(s: Store, pub: nat, start: nat, count: nat, a: nat) {
    exists n: nat :: start <= n < start + count && Find(s, pub, n).Some? && Find(s, pub, n).value.key == At(a)
  }

  lemma {:induction false} HeldBufsDistinct(mem: Memory, s: Store, pub: nat, start: nat, count: nat)
    requires Pointed(mem, s)
    ensures Distinct(HeldBufs(s, pub, start, count))
    ensures Loads(mem, HeldBufs(s, pub, start, count)) == HeldKeys(Deref(mem, s), pub, start, count)
  {
    hide Find, Deref, Load;
    if count > 0 {
      HeldBufsDistinct(mem, s, pub, start, count - 1);
      HeldBufsHeld(s, pub, start, count - 1);
      DerefFind(mem, s, pub, start + count - 1);
      var last := Find(s, pub, start + count - 1);
      if last.Some? {
        var a := last.value.key.addr;
        assert a !in HeldBufs(s, pub, start, count - 1);
        DistinctJoin(HeldBufs(s, pub, start, count - 1), [a]);
        LoadsJoin(mem, HeldBufs(s, pub, start, count - 1), [a]);
      }
    }
  }

  /** What is held is live, and so apart from all that is loose. */
  lemma HeldIsLive(mem: Memory, loose: set<nat>, rk: nat, ckSend: Option<nat>, ckRecv: Option<nat>, s: Store, pub: nat, start: nat, count: nat)
    requires TidyAt(mem, loose, rk, ckSend, ckRecv, s)
    ensures HeldIn(s, pub, start, count) !! loose
  {
    hide Holds, HeldBufs;
    HeldBufsHeld(s, pub, start, count);
  }

  /** The buffers held at these counters, with the keys they hold. */
  lemma HeldAsKeys(mem: Memory, next: nat, strays: set<nat>, rk: nat, ckSend: Option<nat>, ckRecv: Option<nat>, s: Store, max: nat,
                   pub: nat, start: nat, count: nat)
    requires Layout(mem, next, rk, ckSend, ckRecv, s, max) && TidyAt(mem, strays, rk, ckSend, ckRecv, s)
    ensures var left := HeldBufs(s, pub, start, count);
            && Distinct(left) && strays !! Among(left) && Loads(mem, left) == HeldKeys(Deref(mem, s), pub, start, count)
            && forall a :: a in left ==> Holds(s, a) && a in mem
  {
    hide HeldBufs, Deref, HeldKeys, Holds, Pointed;
    HeldBufsDistinct(mem, s, pub, start, count);
    HeldBufsHeld(s, pub, start, count);
    LiveIsHere(mem, next, rk, ckSend, ckRecv, s, max);
  }

  /** The buffers that a turn's puts replace, with the keys they hold. */
  lemma ReplacedAsKeys(mem: Memory, next: nat, strays: set<nat>, rk: nat, ckSend: Option<nat>, ckRecv: Option<nat>, s: Store, p: State, h: Header)
    requires Layout(mem, next, rk, ckSend, ckRecv, s, p.opts.maxChains) && TidyAt(mem, strays, rk, ckSend, ckRecv, s)
    requires p.skipped == Deref(mem, s) && h.dhPub != p.dhPeer
    ensures var left := ReplacedBufs(s, p.opts.maxChains, p.dhPeer, p.nRecv, |ClosingKeys(p, h.pn)|, h.dhPub, h.n);
            && Distinct(left) && strays !! Among(left) && Loads(mem, left) == ReplacedKeys(p, h)
            && forall a :: a in left ==> Holds(s, a) && a in mem
  {
    hide HeldBufs, Deref, HeldKeys, Holds, ClosingKeys, Layout, TidyAt;
    var max, count := p.opts.maxChains, |ClosingKeys(p, h.pn)|;
    HeldAsKeys(mem, next, strays, rk, ckSend, ckRecv, s, max, p.dhPeer, p.nRecv, count);
    PositionSame(s, Deref(mem, s), p.dhPeer);
    assert EvictedBy(s, max, p.dhPeer, h.dhPub) == EvictedBy(p.skipped, max, p.dhPeer, h.dhPub);
    var first := HeldBufs(s, p.dhPeer, p.nRecv, count);
    if count > 0 && EvictedBy(s, max, p.dhPeer, h.dhPub) {
      assert first + [] == first;
    } else {
      HeldAsKeys(mem, next, strays, rk, ckSend, ckRecv, s, max, h.dhPub, 0, h.n);
      HeldApart(mem, next, rk, ckSend, ckRecv, s, max, p.dhPeer, p.nRecv, count, h.dhPub, 0, h.n);
      DistinctJoin(first, HeldBufs(s, h.dhPub, 0, h.n));
      LoadsJoin(mem, first, HeldBufs(s, h.dhPub, 0, h.n));
    }
  }

  /** Keys of two chains are in different buffers. */
  lemma HeldApart(mem: Memory, next: nat, rk: nat, ckSend: Option<nat>, ckRecv: Option<nat>, s: Store, max: nat,
                  a: nat, i: nat, k: nat, b: nat, j: nat, n: nat)
    requires Layout(mem, next, rk, ckSend, ckRecv, s, max) && a != b
    ensures HeldIn(s, a, i, k) !! HeldIn(s, b, j, n)
  {
    hide Find, HeldBufs;
    HeldBufsHeld(s, a, i, k);
    HeldBufsHeld(s, b, j, n);
  }

  /** Puts under one public key leave what is held under another, or evict all of it. */
  lemma {:induction false} HeldStill(s: Store, max: nat, pub: nat, start: nat, keys: seq<nat>, now: nat, d: nat, from: nat, count: nat)
    requires max >= 1 && WellFormed(s, max) && d != pub
    ensures HeldBufs(PutKeys(s, max, pub, start, Ats(keys), now), d, from, count)
         == if |keys| > 0 && EvictedBy(s, max, pub, d) then [] else HeldBufs(s, d, from, count)
  {
    hide PutKeys, WellFormed, Find, EvictedBy;
    if count > 0 {
      HeldStill(s, max, pub, start, keys, now, d, from, count - 1);
      PutKeysFind(s, max, pub, start, Ats(keys), now, d, from + count - 1);
    }
  }

  lemma HeldApartFrom(mem: Memory, loose: set<nat>, rk: nat, ckSend: Option<nat>, ckRecv: Option<nat>, s: Store, max: nat,
                      closed: nat, start: nat, count: nat, pub: nat, n: nat)
    requires TidyAt(mem, loose, rk, ckSend, ckRecv, s)
    ensures Replaced(s, max, closed, start, count, pub, n) !! loose
  {
    hide HeldBufs, TidyAt, EvictedBy;
    HeldIsLive(mem, loose, rk, ckSend, ckRecv, s, closed, start, count);
    HeldIsLive(mem, loose, rk, ckSend, ckRecv, s, pub, 0, n);
  }

  /** What is left loose once the keys of a turn are held, its spent scratch wiped and the new root and chain live. */
  lemma PartsLeft(strays: set<nat>, p: Scratch, held: set<nat>)
    requires Apart(p) && strays !! Parts(p) && held !! strays + Parts(p)
    ensures var loose := strays + Parts(p) - Among(p.closing) - Among(p.keys) + held;
            && p.rk in loose && p.nextCk in loose && Among(p.spent) <= loose
            && loose - Among(p.spent) - {p.rk, p.nextCk} == strays + held
    ensures Among(p.closing + p.keys) <= Parts(p)
    ensures forall a :: a in p.spent || a == p.rk || a == p.nextCk ==> a in Parts(p) && a !in p.closing + p.keys
  {
  }

  /** The loose buffers before, between and after the two runs of puts of a turn. */
  lemma BothReplaced(mem: Memory, loose: set<nat>, rk: nat, ckSend: Option<nat>, ckRecv: Option<nat>, s: Store, max: nat,
                     closed: nat, start: nat, closing: seq<nat>, now: nat, pub: nat, keys: seq<nat>)
    requires TidyAt(mem, loose, rk, ckSend, ckRecv, s) && max >= 1 && WellFormed(s, max) && pub != closed
    requires Among(closing + keys) <= loose && Distinct(closing + keys)
    ensures var rest := loose - Among(closing) + HeldIn(s, closed, start, |closing|);
            && Among(closing) <= loose && Among(keys) <= rest
            && rest - Among(keys) + HeldIn(PutKeys(s, max, closed, start, Ats(closing), now), pub, 0, |keys|)
               == loose - Among(closing) - Among(keys) + Replaced(s, max, closed, start, |closing|, pub, |keys|)
  {
    hide WellFormed, PutKeys, EvictedBy, HeldBufs, TidyAt, Ats;
    TwoParts(closing, keys);
    HeldIsLive(mem, loose, rk, ckSend, ckRecv, s, closed, start, |closing|);
    HeldStill(s, max, closed, start, closing, now, pub, 0, |keys|);
    assert Among(closing + keys) == Among(closing) + Among(keys);
  }

  /** With one more key held and one chain perhaps evicted, what nothing needs is what was loose, and a key replaced. */
  lemma PutTidy(before: Memory, mem: Memory, next: nat, loose: set<nat>, rk: nat, ckSend: Option<nat>, ckRecv: Option<nat>,
                s: Store, max: nat, pub: nat, n: nat, a: nat, now: nat, gone: set<nat>)
    requires Layout(before, next, rk, ckSend, ckRecv, s, max) && TidyAt(before, loose, rk, ckSend, ckRecv, s) && a in loose
    requires mem.Keys == before.Keys && KeptOutside(before, mem, gone)
    requires var t := PutKey(s, max, pub, n, At(a), now);
             forall b :: b in gone ==> b in mem && mem[b] == Wiped && Holds(s, b) && !Holds(t, b)
    requires Position(s, pub) == |s| == max ==> forall k :: k in s[0].keys && s[0].keys[k].key.At? ==> s[0].keys[k].key.addr in gone
    requires !(Position(s, pub) == |s| == max) ==> gone == {}
    ensures TidyAt(mem, loose - {a} + HeldAt(s, pub, n), rk, ckSend, ckRecv, PutKey(s, max, pub, n, At(a), now))
  {
    hide PutKey, WellFormed, Pointed, Bounded, Holds, HeldAt, Position;
    PutLive(before, s, max, pub, n, a, now, gone);
    LiveIsHere(before, next, rk, ckSend, ckRecv, s, max);
    assert forall b :: b in HeldAt(s, pub, n) ==> Live(b, rk, ckSend, ckRecv, s);
  }

  /** Whose buffers the stash points to after a put. */
  lemma PutLive(mem: Memory, s: Store, max: nat, pub: nat, n: nat, a: nat, now: nat, gone: set<nat>)
    requires max >= 1 && WellFormed(s, max) && Pointed(mem, s) && !Holds(s, a)
    requires forall b :: b in gone ==> Holds(s, b) && !Holds(PutKey(s, max, pub, n, At(a), now), b)
    requires Position(s, pub) == |s| == max ==> forall k :: k in s[0].keys && s[0].keys[k].key.At? ==> s[0].keys[k].key.addr in gone
    requires !(Position(s, pub) == |s| == max) ==> gone == {}
    ensures forall b :: b in HeldAt(s, pub, n) ==> Holds(s, b) && b !in gone
    ensures forall b :: Holds(PutKey(s, max, pub, n, At(a), now), b) <==> b == a || (Holds(s, b) && b !in gone && b !in HeldAt(s, pub, n))
  {
    hide WellFormed, PutKey;
    var t := PutKey(s, max, pub, n, At(a), now);
    PutFind(s, max, pub, n, At(a), now, pub, n);
    assert Find(t, pub, n).value.key == At(a);
    if Find(s, pub, n).Some? { FindAny(s, pub, n); }
    forall b | b != a && Holds(t, b) ensures Holds(s, b) && b !in HeldAt(s, pub, n) {
      var d: nat, k: nat :| Find(t, d, k).Some? && Find(t, d, k).value.key == At(b);
      PutFind(s, max, pub, n, At(a), now, d, k);
    }
    forall b | Holds(s, b) && b !in gone && b !in HeldAt(s, pub, n) ensures Holds(t, b) {
      var d: nat, k: nat :| Find(s, d, k).Some? && Find(s, d, k).value.key == At(b);
      PutFind(s, max, pub, n, At(a), now, d, k);
      FindAny(s, d, k);
    }
  }

  lemma StashStart(s: Store, max: nat, pub: nat, start: nat, values: Store, mem: Memory, keys: seq<nat>, now: nat,
                   rk: nat, ckSend: Option<nat>, ckRecv: Option<nat>, loose: set<nat>)
    ensures PutKeys(s, max, pub, start, Ats(keys[..0]), now) == s
    ensures PutKeys(values, max, pub, start, Loads(mem, keys[..0]), now) == values
    ensures loose - Among(keys[..0]) + HeldIn(s, pub, start, 0) == loose
  {
  }

  lemma PutOneMoreAt(s: Store, max: nat, pub: nat, start: nat, keys: seq<nat>, i: nat, now: nat)
    requires i < |keys|
    ensures PutKeys(s, max, pub, start, Ats(keys[..i + 1]), now)
         == PutKey(PutKeys(s, max, pub, start, Ats(keys[..i]), now), max, pub, start + i, At(keys[i]), now)
  {
    assert Ats(keys[..i + 1])[..i] == Ats(keys[..i]);
  }

  /** A put further on replaces exactly what was held there from the start. */
  lemma OneMoreHeld(mem: Memory, s: Store, max: nat, pub: nat, start: nat, keys: seq<nat>, i: nat, now: nat, loose: set<nat>,
                    rk: nat, ckSend: Option<nat>, ckRecv: Option<nat>)
    requires max >= 1 && WellFormed(s, max) && TidyAt(mem, loose, rk, ckSend, ckRecv, s)
    requires i < |keys| && Distinct(keys) && Among(keys) <= loose
    ensures var had, chains := loose - Among(keys[..i]) + HeldIn(s, pub, start, i), PutKeys(s, max, pub, start, Ats(keys[..i]), now);
            && keys[i] in had
            && had - {keys[i]} + HeldAt(chains, pub, start + i) == loose - Among(keys[..i + 1]) + HeldIn(s, pub, start, i + 1)
  {
    hide PutKeys, Find, WellFormed, TidyAt, HeldIn;
    PutKeysFind(s, max, pub, start, Ats(keys[..i]), now, pub, start + i);
    NotAmong(keys, i);
    HeldInMore(s, pub, start, i);
    HeldIsLive(mem, loose, rk, ckSend, ckRecv, s, pub, start, i);
    assert HeldAt(PutKeys(s, max, pub, start, Ats(keys[..i]), now), pub, start + i) == HeldAt(s, pub, start + i);
    assert Among(keys[..i + 1]) == Among(keys[..i]) + {keys[i]} && keys[i] in Among(keys);
  }

  lemma EvictedGone(mem: Memory, s: Store, max: nat, pub: nat, n: nat, a: nat, now: nat, ttl: nat, gone: set<nat>)
    requires max >= 1 && WellFormed(s, max) && Pointed(mem, s) && a in mem && !Holds(s, a)
    requires Position(s, pub) == |s| == max
    requires forall b :: b in gone ==> MarkedIn(s[0].keys, b, true, now, ttl)
    ensures forall b :: b in gone ==> !Holds(PutKey(s, max, pub, n, At(a), now), b)
  {
    forall b | b in gone ensures !Holds(PutKey(s, max, pub, n, At(a), now), b) {
      var k :| k in s[0].keys && s[0].keys[k].key == At(b);
      EvictedUnheld(mem, s, max, pub, n, a, now, k);
    }
  }
}
