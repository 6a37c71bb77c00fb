/**
 * One party's Double Ratchet with the hybrid step (core-rs/src/ratchet.rs): the
 * state and its two operations as values, and the class that updates in place.
 */
module Ratchet {
  import opened Keys
  import opened SkippedKeys

  // ------------------------------------------------------------------------
  // frames
  // ------------------------------------------------------------------------

  datatype Header = Header(dhPub: nat, pn: nat, n: nat, pqCt: Option<KemCt>, pqPub: Option<KemPub>)

  /** An AEAD body names what it was sealed under; `Noise` is anything else. */
  datatype Body = Sealed(mk: Key, n: nat, header: Header, text: string) | Noise(id: nat)

  /** `Undecodable` is every byte string the header decoder refuses. */
  datatype Frame = Frame(header: Header, body: Body) | Undecodable

  function Open(mk: Key, n: nat, header: Header, body: Body): Option<string> {
    if body.Sealed? && body.mk == mk && body.n == n && body.header == header then Some(body.text) else None
  }

  // ------------------------------------------------------------------------
  // state
  // ------------------------------------------------------------------------

  datatype Opts = Opts(maxSkip: nat, maxChains: nat, ttl: nat, pqEverySteps: nat, pqEveryMs: nat)

  datatype State = State(
    opts: Opts,
    rk: Key,
    dhSelf: Option<nat>,
    dhPeer: nat,
    ckSend: Option<Key>,
    ckRecv: Option<Key>,
    nSend: nat,
    nRecv: nat,
    pn: nat,
    stepBeforeSend: bool,
    skipped: Store,
    pqKey: Option<nat>,
    pendingSs: Option<KemSs>,
    pendingCt: Option<KemCt>,
    ctInFlight: Option<KemCt>,
    seenPeerPq: Option<KemPub>,
    stepsSincePq: nat,
    lastPqAt: nat,
    pqStepsDone: nat)

  /** `SkipBound` is the error of a header that claims a jump past the bound. */
  datatype Outcome = Opened(text: string) | Refused | SkipBound(jump: nat)

  datatype Role = Initiator | Responder

  datatype HandshakeResult = HandshakeResult(role: Role, sk: Key, ekSelf: Option<nat>, ekPeer: nat, firstStep: DhOut)

  /** A chain to send on comes with the key it is announced under; the store may hold at least one chain. */
  predicate Keyed(s: State) {
    && (s.ckSend.Some? ==> s.dhSelf.Some?)
    && s.opts.maxChains >= 1
  }

  predicate StoreOk(s: State) {
    WellFormed(s.skipped, s.opts.maxChains)
  }

  function FromHandshake(hs: HandshakeResult, opts: Opts, now: nat): State {
    var ikm := Classical(hs.firstStep);
    var first := Chain(hs.sk, ikm);
    State(opts, Root(hs.sk, ikm), hs.ekSelf, hs.ekPeer,
          if hs.role.Initiator? then Some(first) else None,
          if hs.role.Initiator? then None else Some(first),
          0, 0, 0, !hs.role.Initiator?, [], None, None, None, None, None, 0, now, 0)
  }

  // ------------------------------------------------------------------------
  // sending
  // ------------------------------------------------------------------------

  function Elapsed(now: nat, since: nat): nat {
    if now < since then 0 else now - since
  }

  /** Input of the own root step: the secret owed to the peer goes in behind the DH. */
  function OwedIkm(s: State, dh: DhOut): Ikm {
    if s.pendingSs.Some? then Hybrid(dh, s.pendingSs.value) else Classical(dh)
  }

  /** The bookkeeping of an own step: the owed ciphertext is now in flight, or one more step was classical. */
  function OwedTaken(s: State, now: nat): State {
    if s.pendingSs.Some? then
      s.(pendingSs := None, pendingCt := None, ctInFlight := s.pendingCt,
         stepsSincePq := 0, lastPqAt := now, pqStepsDone := s.pqStepsDone + 1)
    else
      s.(stepsSincePq := s.stepsSincePq + 1)
  }

  predicate TimeToIssue(s: State, now: nat) {
    s.pqKey.None? && (s.stepsSincePq >= s.opts.pqEverySteps || Elapsed(now, s.lastPqAt) >= s.opts.pqEveryMs)
  }

  /** The turn: a new ratchet key, a root step with whatever secret is owed, perhaps a new KEM key. */
  function OpenChain(s: State, me: nat, kem: nat, now: nat): State {
    var ikm := OwedIkm(s, Dh(me, s.dhPeer));
    var t := OwedTaken(s, now);
    t.(rk := Root(t.rk, ikm),
       ckSend := Some(Chain(t.rk, ikm)),
       dhSelf := Some(me),
       pn := t.nSend,
       nSend := 0,
       stepBeforeSend := false,
       pqKey := if TimeToIssue(t, now) then Some(kem) else t.pqKey)
  }

  function HeaderOf(s: State): Header
    requires s.dhSelf.Some?
  {
    Header(s.dhSelf.value, s.pn, s.nSend, s.ctInFlight, if s.pqKey.Some? then Some(KemPub(s.pqKey.value)) else None)
  }

  function FrameOf(ck: Key, h: Header, text: string): Frame {
    Frame(h, Sealed(Msg(ck), h.n, h, text))
  }

  function Encrypt(s: State, me: nat, kem: nat, now: nat, text: string): (State, Frame)
    requires Keyed(s)
  {
    var t := if s.stepBeforeSend || s.ckSend.None? then OpenChain(s, me, kem, now) else s;
    (t.(ckSend := Some(Next(t.ckSend.value)), nSend := t.nSend + 1), FrameOf(t.ckSend.value, HeaderOf(t), text))
  }

  // ------------------------------------------------------------------------
  // receiving
  // ------------------------------------------------------------------------

  /** The peer's encapsulation key arrived on a frame that opened: answer it once. */
  function NotePeerPq(s: State, pub: Option<KemPub>, m: nat): (r: State)
    ensures r == s.(pendingSs := r.pendingSs, pendingCt := r.pendingCt, seenPeerPq := r.seenPeerPq)
  {
    if pub.None? || s.seenPeerPq == pub then s
    else match Encapsulate(pub.value, m)
      case None => s
      case Some((ct, ss)) => s.(pendingSs := Some(ss), pendingCt := Some(ct), seenPeerPq := pub)
  }

  /** How far `Advance` refuses to walk. */
  predicate TooFar(from: nat, to: nat, maxSkip: nat) {
    to > from + maxSkip
  }

  function Steps(from: nat, to: nat): nat {
    if to <= from then 0 else to - from
  }

  function DecryptStashed(s: State, m: nat, h: Header, body: Body, mk: Key): (State, Outcome) {
    match Open(mk, h.n, h, body)
    case None => (s, Refused)
    case Some(text) => (NotePeerPq(s.(skipped := DropKey(s.skipped, h.dhPub, h.n)), h.pqPub, m), Opened(text))
  }

  function DecryptSame(s: State, now: nat, m: nat, h: Header, body: Body): (State, Outcome) {
    if s.ckRecv.None? || h.n < s.nRecv then (s, Refused)
    else if TooFar(s.nRecv, h.n, s.opts.maxSkip) then (s, SkipBound(h.n - s.nRecv))
    else
      var k := h.n - s.nRecv;
      var at := Walk(s.ckRecv.value, k);
      match Open(Msg(at), h.n, h, body)
      case None => (s, Refused)
      case Some(text) =>
        var store := PutKeys(s.skipped, s.opts.maxChains, h.dhPub, s.nRecv, PassedKeys(s.ckRecv.value, k), now);
        (NotePeerPq(s.(skipped := store, ckRecv := Some(Next(at)), nRecv := h.n + 1), h.pqPub, m), Opened(text))
  }

  /** What the current receiving chain still owes when it is closed at the peer's `pn`. */
  function ClosingKeys(s: State, pn: nat): seq<Key> {
    if s.ckRecv.None? then [] else PassedKeys(s.ckRecv.value, Steps(s.nRecv, pn))
  }

  /** Input of the peer's root step as this side computes it; none when the ciphertext cannot be placed. */
  function TurnIkm(s: State, h: Header): Option<Ikm>
    requires s.dhSelf.Some?
  {
    var dh := Dh(s.dhSelf.value, h.dhPub);
    match h.pqCt
    case None => Some(Classical(dh))
    case Some(ct) =>
      if s.pqKey.None? then None
      else match Decapsulate(s.pqKey.value, ct)
        case None => None
        case Some(ss) => Some(Hybrid(dh, ss))
  }

  /** The peer's ciphertext answered our key: it is spent. */
  function AnswerTaken(s: State, now: nat): State {
    s.(pqKey := None, stepsSincePq := 0, lastPqAt := now, pqStepsDone := s.pqStepsDone + 1)
  }

  /** State after the peer's step: the old chain closed, the new one walked to h.n. */
  function Turned(s: State, now: nat, h: Header, ikm: Ikm): State {
    var chain := Chain(s.rk, ikm);
    var closed := PutKeys(s.skipped, s.opts.maxChains, s.dhPeer, s.nRecv, ClosingKeys(s, h.pn), now);
    var store := PutKeys(closed, s.opts.maxChains, h.dhPub, 0, PassedKeys(chain, h.n), now);
    var t := if h.pqCt.Some? then AnswerTaken(s, now) else s;
    t.(skipped := store,
       rk := Root(s.rk, ikm),
       ckRecv := Some(Next(Walk(chain, h.n))),
       dhPeer := h.dhPub,
       nRecv := h.n + 1,
       stepBeforeSend := true,
       ctInFlight := None)
  }

  function DecryptTurn(s: State, now: nat, m: nat, h: Header, body: Body): (State, Outcome) {
    if s.dhSelf.None? || (h.pqCt.Some? && s.pqKey.None?) then (s, Refused)
    else if s.ckRecv.Some? && TooFar(s.nRecv, h.pn, s.opts.maxSkip) then (s, SkipBound(h.pn - s.nRecv))
    else match TurnIkm(s, h)
      case None => (s, Refused)
      case Some(ikm) =>
        if TooFar(0, h.n, s.opts.maxSkip) then (s, SkipBound(h.n))
        else match Open(Msg(Walk(Chain(s.rk, ikm), h.n)), h.n, h, body)
          case None => (s, Refused)
          case Some(text) => (NotePeerPq(Turned(s, now, h, ikm), h.pqPub, m), Opened(text))
  }

  function Pruned(s: State, now: nat): State {
    s.(skipped := PruneKeys(s.skipped, now, s.opts.ttl))
  }

  function DecryptPruned(p: State, now: nat, m: nat, h: Header, body: Body): (State, Outcome) {
    match Find(p.skipped, h.dhPub, h.n)
    case Some(held) => DecryptStashed(p, m, h, body, held.key)
    case None =>
      if h.dhPub == p.dhPeer then DecryptSame(p, now, m, h, body) else DecryptTurn(p, now, m, h, body)
  }

  /** `now` is the clock, `m` the randomness an encapsulation would use. */
  function Decrypt(s: State, now: nat, m: nat, f: Frame): (State, Outcome) {
    match f
    case Undecodable => (s, Refused)
    case Frame(h, body) => DecryptPruned(Pruned(s, now), now, m, h, body)
  }

  // ------------------------------------------------------------------------
  // what every call keeps
  // ------------------------------------------------------------------------

  lemma StoreKept(s: State, now: nat)
    requires StoreOk(s)
    ensures StoreOk(Pruned(s, now))
  {
    PruneFind(s.skipped, s.opts.maxChains, now, s.opts.ttl, 0, 0);
  }

  lemma SameKeepsStore(s: State, now: nat, m: nat, h: Header, body: Body)
    requires Keyed(s) && StoreOk(s)
    ensures StoreOk(DecryptSame(s, now, m, h, body).0)
  {
    if s.ckRecv.Some? {
      PutKeysFind(s.skipped, s.opts.maxChains, h.dhPub, s.nRecv, PassedKeys(s.ckRecv.value, Steps(s.nRecv, h.n)), now, 0, 0);
    }
  }

  lemma TurnedKeepsStore(s: State, now: nat, h: Header, ikm: Ikm)
    requires Keyed(s) && StoreOk(s)
    ensures StoreOk(Turned(s, now, h, ikm))
  {
    var max := s.opts.maxChains;
    var closed := PutKeys(s.skipped, max, s.dhPeer, s.nRecv, ClosingKeys(s, h.pn), now);
    PutKeysFind(s.skipped, max, s.dhPeer, s.nRecv, ClosingKeys(s, h.pn), now, 0, 0);
    PutKeysFind(closed, max, h.dhPub, 0, PassedKeys(Chain(s.rk, ikm), h.n), now, 0, 0);
  }

  lemma TurnKeepsStore(s: State, now: nat, m: nat, h: Header, body: Body)
    requires Keyed(s) && StoreOk(s)
    ensures StoreOk(DecryptTurn(s, now, m, h, body).0)
  {
    if s.dhSelf.Some? && TurnIkm(s, h).Some? {
      TurnedKeepsStore(s, now, h, TurnIkm(s, h).value);
    }
  }

  lemma StashedKeepsStore(s: State, m: nat, h: Header, body: Body, mk: Key)
    requires StoreOk(s)
    ensures StoreOk(DecryptStashed(s, m, h, body, mk).0)
  {
    DropFind(s.skipped, s.opts.maxChains, h.dhPub, h.n, 0, 0);
  }

  lemma DecryptKeepsKeyed(s: State, now: nat, m: nat, f: Frame)
    requires Keyed(s)
    ensures Keyed(Decrypt(s, now, m, f).0)
  {
  }

  lemma DecryptKeepsStore(s: State, now: nat, m: nat, f: Frame)
    requires Keyed(s) && StoreOk(s)
    ensures StoreOk(Decrypt(s, now, m, f).0)
  {
    if f.Frame? {
      var h := f.header;
      var p := Pruned(s, now);
      StoreKept(s, now);
      var found := Find(p.skipped, h.dhPub, h.n);
      if found.Some? {
        StashedKeepsStore(p, m, h, f.body, found.value.key);
      } else if h.dhPub == s.dhPeer {
        SameKeepsStore(p, now, m, h, f.body);
      } else {
        TurnKeepsStore(p, now, m, h, f.body);
      }
    }
  }

  /** Transactional: a frame that does not open leaves everything but expired stash entries as it was. */
  lemma RefusalChangesNothing(s: State, now: nat, m: nat, f: Frame)
    requires !Decrypt(s, now, m, f).1.Opened?
    ensures Decrypt(s, now, m, f).0
         == (if f.Frame? then Pruned(s, now) else s)
  {
  }

  /**
   * The store stays within `maxChains` chains, and one opened frame adds at most
   * `maxSkip` keys, or twice that when the chain turns.
   */
  lemma StashGrowth(s: State, now: nat, m: nat, f: Frame)
    requires Keyed(s) && StoreOk(s)
    ensures var (t, r) := Decrypt(s, now, m, f);
            && |t.skipped| <= s.opts.maxChains
            && Size(t.skipped) <= Size(s.skipped) + (if !r.Opened? then 0 else if t.dhPeer == s.dhPeer then s.opts.maxSkip else 2 * s.opts.maxSkip)
  {
    DecryptKeepsStore(s, now, m, f);
    if f.Frame? {
      var h := f.header;
      var p := Pruned(s, now);
      SizeOfPrune(s.skipped, now, s.opts.ttl);
      if Find(p.skipped, h.dhPub, h.n).Some? {
        SizeOfDrop(p.skipped, h.dhPub, h.n);
      } else if h.dhPub == s.dhPeer {
        SameGrowth(p, now, m, h, f.body);
      } else {
        TurnGrowth(p, now, m, h, f.body);
      }
    }
  }

  lemma SameGrowth(s: State, now: nat, m: nat, h: Header, body: Body)
    ensures var (t, r) := DecryptSame(s, now, m, h, body);
            Size(t.skipped) <= Size(s.skipped) + (if r.Opened? then s.opts.maxSkip else 0)
  {
    if s.ckRecv.Some? {
      SizeOfPuts(s.skipped, s.opts.maxChains, h.dhPub, s.nRecv, PassedKeys(s.ckRecv.value, Steps(s.nRecv, h.n)), now);
    }
  }

  lemma TurnGrowth(s: State, now: nat, m: nat, h: Header, body: Body)
    requires h.dhPub != s.dhPeer
    ensures var (t, r) := DecryptTurn(s, now, m, h, body);
            && Size(t.skipped) <= Size(s.skipped) + (if r.Opened? then 2 * s.opts.maxSkip else 0)
            && (r.Opened? ==> t.dhPeer != s.dhPeer)
  {
    if s.dhSelf.Some? && TurnIkm(s, h).Some? {
      var max := s.opts.maxChains;
      var closed := PutKeys(s.skipped, max, s.dhPeer, s.nRecv, ClosingKeys(s, h.pn), now);
      SizeOfPuts(s.skipped, max, s.dhPeer, s.nRecv, ClosingKeys(s, h.pn), now);
      SizeOfPuts(closed, max, h.dhPub, 0, PassedKeys(Chain(s.rk, TurnIkm(s, h).value), h.n), now);
    }
  }

  lemma SizeOfDrop(s: Store, pub: nat, n: nat)
    ensures Size(DropKey(s, pub, n)) <= Size(s)
  {
    hide Size;
    var i := Position(s, pub);
    if i < |s| {
      var left := s[i].keys - {n};
      SubmapSmaller(left, s[i].keys);
      SizeOfUpdate(s, i, Chained(pub, left));
      SizeWithout(s, i);
    }
  }

  // ------------------------------------------------------------------------
  // the ratchet in place
  // ------------------------------------------------------------------------

  lemma NonePassed(ck: Key)
    ensures PassedKeys(ck, 0) == [] && Walk(ck, 0) == ck
  {
  }

  lemma OneMorePassed(ck: Key, k: nat)
    ensures PassedKeys(ck, k + 1) == PassedKeys(ck, k) + [Msg(Walk(ck, k))] && Walk(ck, k + 1) == Next(Walk(ck, k))
  {
  }

  /** Walk a chain key forward, handing back the keys passed over. */
  method Advance(ck: Key, from: nat, to: nat, maxSkip: nat) returns (ok: bool, keys: seq<Key>, at: Key)
    ensures ok <==> !TooFar(from, to, maxSkip)
    ensures ok ==> keys == PassedKeys(ck, Steps(from, to)) && at == Walk(ck, Steps(from, to))
  {
    hide PassedKeys, Walk;
    keys, at := [], ck;
    if Steps(from, to) > maxSkip {
      return false, keys, at;
    }
    NonePassed(ck);
    var i := from;
    while i < to
      invariant i >= from && (i <= to || i == from)
      invariant keys == PassedKeys(ck, i - from) && at == Walk(ck, i - from)
    {
      OneMorePassed(ck, i - from);
      keys := keys + [Msg(at)];
      at := Next(at);
      i := i + 1;
    }
    ok := true;
  }

  class Ratchet {
    const opts: Opts
    var rk: Key
    var dhSelf: Option<nat>
    var dhPeer: nat
    var ckSend: Option<Key>
    var ckRecv: Option<Key>
    var nSend: nat
    var nRecv: nat
    var pn: nat
    var stepBeforeSend: bool
    const skipped: Skipped
    var pqKey: Option<nat>
    var pendingSs: Option<KemSs>
    var pendingCt: Option<KemCt>
    var ctInFlight: Option<KemCt>
    var seenPeerPq: Option<KemPub>
    var stepsSincePq: nat
    var lastPqAt: nat
    var pqStepsDone: nat

    /** The state as a value. */
    ghost function Value(): State
      reads this, skipped
    {
      State(opts, rk, dhSelf, dhPeer, ckSend, ckRecv, nSend, nRecv, pn, stepBeforeSend, skipped.chains,
            pqKey, pendingSs, pendingCt, ctInFlight, seenPeerPq, stepsSincePq, lastPqAt, pqStepsDone)
    }

    ghost predicate Valid()
      reads this, skipped
    {
      && Keyed(Value())
      && skipped.ttl == opts.ttl
      && skipped.maxChains == opts.maxChains
    }

    constructor (hs: HandshakeResult, opts: Opts, now: nat)
      requires hs.role.Initiator? ==> hs.ekSelf.Some?
      requires opts.maxChains >= 1
      ensures Valid() && fresh(skipped)
      ensures Value() == FromHandshake(hs, opts, now)
    {
      var ikm := Classical(hs.firstStep);
      var ck := Chain(hs.sk, ikm);
      this.opts := opts;
      rk := Root(hs.sk, ikm);
      dhSelf, dhPeer := hs.ekSelf, hs.ekPeer;
      if hs.role.Initiator? {
        ckSend, ckRecv := Some(ck), None;
      } else {
        ckSend, ckRecv := None, Some(ck);
      }
      nSend, nRecv, pn := 0, 0, 0;
      stepBeforeSend := !hs.role.Initiator?;
      skipped := new Skipped(opts.ttl, opts.maxChains);
      pqKey, pendingSs, pendingCt, ctInFlight, seenPeerPq := None, None, None, None, None;
      stepsSincePq, lastPqAt, pqStepsDone := 0, now, 0;
    }

    /** `me` and `kem` are what the generator would draw for a new ratchet key and a new KEM key. */
    method Send(me: nat, kem: nat, now: nat, text: string) returns (f: Frame)
      requires Valid()
      modifies this
      ensures Valid()
      ensures (Value(), f) == Encrypt(old(Value()), me, kem, now, text)
    {
      if stepBeforeSend || ckSend.None? {
        StepRoot(me, kem, now);
      }
      var ck := ckSend.value;
      ckSend := Some(Next(ck));
      var header := Header(dhSelf.value, pn, nSend, ctInFlight,
                           if pqKey.Some? then Some(KemPub(pqKey.value)) else None);
      f := Frame(header, Sealed(Msg(ck), nSend, header, text));
      nSend := nSend + 1;
    }

    method StepRoot(me: nat, kem: nat, now: nat)
      requires Valid()
      modifies this
      ensures Valid() && Value() == OpenChain(old(Value()), me, kem, now)
    {
      var ikm := MixOwed(Dh(me, dhPeer), now);
      rk, ckSend := Root(rk, ikm), Some(Chain(rk, ikm));
      dhSelf := Some(me);
      pn, nSend := nSend, 0;
      stepBeforeSend := false;
      if pqKey.None? && (stepsSincePq >= opts.pqEverySteps || Elapsed(now, lastPqAt) >= opts.pqEveryMs) {
        pqKey := Some(kem);
      }
    }

    /** Takes the secret owed to the peer, if any, into the input of the next root step. */
    method MixOwed(dh: DhOut, now: nat) returns (ikm: Ikm)
      requires Valid()
      modifies this
      ensures Valid()
      ensures ikm == OwedIkm(old(Value()), dh) && Value() == OwedTaken(old(Value()), now)
    {
      if pendingSs.Some? {
        ikm := Hybrid(dh, pendingSs.value);
        pendingSs, ctInFlight, pendingCt := None, pendingCt, None;
        stepsSincePq, lastPqAt, pqStepsDone := 0, now, pqStepsDone + 1;
      } else {
        ikm := Classical(dh);
        stepsSincePq := stepsSincePq + 1;
      }
    }

    method NotePeer(pub: Option<KemPub>, m: nat)
      requires Valid()
      modifies this
      ensures Valid() && Value() == NotePeerPq(old(Value()), pub, m)
    {
      if pub.None? || seenPeerPq == pub {
        return;
      }
      match Encapsulate(pub.value, m)
      case None =>
      case Some((ct, ss)) =>
        pendingSs, pendingCt, seenPeerPq := Some(ss), Some(ct), pub;
    }

    /** Stashes keys[0], keys[1], .. under `pub` from counter `start` on. */
    method Stash(pub: nat, start: nat, keys: seq<Key>, now: nat)
      requires Valid()
      modifies skipped
      ensures Valid()
      ensures skipped.chains == PutKeys(old(skipped.chains), opts.maxChains, pub, start, keys, now)
    {
      var i := 0;
      while i < |keys|
        invariant i <= |keys|
        invariant skipped.chains == PutKeys(old(skipped.chains), opts.maxChains, pub, start, keys[..i], now)
      {
        assert keys[..i + 1][..i] == keys[..i];
        skipped.Put(pub, start + i, keys[i], now);
        i := i + 1;
      }
      assert keys[..i] == keys;
    }

    method Receive(now: nat, m: nat, f: Frame) returns (r: Outcome)
      requires Valid()
      modifies this, skipped
      ensures Valid()
      ensures (Value(), r) == Decrypt(old(Value()), now, m, f)
    {
      if f.Undecodable? {
        return Refused;
      }
      var h, body := f.header, f.body;
      skipped.Prune(now);
      var stashed := skipped.Peek(h.dhPub, h.n);
      if stashed.Some? {
        var pt := Open(stashed.value, h.n, h, body);
        if pt.None? {
          return Refused;
        }
        skipped.Drop(h.dhPub, h.n);
        NotePeer(h.pqPub, m);
        return Opened(pt.value);
      }
      if h.dhPub == dhPeer {
        r := ReceiveSame(now, m, h, body);
      } else {
        r := ReceiveTurn(now, m, h, body);
      }
    }

    method ReceiveSame(now: nat, m: nat, h: Header, body: Body) returns (r: Outcome)
      requires Valid() && h.dhPub == dhPeer
      modifies this, skipped
      ensures Valid()
      ensures (Value(), r) == DecryptSame(old(Value()), now, m, h, body)
    {
      if ckRecv.None? || h.n < nRecv {
        return Refused;
      }
      var ok, keys, at := Advance(ckRecv.value, nRecv, h.n, opts.maxSkip);
      if !ok {
        return SkipBound(h.n - nRecv);
      }
      var pt := Open(Msg(at), h.n, h, body);
      if pt.None? {
        return Refused;
      }
      Stash(h.dhPub, nRecv, keys, now);
      ckRecv := Some(Next(at));
      nRecv := h.n + 1;
      NotePeer(h.pqPub, m);
      return Opened(pt.value);
    }

    /** The peer's step on the side: nothing moves until the frame has opened. */
    method Provisional(h: Header, body: Body) returns (r: Outcome, owed: seq<Key>, keys: seq<Key>, ikm: Ikm)
      requires Valid()
      ensures forall now, m ::
                DecryptTurn(Value(), now, m, h, body)
                == (if r.Opened? then (NotePeerPq(Turned(Value(), now, h, ikm), h.pqPub, m), r) else (Value(), r))
      ensures r.Opened? ==> owed == ClosingKeys(Value(), h.pn) && keys == PassedKeys(Chain(rk, ikm), h.n)
    {
      owed, keys, ikm := [], [], Classical(DhOut(0, 0));
      if dhSelf.None? || (h.pqCt.Some? && pqKey.None?) {
        return Refused, owed, keys, ikm;
      }
      if ckRecv.Some? {
        var ok, closing, end := Advance(ckRecv.value, nRecv, h.pn, opts.maxSkip);
        if !ok {
          return SkipBound(h.pn - nRecv), owed, keys, ikm;
        }
        owed := closing;
      }
      var dh := Dh(dhSelf.value, h.dhPub);
      ikm := Classical(dh);
      if h.pqCt.Some? {
        var ss := Decapsulate(pqKey.value, h.pqCt.value);
        if ss.None? {
          return Refused, owed, keys, ikm;
        }
        ikm := Hybrid(dh, ss.value);
      }
      assert TurnIkm(Value(), h) == Some(ikm);
      var ok, walked, at := Advance(Chain(rk, ikm), 0, h.n, opts.maxSkip);
      if !ok {
        return SkipBound(h.n), owed, keys, ikm;
      }
      keys := walked;
      var pt := Open(Msg(at), h.n, h, body);
      r := if pt.None? then Refused else Opened(pt.value);
    }

    method ReceiveTurn(now: nat, m: nat, h: Header, body: Body) returns (r: Outcome)
      requires Valid() && h.dhPub != dhPeer
      modifies this, skipped
      ensures Valid()
      ensures (Value(), r) == DecryptTurn(old(Value()), now, m, h, body)
    {
      var owed, keys, ikm;
      r, owed, keys, ikm := Provisional(h, body);
      if r.Opened? {
        Stash(dhPeer, nRecv, owed, now);
        Stash(h.dhPub, 0, keys, now);
        TakeTurn(now, h, ikm);
        NotePeer(h.pqPub, m);
      }
    }

    method TakeTurn(now: nat, h: Header, ikm: Ikm)
      requires Valid()
      modifies this
      ensures Valid()
      ensures Value() == Turned(old(Value()), now, h, ikm).(skipped := skipped.chains)
    {
      if h.pqCt.Some? {
        CountAnswer(now);
      }
      rk, ckRecv := Root(rk, ikm), Some(Next(Walk(Chain(rk, ikm), h.n)));
      dhPeer, nRecv := h.dhPub, h.n + 1;
      stepBeforeSend, ctInFlight := true, None;
    }

    method CountAnswer(now: nat)
      requires Valid()
      modifies this
      ensures Valid()
      ensures Value() == AnswerTaken(old(Value()), now)
    {
      pqKey, stepsSincePq, lastPqAt, pqStepsDone := None, 0, now, pqStepsDone + 1;
    }
  }
}
