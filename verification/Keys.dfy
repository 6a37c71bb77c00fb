/**
 * Symbolic key material shared by the handshake, the ratchet and the group chains.
 *
 * Every derivation is an injective constructor: two keys are equal exactly when
 * they were derived the same way. A scalar and its public key share one name, so
 * Diffie-Hellman is the unordered pair of the two names.
 */
module Keys {

  datatype Option<+T> = None | Some(value: T)

  /** What an X25519 exchange yields: the two names, smaller first. */
  datatype DhOut = DhOut(lo: nat, hi: nat)

  function Dh(self: nat, peer: nat): DhOut {
    if self <= peer then DhOut(self, peer) else DhOut(peer, self)
  }

  lemma DhCommutes(a: nat, b: nat)
    ensures Dh(a, b) == Dh(b, a)
  {
  }

  /** An encapsulation key as it travels; a peer may also send bytes that are none. */
  datatype KemPub = KemPub(id: nat) | MalformedPub

  /** A ciphertext: an honest one names its key and randomness. */
  datatype KemCt = KemCt(key: nat, m: nat) | GarbageCt(id: nat) | WrongLengthCt

  /** A shared secret, or the unrelated secret of implicit rejection (section 7.3 of FIPS 203). */
  datatype KemSs = KemSs(key: nat, m: nat) | RejectedSs(key: nat, ct: KemCt)

  function Encapsulate(pub: KemPub, m: nat): Option<(KemCt, KemSs)> {
    match pub
    case KemPub(id) => Some((KemCt(id, m), KemSs(id, m)))
    case MalformedPub => None
  }

  function Decapsulate(key: nat, ct: KemCt): Option<KemSs> {
    match ct
    case KemCt(k, m) => if k == key then Some(KemSs(k, m)) else Some(RejectedSs(key, ct))
    case GarbageCt(_) => Some(RejectedSs(key, ct))
    case WrongLengthCt => None
  }

  /** The initiator tag of msg1: a MAC under the pair's tag key, or bytes that are none. */
  datatype Tag = Tag(tagKey: nat, ik: nat) | ForeignTag(id: nat)

  datatype Msg1 = Msg1(ek: nat, pq: KemPub, ts: nat, tag: Tag)

  /** Input of a root step: the info label tells the classical from the hybrid one. */
  datatype Ikm = Classical(dh: DhOut) | Hybrid(dh: DhOut, ss: KemSs)

  /**
   * The 32-byte keys. `Session` is SK (its salt is the hash of msg1), `Root` and
   * `Chain` are the two halves of one root step, `Next` and `Msg` the two chain
   * labels. `Loose` is any key outside every session, `Wiped` a zeroed buffer, and
   * `At` stands for the key in a buffer where buffers are told apart by address.
   */
  datatype Key =
    | Session(dh1: DhOut, dh2: DhOut, dh3: DhOut, ss: KemSs, msg1: Msg1)
    | Root(prev: Key, ikm: Ikm)
    | Chain(prev: Key, ikm: Ikm)
    | Next(ck: Key)
    | Msg(ck: Key)
    | Loose(id: nat)
    | Wiped
    | At(addr: nat)

  /** A chain key advanced k times. */
  function Walk(ck: Key, k: nat): Key {
    if k == 0 then ck else Next(Walk(ck, k - 1))
  }

  /** Walking to i and then on to n is walking to n. */
  lemma {:induction false} WalkOn(ck: Key, i: nat, n: nat)
    requires i <= n
    ensures Walk(Walk(ck, i), n - i) == Walk(ck, n)
  {
    if i == n {
    } else {
      WalkOn(ck, i, n - 1);
    }
  }

  /** Two walks from keys that are not themselves `Next` keys meet only when they are the same walk. */
  lemma {:induction false} WalkInjective(a: Key, i: nat, b: Key, j: nat)
    requires !a.Next? && !b.Next?
    requires Walk(a, i) == Walk(b, j)
    ensures a == b && i == j
  {
    if i == 0 || j == 0 {
    } else {
      WalkInjective(a, i - 1, b, j - 1);
    }
  }

  /** The message keys passed over while walking k steps. */
  function PassedKeys(ck: Key, k: nat): (keys: seq<Key>)
    ensures |keys| == k
  {
    seq(k, i requires 0 <= i => Msg(Walk(ck, i)))
  }

  /** Number of root steps above SK. */
  function Depth(k: Key): nat {
    match k
    case Root(prev, _) => 1 + Depth(prev)
    case Chain(prev, _) => 1 + Depth(prev)
    case Next(ck) => Depth(ck)
    case Msg(ck) => Depth(ck)
    case _ => 0
  }

  /** True of SK and of every key derived from it. */
  predicate RootedIn(sk: Key, k: Key) {
    k == sk ||
    match k
    case Root(prev, _) => RootedIn(sk, prev)
    case Chain(prev, _) => RootedIn(sk, prev)
    case Next(ck) => RootedIn(sk, ck)
    case Msg(ck) => RootedIn(sk, ck)
    case _ => false
  }

  lemma {:induction false} WalkKeeps(sk: Key, ck: Key, k: nat)
    ensures RootedIn(sk, ck) ==> RootedIn(sk, Walk(ck, k))
    ensures Depth(Walk(ck, k)) == Depth(ck)
  {
    if k == 0 {
    } else {
      WalkKeeps(sk, ck, k - 1);
    }
  }
}
