/**
 * The bounded store of skipped message keys (core-rs/src/ratchet.rs, `Skipped`):
 * chains in insertion order, the oldest evicted first, keys dropped by age.
 */
module SkippedKeys {
  import opened Keys

  datatype Held = Held(key: Key, at: nat)
  datatype Chained = Chained(pub: nat, keys: map<nat, Held>)
  type Store = seq<Chained>

  // ------------------------------------------------------------------------
  // the store as a value
  // ------------------------------------------------------------------------

  /** Index of the first chain of this public key, or the length when there is none. */
  function Position(s: Store, pub: nat): (i: nat)
    ensures i <= |s|
    ensures i < |s| ==> s[i].pub == pub
    ensures forall j :: 0 <= j < i ==> s[j].pub != pub
  {
    if s == [] || s[0].pub == pub then 0 else 1 + Position(s[1..], pub)
  }

  /** The keys held for one public key; none when it has no chain here. */
  function KeysOf(s: Store, pub: nat): map<nat, Held> {
    var i := Position(s, pub);
    if i < |s| then s[i].keys else map[]
  }

  function Find(s: Store, pub: nat, n: nat): Option<Held> {
    var keys := KeysOf(s, pub);
    if n in keys then Some(keys[n]) else None
  }

  /** The newest `max` chains. */
  function Newest(s: Store, max: nat): Store {
    if |s| <= max then s else s[|s| - max..]
  }

  function PutKey(s: Store, max: nat, pub: nat, n: nat, key: Key, now: nat): Store {
    var i := Position(s, pub);
    if i < |s| then s[i := Chained(pub, s[i].keys[n := Held(key, now)])]
    else Newest(s + [Chained(pub, map[n := Held(key, now)])], max)
  }

  /** Puts keys[0], keys[1], .. at counters start, start + 1, .. */
  function PutKeys(s: Store, max: nat, pub: nat, start: nat, keys: seq<Key>, now: nat): Store
    decreases |keys|
  {
    if keys == [] then s
    else
      var last := |keys| - 1;
      PutKey(PutKeys(s, max, pub, start, keys[..last], now), max, pub, start + last, keys[last], now)
  }

  function DropKey(s: Store, pub: nat, n: nat): Store {
    var i := Position(s, pub);
    if i == |s| then s
    else
      var left := s[i].keys - {n};
      if |left| == 0 then s[..i] + s[i + 1..] else s[i := Chained(pub, left)]
  }

  predicate Fresh(h: Held, now: nat, ttl: nat) {
    now - h.at <= ttl
  }

  function Young(keys: map<nat, Held>, now: nat, ttl: nat): map<nat, Held> {
    map n | n in keys && Fresh(keys[n], now, ttl) :: keys[n]
  }

  function NonEmpty(s: Store): Store {
    if s == [] then [] else (if |s[0].keys| == 0 then [] else [s[0]]) + NonEmpty(s[1..])
  }

  function Aged(s: Store, now: nat, ttl: nat): (t: Store)
    ensures |t| == |s|
  {
    seq(|s|, i requires 0 <= i < |s| => Chained(s[i].pub, Young(s[i].keys, now, ttl)))
  }

  function PruneKeys(s: Store, now: nat, ttl: nat): Store {
    NonEmpty(Aged(s, now, ttl))
  }

  function Size(s: Store): nat {
    if s == [] then 0 else |s[0].keys| + Size(s[1..])
  }

  predicate OnePerPub(s: Store) {
    forall i, j :: 0 <= i < j < |s| ==> s[i].pub != s[j].pub
  }

  /** One entry per public key, none of them empty, no more than the bound. */
  predicate WellFormed(s: Store, max: nat) {
    && |s| <= max
    && (forall i :: 0 <= i < |s| ==> |s[i].keys| > 0)
    && OnePerPub(s)
  }

  // ------------------------------------------------------------------------
  // what each operation does to a lookup
  // ------------------------------------------------------------------------

  lemma KeysAt(s: Store, i: nat)
    requires OnePerPub(s) && i < |s|
    ensures Position(s, s[i].pub) == i && KeysOf(s, s[i].pub) == s[i].keys
  {
    var p := Position(s, s[i].pub);
    assert !(p < i) && !(i < p);
  }

  lemma KeysNone(s: Store, pub: nat)
    requires forall i :: 0 <= i < |s| ==> s[i].pub != pub
    ensures Position(s, pub) == |s| && KeysOf(s, pub) == map[]
  {
  }

  /** Moving the chains around without touching the one of `d` keeps its keys. */
  lemma KeysMoved(s: Store, t: Store, d: nat)
    requires OnePerPub(s) && OnePerPub(t)
    requires forall i :: 0 <= i < |s| && s[i].pub == d ==> s[i] in t
    requires forall i :: 0 <= i < |t| && t[i].pub == d ==> t[i] in s
    ensures KeysOf(t, d) == KeysOf(s, d)
  {
    var p := Position(s, d);
    if p < |s| {
      var q :| 0 <= q < |t| && t[q] == s[p];
      KeysAt(t, q);
    } else {
      forall i | 0 <= i < |t| ensures t[i].pub != d {
        var c := t[i];
        assert c.pub == d ==> c in s;
      }
      KeysNone(t, d);
    }
  }

  /** The chain a put would evict: the oldest one, when a new chain arrives at a full store. */
  predicate EvictedBy(s: Store, max: nat, pub: nat, victim: nat) {
    && Position(s, pub) == |s|
    && |s| == max
    && s != []
    && victim == s[0].pub
  }

  lemma PutKeyOld(s: Store, max: nat, pub: nat, n: nat, key: Key, now: nat, d: nat)
    requires max >= 1 && WellFormed(s, max) && Position(s, pub) < |s|
    ensures WellFormed(PutKey(s, max, pub, n, key, now), max)
    ensures KeysOf(PutKey(s, max, pub, n, key, now), d)
         == (if d == pub then KeysOf(s, pub)[n := Held(key, now)] else KeysOf(s, d))
  {
    var i := Position(s, pub);
    var r := PutKey(s, max, pub, n, key, now);
    assert r == s[i := Chained(pub, s[i].keys[n := Held(key, now)])];
    assert n in r[i].keys;
    assert forall x :: 0 <= x < |r| ==> r[x].pub == s[x].pub;
    assert WellFormed(r, max);
    KeysAt(r, i);
    if d != pub {
      forall x | 0 <= x < |s| && s[x].pub == d ensures s[x] in r { assert r[x] == s[x]; }
      KeysMoved(s, r, d);
    }
  }

  lemma AppendKeys(s: Store, c: Chained, d: nat)
    requires OnePerPub(s) && Position(s, c.pub) == |s|
    ensures OnePerPub(s + [c])
    ensures KeysOf(s + [c], d) == (if d == c.pub then c.keys else KeysOf(s, d))
  {
    var r := s + [c];
    assert r[|s|] == c;
    assert forall x :: 0 <= x < |s| ==> r[x] == s[x];
    assert OnePerPub(r);
    KeysAt(r, |s|);
    if d != c.pub {
      forall x | 0 <= x < |s| && s[x].pub == d ensures s[x] in r { assert r[x] == s[x]; }
      KeysMoved(s, r, d);
    }
  }

  lemma TailKeys(s: Store, d: nat)
    requires OnePerPub(s) && s != []
    ensures OnePerPub(s[1..])
    ensures KeysOf(s[1..], d) == (if d == s[0].pub then map[] else KeysOf(s, d))
  {
    if d == s[0].pub {
      KeysNone(s[1..], d);
    }
  }

  lemma PutKeyNew(s: Store, max: nat, pub: nat, n: nat, key: Key, now: nat, d: nat)
    requires max >= 1 && WellFormed(s, max) && Position(s, pub) == |s|
    ensures WellFormed(PutKey(s, max, pub, n, key, now), max)
    ensures KeysOf(PutKey(s, max, pub, n, key, now), d)
         == (if d == pub then map[n := Held(key, now)] else if EvictedBy(s, max, pub, d) then map[] else KeysOf(s, d))
  {
    var kept := if |s| == max then s[1..] else s;
    var c := Chained(pub, map[n := Held(key, now)]);
    assert PutKey(s, max, pub, n, key, now) == kept + [c];
    if |s| == max {
      TailKeys(s, d);
      TailKeys(s, pub);
      KeysNone(kept, pub);
    }
    AppendKeys(kept, c, d);
    assert n in c.keys;
  }

  lemma PutFind(s: Store, max: nat, pub: nat, n: nat, key: Key, now: nat, d: nat, k: nat)
    requires max >= 1 && WellFormed(s, max)
    ensures WellFormed(PutKey(s, max, pub, n, key, now), max)
    ensures Find(PutKey(s, max, pub, n, key, now), d, k)
         == (if d == pub && k == n then Some(Held(key, now))
             else if EvictedBy(s, max, pub, d) then None
             else Find(s, d, k))
  {
    if Position(s, pub) < |s| {
      PutKeyOld(s, max, pub, n, key, now, d);
    } else {
      PutKeyNew(s, max, pub, n, key, now, d);
    }
  }

  lemma DropFind(s: Store, max: nat, pub: nat, n: nat, d: nat, k: nat)
    requires WellFormed(s, max)
    ensures WellFormed(DropKey(s, pub, n), max)
    ensures Find(DropKey(s, pub, n), d, k) == (if d == pub && k == n then None else Find(s, d, k))
  {
    hide Size, Position;
    var i := Position(s, pub);
    var r := DropKey(s, pub, n);
    if i < |s| {
      var left := s[i].keys - {n};
      if |left| == 0 {
        DropLast(s, max, i, d);
        assert left == map[];
        assert s[i].keys.Keys <= {n};
      } else {
        assert r == s[i := Chained(pub, left)];
        assert forall x :: 0 <= x < |r| ==> r[x].pub == s[x].pub;
        assert WellFormed(r, max);
        KeysAt(r, i);
        if d != pub {
          forall x | 0 <= x < |s| && s[x].pub == d ensures s[x] in r { assert r[x] == s[x]; }
          KeysMoved(s, r, d);
        }
      }
    }
  }

  lemma DropLast(s: Store, max: nat, i: nat, d: nat)
    requires WellFormed(s, max) && i < |s|
    ensures WellFormed(s[..i] + s[i + 1..], max)
    ensures KeysOf(s[..i] + s[i + 1..], d) == (if d == s[i].pub then map[] else KeysOf(s, d))
  {
    var r := s[..i] + s[i + 1..];
    assert forall x :: 0 <= x < |r| ==> r[x] == s[if x < i then x else x + 1];
    assert WellFormed(r, max);
    if d == s[i].pub {
      KeysNone(r, d);
    } else {
      forall x | 0 <= x < |s| && s[x].pub == d ensures s[x] in r { assert r[if x < i then x else x - 1] == s[x]; }
      KeysMoved(s, r, d);
    }
  }

  /** Filling the last chain before or after the oldest go is the same. */
  lemma NewestPut(s: Store, max: nat, pub: nat, keys: map<nat, Held>)
    requires max >= 1
    ensures var t := Newest(s + [Chained(pub, map[])], max);
            && t != [] && t[|t| - 1] == Chained(pub, map[])
            && Newest(s + [Chained(pub, keys)], max) == t[|t| - 1 := Chained(pub, keys)]
  {
  }

  lemma NonEmptyAt(s: Store, i: nat)
    requires i < |s|
    ensures NonEmpty(s[i..]) == (if |s[i].keys| == 0 then [] else [s[i]]) + NonEmpty(s[i + 1..])
  {
    assert s[i..][1..] == s[i + 1..];
  }

  lemma NothingNonEmpty(s: Store)
    ensures NonEmpty(s[|s|..]) == []
  {
  }

  lemma {:induction false} NonEmptyShape(s: Store)
    requires OnePerPub(s)
    ensures WellFormed(NonEmpty(s), |s|)
    ensures forall c :: c in NonEmpty(s) <==> c in s && |c.keys| > 0
  {
    hide NonEmpty;
    if s == [] {
      NothingNonEmpty(s);
    } else {
      NonEmptyShape(s[1..]);
      var rest := NonEmpty(s[1..]);
      NonEmptyAt(s, 0);
      assert s[0..] == s;
      assert forall c :: c in rest ==> c in s[1..] && c.pub != s[0].pub;
      assert forall c :: c in s <==> c == s[0] || c in s[1..];
    }
  }

  lemma NonEmptyKeys(s: Store, d: nat)
    requires OnePerPub(s)
    ensures KeysOf(NonEmpty(s), d) == KeysOf(s, d)
  {
    hide NonEmpty;
    var r := NonEmpty(s);
    NonEmptyShape(s);
    var p := Position(s, d);
    if p < |s| && |s[p].keys| > 0 {
      var q :| 0 <= q < |r| && r[q] == s[p];
      KeysAt(r, q);
    } else {
      forall i | 0 <= i < |r| ensures r[i].pub != d {
        var c := r[i];
        assert c in s && |c.keys| > 0;
        var x :| 0 <= x < |s| && s[x] == c;
        KeysAt(s, x);
      }
      KeysNone(r, d);
    }
  }

  lemma PruneFind(s: Store, max: nat, now: nat, ttl: nat, d: nat, k: nat)
    requires WellFormed(s, max)
    ensures WellFormed(PruneKeys(s, now, ttl), max)
    ensures Find(PruneKeys(s, now, ttl), d, k)
         == (match Find(s, d, k)
             case Some(h) => if Fresh(h, now, ttl) then Some(h) else None
             case None => None)
  {
    var t := Aged(s, now, ttl);
    assert forall i :: 0 <= i < |s| ==> t[i].pub == s[i].pub;
    assert OnePerPub(t);
    NonEmptyShape(t);
    NonEmptyKeys(t, d);
    var p := Position(s, d);
    if p < |s| {
      assert t[p].pub == d;
      KeysAt(t, p);
    } else {
      KeysNone(t, d);
    }
  }

  lemma FindAny(s: Store, pub: nat, n: nat)
    requires Find(s, pub, n).Some?
    ensures Position(s, pub) < |s|
  {
  }

  /** A run of puts: the keys put are there, at most one older chain is gone, the rest is untouched. */
  lemma {:induction false} PutKeysFind(s: Store, max: nat, pub: nat, start: nat, keys: seq<Key>, now: nat, d: nat, k: nat)
    requires max >= 1 && WellFormed(s, max)
    ensures WellFormed(PutKeys(s, max, pub, start, keys, now), max)
    ensures Find(PutKeys(s, max, pub, start, keys, now), d, k)
         == (if d == pub && start <= k < start + |keys| then Some(Held(keys[k - start], now))
             else if keys != [] && EvictedBy(s, max, pub, d) then None
             else Find(s, d, k))
    decreases |keys|
  {
    hide WellFormed, PutKey, Find;
    if keys == [] {
    } else {
      var last := |keys| - 1;
      var t := PutKeys(s, max, pub, start, keys[..last], now);
      PutKeysFind(s, max, pub, start, keys[..last], now, d, k);
      PutFind(t, max, pub, start + last, keys[last], now, d, k);
      if last > 0 {
        PutKeysFind(s, max, pub, start, keys[..last], now, pub, start);
        FindAny(t, pub, start);
      } else {
        assert t == s;
      }
    }
  }

  /** The same for the keys passed over on a walk of k steps from ck, the chain key of counter `start`. */
  lemma PutPassedFind(s: Store, max: nat, pub: nat, start: nat, ck: Key, k: nat, now: nat, d: nat, n: nat)
    requires max >= 1 && WellFormed(s, max)
    ensures WellFormed(PutKeys(s, max, pub, start, PassedKeys(ck, k), now), max)
    ensures Find(PutKeys(s, max, pub, start, PassedKeys(ck, k), now), d, n)
         == (if d == pub && start <= n < start + k then Some(Held(Msg(Walk(ck, n - start)), now))
             else if k > 0 && EvictedBy(s, max, pub, d) then None
             else Find(s, d, n))
  {
    PutKeysFind(s, max, pub, start, PassedKeys(ck, k), now, d, n);
  }

  /** The whole chain of `d` is out of a store that is full: what eviction leaves behind. */
  ghost predicate Gone(s: Store, max: nat, d: nat) {
    |s| == max && forall n: nat :: Find(s, d, n).None?
  }

  lemma {:induction false} FullStaysFull(s: Store, max: nat, pub: nat, start: nat, keys: seq<Key>, now: nat)
    requires |s| == max
    ensures |PutKeys(s, max, pub, start, keys, now)| == max
    decreases |keys|
  {
    if keys == [] {
    } else {
      FullStaysFull(s, max, pub, start, keys[..|keys| - 1], now);
    }
  }

  /** A held key survives a run of puts unless its whole chain is evicted. */
  lemma KeptOrGone(s: Store, max: nat, pub: nat, start: nat, ck: Key, k: nat, now: nat, d: nat, n: nat)
    requires max >= 1 && WellFormed(s, max)
    requires Find(s, d, n).Some?
    ensures var t := PutKeys(s, max, pub, start, PassedKeys(ck, k), now);
            Find(t, d, n).Some? || Gone(t, max, d)
  {
    var t := PutKeys(s, max, pub, start, PassedKeys(ck, k), now);
    PutPassedFind(s, max, pub, start, ck, k, now, d, n);
    if Find(t, d, n).None? {
      FullStaysFull(s, max, pub, start, PassedKeys(ck, k), now);
      forall x: nat ensures Find(t, d, x).None? {
        PutPassedFind(s, max, pub, start, ck, k, now, d, x);
      }
    }
  }

  lemma GoneStays(s: Store, max: nat, pub: nat, start: nat, ck: Key, k: nat, now: nat, d: nat)
    requires max >= 1 && WellFormed(s, max) && Gone(s, max, d) && d != pub
    ensures Gone(PutKeys(s, max, pub, start, PassedKeys(ck, k), now), max, d)
  {
    FullStaysFull(s, max, pub, start, PassedKeys(ck, k), now);
    forall x: nat ensures Find(PutKeys(s, max, pub, start, PassedKeys(ck, k), now), d, x).None? {
      PutPassedFind(s, max, pub, start, ck, k, now, d, x);
    }
  }

  // ------------------------------------------------------------------------
  // how much it can hold
  // ------------------------------------------------------------------------

  lemma {:induction false} SizeSplit(s: Store, t: Store)
    ensures Size(s + t) == Size(s) + Size(t)
  {
    if s == [] {
      assert s + t == t;
    } else {
      SizeSplit(s[1..], t);
      assert (s + t)[1..] == s[1..] + t;
    }
  }

  lemma SizeWithout(s: Store, i: nat)
    requires i < |s|
    ensures Size(s[..i] + s[i + 1..]) == Size(s) - |s[i].keys|
  {
    SizeSplit(s[..i], s[i + 1..]);
    SizeSplit(s[..i], s[i..]);
    assert s == s[..i] + s[i..];
    assert s[i..][1..] == s[i + 1..];
  }

  lemma SizeOfUpdate(s: Store, i: nat, c: Chained)
    requires i < |s|
    ensures Size(s[i := c]) == Size(s) - |s[i].keys| + |c.keys|
  {
    SizeSplit(s[..i], s[i..]);
    SizeSplit(s[..i], [c] + s[i + 1..]);
    assert s == s[..i] + s[i..];
    assert s[i := c] == s[..i] + ([c] + s[i + 1..]);
    assert s[i..][1..] == s[i + 1..];
    assert ([c] + s[i + 1..])[1..] == s[i + 1..];
  }

  lemma SizeOfPut(s: Store, max: nat, pub: nat, n: nat, key: Key, now: nat)
    ensures Size(PutKey(s, max, pub, n, key, now)) <= Size(s) + 1
  {
    var i := Position(s, pub);
    if i < |s| {
      SizeOfUpdate(s, i, Chained(pub, s[i].keys[n := Held(key, now)]));
    } else {
      var c := Chained(pub, map[n := Held(key, now)]);
      var t := s + [c];
      SizeSplit(s, [c]);
      assert Size([c]) == 1;
      if |t| > max {
        SizeSplit(t[..|t| - max], t[|t| - max..]);
        assert t == t[..|t| - max] + t[|t| - max..];
      }
    }
  }

  lemma {:induction false} SizeOfPuts(s: Store, max: nat, pub: nat, start: nat, keys: seq<Key>, now: nat)
    ensures Size(PutKeys(s, max, pub, start, keys, now)) <= Size(s) + |keys|
    decreases |keys|
  {
    if keys == [] {
    } else {
      var last := |keys| - 1;
      SizeOfPuts(s, max, pub, start, keys[..last], now);
      SizeOfPut(PutKeys(s, max, pub, start, keys[..last], now), max, pub, start + last, keys[last], now);
    }
  }

  lemma {:induction false} SizeOfNonEmpty(s: Store)
    ensures Size(NonEmpty(s)) == Size(s)
  {
    if s == [] {
    } else {
      SizeOfNonEmpty(s[1..]);
      assert NonEmpty(s) == (if |s[0].keys| == 0 then [] else [s[0]]) + NonEmpty(s[1..]);
      SizeSplit(if |s[0].keys| == 0 then [] else [s[0]], NonEmpty(s[1..]));
    }
  }

  lemma {:induction false} SizeOfAged(s: Store, now: nat, ttl: nat)
    ensures Size(Aged(s, now, ttl)) <= Size(s)
  {
    if s == [] {
    } else {
      SizeOfAged(s[1..], now, ttl);
      assert Aged(s, now, ttl)[1..] == Aged(s[1..], now, ttl);
      var young := Young(s[0].keys, now, ttl);
      SubmapSmaller(young, s[0].keys);
    }
  }

  lemma SubmapSmaller(m: map<nat, Held>, n: map<nat, Held>)
    requires m.Keys <= n.Keys
    ensures |m| <= |n|
  {
    var rest := n.Keys - m.Keys;
    assert n.Keys == m.Keys + rest;
  }

  lemma SizeOfPrune(s: Store, now: nat, ttl: nat)
    ensures Size(PruneKeys(s, now, ttl)) <= Size(s)
  {
    SizeOfAged(s, now, ttl);
    SizeOfNonEmpty(Aged(s, now, ttl));
  }

  // ------------------------------------------------------------------------
  // the store in place
  // ------------------------------------------------------------------------

  class Skipped {
    var chains: Store
    const ttl: nat
    const maxChains: nat

    constructor (ttl: nat, maxChains: nat)
      ensures chains == [] && this.ttl == ttl && this.maxChains == maxChains
    {
      chains := [];
      this.ttl := ttl;
      this.maxChains := maxChains;
    }

    method IndexOf(pub: nat) returns (i: nat)
      ensures i == Position(chains, pub)
    {
      i := 0;
      while i < |chains| && chains[i].pub != pub
        invariant i <= |chains|
        invariant Position(chains, pub) == i + Position(chains[i..], pub)
      {
        assert chains[i..][1..] == chains[i + 1..];
        i := i + 1;
      }
    }

    /** A new chain at the end; the oldest go until the bound holds again. */
    method Open(pub: nat)
      requires maxChains >= 1
      modifies this
      ensures chains == Newest(old(chains) + [Chained(pub, map[])], maxChains)
    {
      chains := chains + [Chained(pub, map[])];
      ghost var grown := chains;
      while |chains| > maxChains
        invariant 1 <= |chains| <= |grown|
        invariant |grown| >= maxChains ==> |chains| >= maxChains
        invariant |grown| <= maxChains ==> |chains| == |grown|
        invariant chains == grown[|grown| - |chains|..]
      {
        chains := chains[1..];
      }
    }

    method Put(pub: nat, n: nat, key: Key, now: nat)
      requires maxChains >= 1
      modifies this
      ensures chains == PutKey(old(chains), maxChains, pub, n, key, now)
    {
      var i := IndexOf(pub);
      if i == |chains| {
        NewestPut(chains, maxChains, pub, map[n := Held(key, now)]);
        Open(pub);
        i := |chains| - 1;
      }
      chains := chains[i := Chained(pub, chains[i].keys[n := Held(key, now)])];
    }

    method Peek(pub: nat, n: nat) returns (key: Option<Key>)
      ensures key == match Find(chains, pub, n) case Some(h) => Some(h.key) case None => None
    {
      var i := IndexOf(pub);
      if i < |chains| && n in chains[i].keys {
        return Some(chains[i].keys[n].key);
      }
      return None;
    }

    method Drop(pub: nat, n: nat)
      modifies this
      ensures chains == DropKey(old(chains), pub, n)
    {
      var i := IndexOf(pub);
      if i < |chains| {
        chains := chains[i := Chained(pub, chains[i].keys - {n})];
        if |chains[i].keys| == 0 {
          chains := chains[..i] + chains[i + 1..];
        }
      }
    }

    method ForgetOld(now: nat)
      modifies this
      ensures chains == Aged(old(chains), now, ttl)
    {
      var i := 0;
      while i < |chains|
        invariant i <= |chains| == |old(chains)|
        invariant forall j :: 0 <= j < i ==> chains[j] == Chained(old(chains)[j].pub, Young(old(chains)[j].keys, now, ttl))
        invariant forall j :: i <= j < |chains| ==> chains[j] == old(chains)[j]
      {
        chains := chains[i := Chained(chains[i].pub, Young(chains[i].keys, now, ttl))];
        i := i + 1;
      }
    }

    method RemoveEmpty()
      modifies this
      ensures chains == NonEmpty(old(chains))
    {
      hide NonEmpty;
      var left: Store := [];
      var i := 0;
      assert chains[0..] == chains;
      while i < |chains|
        invariant i <= |chains| && chains == old(chains)
        invariant NonEmpty(chains) == left + NonEmpty(chains[i..])
      {
        NonEmptyAt(chains, i);
        if |chains[i].keys| != 0 {
          left := left + [chains[i]];
        }
        i := i + 1;
      }
      NothingNonEmpty(chains);
      chains := left;
    }

    method Prune(now: nat)
      modifies this
      ensures chains == PruneKeys(old(chains), now, ttl)
    {
      ForgetOld(now);
      RemoveEmpty();
    }
  }
}
