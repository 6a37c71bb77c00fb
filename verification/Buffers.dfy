/**
 * Key buffers by address, and a store of skipped keys that holds addresses: what
 * zeroing a buffer in place does to everything that may still point to it.
 */
module Buffers {
  import opened Keys
  import opened SkippedKeys

  /** What each buffer ever allocated holds now. */
  type Memory = map<nat, Key>

  function Load(mem: Memory, k: Key): Key {
    if k.At? && k.addr in mem then mem[k.addr] else Wiped
  }

  function LoadHeld(mem: Memory, keys: map<nat, Held>): map<nat, Held> {
    map n | n in keys :: Held(Load(mem, keys[n].key), keys[n].at)
  }

  /** The store with the keys in place of their addresses. */
  function Deref(mem: Memory, s: Store): (t: Store)
    ensures |t| == |s|
    ensures forall i :: 0 <= i < |s| ==> t[i].pub == s[i].pub && t[i].keys == LoadHeld(mem, s[i].keys)
  {
    seq(|s|, i requires 0 <= i < |s| => Chained(s[i].pub, LoadHeld(mem, s[i].keys)))
  }

  /** Some entry of the store points to this buffer. */
  ghost predicate Holds(s: Store, a: nat) {
    exists d: nat, n: nat :: Find(s, d, n).Some? && Find(s, d, n).value.key == At(a)
  }

  /** Every entry points to a buffer of its own. */
  ghost predicate Pointed(mem: Memory, s: Store) {
    && (forall d: nat, n: nat :: Find(s, d, n).Some? ==> Find(s, d, n).value.key.At? && Find(s, d, n).value.key.addr in mem)
    && (forall d: nat, n: nat, e: nat, m: nat ::
          && Find(s, d, n).Some? && Find(s, e, m).Some?
          && Find(s, d, n).value.key == Find(s, e, m).value.key
          ==> d == e && n == m)
  }

  /** Buffers outside `gone` hold what they held. */
  predicate KeptOutside(before: Memory, after: Memory, gone: set<nat>) {
    forall a :: a in before && a !in gone ==> a in after && after[a] == before[a]
  }

  // ------------------------------------------------------------------------
  // addresses and values move alike
  // ------------------------------------------------------------------------

  lemma {:induction false} PositionSame(s: Store, t: Store, pub: nat)
    requires |s| == |t| && forall i :: 0 <= i < |s| ==> s[i].pub == t[i].pub
    ensures Position(s, pub) == Position(t, pub)
  {
    if s == [] || s[0].pub == pub {
    } else {
      PositionSame(s[1..], t[1..], pub);
    }
  }

  lemma DerefFind(mem: Memory, s: Store, d: nat, n: nat)
    ensures Find(Deref(mem, s), d, n)
         == (match Find(s, d, n) case Some(h) => Some(Held(Load(mem, h.key), h.at)) case None => None)
  {
    PositionSame(s, Deref(mem, s), d);
  }

  lemma DerefPut(mem: Memory, s: Store, max: nat, pub: nat, n: nat, a: nat, now: nat)
    requires a in mem
    ensures Deref(mem, PutKey(s, max, pub, n, At(a), now)) == PutKey(Deref(mem, s), max, pub, n, mem[a], now)
  {
    PositionSame(s, Deref(mem, s), pub);
    var i := Position(s, pub);
    if i < |s| {
      assert LoadHeld(mem, s[i].keys[n := Held(At(a), now)]) == LoadHeld(mem, s[i].keys)[n := Held(mem[a], now)];
    } else {
      assert LoadHeld(mem, map[n := Held(At(a), now)]) == map[n := Held(mem[a], now)];
    }
  }

  lemma LoadLess(mem: Memory, keys: map<nat, Held>, n: nat)
    ensures LoadHeld(mem, keys - {n}) == LoadHeld(mem, keys) - {n}
    ensures |LoadHeld(mem, keys - {n})| == |keys - {n}|
  {
    LoadSize(mem, keys - {n});
  }

  lemma DerefDrop(mem: Memory, s: Store, pub: nat, n: nat)
    ensures Deref(mem, DropKey(s, pub, n)) == DropKey(Deref(mem, s), pub, n)
  {
    hide LoadHeld;
    PositionSame(s, Deref(mem, s), pub);
    var i := Position(s, pub);
    if i < |s| {
      LoadLess(mem, s[i].keys, n);
      DerefParts(mem, s, i, s[i].keys - {n});
    }
  }

  lemma DerefParts(mem: Memory, s: Store, i: nat, left: map<nat, Held>)
    requires i < |s|
    ensures Deref(mem, s[..i] + s[i + 1..]) == Deref(mem, s)[..i] + Deref(mem, s)[i + 1..]
    ensures Deref(mem, s[i := Chained(s[i].pub, left)]) == Deref(mem, s)[i := Chained(s[i].pub, LoadHeld(mem, left))]
  {
    hide LoadHeld;
  }

  lemma LoadSize(mem: Memory, keys: map<nat, Held>)
    ensures |LoadHeld(mem, keys)| == |keys|
  {
    assert LoadHeld(mem, keys).Keys == keys.Keys;
  }

  lemma DerefJoin(mem: Memory, s: Store, t: Store)
    ensures Deref(mem, s + t) == Deref(mem, s) + Deref(mem, t)
  {
  }

  lemma {:induction false} DerefNonEmpty(mem: Memory, s: Store)
    ensures Deref(mem, NonEmpty(s)) == NonEmpty(Deref(mem, s))
  {
    hide LoadHeld, NonEmpty, Deref;
    if s == [] {
      NothingNonEmpty(s);
      NothingNonEmpty(Deref(mem, s));
      assert Deref(mem, s) == [];
    } else {
      DerefNonEmpty(mem, s[1..]);
      LoadSize(mem, s[0].keys);
      DerefJoin(mem, s[..1], s[1..]);
      assert s == s[..1] + s[1..] && s[0..] == s && Deref(mem, s)[0..] == Deref(mem, s);
      assert Deref(mem, s)[1..] == Deref(mem, s[1..]);
      NonEmptyAt(s, 0);
      NonEmptyAt(Deref(mem, s), 0);
      var first: Store := if |s[0].keys| == 0 then [] else [s[0]];
      DerefJoin(mem, first, NonEmpty(s[1..]));
    }
  }

  lemma DerefPrune(mem: Memory, s: Store, now: nat, ttl: nat)
    ensures Deref(mem, PruneKeys(s, now, ttl)) == PruneKeys(Deref(mem, s), now, ttl)
  {
    DerefNonEmpty(mem, Aged(s, now, ttl));
    forall i | 0 <= i < |s|
      ensures LoadHeld(mem, Young(s[i].keys, now, ttl)) == Young(LoadHeld(mem, s[i].keys), now, ttl)
    {
    }
    assert Deref(mem, Aged(s, now, ttl)) == Aged(Deref(mem, s), now, ttl);
  }

  // ------------------------------------------------------------------------
  // what a write elsewhere leaves alone
  // ------------------------------------------------------------------------

  /** An entry at its place is the one that is found. */
  lemma EntryFound(s: Store, max: nat, i: nat, n: nat)
    requires WellFormed(s, max) && i < |s| && n in s[i].keys
    ensures Find(s, s[i].pub, n) == Some(s[i].keys[n])
  {
    KeysAt(s, i);
  }

  /** Writes to buffers the store does not point to do not show in it. */
  lemma DerefFrame(before: Memory, after: Memory, s: Store, max: nat, gone: set<nat>)
    requires WellFormed(s, max) && Pointed(before, s) && KeptOutside(before, after, gone)
    requires forall a :: a in gone ==> !Holds(s, a)
    ensures Deref(after, s) == Deref(before, s) && Pointed(after, s)
  {
    forall d: nat, n: nat | Find(s, d, n).Some?
      ensures Find(s, d, n).value.key.addr in after && Load(after, Find(s, d, n).value.key) == Load(before, Find(s, d, n).value.key)
    {
      assert Holds(s, Find(s, d, n).value.key.addr);
    }
    forall i | 0 <= i < |s| ensures LoadHeld(after, s[i].keys) == LoadHeld(before, s[i].keys) {
      forall n | n in s[i].keys ensures Load(after, s[i].keys[n].key) == Load(before, s[i].keys[n].key) {
        EntryFound(s, max, i, n);
      }
    }
  }

  // ------------------------------------------------------------------------
  // whose buffers the store still points to
  // ------------------------------------------------------------------------

  lemma PutPointed(mem: Memory, s: Store, max: nat, pub: nat, n: nat, a: nat, now: nat)
    requires max >= 1 && WellFormed(s, max) && Pointed(mem, s) && a in mem && !Holds(s, a)
    ensures WellFormed(PutKey(s, max, pub, n, At(a), now), max) && Pointed(mem, PutKey(s, max, pub, n, At(a), now))
    ensures forall b :: Holds(PutKey(s, max, pub, n, At(a), now), b) ==> b == a || Holds(s, b)
  {
    var t := PutKey(s, max, pub, n, At(a), now);
    PutFind(s, max, pub, n, At(a), now, 0, 0);
    forall d: nat, k: nat
      ensures Find(t, d, k).Some? ==> Find(t, d, k) == Find(s, d, k) || (d == pub && k == n && Find(t, d, k).value.key == At(a))
    {
      PutFind(s, max, pub, n, At(a), now, d, k);
    }
    StillPointed(mem, s, t, pub, n, a);
  }

  /** A store with one entry changed to point to a buffer of its own. */
  lemma StillPointed(mem: Memory, s: Store, t: Store, pub: nat, n: nat, a: nat)
    requires Pointed(mem, s) && a in mem && !Holds(s, a)
    requires forall d: nat, k: nat :: Find(t, d, k).Some? ==>
               Find(t, d, k) == Find(s, d, k) || (d == pub && k == n && Find(t, d, k).value.key == At(a))
    ensures Pointed(mem, t)
    ensures forall b :: Holds(t, b) ==> b == a || Holds(s, b)
  {
    assert forall d: nat, k: nat :: Find(s, d, k).Some? ==> Find(s, d, k).value.key != At(a);
    forall b | Holds(t, b) ensures b == a || Holds(s, b) {
      var d: nat, k: nat :| Find(t, d, k).Some? && Find(t, d, k).value.key == At(b);
      if Find(t, d, k) == Find(s, d, k) {
        assert Holds(s, b);
      }
    }
  }

  /** A store with entries taken away. */
  lemma FewerPointed(mem: Memory, s: Store, t: Store)
    requires Pointed(mem, s)
    requires forall d: nat, k: nat :: Find(t, d, k).Some? ==> Find(t, d, k) == Find(s, d, k)
    ensures Pointed(mem, t)
    ensures forall b :: Holds(t, b) ==> Holds(s, b)
  {
    forall b | Holds(t, b) ensures Holds(s, b) {
      var d: nat, k: nat :| Find(t, d, k).Some? && Find(t, d, k).value.key == At(b);
      assert Find(s, d, k).value.key == At(b);
    }
  }

  lemma DropPointed(mem: Memory, s: Store, max: nat, pub: nat, n: nat, a: nat)
    requires WellFormed(s, max) && Pointed(mem, s) && Find(s, pub, n).Some? && Find(s, pub, n).value.key == At(a)
    ensures WellFormed(DropKey(s, pub, n), max) && Pointed(mem, DropKey(s, pub, n)) && !Holds(DropKey(s, pub, n), a)
    ensures forall b :: Holds(DropKey(s, pub, n), b) ==> Holds(s, b)
  {
    var t := DropKey(s, pub, n);
    DropFind(s, max, pub, n, 0, 0);
    forall d: nat, k: nat ensures Find(t, d, k) == (if d == pub && k == n then None else Find(s, d, k)) {
      DropFind(s, max, pub, n, d, k);
    }
    FewerPointed(mem, s, t);
  }

  lemma PrunePointed(mem: Memory, s: Store, max: nat, now: nat, ttl: nat)
    requires WellFormed(s, max) && Pointed(mem, s)
    ensures WellFormed(PruneKeys(s, now, ttl), max) && Pointed(mem, PruneKeys(s, now, ttl))
    ensures forall b :: Holds(PruneKeys(s, now, ttl), b) ==> Holds(s, b)
    ensures forall d: nat, k: nat :: Find(s, d, k).Some? && !Fresh(Find(s, d, k).value, now, ttl) && Find(s, d, k).value.key.At? ==>
              !Holds(PruneKeys(s, now, ttl), Find(s, d, k).value.key.addr)
  {
    var t := PruneKeys(s, now, ttl);
    PruneFind(s, max, now, ttl, 0, 0);
    forall d: nat, k: nat
      ensures Find(t, d, k) == (if Find(s, d, k).Some? && Fresh(Find(s, d, k).value, now, ttl) then Find(s, d, k) else None)
    {
      PruneFind(s, max, now, ttl, d, k);
    }
    FewerPointed(mem, s, t);
    forall d: nat, k: nat | Find(s, d, k).Some? && !Fresh(Find(s, d, k).value, now, ttl)
      ensures !Holds(t, Find(s, d, k).value.key.addr)
    {
      forall e: nat, m: nat | Find(t, e, m).Some? ensures Find(t, e, m).value.key != Find(s, d, k).value.key {
        assert Find(t, e, m) == Find(s, e, m);
      }
    }
  }

  /** The chain evicted by a put into a full store is no longer pointed to. */
  lemma EvictedUnheld(mem: Memory, s: Store, max: nat, pub: nat, n: nat, a: nat, now: nat, k: nat)
    requires max >= 1 && WellFormed(s, max) && Pointed(mem, s) && a in mem && !Holds(s, a)
    requires Position(s, pub) == |s| == max && k in s[0].keys
    ensures Find(s, s[0].pub, k) == Some(s[0].keys[k]) && s[0].keys[k].key.At?
    ensures !Holds(PutKey(s, max, pub, n, At(a), now), s[0].keys[k].key.addr)
  {
    var t := PutKey(s, max, pub, n, At(a), now);
    EntryFound(s, max, 0, k);
    assert Holds(s, s[0].keys[k].key.addr);
    forall e: nat, m: nat | Find(t, e, m).Some? ensures Find(t, e, m).value.key != s[0].keys[k].key {
      PutFind(s, max, pub, n, At(a), now, e, m);
      assert Find(s, s[0].pub, k).value.key == s[0].keys[k].key != At(a);
    }
  }
}
