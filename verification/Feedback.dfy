/**
 * A shift register with feedback, over any words that add without carry: what a
 * CRC needs to know about its register, apart from how the bits are stored.
 */
module Feedback {

  /**
   * Words, their sum, one step of the register, the steps a byte takes; a word's
   * lowest bit and the word moved down by it; which words lie within their lowest n
   * bytes, and a word moved one byte up.
   */
  datatype Reg<!W> = Reg(add: (W, W) -> W, zero: W, step: W -> W, width: nat,
                         low: W -> W, half: W -> W, small: (W, nat) -> bool, up: W -> W)

  /** Sums regroup and commute. */
  predicate Regroups<W(==)>(r: Reg<W>, a: W, b: W, c: W) {
    r.add(r.add(a, b), c) == r.add(a, r.add(b, c)) && r.add(b, c) == r.add(c, b)
  }

  ghost predicate ZeroLaw<W(!new)>(r: Reg<W>) {
    forall a :: r.add(a, r.zero) == a && r.add(r.zero, a) == a
  }

  ghost predicate SameLaw<W(!new)>(r: Reg<W>) {
    forall a, b :: r.add(a, b) == r.zero <==> a == b
  }

  ghost predicate RegroupLaw<W(!new)>(r: Reg<W>) {
    forall a, b, c :: Regroups(r, a, b, c)
  }

  ghost predicate LinearLaw<W(!new)>(r: Reg<W>) {
    forall a, b {:trigger r.step(r.add(a, b))} :: r.step(r.add(a, b)) == r.add(r.step(a), r.step(b))
  }

  ghost predicate InjectiveLaw<W(!new)>(r: Reg<W>) {
    forall a, b :: r.step(a) == r.step(b) ==> a == b
  }

  /** A step takes the lowest bit out and the rest down. */
  ghost predicate HalfLaw<W(!new)>(r: Reg<W>) {
    forall v {:trigger r.half(v)} :: r.step(r.add(v, r.low(v))) == r.half(v)
  }

  /** Words that add like exclusive or, and a step that is linear and loses nothing. */
  ghost predicate Laws<W(!new)>(r: Reg<W>) {
    ZeroLaw(r) && SameLaw(r) && RegroupLaw(r) && LinearLaw(r) && InjectiveLaw(r)
  }

  ghost predicate UpLaw<W(!new)>(r: Reg<W>) {
    forall q, n: nat :: n <= 3 && r.small(q, n) ==> Steps(r, r.up(q), r.width) == q && r.small(r.up(q), n + 1) && r.small(q, 3)
  }

  ghost predicate SmallLaw<W(!new)>(r: Reg<W>) {
    && (forall n: nat :: r.small(r.zero, n))
    && (forall q, e, n: nat :: n >= 1 && r.small(q, n) && r.small(e, 1) ==> r.small(r.add(q, e), n))
  }

  ghost predicate ApartLaw<W(!new)>(r: Reg<W>) {
    forall q, e :: r.small(e, 1) && r.small(q, 3) && r.up(q) == e ==> q == r.zero && e == r.zero
  }

  /** A small word moved up steps back down within a byte, and is never a byte itself unless it is nothing. */
  ghost predicate Bytewise<W(!new)>(r: Reg<W>) {
    UpLaw(r) && SmallLaw(r) && ApartLaw(r)
  }

  // ------------------------------------------------------------------------
  // steps
  // ------------------------------------------------------------------------

  function Steps<W>(r: Reg<W>, c: W, k: nat): W {
    if k == 0 then c else r.step(Steps(r, c, k - 1))
  }

  lemma {:induction false} StepsAdd<W(!new)>(r: Reg<W>, x: W, y: W, k: nat)
    requires Laws(r)
    ensures Steps(r, r.add(x, y), k) == r.add(Steps(r, x, k), Steps(r, y, k))
  {
    if k == 0 {
    } else {
      StepsAdd(r, x, y, k - 1);
    }
  }

  lemma {:induction false} StepsInjective<W(!new)>(r: Reg<W>, x: W, y: W, k: nat)
    requires Laws(r) && Steps(r, x, k) == Steps(r, y, k)
    ensures x == y
  {
    if k == 0 {
    } else {
      StepsInjective(r, x, y, k - 1);
    }
  }

  lemma StepsOfZero<W(!new)>(r: Reg<W>, k: nat)
    requires Laws(r)
    ensures Steps(r, r.zero, k) == r.zero
  {
    StepsAdd(r, r.zero, r.zero, k);
    assert r.add(r.zero, r.zero) == r.zero;
  }

  lemma Crosswise<W(!new)>(r: Reg<W>, a: W, b: W, x: W, y: W)
    requires Laws(r)
    ensures r.add(r.add(a, b), r.add(x, y)) == r.add(r.add(a, x), r.add(b, y))
  {
    assert Regroups(r, a, b, r.add(x, y));
    assert Regroups(r, b, x, y);
    assert Regroups(r, x, b, y);
    assert Regroups(r, y, b, x);
    assert Regroups(r, a, x, r.add(b, y));
  }

  /** A word moved down k places. */
  function Down<W>(r: Reg<W>, w: W, k: nat): W {
    if k == 0 then w else r.half(Down(r, w, k - 1))
  }

  lemma DownOne<W>(r: Reg<W>, w: W, k: nat, v: W)
    requires Down(r, w, k) == v
    ensures Down(r, w, k + 1) == r.half(v)
  {
  }

  /** While only zero bits leave, stepping is moving down. */
  lemma {:induction false} EvenSteps<W(!new)>(r: Reg<W>, w: W, k: nat)
    requires Laws(r) && HalfLaw(r) && forall j: nat :: j < k ==> r.low(Down(r, w, j)) == r.zero
    ensures Steps(r, w, k) == Down(r, w, k)
  {
    hide Laws, HalfLaw;
    if k == 0 {
    } else {
      EvenSteps(r, w, k - 1);
      EvenStep(r, Down(r, w, k - 1));
    }
  }

  lemma EvenStep<W(!new)>(r: Reg<W>, v: W)
    requires Laws(r) && HalfLaw(r) && r.low(v) == r.zero
    ensures r.step(v) == r.half(v)
  {
    assert r.add(v, r.zero) == v;
  }

  // ------------------------------------------------------------------------
  // input
  // ------------------------------------------------------------------------

  /** The lowest k bits of a word entered one by one, each added before a step. */
  function Enter<W>(r: Reg<W>, c: W, w: W, k: nat): W {
    if k == 0 then c else r.step(r.add(Enter(r, c, w, k - 1), r.low(Down(r, w, k - 1))))
  }

  lemma Crosses<W(!new)>(r: Reg<W>, a: W, x: W, b: W)
    requires Laws(r)
    ensures r.add(r.add(a, b), r.add(x, b)) == r.add(a, x)
  {
    Crosswise(r, a, b, x, b);
    assert r.add(b, b) == r.zero;
  }

  lemma BothStep<W(!new)>(r: Reg<W>, e: W, f: W, b: W)
    requires Laws(r)
    ensures r.add(r.step(r.add(e, b)), r.step(r.add(f, b))) == r.step(r.add(e, f))
  {
    Crosses(r, e, f, b);
    assert r.step(r.add(r.add(e, b), r.add(f, b))) == r.add(r.step(r.add(e, b)), r.step(r.add(f, b)));
  }

  lemma EnterOne<W(!new)>(r: Reg<W>, e: W, d: W)
    requires Laws(r) && HalfLaw(r)
    ensures r.add(r.step(r.add(e, r.low(d))), r.half(d)) == r.step(r.add(e, d))
  {
    hide Laws;
    BothStep(r, e, d, r.low(d));
  }

  /** After k bits of a word entered, what is left of it makes up the difference to k steps. */
  lemma {:induction false} EnterIsSteps<W(!new)>(r: Reg<W>, c: W, w: W, k: nat)
    requires Laws(r) && HalfLaw(r)
    ensures r.add(Enter(r, c, w, k), Down(r, w, k)) == Steps(r, r.add(c, w), k)
  {
    hide Laws, HalfLaw;
    if k == 0 {
    } else {
      EnterIsSteps(r, c, w, k - 1);
      EnterOne(r, Enter(r, c, w, k - 1), Down(r, w, k - 1));
    }
  }

  /** Entering the bits of a byte one by one is adding the whole byte and stepping. */
  lemma EnterByte<W(!new)>(r: Reg<W>, c: W, w: W)
    requires Laws(r) && HalfLaw(r) && Down(r, w, r.width) == r.zero
    ensures Enter(r, c, w, r.width) == Steps(r, r.add(c, w), r.width)
  {
    hide HalfLaw;
    EnterIsSteps(r, c, w, r.width);
  }

  /** Whole words, a byte's worth of steps each. */
  function Feed<W>(r: Reg<W>, c: W, words: seq<W>): W {
    if words == [] then c else Steps(r, r.add(Feed(r, c, words[..|words| - 1]), words[|words| - 1]), r.width)
  }

  lemma {:induction false} FeedConcat<W>(r: Reg<W>, c: W, xs: seq<W>, ys: seq<W>)
    ensures Feed(r, c, xs + ys) == Feed(r, Feed(r, c, xs), ys)
  {
    if ys == [] {
      assert xs + ys == xs;
    } else {
      var last := |ys| - 1;
      FeedConcat(r, c, xs, ys[..last]);
      assert (xs + ys)[..|xs + ys| - 1] == xs + ys[..last];
    }
  }

  lemma Cancels<W(!new)>(r: Reg<W>, x: W, y: W, b: W)
    requires Laws(r) && r.add(x, b) == r.add(y, b)
    ensures x == y
  {
    Crosses(r, x, y, b);
    assert r.add(r.add(x, b), r.add(y, b)) == r.zero;
  }

  /** The same words from different registers never meet. */
  lemma {:induction false} FeedInjective<W(!new)>(r: Reg<W>, x: W, y: W, words: seq<W>)
    requires Laws(r) && Feed(r, x, words) == Feed(r, y, words)
    ensures x == y
  {
    if words == [] {
    } else {
      var rest, b := words[..|words| - 1], words[|words| - 1];
      var p, q := Feed(r, x, rest), Feed(r, y, rest);
      StepsInjective(r, r.add(p, b), r.add(q, b), r.width);
      Cancels(r, p, q, b);
      FeedInjective(r, x, y, rest);
    }
  }

  // ------------------------------------------------------------------------
  // differences
  // ------------------------------------------------------------------------

  lemma StepBack<W(!new)>(r: Reg<W>, p: W, q: W, n: nat)
    requires Laws(r) && Bytewise(r) && n <= 3
    requires r.small(q, n) && Steps(r, p, r.width) == q
    ensures p == r.up(q) && r.small(p, n + 1)
  {
    StepsInjective(r, p, r.up(q), r.width);
  }

  lemma Move<W(!new)>(r: Reg<W>, d: W, e: W, s: W)
    requires Laws(r) && r.add(d, e) == s
    ensures d == r.add(s, e)
  {
    Crosses(r, d, r.zero, e);
    assert r.add(r.zero, e) == e;
  }

  /** The difference before a byte, from the small difference after it. */
  lemma Undo<W(!new)>(r: Reg<W>, d: W, e: W, s: W, n: nat)
    requires Laws(r) && Bytewise(r) && n <= 2
    requires r.small(e, 1) && r.small(s, n) && Steps(r, r.add(d, e), r.width) == s
    ensures d == r.add(r.up(s), e) && r.small(d, n + 1)
  {
    StepBack(r, r.add(d, e), s, n);
    Move(r, d, e, r.up(s));
  }

  lemma LastDifference<W(!new)>(r: Reg<W>, d: W, e: W)
    requires Laws(r) && Steps(r, r.add(d, e), r.width) == r.zero
    ensures d == e
  {
    StepsOfZero(r, r.width);
    StepsInjective(r, r.add(d, e), r.zero, r.width);
  }

  lemma Vanishes<W(!new)>(r: Reg<W>, e: W, s: W)
    requires Laws(r) && Bytewise(r)
    requires r.small(e, 1) && r.small(s, 3) && r.add(r.up(s), e) == r.zero
    ensures s == r.zero && e == r.zero
  {
    assert r.up(s) == e;
  }

  /** The differences of four bytes, unwound from the last. */
  lemma Unravels<W(!new)>(r: Reg<W>, d1: W, d2: W, d3: W, e0: W, e1: W, e2: W)
    requires Laws(r) && Bytewise(r)
    requires r.small(e0, 1) && r.small(e1, 1) && r.small(e2, 1) && r.small(d1, 3) && r.small(d2, 3) && r.small(d3, 3)
    requires r.up(d1) == r.add(r.zero, e0) && d1 == r.add(r.up(d2), e1) && d2 == r.add(r.up(d3), e2)
    ensures e0 == r.zero && e1 == r.zero && e2 == r.zero && d3 == r.zero
  {
    assert r.add(r.zero, e0) == e0;
    assert d1 == r.zero && e0 == r.zero;
    Vanishes(r, e1, d2);
    Vanishes(r, e2, d3);
  }

  /** Byte differences that cancel out over four bytes are all nothing. */
  lemma NothingCancels<W(!new)>(r: Reg<W>, d1: W, d2: W, d3: W, e0: W, e1: W, e2: W, e3: W)
    requires Laws(r) && Bytewise(r)
    requires r.small(e0, 1) && r.small(e1, 1) && r.small(e2, 1) && r.small(e3, 1)
    requires d1 == Steps(r, r.add(r.zero, e0), r.width) && d2 == Steps(r, r.add(d1, e1), r.width)
    requires d3 == Steps(r, r.add(d2, e2), r.width) && Steps(r, r.add(d3, e3), r.width) == r.zero
    ensures e0 == r.zero && e1 == r.zero && e2 == r.zero && e3 == r.zero
  {
    LastDifference(r, d3, e3);
    Undo(r, d2, e2, d3, 1);
    Undo(r, d1, e1, d2, 2);
    StepBack(r, r.add(r.zero, e0), d1, 3);
    Unravels(r, d1, d2, d3, e0, e1, e2);
  }

  /** How far apart two registers are after the first k words of each. */
  function Gap<W>(r: Reg<W>, c: W, v: seq<W>, w: seq<W>, k: nat): W
    requires k <= |v| && k <= |w|
  {
    r.add(Feed(r, c, v[..k]), Feed(r, c, w[..k]))
  }

  lemma FeedOne<W>(r: Reg<W>, c: W, words: seq<W>, k: nat)
    requires k < |words|
    ensures Feed(r, c, words[..k + 1]) == Steps(r, r.add(Feed(r, c, words[..k]), words[k]), r.width)
  {
    assert words[..k + 1][..k] == words[..k];
  }

  lemma Apart<W(!new)>(r: Reg<W>, x: W, y: W, a: W, b: W)
    requires Laws(r)
    ensures r.add(Steps(r, r.add(x, a), r.width), Steps(r, r.add(y, b), r.width))
         == Steps(r, r.add(r.add(x, y), r.add(a, b)), r.width)
  {
    StepsAdd(r, r.add(x, a), r.add(y, b), r.width);
    Crosswise(r, x, a, y, b);
  }

  lemma GapGrows<W(!new)>(r: Reg<W>, c: W, v: seq<W>, w: seq<W>, k: nat)
    requires Laws(r) && k < |v| && k < |w|
    ensures Gap(r, c, v, w, k + 1) == Steps(r, r.add(Gap(r, c, v, w, k), r.add(v[k], w[k])), r.width)
  {
    FeedOne(r, c, v, k);
    FeedOne(r, c, w, k);
    Apart(r, Feed(r, c, v[..k]), Feed(r, c, w[..k]), v[k], w[k]);
  }

  lemma GapEnds<W(!new)>(r: Reg<W>, c: W, v: seq<W>, w: seq<W>)
    requires Laws(r) && |v| == |w| && Feed(r, c, v) == Feed(r, c, w)
    ensures Gap(r, c, v, w, 0) == r.zero == Gap(r, c, v, w, |v|)
  {
    assert v[..|v|] == v && w[..|v|] == w && v[..0] == w[..0];
  }

  lemma SumsVanish<W(!new)>(r: Reg<W>, v: seq<W>, w: seq<W>)
    requires Laws(r) && |v| == |w| && forall k :: 0 <= k < |v| ==> r.add(v[k], w[k]) == r.zero
    ensures v == w
  {
    forall k | 0 <= k < |v| ensures v[k] == w[k] {
      assert r.add(v[k], w[k]) == r.zero;
    }
  }

  /** Four words that differ by bytes only leave different registers. */
  lemma WindowInjective<W(!new)>(r: Reg<W>, c: W, v: seq<W>, w: seq<W>)
    requires Laws(r) && Bytewise(r)
    requires |v| == |w| == 4 && (forall k :: 0 <= k < 4 ==> r.small(r.add(v[k], w[k]), 1))
    requires Feed(r, c, v) == Feed(r, c, w)
    ensures v == w
  {
    hide Laws, Bytewise, Feed;
    GapEnds(r, c, v, w);
    GapGrows(r, c, v, w, 0);
    GapGrows(r, c, v, w, 1);
    GapGrows(r, c, v, w, 2);
    GapGrows(r, c, v, w, 3);
    NothingCancels(r, Gap(r, c, v, w, 1), Gap(r, c, v, w, 2), Gap(r, c, v, w, 3),
                   r.add(v[0], w[0]), r.add(v[1], w[1]), r.add(v[2], w[2]), r.add(v[3], w[3]));
    SumsVanish(r, v, w);
  }

  lemma ShortWindowInjective<W(!new)>(r: Reg<W>, c: W, v: seq<W>, w: seq<W>)
    requires Laws(r) && Bytewise(r)
    requires |v| == |w| <= 4 && (forall k :: 0 <= k < |v| ==> r.small(r.add(v[k], w[k]), 1))
    requires Feed(r, c, v) == Feed(r, c, w)
    ensures v == w
  {
    var pad := seq(4 - |v|, _ => r.zero);
    FeedConcat(r, c, v, pad);
    FeedConcat(r, c, w, pad);
    assert r.add(r.zero, r.zero) == r.zero;
    WindowInjective(r, c, v + pad, w + pad);
    assert v == (v + pad)[..|v|] && w == (w + pad)[..|v|];
  }

  /** Inputs that differ, by bytes, only inside one window of four words leave different registers. */
  lemma BurstSeen<W(!new)>(r: Reg<W>, c: W, pre: seq<W>, v: seq<W>, w: seq<W>, post: seq<W>)
    requires Laws(r) && Bytewise(r)
    requires |v| == |w| <= 4 && (forall k :: 0 <= k < |v| ==> r.small(r.add(v[k], w[k]), 1)) && v != w
    ensures Feed(r, c, pre + v + post) != Feed(r, c, pre + w + post)
  {
    FeedConcat(r, c, pre + v, post);
    FeedConcat(r, c, pre + w, post);
    FeedConcat(r, c, pre, v);
    FeedConcat(r, c, pre, w);
    if Feed(r, c, pre + v + post) == Feed(r, c, pre + w + post) {
      FeedInjective(r, Feed(r, c, pre + v), Feed(r, c, pre + w), post);
      ShortWindowInjective(r, Feed(r, c, pre), v, w);
    }
  }
}
