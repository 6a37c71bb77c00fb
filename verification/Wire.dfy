/**
 * The canonical frames: EH-2 messages 1 to 3 (core-rs/src/wire.rs and
 * impl/eh2/wire.ts) and the variable-length ratchet header (core-rs/src/ratchet.rs).
 */
module Wire {
  import opened Keys

  type Byte = b: int | 0 <= b < 256
  type Bytes = seq<Byte>

  // ------------------------------------------------------------------------
  // big-endian numbers
  // ------------------------------------------------------------------------

  function Pow256(w: nat): nat {
    if w == 0 then 1 else 256 * Pow256(w - 1)
  }

  /** The lowest w bytes of n; what is above them is cut off. */
  function BeBytes(n: nat, w: nat): (s: Bytes)
    ensures |s| == w
  {
    if w == 0 then [] else BeBytes(n / 256, w - 1) + [n % 256]
  }

  function BeValue(s: Bytes): nat {
    if s == [] then 0 else 256 * BeValue(s[..|s| - 1]) + s[|s| - 1]
  }

  lemma {:induction false} BeBack(n: nat, w: nat)
    requires n < Pow256(w)
    ensures BeValue(BeBytes(n, w)) == n
  {
    if w == 0 {
    } else {
      BeBack(n / 256, w - 1);
      assert BeBytes(n, w)[..w - 1] == BeBytes(n / 256, w - 1);
    }
  }

  lemma {:induction false} BeForth(s: Bytes)
    ensures BeValue(s) < Pow256(|s|)
    ensures BeBytes(BeValue(s), |s|) == s
  {
    if s == [] {
    } else {
      var w := |s| - 1;
      BeForth(s[..w]);
      assert BeValue(s) / 256 == BeValue(s[..w]) && BeValue(s) % 256 == s[w];
      assert s == s[..w] + [s[w]];
    }
  }

  lemma Widths()
    ensures Pow256(2) == 0x1_0000 && Pow256(4) == 0x1_0000_0000 && Pow256(8) == 0x1_0000_0000_0000_0000
  {
    assert Pow256(1) == 256;
    assert Pow256(2) == 256 * Pow256(1);
    assert Pow256(3) == 256 * Pow256(2);
    assert Pow256(4) == 256 * Pow256(3);
    assert Pow256(5) == 256 * Pow256(4);
    assert Pow256(6) == 256 * Pow256(5);
    assert Pow256(7) == 256 * Pow256(6);
  }

  // ------------------------------------------------------------------------
  // msg1 and msg2: one layout, two types
  // ------------------------------------------------------------------------

  const VERSION: Byte := 3
  const T_MSG1: Byte := 1
  const T_MSG2: Byte := 2
  const T_MSG3: Byte := 3
  const PK_LEN := 1184
  const CT_LEN := 1088
  const MAX_SAFE := 0x1F_FFFF_FFFF_FFFF

  /** Ephemeral key, KEM key or ciphertext, timestamp, tag or MAC. */
  datatype LongMsg = LongMsg(ek: Bytes, kem: Bytes, ts: nat, auth: Bytes)

  /** What the fixed-width types of a message already guarantee. */
  predicate Typed(m: LongMsg) {
    |m.ek| == 32 && |m.auth| == 32 && m.ts < Pow256(8)
  }

  function EncodeLong(t: Byte, m: LongMsg): Bytes {
    [t, VERSION] + m.ek + BeBytes(|m.kem|, 2) + m.kem + BeBytes(m.ts, 8) + m.auth
  }

  /** The length is checked as a whole before any field is read. */
  function DecodeLong(t: Byte, kemLen: nat, b: Bytes): Option<LongMsg> {
    if |b| < 2 || b[0] != t || b[1] != VERSION || |b| != kemLen + 76 then None
    else if BeValue(b[34..36]) != kemLen then None
    else Some(LongMsg(b[2..34], b[36..36 + kemLen], BeValue(b[36 + kemLen..44 + kemLen]), b[44 + kemLen..76 + kemLen]))
  }

  function EncodeMsg1(m: LongMsg): Bytes { EncodeLong(T_MSG1, m) }
  function EncodeMsg2(m: LongMsg): Bytes { EncodeLong(T_MSG2, m) }
  function DecodeMsg1(b: Bytes): Option<LongMsg> { DecodeLong(T_MSG1, PK_LEN, b) }
  function DecodeMsg2(b: Bytes): Option<LongMsg> { DecodeLong(T_MSG2, CT_LEN, b) }

  lemma LongFields(t: Byte, m: LongMsg, b: Bytes)
    requires Typed(m) && b == EncodeLong(t, m)
    ensures var k := |m.kem|;
            && |b| == k + 76 && b[0] == t && b[1] == VERSION
            && b[2..34] == m.ek && b[34..36] == BeBytes(k, 2) && b[36..36 + k] == m.kem
            && b[36 + k..44 + k] == BeBytes(m.ts, 8) && b[44 + k..76 + k] == m.auth
  {
    var k := |m.kem|;
    Joined6([t, VERSION], m.ek, BeBytes(k, 2), m.kem, BeBytes(m.ts, 8), m.auth);
  }

  /** Where each of six joined parts lies. */
  lemma Joined6(a: Bytes, b: Bytes, c: Bytes, d: Bytes, e: Bytes, f: Bytes)
    ensures var s := a + b + c + d + e + f;
            var (i, j, k, l, m) := (|a|, |a| + |b|, |a| + |b| + |c|, |a| + |b| + |c| + |d|, |a| + |b| + |c| + |d| + |e|);
            s[..i] == a && s[i..j] == b && s[j..k] == c && s[k..l] == d && s[l..m] == e && s[m..] == f
  {
    var s := a + b + c + d + e + f;
    assert s[..|s|] == s;
    LastPart(a + b + c + d + e, f, s);
    LastPart(a + b + c + d, e, s);
    LastPart(a + b + c, d, s);
    LastPart(a + b, c, s);
    LastPart(a, b, s);
  }

  lemma LastPart(p: Bytes, x: Bytes, s: Bytes)
    requires |p| + |x| <= |s| && s[..|p| + |x|] == p + x
    ensures s[..|p|] == p && s[|p|..|p| + |x|] == x
  {
    assert s[..|p|] == s[..|p| + |x|][..|p|] && s[|p|..|p| + |x|] == s[..|p| + |x|][|p|..];
  }

  lemma Parts6(s: Bytes, i: nat, j: nat, k: nat, l: nat, m: nat)
    requires i <= j <= k <= l <= m <= |s|
    ensures s == s[..i] + s[i..j] + s[j..k] + s[k..l] + s[l..m] + s[m..]
  {
  }

  /** Decoding undoes encoding exactly when the KEM field has its one length. */
  lemma LongRoundTrip(t: Byte, kemLen: nat, m: LongMsg)
    requires Typed(m) && kemLen < 0x1_0000
    ensures DecodeLong(t, kemLen, EncodeLong(t, m)) == (if |m.kem| == kemLen then Some(m) else None)
  {
    hide EncodeLong, BeBytes, BeValue, Pow256;
    var b := EncodeLong(t, m);
    LongFields(t, m, b);
    Widths();
    if |m.kem| == kemLen {
      BeBack(kemLen, 2);
      BeBack(m.ts, 8);
      assert b[34..36] == BeBytes(kemLen, 2) && BeValue(b[34..36]) == kemLen;
      assert BeValue(b[36 + kemLen..44 + kemLen]) == m.ts;
      assert LongMsg(b[2..34], b[36..36 + kemLen], m.ts, b[44 + kemLen..76 + kemLen]) == m;
    } else {
      assert |b| != kemLen + 76;
    }
  }

  /** Whatever is accepted is the one encoding of what it decodes to. */
  lemma LongCanonical(t: Byte, kemLen: nat, b: Bytes)
    requires DecodeLong(t, kemLen, b).Some?
    ensures var m := DecodeLong(t, kemLen, b).value; Typed(m) && |m.kem| == kemLen && EncodeLong(t, m) == b
  {
    BeForth(b[34..36]);
    BeForth(b[36 + kemLen..44 + kemLen]);
    Parts6(b, 2, 34, 36, 36 + kemLen, 44 + kemLen);
    assert b[..2] == [t, VERSION];
    assert b[44 + kemLen..] == b[44 + kemLen..76 + kemLen];
  }

  /** msg1 and msg2: a frame decodes to m if and only if it is the encoding of m. */
  lemma HandshakeFramesCanonical(b: Bytes, m: LongMsg)
    requires Typed(m)
    ensures DecodeMsg1(b) == Some(m) <==> b == EncodeMsg1(m) && |m.kem| == PK_LEN
    ensures DecodeMsg2(b) == Some(m) <==> b == EncodeMsg2(m) && |m.kem| == CT_LEN
  {
    LongRoundTrip(T_MSG1, PK_LEN, m);
    LongRoundTrip(T_MSG2, CT_LEN, m);
    if DecodeMsg1(b) == Some(m) {
      LongCanonical(T_MSG1, PK_LEN, b);
    }
    if DecodeMsg2(b) == Some(m) {
      LongCanonical(T_MSG2, CT_LEN, b);
    }
  }

  function EncodeMsg3(mac: Bytes): Bytes {
    [T_MSG3, VERSION] + mac
  }

  function DecodeMsg3(b: Bytes): Option<Bytes> {
    if |b| < 2 || b[0] != T_MSG3 || b[1] != VERSION || |b| != 34 then None else Some(b[2..34])
  }

  lemma Msg3Canonical(b: Bytes, mac: Bytes)
    requires |mac| == 32
    ensures DecodeMsg3(b) == Some(mac) <==> b == EncodeMsg3(mac)
  {
    var e := EncodeMsg3(mac);
    assert e[0] == T_MSG3 && e[1] == VERSION && |e| == 34 && e[2..34] == mac;
    if DecodeMsg3(b) == Some(mac) {
      assert b == [b[0], b[1]] + b[2..34];
    }
  }

  /** The Rust encoder, appending field by field. */
  method AppendLong(t: Byte, m: LongMsg) returns (b: Bytes)
    ensures b == EncodeLong(t, m)
  {
    b := [t, VERSION];
    b := b + m.ek;
    b := b + BeBytes(|m.kem|, 2);
    b := b + m.kem;
    b := b + BeBytes(m.ts, 8);
    b := b + m.auth;
  }

  // ------------------------------------------------------------------------
  // the TypeScript engine's frames
  // ------------------------------------------------------------------------

  /** The TypeScript encoder refuses wrong widths and timestamps that are not safe integers. */
  function TsEncodeLong(t: Byte, kemLen: nat, m: LongMsg): Option<Bytes> {
    if |m.ek| != 32 || |m.kem| != kemLen || |m.auth| != 32 || m.ts > MAX_SAFE then None else Some(EncodeLong(t, m))
  }

  /** What the TypeScript decoder accepts: the Rust decoder's frames with a safe timestamp. */
  function TsDecodeLong(t: Byte, kemLen: nat, b: Bytes): Option<LongMsg> {
    match DecodeLong(t, kemLen, b)
    case Some(m) => if m.ts <= MAX_SAFE then Some(m) else None
    case None => None
  }

  /** The decoder walks an offset and checks each field as it comes to it. */
  method TsDecode(t: Byte, kemLen: nat, b: Bytes) returns (r: Option<LongMsg>)
    ensures r == TsDecodeLong(t, kemLen, b)
  {
    if |b| < 2 || b[0] != t || b[1] != VERSION {
      return None;
    }
    var o := 2;
    if o + 32 > |b| {
      return None;
    }
    var ek := b[o..o + 32];
    o := o + 32;
    if o + 2 > |b| {
      return None;
    }
    var len := BeValue(b[o..o + 2]);
    o := o + 2;
    if len != kemLen {
      return None;
    }
    if o + len > |b| {
      return None;
    }
    var kem := b[o..o + len];
    o := o + len;
    if o + 8 > |b| {
      return None;
    }
    var ts := BeValue(b[o..o + 8]);
    if ts > MAX_SAFE {
      return None;
    }
    o := o + 8;
    if o + 32 > |b| {
      return None;
    }
    var auth := b[o..o + 32];
    o := o + 32;
    if o != |b| {
      return None;
    }
    return Some(LongMsg(ek, kem, ts, auth));
  }

  /** Between the engines: what TypeScript sends Rust reads, and what Rust sends TypeScript reads unless the timestamp is unsafe. */
  lemma EnginesAgree(t: Byte, kemLen: nat, m: LongMsg)
    requires Typed(m) && |m.kem| == kemLen < 0x1_0000
    ensures TsEncodeLong(t, kemLen, m).Some? ==> DecodeLong(t, kemLen, TsEncodeLong(t, kemLen, m).value) == Some(m)
    ensures TsDecodeLong(t, kemLen, EncodeLong(t, m)) == (if m.ts <= MAX_SAFE then Some(m) else None)
  {
    LongRoundTrip(t, kemLen, m);
  }

  // ------------------------------------------------------------------------
  // the ratchet header
  // ------------------------------------------------------------------------

  const T_DATA: Byte := 0x10
  const T_DATA_PQ: Byte := 0x11
  const HDR_LEN := 42
  const MIN_TAG := 16

  datatype Header = Header(dh: Bytes, pn: nat, n: nat, ct: Option<Bytes>, pub: Option<Bytes>)

  predicate FieldOk(f: Option<Bytes>) {
    f.Some? ==> 1 <= |f.value| < 0x1_0000
  }

  predicate HeaderOk(h: Header) {
    |h.dh| == 32 && h.pn < Pow256(4) && h.n < Pow256(4) && FieldOk(h.ct) && FieldOk(h.pub)
  }

  /** Length, then bytes; nothing for an absent field. */
  function FieldBytes(f: Option<Bytes>): Bytes {
    match f
    case None => []
    case Some(v) => BeBytes(|v|, 2) + v
  }

  function Flags(h: Header): Byte {
    (if h.ct.Some? then 1 else 0) + (if h.pub.Some? then 2 else 0)
  }

  function EncodeHeader(h: Header): Bytes {
    var fixed := h.dh + BeBytes(h.pn, 4) + BeBytes(h.n, 4);
    if Flags(h) == 0 then [T_DATA, VERSION] + fixed
    else [T_DATA_PQ, VERSION] + fixed + ([Flags(h)] + FieldBytes(h.ct) + FieldBytes(h.pub))
  }

  /** Reads one field at o if its flag is set; an empty field or one that runs over is refused. */
  function TakeField(frame: Bytes, o: nat, present: bool): (r: Option<(Option<Bytes>, nat)>)
    requires o <= |frame|
    ensures r.Some? ==> o <= r.value.1 <= |frame|
  {
    if !present then Some((None, o))
    else if o + 2 > |frame| then None
    else
      var len := BeValue(frame[o..o + 2]);
      if len == 0 || o + 2 + len > |frame| then None else Some((Some(frame[o + 2..o + 2 + len]), o + 2 + len))
  }

  function DecodeFields(frame: Bytes, h: Header): Option<(Header, nat)>
    requires |frame| >= 58
  {
    var flags := frame[42];
    if flags == 0 || flags > 3 then None
    else match TakeField(frame, 43, flags % 2 == 1)
      case None => None
      case Some((ct, o)) =>
        match TakeField(frame, o, flags >= 2)
        case None => None
        case Some((pub, end)) => if |frame| < end + MIN_TAG then None else Some((h.(ct := ct, pub := pub), end))
  }

  /** The header and how many bytes of the frame it took. */
  function DecodeHeader(frame: Bytes): Option<(Header, nat)> {
    if |frame| < HDR_LEN + MIN_TAG || frame[1] != VERSION then None
    else
      var h := Header(frame[2..34], BeValue(frame[34..38]), BeValue(frame[38..42]), None, None);
      if frame[0] == T_DATA then Some((h, HDR_LEN))
      else if frame[0] != T_DATA_PQ then None
      else DecodeFields(frame, h)
  }

  /** The loop over the two flags. */
  method ReadHeader(frame: Bytes) returns (r: Option<(Header, nat)>)
    ensures r == DecodeHeader(frame)
  {
    if |frame| < HDR_LEN + MIN_TAG || frame[1] != VERSION {
      return None;
    }
    var h := Header(frame[2..34], BeValue(frame[34..38]), BeValue(frame[38..42]), None, None);
    if frame[0] == T_DATA {
      return Some((h, HDR_LEN));
    }
    if frame[0] != T_DATA_PQ {
      return None;
    }
    var flags := frame[42];
    if flags == 0 || flags > 3 {
      return None;
    }
    ghost var plain := h;
    var o, which := 43, 1;
    while which <= 2
      invariant 1 <= which <= 3 && 43 <= o <= |frame|
      invariant which == 1 ==> h == plain && o == 43
      invariant which >= 2 ==> TakeField(frame, 43, flags % 2 == 1).Some?
      invariant which == 2 ==> TakeField(frame, 43, flags % 2 == 1) == Some((h.ct, o)) && h == plain.(ct := h.ct)
      invariant which == 3 ==> TakeField(frame, TakeField(frame, 43, flags % 2 == 1).value.1, flags >= 2) == Some((h.pub, o))
                               && h == plain.(ct := TakeField(frame, 43, flags % 2 == 1).value.0, pub := h.pub)
    {
      if if which == 1 then flags % 2 == 1 else flags >= 2 {
        if o + 2 > |frame| {
          return None;
        }
        var len := BeValue(frame[o..o + 2]);
        o := o + 2;
        if len == 0 || o + len > |frame| {
          return None;
        }
        var field := frame[o..o + len];
        o := o + len;
        h := if which == 1 then h.(ct := Some(field)) else h.(pub := Some(field));
      }
      which := which + 1;
    }
    if |frame| < o + MIN_TAG {
      return None;
    }
    return Some((h, o));
  }

  // a field in a frame

  lemma FieldTaken(frame: Bytes, o: nat, f: Option<Bytes>)
    requires FieldOk(f) && o + |FieldBytes(f)| <= |frame| && frame[o..o + |FieldBytes(f)|] == FieldBytes(f)
    ensures TakeField(frame, o, f.Some?) == Some((f, o + |FieldBytes(f)|))
  {
    if f.Some? {
      var v := f.value;
      Widths();
      BeBack(|v|, 2);
      assert frame[o..o + 2] == FieldBytes(f)[..2] == BeBytes(|v|, 2);
      assert frame[o + 2..o + 2 + |v|] == FieldBytes(f)[2..] == v;
    }
  }

  lemma FieldGiven(frame: Bytes, o: nat, present: bool)
    requires o <= |frame| && TakeField(frame, o, present).Some?
    ensures var (f, end) := TakeField(frame, o, present).value;
            f.Some? == present && FieldOk(f) && end == o + |FieldBytes(f)| && frame[o..end] == FieldBytes(f)
  {
    if present {
      Widths();
      BeForth(frame[o..o + 2]);
      var (f, end) := TakeField(frame, o, present).value;
      assert frame[o..end] == frame[o..o + 2] + frame[o + 2..end];
    }
  }

  // the fixed part

  function Fixed(t: Byte, h: Header): Bytes {
    [t, VERSION] + (h.dh + BeBytes(h.pn, 4) + BeBytes(h.n, 4))
  }

  lemma FixedTaken(frame: Bytes, t: Byte, h: Header)
    requires HeaderOk(h) && |frame| >= HDR_LEN && frame[..HDR_LEN] == Fixed(t, h)
    ensures frame[0] == t && frame[1] == VERSION && frame[2..34] == h.dh
    ensures BeValue(frame[34..38]) == h.pn && BeValue(frame[38..42]) == h.n
  {
    var f := frame[..HDR_LEN];
    BeBack(h.pn, 4);
    BeBack(h.n, 4);
    assert frame[0] == f[0] && frame[1] == f[1];
    assert frame[2..34] == f[2..34] == h.dh;
    assert frame[34..38] == f[34..38] == BeBytes(h.pn, 4);
    assert frame[38..42] == f[38..42] == BeBytes(h.n, 4);
  }

  lemma FixedGiven(frame: Bytes, h: Header)
    requires |frame| >= HDR_LEN && frame[1] == VERSION
    requires h.dh == frame[2..34] && h.pn == BeValue(frame[34..38]) && h.n == BeValue(frame[38..42])
    ensures h.pn < Pow256(4) && h.n < Pow256(4) && frame[..HDR_LEN] == Fixed(frame[0], h)
  {
    BeForth(frame[34..38]);
    BeForth(frame[38..42]);
    assert frame[..42] == [frame[0], frame[1]] + (frame[2..34] + frame[34..38] + frame[38..42]);
  }

  function Tail(h: Header): Bytes {
    if Flags(h) == 0 then [] else [Flags(h)] + FieldBytes(h.ct) + FieldBytes(h.pub)
  }

  lemma EncodedParts(h: Header)
    ensures EncodeHeader(h) == Fixed(if Flags(h) == 0 then T_DATA else T_DATA_PQ, h) + Tail(h)
  {
    var t: Byte := if Flags(h) == 0 then T_DATA else T_DATA_PQ;
    assert Fixed(t, h) + [] == Fixed(t, h);
  }

  lemma SliceInSlice(s: Bytes, lo: nat, hi: nat, i: nat, j: nat)
    requires lo <= hi <= |s| && i <= j <= hi - lo
    ensures s[lo..hi][i..j] == s[lo + i..lo + j]
  {
    var x, y := s[lo..hi][i..j], s[lo + i..lo + j];
    assert |x| == |y| && forall k :: 0 <= k < |x| ==> x[k] == y[k];
  }

  lemma Cut3(s: Bytes, i: nat, j: nat, k: nat, l: nat)
    requires i <= j <= k <= l <= |s|
    ensures s[i..l] == s[i..j] + s[j..k] + s[k..l]
  {
  }

  lemma Joined3(x: Byte, a: Bytes, b: Bytes)
    ensures var s := [x] + a + b; s[0] == x && s[1..1 + |a|] == a && s[1 + |a|..1 + |a| + |b|] == b
  {
  }

  lemma TailTaken(frame: Bytes, h: Header, plain: Header)
    requires HeaderOk(h) && Flags(h) != 0 && plain == h.(ct := None, pub := None)
    requires HDR_LEN + |Tail(h)| + MIN_TAG <= |frame| && frame[HDR_LEN..HDR_LEN + |Tail(h)|] == Tail(h)
    ensures DecodeFields(frame, plain) == Some((h, HDR_LEN + |Tail(h)|))
  {
    hide BeValue, BeBytes, FieldBytes, TakeField;
    var a, b := FieldBytes(h.ct), FieldBytes(h.pub);
    var end := 42 + |Tail(h)|;
    Joined3(Flags(h), a, b);
    SliceInSlice(frame, 42, end, 0, 1);
    SliceInSlice(frame, 42, end, 1, 1 + |a|);
    SliceInSlice(frame, 42, end, 1 + |a|, 1 + |a| + |b|);
    assert frame[42] == frame[42..end][0];
    FieldTaken(frame, 43, h.ct);
    FieldTaken(frame, 43 + |a|, h.pub);
  }

  lemma TailGiven(frame: Bytes, plain: Header)
    requires |frame| >= 58 && plain.ct.None? && plain.pub.None? && DecodeFields(frame, plain).Some?
    ensures var (h, len) := DecodeFields(frame, plain).value;
            && h == plain.(ct := h.ct, pub := h.pub) && Flags(h) != 0 && FieldOk(h.ct) && FieldOk(h.pub)
            && len == HDR_LEN + |Tail(h)| && len + MIN_TAG <= |frame| && frame[HDR_LEN..len] == Tail(h)
  {
    hide BeValue, BeBytes, FieldBytes, TakeField;
    var flags := frame[42];
    FieldGiven(frame, 43, flags % 2 == 1);
    var (ct, o) := TakeField(frame, 43, flags % 2 == 1).value;
    FieldGiven(frame, o, flags >= 2);
    var (pub, end) := TakeField(frame, o, flags >= 2).value;
    Cut3(frame, 42, 43, o, end);
    assert frame[42..43] == [frame[42]];
  }

  /**
   * A frame's header is h, taking len bytes, if and only if h is well-formed, the
   * frame begins with the encoding of h, and an AEAD tag still fits behind it.
   */
  lemma HeaderCanonical(frame: Bytes, h: Header, len: nat)
    ensures DecodeHeader(frame) == Some((h, len))
       <==> HeaderOk(h) && len == |EncodeHeader(h)| && EncodeHeader(h) <= frame && len + MIN_TAG <= |frame|
  {
    if HeaderOk(h) && EncodeHeader(h) <= frame && |EncodeHeader(h)| + MIN_TAG <= |frame| {
      HeaderTaken(frame, h);
    }
    if DecodeHeader(frame) == Some((h, len)) {
      HeaderGiven(frame, h, len);
    }
  }

  lemma HeaderTaken(frame: Bytes, h: Header)
    requires HeaderOk(h) && EncodeHeader(h) <= frame && |EncodeHeader(h)| + MIN_TAG <= |frame|
    ensures DecodeHeader(frame) == Some((h, |EncodeHeader(h)|))
  {
    var t: Byte := if Flags(h) == 0 then T_DATA else T_DATA_PQ;
    EncodedParts(h);
    var e := EncodeHeader(h);
    assert frame[..42] == e[..42] == Fixed(t, h);
    assert frame[42..42 + |Tail(h)|] == e[42..] == Tail(h);
    FixedTaken(frame, t, h);
    if Flags(h) != 0 {
      TailTaken(frame, h, h.(ct := None, pub := None));
    }
  }

  lemma HeaderGiven(frame: Bytes, h: Header, len: nat)
    requires DecodeHeader(frame) == Some((h, len))
    ensures HeaderOk(h) && len == |EncodeHeader(h)| && EncodeHeader(h) <= frame && len + MIN_TAG <= |frame|
  {
    var plain := Header(frame[2..34], BeValue(frame[34..38]), BeValue(frame[38..42]), None, None);
    FixedGiven(frame, plain);
    if frame[0] != T_DATA {
      TailGiven(frame, plain);
    }
    EncodedParts(h);
    assert Fixed(frame[0], h) == Fixed(frame[0], plain);
    assert frame[..len] == frame[..42] + frame[42..len];
  }

  // ------------------------------------------------------------------------
  // the frames byte by byte
  // ------------------------------------------------------------------------

  /** msg1, 1260 bytes, and msg2, 1164: type, version, key, length and KEM field, timestamp, tag or MAC. */
  lemma LongLayout(m: LongMsg)
    requires Typed(m)
    ensures |m.kem| == 1184 ==>
              var b := EncodeMsg1(m);
              && |b| == 1260 && b[0] == 0x01 && b[1] == 0x03 && b[2..34] == m.ek && BeValue(b[34..36]) == 1184
              && b[36..1220] == m.kem && BeValue(b[1220..1228]) == m.ts && b[1228..1260] == m.auth
    ensures |m.kem| == 1088 ==>
              var b := EncodeMsg2(m);
              && |b| == 1164 && b[0] == 0x02 && b[1] == 0x03 && b[2..34] == m.ek && BeValue(b[34..36]) == 1088
              && b[36..1124] == m.kem && BeValue(b[1124..1132]) == m.ts && b[1132..1164] == m.auth
  {
    hide EncodeLong, BeBytes, BeValue, Pow256;
    LongFields(T_MSG1, m, EncodeMsg1(m));
    LongFields(T_MSG2, m, EncodeMsg2(m));
    BeBack(m.ts, 8);
    if |m.kem| < 0x1_0000 {
      Widths();
      BeBack(|m.kem|, 2);
    }
  }

  /** msg3: type, version, MAC. */
  lemma Msg3Layout(mac: Bytes)
    requires |mac| == 32
    ensures var b := EncodeMsg3(mac); |b| == 34 && b[0] == 0x03 && b[1] == 0x03 && b[2..34] == mac
  {
  }

  /** A data header: type, version, ratchet key, the two counters; then, under the other type, flags and fields. */
  lemma HeaderLayout(h: Header)
    requires HeaderOk(h)
    ensures var b := EncodeHeader(h);
            && |b| >= 42 && b[0] == (if h.ct.None? && h.pub.None? then 0x10 else 0x11) && b[1] == 0x03
            && b[2..34] == h.dh && BeValue(b[34..38]) == h.pn && BeValue(b[38..42]) == h.n
            && (h.ct.None? && h.pub.None? ==> |b| == 42)
            && (!(h.ct.None? && h.pub.None?) ==> |b| > 42 && b[42] == (if h.ct.Some? then 0x01 else 0) + (if h.pub.Some? then 0x02 else 0))
  {
    hide BeBytes, BeValue, Pow256, FieldBytes;
    EncodedParts(h);
    var t: Byte := if Flags(h) == 0 then T_DATA else T_DATA_PQ;
    var b := EncodeHeader(h);
    assert b[..42] == Fixed(t, h);
    FixedTaken(b, t, h);
    if Flags(h) != 0 {
      assert b[42..] == Tail(h);
      assert Tail(h)[0] == Flags(h);
    }
  }

  /** Both fields of a header, each behind its length, the ciphertext first. */
  lemma FieldsLayout(h: Header)
    requires HeaderOk(h) && h.ct.Some? && h.pub.Some?
    ensures var (b, k, l) := (EncodeHeader(h), |h.ct.value|, |h.pub.value|);
            && |b| == 47 + k + l && BeValue(b[43..45]) == k && b[45..45 + k] == h.ct.value
            && BeValue(b[45 + k..47 + k]) == l && b[47 + k..47 + k + l] == h.pub.value
  {
    hide BeBytes, BeValue, Pow256;
    EncodedParts(h);
    var b, k, l := EncodeHeader(h), |h.ct.value|, |h.pub.value|;
    Widths();
    BeBack(k, 2);
    BeBack(l, 2);
    assert |Fixed(T_DATA_PQ, h)| == 42;
    var f, g := FieldBytes(h.ct), FieldBytes(h.pub);
    assert b == Fixed(T_DATA_PQ, h) + ([Flags(h)] + f + g);
    assert b[43..43 + |f|] == f && b[43 + |f|..] == g;
    assert f[..2] == BeBytes(k, 2) && f[2..] == h.ct.value && g[..2] == BeBytes(l, 2) && g[2..] == h.pub.value;
    assert b[43..45] == f[..2] && b[45..45 + k] == f[2..];
    assert b[45 + k..47 + k] == g[..2] && b[47 + k..47 + k + l] == g[2..];
  }
}
