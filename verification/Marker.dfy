/**
 * The group marker in a device's 128-byte description field (impl/lib/gmarker.ts,
 * impl/lib/descr.ts): building it within the budget and reading it back.
 */
module Marker {
  import opened Keys
  import Crc32

  type Byte = b: int | 0 <= b < 256
  type Bytes = seq<Byte>
  type Sextet = d: int | 0 <= d < 64

  const DESCR_MAX := 128
  const NAME_MAX := 16
  const ROSTER_MAX := 10
  const MARKER_PREFIX := "ETSEIC:chan1:"

  // ------------------------------------------------------------------------
  // the text budget
  // ------------------------------------------------------------------------

  /** UTF-8 length of one character. */
  function CharLen(c: char): (n: nat)
    ensures 1 <= n <= 4
  {
    if c as int < 0x80 then 1 else if c as int < 0x800 then 2 else if c as int < 0x1_0000 then 3 else 4
  }

  function ByteLen(s: string): nat {
    if s == "" then 0 else ByteLen(s[..|s| - 1]) + CharLen(s[|s| - 1])
  }

  /** How many leading characters fit, the first that does not ending the count. */
  function Fitting(s: string, max: nat, n: nat): nat
    requires n <= |s|
    decreases |s| - n
  {
    if n == |s| || ByteLen(s[..n + 1]) > max then n else Fitting(s, max, n + 1)
  }

  function SliceBytes(s: string, max: nat): string {
    if ByteLen(s) <= max then s else FittingBounds(s, max, 0); s[..Fitting(s, max, 0)]
  }

  lemma {:induction false} FittingBounds(s: string, max: nat, n: nat)
    requires n <= |s|
    ensures n <= Fitting(s, max, n) <= |s|
    ensures ByteLen(s[..n]) <= max ==> ByteLen(s[..Fitting(s, max, n)]) <= max
    ensures Fitting(s, max, n) < |s| ==> ByteLen(s[..Fitting(s, max, n) + 1]) > max
    decreases |s| - n
  {
    if n < |s| && ByteLen(s[..n + 1]) <= max {
      FittingBounds(s, max, n + 1);
    }
  }

  /** The longest prefix of whole characters that fits the budget. */
  lemma SliceIsLongest(s: string, max: nat)
    ensures var p := SliceBytes(s, max);
            p <= s && ByteLen(p) <= max && (p != s ==> ByteLen(s[..|p| + 1]) > max)
  {
    FittingBounds(s, max, 0);
    assert s[..0] == "";
  }

  method SliceLoop(s: string, max: nat) returns (out: string)
    ensures out == SliceBytes(s, max)
  {
    if ByteLen(s) <= max {
      return s;
    }
    FittingBounds(s, max, 0);
    var n := 0;
    out := "";
    while n < |s| && ByteLen(out + [s[n]]) <= max
      invariant n <= |s| && out == s[..n]
      invariant Fitting(s, max, 0) == Fitting(s, max, n)
    {
      assert s[..n] + [s[n]] == s[..n + 1];
      out := out + [s[n]];
      n := n + 1;
    }
    if n < |s| {
      assert s[..n] + [s[n]] == s[..n + 1];
    }
  }

  lemma {:induction false} ByteLenJoin(a: string, b: string)
    ensures ByteLen(a + b) == ByteLen(a) + ByteLen(b)
  {
    if b == "" {
      assert a + b == a;
    } else {
      ByteLenJoin(a, b[..|b| - 1]);
      assert (a + b)[..|a + b| - 1] == a + b[..|b| - 1];
    }
  }

  predicate Ascii(s: string) {
    forall i :: 0 <= i < |s| ==> s[i] as int < 0x80
  }

  lemma {:induction false} AsciiLen(s: string)
    requires Ascii(s)
    ensures ByteLen(s) == |s|
  {
    if s == "" {
    } else {
      AsciiLen(s[..|s| - 1]);
    }
  }

  // ------------------------------------------------------------------------
  // base64url
  // ------------------------------------------------------------------------

  function Char64(v: Sextet): char {
    if v < 26 then (v + 65) as char
    else if v < 52 then (v - 26 + 97) as char
    else if v < 62 then (v - 52 + 48) as char
    else if v == 62 then '-' else '_'
  }

  function Value64(c: char): Option<Sextet> {
    if 'A' <= c <= 'Z' then Some(c as int - 65)
    else if 'a' <= c <= 'z' then Some(c as int - 97 + 26)
    else if '0' <= c <= '9' then Some(c as int - 48 + 52)
    else if c == '-' || c == '+' then Some(62)
    else if c == '_' || c == '/' then Some(63)
    else None
  }

  lemma CharBack(v: Sextet)
    ensures Value64(Char64(v)) == Some(v) && Char64(v) != ':' && Char64(v) as int < 0x80
  {
  }

  /** Three bytes are four sextets; a shorter rest leaves its last bits unused. */
  function Sextets(b: Bytes): seq<Sextet> {
    if |b| == 0 then []
    else if |b| == 1 then [b[0] / 4, b[0] % 4 * 16]
    else if |b| == 2 then [b[0] / 4, b[0] % 4 * 16 + b[1] / 16, b[1] % 16 * 4]
    else [b[0] / 4, b[0] % 4 * 16 + b[1] / 16, b[1] % 16 * 4 + b[2] / 64, b[2] % 64] + Sextets(b[3..])
  }

  /** The bytes of a run of sextets; a lone sextet at the end spells none. */
  function Unpack(s: seq<Sextet>): Option<Bytes> {
    if |s| == 0 then Some([])
    else if |s| == 1 then None
    else if |s| == 2 then Some([First(s[0], s[1])])
    else if |s| == 3 then Some([First(s[0], s[1]), Second(s[1], s[2])])
    else match Unpack(s[4..])
      case None => None
      case Some(rest) => Some([First(s[0], s[1]), Second(s[1], s[2]), Third(s[2], s[3])] + rest)
  }

  function First(p: int, q: int): Byte
    requires 0 <= p < 64 && 0 <= q < 64
  {
    p * 4 + q / 16
  }

  function Second(q: int, r: int): Byte
    requires 0 <= q < 64 && 0 <= r < 64
  {
    q % 16 * 16 + r / 4
  }

  function Third(r: int, s: int): Byte
    requires 0 <= r < 64 && 0 <= s < 64
  {
    r % 4 * 64 + s
  }

  lemma FirstBack(x: Byte, y: Byte)
    ensures First(x / 4, x % 4 * 16 + y / 16) == x && First(x / 4, x % 4 * 16) == x
  {
  }

  lemma SecondBack(x: Byte, y: Byte, z: Byte)
    ensures Second(x % 4 * 16 + y / 16, y % 16 * 4 + z / 64) == y && Second(x % 4 * 16 + y / 16, y % 16 * 4) == y
  {
    assert (x % 4 * 16 + y / 16) % 16 == y / 16;
    assert (y % 16 * 4 + z / 64) / 4 == y % 16;
  }

  lemma ThirdBack(y: Byte, z: Byte)
    ensures Third(y % 16 * 4 + z / 64, z % 64) == z
  {
    assert (y % 16 * 4 + z / 64) % 4 == z / 64;
  }

  lemma {:induction false} UnpackBack(b: Bytes)
    ensures Unpack(Sextets(b)) == Some(b)
  {
    hide First, Second, Third;
    if |b| == 0 {
    } else if |b| == 1 {
      FirstBack(b[0], 0);
      assert b == [b[0]];
    } else if |b| == 2 {
      FirstBack(b[0], b[1]);
      SecondBack(b[0], b[1], 0);
      assert b == [b[0], b[1]];
    } else {
      FirstBack(b[0], b[1]);
      SecondBack(b[0], b[1], b[2]);
      ThirdBack(b[1], b[2]);
      UnpackBack(b[3..]);
      assert Sextets(b)[4..] == Sextets(b[3..]);
      assert b == [b[0], b[1], b[2]] + b[3..];
    }
  }

  lemma {:induction false} SextetsLength(b: Bytes)
    ensures |Sextets(b)| == (4 * |b| + 2) / 3
  {
    if |b| <= 2 {
    } else {
      SextetsLength(b[3..]);
    }
  }

  function Write64(s: seq<Sextet>): string {
    seq(|s|, i requires 0 <= i < |s| => Char64(s[i]))
  }

  function B64Url(b: Bytes): string {
    Write64(Sextets(b))
  }

  function Read64(s: string): Option<seq<Sextet>> {
    if s == "" then Some([])
    else match (Read64(s[..|s| - 1]), Value64(s[|s| - 1]))
      case (Some(rest), Some(v)) => Some(rest + [v])
      case _ => None
  }

  function UnB64Url(s: string): Option<Bytes> {
    match Read64(s)
    case None => None
    case Some(v) => Unpack(v)
  }

  lemma {:induction false} ReadBack(s: seq<Sextet>)
    ensures Read64(Write64(s)) == Some(s)
  {
    if s == [] {
    } else {
      var last := |s| - 1;
      ReadBack(s[..last]);
      CharBack(s[last]);
      assert Write64(s)[..last] == Write64(s[..last]);
      assert s == s[..last] + [s[last]];
    }
  }

  /** Written and read back: the same bytes. */
  lemma B64UrlBack(b: Bytes)
    ensures UnB64Url(B64Url(b)) == Some(b)
  {
    ReadBack(Sextets(b));
    UnpackBack(b);
  }

  /** ASCII, no separator, four characters for three bytes. */
  lemma B64UrlPlain(b: Bytes)
    ensures Ascii(B64Url(b)) && ':' !in B64Url(b) && |B64Url(b)| == (4 * |b| + 2) / 3
  {
    SextetsLength(b);
    forall i | 0 <= i < |B64Url(b)| ensures B64Url(b)[i] as int < 0x80 && B64Url(b)[i] != ':' {
      CharBack(Sextets(b)[i]);
    }
  }

  // ------------------------------------------------------------------------
  // keys and hints
  // ------------------------------------------------------------------------

  /** A key id as the device issued it: hexadecimal, at least four bytes, or some label of its own. */
  datatype Kid = HexKid(bytes: Bytes) | OtherKid(id: nat)

  /** What is known of a key: an issued id, the id its public key derives to, both or neither. */
  datatype KeyRef = KeyRef(kid: Option<Kid>, derived: Option<Bytes>)

  predicate RefOk(r: KeyRef) {
    && (r.kid.Some? && r.kid.value.HexKid? ==> |r.kid.value.bytes| >= 4)
    && (r.derived.Some? ==> |r.derived.value| == 16)
  }

  function KidOf(r: KeyRef): Option<Kid> {
    if r.kid.Some? then r.kid else if r.derived.Some? then Some(HexKid(r.derived.value)) else None
  }

  /** Four bytes of the id, derived when the issued one is not hexadecimal. */
  function HintOf(r: KeyRef): Option<Bytes>
    requires RefOk(r)
    ensures HintOf(r).Some? ==> |HintOf(r).value| == 4
  {
    if KidOf(r).Some? && KidOf(r).value.HexKid? then Some(KidOf(r).value.bytes[..4])
    else if r.derived.Some? then Some(r.derived.value[..4])
    else None
  }

  predicate RefsOk(rs: seq<KeyRef>) {
    forall r :: r in rs ==> RefOk(r)
  }

  predicate Usable(members: seq<KeyRef>) {
    0 < |members| <= ROSTER_MAX
    && forall i :: 0 <= i < |members| ==> KidOf(members[i]).Some? && KidOf(members[i]).value.HexKid?
  }

  function FullKid(r: KeyRef): Bytes {
    match KidOf(r)
    case Some(HexKid(b)) => b
    case _ => []
  }

  /** The full ids, one after another: what the CRC covers. */
  function Joined(members: seq<KeyRef>): Bytes {
    if members == [] then [] else Joined(members[..|members| - 1]) + FullKid(members[|members| - 1])
  }

  function AsWord(b: Byte): bv8 {
    b as bv8
  }

  function WordsOf(b: Bytes): seq<bv8> {
    seq(|b|, i requires 0 <= i < |b| => AsWord(b[i]))
  }

  function CrcOf(b: Bytes): (c: nat)
    ensures c < 0x1_0000_0000
  {
    Crc32.Crc(WordsOf(b)) as nat
  }

  function HintsOf(members: seq<KeyRef>): (h: seq<Bytes>)
    requires RefsOk(members) && Usable(members)
    ensures |h| == |members| && forall i :: 0 <= i < |h| ==> |h[i]| == 4
  {
    assert forall i :: 0 <= i < |members| ==> members[i] in members;
    seq(|members|, i requires 0 <= i < |members| => FirstFour(members[i]))
  }

  function FirstFour(r: KeyRef): (b: Bytes)
    requires RefOk(r) && KidOf(r).Some? && KidOf(r).value.HexKid?
    ensures |b| == 4
  {
    FullKid(r)[..4]
  }

  function Flat(hints: seq<Bytes>): Bytes {
    if hints == [] then [] else Flat(hints[..|hints| - 1]) + hints[|hints| - 1]
  }

  function Be32(n: nat): (b: Bytes)
    requires n < 0x1_0000_0000
    ensures |b| == 4
  {
    [n / 0x100_0000, n / 0x1_0000 % 256, n / 0x100 % 256, n % 256]
  }

  function OfBe32(b: Bytes): nat
    requires |b| == 4
  {
    b[0] as int * 0x100_0000 + b[1] as int * 0x1_0000 + b[2] as int * 0x100 + b[3] as int
  }

  lemma Be32Back(n: nat)
    requires n < 0x1_0000_0000
    ensures OfBe32(Be32(n)) == n
  {
    var h, m := n / 0x1_0000, n / 0x100;
    assert h == h / 0x100 * 0x100 + h % 0x100 && h / 0x100 == n / 0x100_0000;
    assert m == h * 0x100 + m % 0x100 && n == m * 0x100 + n % 0x100;
  }

  /** Hints, then the CRC. */
  function Blob(members: seq<KeyRef>): string
    requires RefsOk(members)
  {
    if Usable(members) then B64Url(Flat(HintsOf(members)) + Be32(CrcOf(Joined(members)))) else ""
  }

  // ------------------------------------------------------------------------
  // building
  // ------------------------------------------------------------------------

  datatype Built = Built(descr: string, rosterIncluded: bool, nameIncluded: bool) | NoAdminKid | NoHint

  function Clean(s: string): (t: string)
    ensures |t| == |s| && ':' !in t
  {
    seq(|s|, i requires 0 <= i < |s| => if s[i] == ':' || s[i] == ',' then ' ' else s[i])
  }

  /** The sanitised label, capped at 16 characters. */
  function Wanted(name: string): string {
    var c := Clean(name);
    if |c| <= NAME_MAX then c else c[..NAME_MAX]
  }

  function HeadOf(owner: Bytes, admin: Bytes): string {
    MARKER_PREFIX + B64Url(owner) + ":" + B64Url(admin) + ":"
  }

  function Monus(a: int, b: int): nat {
    if a <= b then 0 else a - b
  }

  function BuildMarker(owner: KeyRef, admin: KeyRef, members: seq<KeyRef>, name: string): Built
    requires RefOk(owner) && RefOk(admin) && RefsOk(members)
  {
    if KidOf(admin).None? then NoAdminKid
    else if HintOf(admin).None? || HintOf(owner).None? then NoHint
    else
      var blob := Blob(members);
      var head := HeadOf(HintOf(owner).value, HintOf(admin).value);
      var shown := SliceBytes(Wanted(name), Monus(DESCR_MAX, ByteLen(head) + 1 + ByteLen(blob)));
      var descr := head + shown + ":" + blob;
      if ByteLen(descr) > DESCR_MAX then
        var short := SliceBytes(Wanted(name), Monus(DESCR_MAX, ByteLen(head) + 1));
        Built(head + short + ":", false, short != "")
      else Built(descr, blob != "", shown != "")
  }

  lemma {:induction false} FlatLength(hints: seq<Bytes>)
    requires forall i :: 0 <= i < |hints| ==> |hints[i]| == 4
    ensures |Flat(hints)| == 4 * |hints|
  {
    if hints == [] {
    } else {
      FlatLength(hints[..|hints| - 1]);
    }
  }

  lemma BlobLength(members: seq<KeyRef>)
    requires RefsOk(members)
    ensures Ascii(Blob(members)) && ':' !in Blob(members) && ByteLen(Blob(members)) <= 59
    ensures Blob(members) != "" <==> Usable(members)
  {
    if Usable(members) {
      FlatLength(HintsOf(members));
      B64UrlPlain(Flat(HintsOf(members)) + Be32(CrcOf(Joined(members))));
      AsciiLen(Blob(members));
    }
  }

  lemma HeadLength(owner: Bytes, admin: Bytes)
    requires |owner| == 4 && |admin| == 4
    ensures ByteLen(HeadOf(owner, admin)) == 27
  {
    B64UrlPlain(owner);
    B64UrlPlain(admin);
    AsciiLen(HeadOf(owner, admin));
  }

  /** The record before the length check, and that it always passes. */
  lemma AlwaysFits(owner: Bytes, admin: Bytes, members: seq<KeyRef>, name: string)
    requires |owner| == 4 && |admin| == 4 && RefsOk(members)
    ensures var head := HeadOf(owner, admin);
            var budget := Monus(DESCR_MAX, ByteLen(head) + 1 + ByteLen(Blob(members)));
            && budget >= 41
            && ByteLen(head + SliceBytes(Wanted(name), budget) + ":" + Blob(members)) <= DESCR_MAX
  {
    hide ByteLen, SliceBytes, HeadOf, Wanted, Blob;
    var head, blob := HeadOf(owner, admin), Blob(members);
    HeadLength(owner, admin);
    BlobLength(members);
    var shown := SliceBytes(Wanted(name), Monus(DESCR_MAX, ByteLen(head) + 1 + ByteLen(blob)));
    SliceIsLongest(Wanted(name), Monus(DESCR_MAX, ByteLen(head) + 1 + ByteLen(blob)));
    ByteLenJoin(head + shown + ":", blob);
    ByteLenJoin(head + shown, ":");
    ByteLenJoin(head, shown);
    AsciiLen(":");
  }

  // ------------------------------------------------------------------------
  // parsing
  // ------------------------------------------------------------------------

  datatype Fields = Fields(owner: Bytes, admin: Bytes, name: string, hints: seq<Bytes>, crc: nat)

  datatype Parsed = Parsed(f: Fields) | NotAMarker | BadBlob

  /** The parts between colons. */
  function Split(s: string): (parts: seq<string>)
    ensures |parts| >= 1
  {
    if s == "" then [""]
    else
      var rest := Split(s[1..]);
      if s[0] == ':' then [""] + rest else [[s[0]] + rest[0]] + rest[1..]
  }

  function Join(parts: seq<string>): string {
    if |parts| == 0 then "" else if |parts| == 1 then parts[0] else parts[0] + ":" + Join(parts[1..])
  }

  function Hint(field: string): Option<Bytes>
    ensures Hint(field).Some? ==> |Hint(field).value| == 4
  {
    match UnB64Url(field)
    case Some(raw) => if |raw| == 4 then Some(raw) else None
    case None => None
  }

  function Fours(b: Bytes): (h: seq<Bytes>)
    requires |b| % 4 == 0
    ensures |h| == |b| / 4
  {
    seq(|b| / 4, i requires 0 <= i < |b| / 4 => b[4 * i..4 * i + 4])
  }

  function ParseMarker(descr: string): Parsed {
    if !(MARKER_PREFIX <= descr) then NotAMarker
    else
      var parts := Split(descr[|MARKER_PREFIX|..]);
      if |parts| < 4 then NotAMarker
      else
        var owner, admin, blobS := Hint(parts[0]), Hint(parts[1]), Join(parts[3..]);
        if owner.None? || admin.None? then NotAMarker
        else if blobS == "" then Parsed(Fields(owner.value, admin.value, parts[2], [], 0))
        else match UnB64Url(blobS)
          case None => BadBlob
          case Some(blob) =>
            if |blob| < 8 || |blob| % 4 != 0 then NotAMarker
            else
              var o := |blob| - 4;
              Parsed(Fields(owner.value, admin.value, parts[2], Fours(blob[..o]), OfBe32(blob[o..])))
  }

  lemma {:induction false} SplitOne(s: string)
    requires ':' !in s
    ensures Split(s) == [s]
  {
    if s == "" {
    } else {
      SplitOne(s[1..]);
      assert s == [s[0]] + s[1..];
    }
  }

  lemma {:induction false} SplitAt(a: string, rest: string)
    requires ':' !in a
    ensures Split(a + ":" + rest) == [a] + Split(rest)
  {
    var s := a + ":" + rest;
    if a == "" {
      assert s[1..] == rest;
    } else {
      SplitAt(a[1..], rest);
      assert s[1..] == a[1..] + ":" + rest;
      assert a == [a[0]] + a[1..];
    }
  }

  lemma SplitFour(a: string, b: string, c: string, d: string)
    requires ':' !in a && ':' !in b && ':' !in c && ':' !in d
    ensures Split(a + ":" + (b + ":" + (c + ":" + d))) == [a, b, c, d]
  {
    SplitAt(a, b + ":" + (c + ":" + d));
    SplitAt(b, c + ":" + d);
    SplitAt(c, d);
    SplitOne(d);
  }

  lemma {:induction false} FoursBack(hints: seq<Bytes>)
    requires forall i :: 0 <= i < |hints| ==> |hints[i]| == 4
    ensures |Flat(hints)| == 4 * |hints| && Fours(Flat(hints)) == hints
  {
    FlatLength(hints);
    if hints == [] {
    } else {
      var last := |hints| - 1;
      var b := Flat(hints);
      FoursBack(hints[..last]);
      FlatLength(hints[..last]);
      forall i | 0 <= i < |hints| ensures Fours(b)[i] == hints[i] {
        if i < last {
          assert Fours(Flat(hints[..last]))[i] == hints[..last][i];
          assert b[4 * i..4 * i + 4] == Flat(hints[..last])[4 * i..4 * i + 4];
        }
      }
    }
  }

  lemma WantedIsClean(name: string, max: nat)
    ensures ':' !in SliceBytes(Wanted(name), max)
  {
    SliceIsLongest(Wanted(name), max);
    var c, p := Clean(name), SliceBytes(Wanted(name), max);
    assert p <= Wanted(name) <= c;
    forall i | 0 <= i < |p| ensures p[i] != ':' {
      assert p[i] == c[i] && c[i] in c;
    }
  }

  /** Four clean parts behind the prefix read back as they were put. */
  lemma ParsesBack(owner: Bytes, admin: Bytes, shown: string, blob: string)
    requires |owner| == 4 && |admin| == 4 && ':' !in shown && ':' !in blob
    ensures ParseMarker(HeadOf(owner, admin) + shown + ":" + blob)
         == (if blob == "" then Parsed(Fields(owner, admin, shown, [], 0))
             else match UnB64Url(blob)
               case None => BadBlob
               case Some(b) =>
                 if |b| < 8 || |b| % 4 != 0 then NotAMarker
                 else Parsed(Fields(owner, admin, shown, Fours(b[..|b| - 4]), OfBe32(b[|b| - 4..]))))
  {
    hide B64Url, UnB64Url, Fours, OfBe32, Split, HeadOf;
    B64UrlBack(owner);
    B64UrlPlain(owner);
    B64UrlBack(admin);
    B64UrlPlain(admin);
    var a, b := B64Url(owner), B64Url(admin);
    Regrouped(owner, admin, shown, blob);
    SplitFour(a, b, shown, blob);
    assert [a, b, shown, blob][3..] == [blob];
  }

  lemma Regrouped(owner: Bytes, admin: Bytes, shown: string, blob: string)
    ensures var descr := HeadOf(owner, admin) + shown + ":" + blob;
            && MARKER_PREFIX <= descr
            && descr[|MARKER_PREFIX|..] == B64Url(owner) + ":" + (B64Url(admin) + ":" + (shown + ":" + blob))
  {
    hide B64Url;
    var a, b := B64Url(owner), B64Url(admin);
    assert HeadOf(owner, admin) + shown + ":" + blob == MARKER_PREFIX + (a + ":" + (b + ":" + (shown + ":" + blob)));
  }

  lemma BlobReads(members: seq<KeyRef>)
    requires RefsOk(members) && Usable(members)
    ensures UnB64Url(Blob(members)).Some?
    ensures var b := UnB64Url(Blob(members)).value;
            && |b| == 4 * |members| + 4 && Fours(b[..|b| - 4]) == HintsOf(members)
            && OfBe32(b[|b| - 4..]) == CrcOf(Joined(members))
  {
    var flat, crc := Flat(HintsOf(members)), Be32(CrcOf(Joined(members)));
    B64UrlBack(flat + crc);
    FoursBack(HintsOf(members));
    Be32Back(CrcOf(Joined(members)));
    assert (flat + crc)[..|flat|] == flat && (flat + crc)[|flat|..] == crc;
  }

  /** How many bytes are left for the name. */
  function Budget(members: seq<KeyRef>): int
    requires RefsOk(members)
  {
    100 - ByteLen(Blob(members))
  }

  function Shown(members: seq<KeyRef>, name: string): string
    requires RefsOk(members)
  {
    SliceBytes(Wanted(name), Monus(Budget(members), 0))
  }

  function RecordOf(owner: Bytes, admin: Bytes, shown: string, blob: string): string {
    HeadOf(owner, admin) + shown + ":" + blob
  }

  /** The record is the one first put together: the branch that drops the roster is never taken. */
  lemma NeverDropped(owner: KeyRef, admin: KeyRef, members: seq<KeyRef>, name: string)
    requires RefOk(owner) && RefOk(admin) && RefsOk(members)
    requires BuildMarker(owner, admin, members, name).Built?
    ensures HintOf(owner).Some? && HintOf(admin).Some? && Budget(members) >= 41
    ensures var m := BuildMarker(owner, admin, members, name);
            && m.descr == RecordOf(HintOf(owner).value, HintOf(admin).value, Shown(members, name), Blob(members))
            && ByteLen(m.descr) <= DESCR_MAX
            && (m.rosterIncluded <==> Usable(members))
  {
    hide ByteLen, SliceBytes, Blob, HeadOf, Wanted, Usable, KidOf;
    HeadLength(HintOf(owner).value, HintOf(admin).value);
    BlobLength(members);
    AlwaysFits(HintOf(owner).value, HintOf(admin).value, members, name);
  }

  function FieldsOf(owner: KeyRef, admin: KeyRef, members: seq<KeyRef>, name: string): Fields
    requires RefOk(owner) && RefOk(admin) && RefsOk(members) && HintOf(owner).Some? && HintOf(admin).Some?
  {
    Fields(HintOf(owner).value, HintOf(admin).value, Shown(members, name),
           if Usable(members) then HintsOf(members) else [],
           if Usable(members) then CrcOf(Joined(members)) else 0)
  }

  /**
   * Whatever the name and the members: the record fits 128 bytes, the roster is in it
   * exactly when every member can be named and there are at most ten, and reading it
   * back gives the two hints, the longest whole-character prefix of the sanitised name
   * that fits, and all member hints with their CRC, or none.
   */
  lemma MarkerRoundTrip(owner: KeyRef, admin: KeyRef, members: seq<KeyRef>, name: string)
    requires RefOk(owner) && RefOk(admin) && RefsOk(members)
    requires BuildMarker(owner, admin, members, name).Built?
    ensures HintOf(owner).Some? && HintOf(admin).Some?
    ensures var m := BuildMarker(owner, admin, members, name);
            && ByteLen(m.descr) <= DESCR_MAX
            && (m.rosterIncluded <==> Usable(members))
            && ParseMarker(m.descr) == Parsed(FieldsOf(owner, admin, members, name))
  {
    hide ByteLen, SliceBytes, HeadOf, Wanted, BuildMarker, ParseMarker, UnB64Url, CrcOf, Joined, HintsOf, KidOf, OfBe32, Fours;
    NeverDropped(owner, admin, members, name);
    WantedIsClean(name, Monus(Budget(members), 0));
    BlobLength(members);
    ParsesBack(HintOf(owner).value, HintOf(admin).value, Shown(members, name), Blob(members));
    if Usable(members) {
      BlobReads(members);
    }
  }

  /** A sanitised name of at most 41 bytes survives whole, even beside ten members. */
  lemma ShortNameSurvives(owner: KeyRef, admin: KeyRef, members: seq<KeyRef>, name: string)
    requires RefOk(owner) && RefOk(admin) && RefsOk(members)
    requires BuildMarker(owner, admin, members, name).Built? && ByteLen(Wanted(name)) <= 41
    ensures ParseMarker(BuildMarker(owner, admin, members, name).descr).Parsed?
    ensures ParseMarker(BuildMarker(owner, admin, members, name).descr).f.name == Wanted(name)
  {
    hide ByteLen, HeadOf, Wanted, BuildMarker, ParseMarker, Blob, KidOf, HintsOf, CrcOf, Joined;
    NeverDropped(owner, admin, members, name);
    MarkerRoundTrip(owner, admin, members, name);
  }

  // ------------------------------------------------------------------------
  // by the book: UTF-8, base64url, and what a reader gets
  // ------------------------------------------------------------------------

  /** The bytes of a character (section 3 of RFC 3629). */
  function Utf8(c: char): Bytes {
    var n := c as int;
    if n < 0x80 then [n]
    else if n < 0x800 then [0xC0 + n / 0x40, 0x80 + n % 0x40]
    else if n < 0x1_0000 then [0xE0 + n / 0x1000, 0x80 + n / 0x40 % 0x40, 0x80 + n % 0x40]
    else [0xF0 + n / 0x4_0000, 0x80 + n / 0x1000 % 0x40, 0x80 + n / 0x40 % 0x40, 0x80 + n % 0x40]
  }

  function Utf8Text(s: string): Bytes {
    if s == "" then [] else Utf8Text(s[..|s| - 1]) + Utf8(s[|s| - 1])
  }

  /** The budget counts UTF-8 bytes. */
  lemma {:induction false} ByteLenIsUtf8(s: string)
    ensures |Utf8Text(s)| == ByteLen(s)
  {
    if s != "" {
      ByteLenIsUtf8(s[..|s| - 1]);
    }
  }

  const UPPER := "ABCDEFGHIJKLMNOPQRSTUVWXYZ"
  const LOWER := "abcdefghijklmnopqrstuvwxyz"

  /** Table 2 of RFC 4648. */
  const URL_ALPHABET := UPPER + LOWER + "0123456789-_"

  lemma UpperAt(v: Sextet)
    requires v < 26
    ensures |UPPER| == 26 && UPPER[v] as int == v + 65
  {
  }

  lemma LowerAt(v: Sextet)
    requires v < 26
    ensures |LOWER| == 26 && LOWER[v] as int == v + 97
  {
  }

  lemma LetterAt(v: Sextet)
    ensures |URL_ALPHABET| == 64 && Char64(v) == URL_ALPHABET[v]
  {
    UpperAt(if v < 26 then v else 0);
    LowerAt(if 26 <= v < 52 then v - 26 else 0);
    if v < 52 {
      assert URL_ALPHABET[v] == if v < 26 then UPPER[v] else LOWER[v - 26];
    } else {
      assert URL_ALPHABET[v] == "0123456789-_"[v - 52];
    }
  }

  function OfThree(a: int, b: int, c: int): int {
    0x1_0000 * a + 0x100 * b + c
  }

  function OfFour(p: int, q: int, r: int, s: int): int {
    0x4_0000 * p + 0x1000 * q + 0x40 * r + s
  }

  lemma GroupSpells(x: Byte, y: Byte, z: Byte)
    ensures OfFour(x / 4, x % 4 * 16 + y / 16, y % 16 * 4 + z / 64, z % 64) == OfThree(x, y, z)
  {
  }

  /** Three bytes as one number are four sextets as one number; what is missing at the end is filled up with zeros. */
  lemma {:induction false} SextetsSpell(b: Bytes, j: nat)
    requires 3 * j < |b|
    ensures |Sextets(b)| >= 4 * j + (if 3 * j + 3 <= |b| then 4 else |b| - 3 * j + 1)
    ensures var (s, k, n) := (Sextets(b), 4 * j, 3 * j);
            if n + 3 <= |b| then OfFour(s[k], s[k + 1], s[k + 2], s[k + 3]) == OfThree(b[n], b[n + 1], b[n + 2])
            else if n + 2 == |b| then OfFour(s[k], s[k + 1], s[k + 2], 0) == OfThree(b[n], b[n + 1], 0)
            else OfFour(s[k], s[k + 1], 0, 0) == OfThree(b[n], 0, 0)
  {
    hide OfThree, OfFour, Sextets;
    if j == 0 {
      FirstSpelled(b);
    } else {
      SextetsSpell(b[3..], j - 1);
      SextetsTail(b);
    }
  }

  lemma FirstSpelled(b: Bytes)
    requires |b| > 0
    ensures |Sextets(b)| >= if |b| >= 3 then 4 else |b| + 1
    ensures var s := Sextets(b);
            if 3 <= |b| then OfFour(s[0], s[1], s[2], s[3]) == OfThree(b[0], b[1], b[2])
            else if 2 == |b| then OfFour(s[0], s[1], s[2], 0) == OfThree(b[0], b[1], 0)
            else OfFour(s[0], s[1], 0, 0) == OfThree(b[0], 0, 0)
  {
    hide OfThree, OfFour;
    GroupSpells(b[0], if |b| > 1 then b[1] else 0, if |b| > 2 then b[2] else 0);
  }

  lemma SextetsTail(b: Bytes)
    requires |b| > 3
    ensures |Sextets(b)| == |Sextets(b[3..])| + 4
    ensures forall i {:trigger Sextets(b)[i + 4]} {:trigger Sextets(b[3..])[i]} :: 0 <= i < |Sextets(b[3..])| ==> Sextets(b)[i + 4] == Sextets(b[3..])[i]
  {
  }

  /** The text of some bytes is base64url as RFC 4648 writes it, without padding: three bytes, four letters. */
  lemma B64UrlByTheBook(b: Bytes, j: nat)
    requires 3 * j < |b|
    ensures |URL_ALPHABET| == 64 && |B64Url(b)| == |Sextets(b)| >= 4 * j + (if 3 * j + 3 <= |b| then 4 else |b| - 3 * j + 1)
    ensures forall i :: 0 <= i < |B64Url(b)| ==> B64Url(b)[i] == URL_ALPHABET[Sextets(b)[i]]
    ensures var (s, k, n) := (Sextets(b), 4 * j, 3 * j);
            if n + 3 <= |b| then OfFour(s[k], s[k + 1], s[k + 2], s[k + 3]) == OfThree(b[n], b[n + 1], b[n + 2])
            else if n + 2 == |b| then OfFour(s[k], s[k + 1], s[k + 2], 0) == OfThree(b[n], b[n + 1], 0)
            else OfFour(s[k], s[k + 1], 0, 0) == OfThree(b[n], 0, 0)
  {
    hide URL_ALPHABET, Char64;
    LetterAt(0);
    SextetsSpell(b, j);
    forall i | 0 <= i < |B64Url(b)| ensures B64Url(b)[i] == URL_ALPHABET[Sextets(b)[i]] { LetterAt(Sextets(b)[i]); }
  }

  /** The key's id: the one the device issued when that is hexadecimal, the derived one when none was issued. */
  predicate IdIs(r: KeyRef, id: Bytes) {
    r.kid == Some(HexKid(id)) || (r.kid.None? && r.derived == Some(id))
  }

  /** Four bytes that stand for a key: of its id, or of the derived one beside a label of the device's own. */
  predicate HintIs(r: KeyRef, hint: Bytes) {
    && |hint| == 4
    && match r
       case KeyRef(Some(HexKid(id)), _) => hint <= id
       case KeyRef(_, Some(id)) => hint <= id
       case KeyRef(_, None) => false
  }

  /** As much of a name as a record shows: no separators, at most 16 characters. */
  predicate ShowsName(name: string, shown: string) {
    && |shown| <= 16 && |shown| <= |name|
    && forall i :: 0 <= i < |shown| ==> shown[i] == if name[i] == ':' || name[i] == ',' then ' ' else name[i]
  }

  ghost predicate AllNamed(members: seq<KeyRef>, ids: seq<Bytes>) {
    |ids| == |members| && forall i :: 0 <= i < |members| ==> IdIs(members[i], ids[i])
  }

  function Ids(members: seq<KeyRef>): seq<Bytes> {
    seq(|members|, i requires 0 <= i < |members| => FullKid(members[i]))
  }

  function Words(b: Bytes): (w: seq<bv8>)
    ensures |w| == |b|
  {
    seq(|b|, i requires 0 <= i < |b| => b[i] as bv8)
  }

  lemma UsableIff(members: seq<KeyRef>)
    ensures Usable(members) <==> 1 <= |members| <= 10 && exists ids: seq<Bytes> :: AllNamed(members, ids)
    ensures Usable(members) ==> AllNamed(members, Ids(members))
  {
    if Usable(members) {
      assert AllNamed(members, Ids(members));
    }
    if 1 <= |members| <= 10 && exists ids: seq<Bytes> :: AllNamed(members, ids) {
      var ids: seq<Bytes> :| AllNamed(members, ids);
      forall i | 0 <= i < |members| ensures KidOf(members[i]).Some? && KidOf(members[i]).value.HexKid? {
        assert IdIs(members[i], ids[i]);
      }
    }
  }

  lemma {:induction false} JoinedIds(members: seq<KeyRef>)
    ensures Joined(members) == Flat(Ids(members))
  {
    if members != [] {
      var last := |members| - 1;
      JoinedIds(members[..last]);
      assert Ids(members)[..last] == Ids(members[..last]);
    }
  }

  /** The roster a reader gets: four bytes of each member's id, and the CRC of all the ids. */
  ghost predicate RosterIs(members: seq<KeyRef>, hints: seq<Bytes>, crc: nat) {
    exists ids: seq<Bytes> ::
      && AllNamed(members, ids) && |hints| == |ids|
      && (forall i :: 0 <= i < |ids| ==> |hints[i]| == 4 && hints[i] <= ids[i])
      && crc == Crc32.Crc(Words(Flat(ids))) as nat
  }

  lemma RosterRead(members: seq<KeyRef>)
    requires RefsOk(members) && Usable(members)
    ensures RosterIs(members, HintsOf(members), CrcOf(Joined(members)))
  {
    UsableIff(members);
    JoinedIds(members);
    var ids := Ids(members);
    assert WordsOf(Flat(ids)) == Words(Flat(ids));
    forall i | 0 <= i < |ids| ensures HintsOf(members)[i] <= ids[i] {
      assert members[i] in members;
    }
  }

  lemma HintRead(r: KeyRef)
    requires RefOk(r)
    ensures HintOf(r).Some? <==> exists hint: Bytes :: HintIs(r, hint)
    ensures HintOf(r).Some? ==> HintIs(r, HintOf(r).value)
  {
    if HintOf(r).Some? {
      assert HintIs(r, HintOf(r).value);
    }
  }

  lemma WantedShows(name: string, n: nat)
    requires n <= |Wanted(name)|
    ensures ShowsName(name, Wanted(name)[..n])
    ensures forall t :: ShowsName(name, t) ==> |t| <= |Wanted(name)| && t == Wanted(name)[..|t|]
  {
    forall t | ShowsName(name, t) ensures |t| <= |Wanted(name)| && t == Wanted(name)[..|t|] {
    }
  }

  lemma {:induction false} LongerIsLonger(s: string, i: nat, j: nat)
    requires i <= j <= |s|
    ensures ByteLen(s[..i]) <= ByteLen(s[..j])
  {
    if i < j {
      LongerIsLonger(s, i, j - 1);
      assert s[..j][..j - 1] == s[..j - 1];
    }
  }

  /** No other way of showing the name in this place fits and is longer. */
  lemma NoneLonger(head: string, blob: string, name: string, t: string)
    requires ByteLen(head) + 1 + ByteLen(blob) <= DESCR_MAX
    requires ShowsName(name, t) && |Utf8Text(head + t + ":" + blob)| <= 128
    ensures |t| <= |SliceBytes(Wanted(name), DESCR_MAX - ByteLen(head) - 1 - ByteLen(blob))|
  {
    hide ByteLen, Utf8Text, SliceBytes, Wanted, ShowsName;
    var w, max := Wanted(name), DESCR_MAX - ByteLen(head) - 1 - ByteLen(blob);
    ByteLenIsUtf8(head + t + ":" + blob);
    RecordLength(head, t, blob);
    WantedShows(name, 0);
    SliceIsLongest(w, max);
    var p := SliceBytes(w, max);
    if |p| < |t| {
      LongerIsLonger(w, |p| + 1, |t|);
      assert false;
    }
  }

  lemma RecordLength(head: string, t: string, blob: string)
    ensures ByteLen(head + t + ":" + blob) == ByteLen(head) + ByteLen(t) + 1 + ByteLen(blob)
  {
    ByteLenJoin(head + t + ":", blob);
    ByteLenJoin(head + t, ":");
    ByteLenJoin(head, t);
    AsciiLen(":");
  }

  /** The record is written whenever both keys can be hinted at. */
  lemma WhenBuilt(owner: KeyRef, admin: KeyRef, members: seq<KeyRef>, name: string)
    requires RefOk(owner) && RefOk(admin) && RefsOk(members)
    ensures BuildMarker(owner, admin, members, name).Built?
       <==> (exists hint: Bytes :: HintIs(owner, hint)) && (exists hint: Bytes :: HintIs(admin, hint))
  {
    hide Blob, HeadOf, SliceBytes, ByteLen, Wanted;
    HintRead(owner);
    HintRead(admin);
  }

  /** What a record shows of the name, with what is around it. */
  ghost predicate ShowsMost(descr: string, name: string, shown: string) {
    exists head: string, blob: string ::
      && descr == head + shown + ":" + blob && ShowsName(name, shown)
      && forall t :: ShowsName(name, t) && |Utf8Text(head + t + ":" + blob)| <= 128 ==> |t| <= |shown|
  }

  /**
   * What a reader gets of any record, said without the builder's own terms: at most 128 UTF-8
   * bytes; four bytes of the owner's and the admin's ids; no longer showing of the name would
   * have fitted; and the roster with the CRC of the ids exactly when all of one to ten members
   * have one.
   */
  lemma MarkerSays(owner: KeyRef, admin: KeyRef, members: seq<KeyRef>, name: string)
    requires RefOk(owner) && RefOk(admin) && RefsOk(members)
    requires BuildMarker(owner, admin, members, name).Built?
    ensures var m := BuildMarker(owner, admin, members, name);
            var p := ParseMarker(m.descr);
            && |Utf8Text(m.descr)| <= 128
            && p.Parsed? && HintIs(owner, p.f.owner) && HintIs(admin, p.f.admin)
            && ShowsMost(m.descr, name, p.f.name) && (m.nameIncluded <==> p.f.name != "")
            && (m.rosterIncluded <==> 1 <= |members| <= 10 && exists ids: seq<Bytes> :: AllNamed(members, ids))
            && (if m.rosterIncluded then RosterIs(members, p.f.hints, p.f.crc) else p.f.hints == [] && p.f.crc == 0)
  {
    hide ByteLen, Utf8Text, SliceBytes, HeadOf, Wanted, ParseMarker, CrcOf, Joined, HintsOf, KidOf, RosterIs, HintIs, Usable, Blob, ShowsMost;
    NeverDropped(owner, admin, members, name);
    MarkerRoundTrip(owner, admin, members, name);
    HintRead(owner);
    HintRead(admin);
    UsableIff(members);
    if Usable(members) { RosterRead(members); }
    ByteLenIsUtf8(BuildMarker(owner, admin, members, name).descr);
    ShownIsMost(HintOf(owner).value, HintOf(admin).value, members, name);
    NameFlag(owner, admin, members, name);
  }

  lemma NameFlag(owner: KeyRef, admin: KeyRef, members: seq<KeyRef>, name: string)
    requires RefOk(owner) && RefOk(admin) && RefsOk(members)
    requires BuildMarker(owner, admin, members, name).Built?
    ensures BuildMarker(owner, admin, members, name).nameIncluded <==> Shown(members, name) != ""
  {
    hide ByteLen, SliceBytes, HeadOf, Wanted, Blob;
    HeadLength(HintOf(owner).value, HintOf(admin).value);
    BlobLength(members);
    AlwaysFits(HintOf(owner).value, HintOf(admin).value, members, name);
  }

  lemma ShownIsMost(owner: Bytes, admin: Bytes, members: seq<KeyRef>, name: string)
    requires |owner| == 4 && |admin| == 4 && RefsOk(members)
    ensures ShowsMost(RecordOf(owner, admin, Shown(members, name), Blob(members)), name, Shown(members, name))
  {
    hide ByteLen, Utf8Text, SliceBytes, HeadOf, Wanted, Blob, ShowsName;
    var head, blob, shown := HeadOf(owner, admin), Blob(members), Shown(members, name);
    HeadLength(owner, admin);
    BlobLength(members);
    SliceIsLongest(Wanted(name), Monus(Budget(members), 0));
    WantedShows(name, |shown|);
    forall t | ShowsName(name, t) && |Utf8Text(head + t + ":" + blob)| <= 128 ensures |t| <= |shown| {
      NoneLonger(head, blob, name, t);
    }
    assert RecordOf(owner, admin, shown, blob) == head + shown + ":" + blob;
    assert shown == Wanted(name)[..|shown|];
  }
}
