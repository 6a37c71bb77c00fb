/**
 * Chunked file encryption (impl/lib/filecrypto.ts). A sealed chunk is one cell per
 * byte, and a cell names the whole sealing it belongs to, so any splice of cells can
 * be written down and only an unbroken run of one sealing opens.
 */
module FileCrypto {
  import opened Keys

  const U32 := 0x1_0000_0000
  const MAX_CHUNK := 16 * 1024 * 1024
  const MAX_FILE := 128 * 1024 * 1024
  const TAG := 16

  type Bytes = seq<bv8>

  datatype Cell = Cell(key: nat, iv: nat, index: nat, total: nat, plain: Bytes, at: int) | Stray(b: bv8)

  datatype Alg = A256GcmChunkedV1 | OtherAlg(id: nat)

  /** As it arrives: nothing says yet that the numbers fit together. */
  datatype Manifest = Manifest(alg: Alg, chunk: int, chunks: int, size: int)

  datatype Refusal = TooBig | BadChunkSize | UnknownAlg | WrongLength | BadSize | DoesNotOpen(index: nat) | DoesNotFit(index: nat)

  datatype Result<+T> = Ok(value: T) | Refused(why: Refusal)

  function Min(a: int, b: int): int { if a <= b then a else b }
  function Max(a: int, b: int): int { if a >= b then a else b }

  // ------------------------------------------------------------------------
  // one chunk
  // ------------------------------------------------------------------------

  /** The nonce is the index as u64; index and total enter the AAD as u32. */
  function SealChunk(key: nat, index: nat, total: nat, plain: Bytes): (ct: seq<Cell>)
    ensures |ct| == |plain| + TAG
  {
    seq(|plain| + TAG, i => Cell(key, index, index % U32, total % U32, plain, i))
  }

  function OpenChunk(key: nat, index: nat, total: nat, ct: seq<Cell>): Option<Bytes> {
    if ct != [] && ct[0].Cell? && ct == SealChunk(key, index, total, ct[0].plain) then Some(ct[0].plain) else None
  }

  // ------------------------------------------------------------------------
  // whole files
  // ------------------------------------------------------------------------

  function Chunks(size: nat, chunk: nat): nat
    requires chunk > 0
  {
    Max(1, (size + chunk - 1) / chunk)
  }

  function PlanChunks(size: nat, chunk: int): Result<Manifest> {
    if size > MAX_FILE then Refused(TooBig)
    else if chunk <= 0 || chunk > MAX_CHUNK then Refused(BadChunkSize)
    else Ok(Manifest(A256GcmChunkedV1, chunk, Chunks(size, chunk), size))
  }

  /** i chunks' worth of bytes. */
  function Offset(chunk: int, i: nat): int {
    if i == 0 then 0 else Offset(chunk, i - 1) + chunk
  }

  lemma {:induction false} OffsetIsProduct(chunk: int, i: nat)
    ensures Offset(chunk, i) == i * chunk
  {
    if i == 0 {
    } else {
      OffsetIsProduct(chunk, i - 1);
      assert (i - 1) * chunk + chunk == i * chunk;
    }
  }

  lemma {:induction false} OffsetGrows(chunk: nat, i: nat, j: nat)
    requires i <= j
    ensures Offset(chunk, i) <= Offset(chunk, j)
  {
    if i < j {
      OffsetGrows(chunk, i, j - 1);
    }
  }

  /** Where chunk i starts in a file of this size. */
  function Start(size: nat, chunk: nat, i: nat): nat {
    OffsetGrows(chunk, 0, i);
    Min(Offset(chunk, i), size)
  }

  function Piece(plain: Bytes, chunk: nat, i: nat): Bytes {
    plain[Start(|plain|, chunk, i)..Start(|plain|, chunk, i + 1)]
  }

  /** The first n sealed chunks, one after another. */
  function SealUpTo(key: nat, plain: Bytes, chunk: nat, total: nat, n: nat): seq<Cell> {
    if n == 0 then [] else SealUpTo(key, plain, chunk, total, n - 1) + SealChunk(key, n - 1, total, Piece(plain, chunk, n - 1))
  }

  function EncryptBytes(key: nat, plain: Bytes, chunk: int): Result<(Manifest, seq<Cell>)> {
    match PlanChunks(|plain|, chunk)
    case Refused(why) => Refused(why)
    case Ok(m) => Ok((m, SealUpTo(key, plain, chunk, m.chunks, m.chunks)))
  }

  function ChunkCipherLen(m: Manifest, i: nat): nat {
    Max(0, if i == m.chunks - 1 then m.size - Offset(m.chunk, i) else m.chunk) + TAG
  }

  function Expected(m: Manifest, n: nat): nat {
    if n == 0 then 0 else Expected(m, n - 1) + ChunkCipherLen(m, n - 1)
  }

  lemma {:induction false} ExpectedGrows(m: Manifest, i: nat, n: nat)
    requires i <= n
    ensures Expected(m, i) <= Expected(m, n)
  {
    if i < n {
      ExpectedGrows(m, i, n - 1);
    }
  }

  function OpenUpTo(key: nat, m: Manifest, cipher: seq<Cell>, n: nat): Result<Bytes>
    requires n == 0 || n <= m.chunks
    requires Expected(m, n) <= |cipher|
  {
    if n == 0 then Ok([])
    else
      match OpenUpTo(key, m, cipher, n - 1)
      case Refused(why) => Refused(why)
      case Ok(done) =>
        match OpenChunk(key, n - 1, m.chunks, cipher[Expected(m, n - 1)..Expected(m, n)])
        case None => Refused(DoesNotOpen(n - 1))
        case Some(pt) => if |done| + |pt| > m.size then Refused(DoesNotFit(n - 1)) else Ok(done + pt)
  }

  function Zeros(n: int): Bytes {
    seq(Max(0, n), i => 0)
  }

  /** The output buffer is allocated at the claimed size and filled from the front. */
  function FillBuffer(key: nat, m: Manifest, cipher: seq<Cell>, n: nat): Result<Bytes>
    requires n == 0 || n <= m.chunks
    requires Expected(m, n) <= |cipher|
  {
    match OpenUpTo(key, m, cipher, n)
    case Refused(why) => Refused(why)
    case Ok(done) => Ok(done + Zeros(m.size - |done|))
  }

  function DecryptBytes(key: nat, m: Manifest, cipher: seq<Cell>): Result<Bytes> {
    var n := Max(0, m.chunks);
    if m.alg != A256GcmChunkedV1 then Refused(UnknownAlg)
    else if |cipher| != Expected(m, n) then Refused(WrongLength)
    else if m.size < 0 then Refused(BadSize)
    else FillBuffer(key, m, cipher, n)
  }

  // ------------------------------------------------------------------------
  // how a file is cut
  // ------------------------------------------------------------------------

  lemma Multiplies(a: nat, b: nat, c: nat)
    requires a <= b
    ensures a * c <= b * c
  {
  }

  /** c pieces of `chunk` bytes, the last one possibly shorter, hold exactly this size. */
  predicate Cut(size: nat, chunk: nat, c: nat) {
    && chunk > 0 && c >= 1
    && Offset(chunk, c - 1) <= size <= Offset(chunk, c)
    && (c > 1 ==> Offset(chunk, c - 1) < size)
  }

  lemma PlanCuts(size: nat, chunk: nat)
    requires chunk > 0
    ensures Cut(size, chunk, Chunks(size, chunk)) && Chunks(size, chunk) <= size + 1
  {
    var q := (size + chunk - 1) / chunk;
    assert q * chunk <= size + chunk - 1 < q * chunk + chunk;
    var c := Chunks(size, chunk);
    OffsetIsProduct(chunk, c - 1);
    OffsetIsProduct(chunk, c);
    assert (c - 1) * chunk == c * chunk - chunk;
    Multiplies(1, chunk, c - 1);
  }

  lemma PieceLength(plain: Bytes, chunk: nat, c: nat, i: nat)
    requires Cut(|plain|, chunk, c) && i < c
    ensures Start(|plain|, chunk, i) == Offset(chunk, i)
    ensures |Piece(plain, chunk, i)| == (if i == c - 1 then |plain| - Offset(chunk, i) else chunk)
    ensures c > 1 ==> |Piece(plain, chunk, i)| > 0
    ensures Start(|plain|, chunk, i + 1) == Start(|plain|, chunk, i) + |Piece(plain, chunk, i)|
  {
    OffsetGrows(chunk, i, c - 1);
    if i < c - 1 {
      OffsetGrows(chunk, i + 1, c - 1);
    }
  }

  lemma PieceAppends(plain: Bytes, chunk: nat, c: nat, i: nat)
    requires Cut(|plain|, chunk, c) && i < c
    ensures plain[..Start(|plain|, chunk, i)] + Piece(plain, chunk, i) == plain[..Start(|plain|, chunk, i + 1)]
  {
    PieceLength(plain, chunk, c, i);
  }

  // ------------------------------------------------------------------------
  // round trip
  // ------------------------------------------------------------------------

  predicate ManifestOf(m: Manifest, size: nat, chunk: nat) {
    m.alg == A256GcmChunkedV1 && m.chunk == chunk && m.size == size && m.chunks >= 1 && Cut(size, chunk, m.chunks)
  }

  /** The manifest's lengths are those of the chunks as they were sealed. */
  lemma {:induction false} SealedLengths(key: nat, plain: Bytes, chunk: nat, m: Manifest, n: nat)
    requires ManifestOf(m, |plain|, chunk) && n <= m.chunks
    ensures |SealUpTo(key, plain, chunk, m.chunks, n)| == Expected(m, n) == Start(|plain|, chunk, n) + n * TAG
  {
    if n == 0 {
    } else {
      SealedLengths(key, plain, chunk, m, n - 1);
      PieceLength(plain, chunk, m.chunks, n - 1);
    }
  }

  lemma {:induction false} SealedPrefix(key: nat, plain: Bytes, chunk: nat, total: nat, i: nat, n: nat)
    requires i <= n
    ensures SealUpTo(key, plain, chunk, total, i) <= SealUpTo(key, plain, chunk, total, n)
  {
    if i < n {
      SealedPrefix(key, plain, chunk, total, i, n - 1);
    }
  }

  lemma SliceOf(s: seq<Cell>, a: seq<Cell>, b: seq<Cell>)
    requires a + b <= s
    ensures s[|a|..|a| + |b|] == b
  {
    assert s[..|a| + |b|] == a + b;
  }

  lemma SealedSlice(key: nat, plain: Bytes, chunk: nat, m: Manifest, cipher: seq<Cell>, i: nat)
    requires ManifestOf(m, |plain|, chunk) && i < m.chunks && SealUpTo(key, plain, chunk, m.chunks, i + 1) <= cipher
    ensures Expected(m, i) <= Expected(m, i + 1) <= |cipher|
    ensures cipher[Expected(m, i)..Expected(m, i + 1)] == SealChunk(key, i, m.chunks, Piece(plain, chunk, i))
  {
    hide SealChunk, Piece, Start, Offset, Cut, ChunkCipherLen;
    SealedLengths(key, plain, chunk, m, i);
    SealedLengths(key, plain, chunk, m, i + 1);
    SliceOf(cipher, SealUpTo(key, plain, chunk, m.chunks, i), SealChunk(key, i, m.chunks, Piece(plain, chunk, i)));
  }

  lemma ChunkOpens(key: nat, index: nat, total: nat, plain: Bytes)
    ensures OpenChunk(key, index, total, SealChunk(key, index, total, plain)) == Some(plain)
  {
    assert SealChunk(key, index, total, plain)[0].plain == plain;
  }

  lemma OpensOneMore(key: nat, m: Manifest, cipher: seq<Cell>, n: nat, done: Bytes, pt: Bytes)
    requires n < m.chunks && Expected(m, n) <= Expected(m, n + 1) <= |cipher| && |done| + |pt| <= m.size
    requires OpenUpTo(key, m, cipher, n) == Ok(done)
    requires cipher[Expected(m, n)..Expected(m, n + 1)] == SealChunk(key, n, m.chunks, pt)
    ensures OpenUpTo(key, m, cipher, n + 1) == Ok(done + pt)
  {
    ChunkOpens(key, n, m.chunks, pt);
  }

  lemma OpensBackOneMore(key: nat, plain: Bytes, chunk: nat, m: Manifest, cipher: seq<Cell>, i: nat)
    requires ManifestOf(m, |plain|, chunk) && i < m.chunks && SealUpTo(key, plain, chunk, m.chunks, i + 1) <= cipher
    requires Expected(m, i) <= |cipher| && OpenUpTo(key, m, cipher, i) == Ok(plain[..Start(|plain|, chunk, i)])
    ensures Expected(m, i + 1) <= |cipher|
    ensures OpenUpTo(key, m, cipher, i + 1) == Ok(plain[..Start(|plain|, chunk, i + 1)])
  {
    SealedSlice(key, plain, chunk, m, cipher, i);
    PieceAppends(plain, chunk, m.chunks, i);
    OpensOneMore(key, m, cipher, i, plain[..Start(|plain|, chunk, i)], Piece(plain, chunk, i));
  }

  lemma {:induction false} OpensBack(key: nat, plain: Bytes, chunk: nat, m: Manifest, cipher: seq<Cell>, n: nat)
    requires ManifestOf(m, |plain|, chunk) && n <= m.chunks
    requires SealUpTo(key, plain, chunk, m.chunks, n) <= cipher
    ensures Expected(m, n) <= |cipher|
    ensures OpenUpTo(key, m, cipher, n) == Ok(plain[..Start(|plain|, chunk, n)])
  {
    if n == 0 {
    } else {
      SealedPrefix(key, plain, chunk, m.chunks, n - 1, n);
      OpensBack(key, plain, chunk, m, cipher, n - 1);
      OpensBackOneMore(key, plain, chunk, m, cipher, n - 1);
    }
  }

  /** Every file of every admitted size and chunk size comes back, and its ciphertext is 16 bytes a chunk longer. */
  lemma RoundTrip(key: nat, plain: Bytes, chunk: int)
    requires |plain| <= MAX_FILE && 0 < chunk <= MAX_CHUNK
    ensures EncryptBytes(key, plain, chunk).Ok?
    ensures var (m, cipher) := EncryptBytes(key, plain, chunk).value;
            && DecryptBytes(key, m, cipher) == Ok(plain)
            && |cipher| == |plain| + TAG * m.chunks
  {
    PlanCuts(|plain|, chunk);
    var (m, cipher) := EncryptBytes(key, plain, chunk).value;
    OpensBack(key, plain, chunk, m, cipher, m.chunks);
    SealedLengths(key, plain, chunk, m, m.chunks);
    assert plain[..|plain|] + Zeros(0) == plain;
  }

  // ------------------------------------------------------------------------
  // any manifest, any bytes
  // ------------------------------------------------------------------------

  /** A cell of chunk c.iv of this file, cut in n. */
  predicate CellOf(c: Cell, plain: Bytes, chunk: nat, n: nat)
    requires c.Cell?
  {
    c.iv < n && c.index == c.iv % U32 && c.total == n % U32 && c.plain == Piece(plain, chunk, c.iv)
  }

  /** A single-use key: whatever was sealed under it is a chunk of this file. */
  ghost predicate SealedOnlyHere(key: nat, plain: Bytes, chunk: nat, n: nat, cipher: seq<Cell>) {
    forall c :: c in cipher && c.Cell? && c.key == key ==> CellOf(c, plain, chunk, n)
  }

  lemma OpenedIsPiece(key: nat, plain: Bytes, chunk: nat, n: nat, cipher: seq<Cell>, i: nat, total: nat, lo: nat, hi: nat)
    requires SealedOnlyHere(key, plain, chunk, n, cipher) && lo <= hi <= |cipher|
    requires OpenChunk(key, i, total, cipher[lo..hi]).Some?
    ensures i < n && total % U32 == n % U32
    ensures OpenChunk(key, i, total, cipher[lo..hi]) == Some(Piece(plain, chunk, i)) && hi - lo == |Piece(plain, chunk, i)| + TAG
  {
    var c := cipher[lo..hi][0];
    assert c in cipher;
    assert SealChunk(key, i, total, c.plain)[0] == c;
  }

  lemma StartsAtZero(plain: Bytes, chunk: nat)
    ensures plain[..Start(|plain|, chunk, 0)] == []
  {
  }

  lemma {:induction false} OpensToPieces(key: nat, plain: Bytes, chunk: nat, c: nat, m: Manifest, cipher: seq<Cell>, n: nat)
    requires Cut(|plain|, chunk, c) && SealedOnlyHere(key, plain, chunk, c, cipher)
    requires 0 < n <= m.chunks && Expected(m, n) <= |cipher| && OpenUpTo(key, m, cipher, n).Ok?
    ensures n <= c && m.chunks % U32 == c % U32
    ensures OpenUpTo(key, m, cipher, n).value == plain[..Start(|plain|, chunk, n)]
    ensures forall i: nat :: i < n ==> ChunkCipherLen(m, i) == |Piece(plain, chunk, i)| + TAG
  {
    hide ChunkCipherLen, OpenChunk, Piece, Start, Offset, Cut;
    StartsAtZero(plain, chunk);
    OpenedIsPiece(key, plain, chunk, c, cipher, n - 1, m.chunks, Expected(m, n - 1), Expected(m, n));
    PieceAppends(plain, chunk, c, n - 1);
    if n > 1 {
      OpensToPieces(key, plain, chunk, c, m, cipher, n - 1);
    }
  }

  /** The claimed size is forced by the lengths of the chunks. */
  lemma SizeIsForced(plain: Bytes, chunk: nat, m: Manifest)
    requires m.chunks >= 1 && Cut(|plain|, chunk, m.chunks) && m.size >= 0
    requires forall i: nat :: i < m.chunks ==> ChunkCipherLen(m, i) == |Piece(plain, chunk, i)| + TAG
    ensures m.size == |plain|
  {
    var last: nat := m.chunks - 1;
    PieceLength(plain, chunk, m.chunks, last);
    PieceLength(plain, chunk, m.chunks, 0);
    assert ChunkCipherLen(m, last) == |Piece(plain, chunk, last)| + TAG;
    assert ChunkCipherLen(m, 0) == |Piece(plain, chunk, 0)| + TAG;
    if last > 0 {
      assert m.chunk == chunk;
    }
  }

  lemma SameCount(a: nat, b: nat)
    requires a <= b < U32 && a % U32 == b % U32
    ensures a == b
  {
  }

  /**
   * With a manifest of at least one chunk, whatever bytes arrive - reordered,
   * truncated, extended, spliced, under a wrong count, size or chunk size - either
   * refuse or give exactly the file that was sealed.
   */
  lemma RefusesOrExact(key: nat, plain: Bytes, chunk: int, m: Manifest, cipher: seq<Cell>)
    requires |plain| <= MAX_FILE && 0 < chunk <= MAX_CHUNK && m.chunks >= 1
    requires SealedOnlyHere(key, plain, chunk, Chunks(|plain|, chunk), cipher)
    ensures DecryptBytes(key, m, cipher).Ok? ==> DecryptBytes(key, m, cipher) == Ok(plain)
  {
    if DecryptBytes(key, m, cipher).Ok? {
      PlanCuts(|plain|, chunk);
      ExactWhenOpened(key, plain, chunk, Chunks(|plain|, chunk), m, cipher);
    }
  }

  lemma ExactWhenOpened(key: nat, plain: Bytes, chunk: nat, c: nat, m: Manifest, cipher: seq<Cell>)
    requires Cut(|plain|, chunk, c) && c < U32 && m.chunks >= 1
    requires SealedOnlyHere(key, plain, chunk, c, cipher) && DecryptBytes(key, m, cipher).Ok?
    ensures DecryptBytes(key, m, cipher) == Ok(plain)
  {
    OpensToPieces(key, plain, chunk, c, m, cipher, m.chunks);
    SameCount(m.chunks, c);
    SizeIsForced(plain, chunk, m);
    assert plain[..|plain|] + Zeros(0) == plain;
  }

  // ------------------------------------------------------------------------
  // exactly what was sealed
  // ------------------------------------------------------------------------

  /** A file is encrypted if and only if it has at most 128 MiB and its chunks between one byte and 16 MiB. */
  lemma EncryptsExactly(key: nat, plain: Bytes, chunk: int)
    ensures EncryptBytes(key, plain, chunk).Ok? <==> |plain| <= 134_217_728 && 0 < chunk <= 16_777_216
    ensures EncryptBytes(key, plain, chunk) == Refused(TooBig) <==> |plain| > 134_217_728
  {
  }

  /** The manifest that was made for a file, its chunk size free when there is one chunk only. */
  predicate MadeFor(m: Manifest, plain: Bytes, chunk: nat, c: nat) {
    m.alg == A256GcmChunkedV1 && m.chunks == c && m.size == |plain| && (c > 1 ==> m.chunk == chunk)
  }

  lemma {:induction false} OpenedIsSealed(key: nat, plain: Bytes, chunk: nat, c: nat, m: Manifest, cipher: seq<Cell>, n: nat)
    requires Cut(|plain|, chunk, c) && SealedOnlyHere(key, plain, chunk, c, cipher)
    requires n <= m.chunks && Expected(m, n) <= |cipher| && OpenUpTo(key, m, cipher, n).Ok?
    ensures cipher[..Expected(m, n)] == SealUpTo(key, plain, chunk, if n > 0 then m.chunks else 0, n)
  {
    hide ChunkCipherLen, Piece, Start, Offset, Cut, SealChunk;
    if n > 0 {
      OpenedIsPiece(key, plain, chunk, c, cipher, n - 1, m.chunks, Expected(m, n - 1), Expected(m, n));
      OpenedIsSealed(key, plain, chunk, c, m, cipher, n - 1);
      SealNothing(key, plain, chunk, m.chunks);
      assert cipher[..Expected(m, n)] == cipher[..Expected(m, n - 1)] + cipher[Expected(m, n - 1)..Expected(m, n)];
    }
  }

  lemma SealNothing(key: nat, plain: Bytes, chunk: nat, total: nat)
    ensures SealUpTo(key, plain, chunk, total, 0) == []
  {
  }

  lemma OneChunkAlike(key: nat, m: Manifest, k: Manifest, cipher: seq<Cell>)
    requires m.chunks == 1 && k == m.(chunk := k.chunk)
    ensures DecryptBytes(key, m, cipher) == DecryptBytes(key, k, cipher)
  {
    assert Expected(m, 0) == Expected(k, 0) == 0 && Expected(m, 1) == Expected(k, 1);
    assert OpenUpTo(key, m, cipher, 0) == OpenUpTo(key, k, cipher, 0);
    if Expected(m, 1) <= |cipher| {
      assert OpenUpTo(key, m, cipher, 1) == OpenUpTo(key, k, cipher, 1);
    }
  }

  /**
   * With a manifest of at least one chunk, decryption accepts exactly the ciphertext that was
   * sealed, not a byte more, less or elsewhere, and only under the manifest made for it.
   */
  lemma AcceptsExactly(key: nat, plain: Bytes, chunk: int, m: Manifest, cipher: seq<Cell>)
    requires |plain| <= MAX_FILE && 0 < chunk <= MAX_CHUNK && m.chunks >= 1
    requires SealedOnlyHere(key, plain, chunk, Chunks(|plain|, chunk), cipher)
    ensures DecryptBytes(key, m, cipher).Ok?
       <==> cipher == EncryptBytes(key, plain, chunk).value.1 && MadeFor(m, plain, chunk, Chunks(|plain|, chunk))
  {
    hide SealedOnlyHere, SealUpTo, OpenUpTo, Cut, Expected;
    var c := Chunks(|plain|, chunk);
    PlanCuts(|plain|, chunk);
    if DecryptBytes(key, m, cipher).Ok? {
      AcceptedIsSealed(key, plain, chunk, c, m, cipher);
    }
    if MadeFor(m, plain, chunk, c) && cipher == EncryptBytes(key, plain, chunk).value.1 {
      RoundTrip(key, plain, chunk);
      var k := EncryptBytes(key, plain, chunk).value.0;
      if c == 1 { OneChunkAlike(key, m, k, cipher); }
    }
  }

  lemma AcceptedIsSealed(key: nat, plain: Bytes, chunk: nat, c: nat, m: Manifest, cipher: seq<Cell>)
    requires Cut(|plain|, chunk, c) && c < U32 && m.chunks >= 1
    requires SealedOnlyHere(key, plain, chunk, c, cipher) && DecryptBytes(key, m, cipher).Ok?
    ensures cipher == SealUpTo(key, plain, chunk, c, c) && MadeFor(m, plain, chunk, c)
  {
    hide SealUpTo, OpenUpTo, Expected, Cut, SealedOnlyHere, Piece;
    OpensToPieces(key, plain, chunk, c, m, cipher, m.chunks);
    SameCount(m.chunks, c);
    SizeIsForced(plain, chunk, m);
    OpenedIsSealed(key, plain, chunk, c, m, cipher, m.chunks);
    assert cipher[..|cipher|] == cipher;
    if c > 1 {
      PieceLength(plain, chunk, c, 0);
      assert ChunkCipherLen(m, 0) == |Piece(plain, chunk, 0)| + TAG;
    }
  }

  /** Whoever sealed what: bytes handed out are as many as the manifest claims. */
  lemma ClaimedSize(key: nat, m: Manifest, cipher: seq<Cell>)
    ensures DecryptBytes(key, m, cipher).Ok? ==> |DecryptBytes(key, m, cipher).value| == m.size
  {
  }

  /** A manifest under which no bytes can ever yield anything but the file that was sealed. */
  ghost predicate Safe(m: Manifest) {
    forall key: nat, plain: Bytes, chunk: int, cipher: seq<Cell> ::
      && |plain| <= MAX_FILE && 0 < chunk <= MAX_CHUNK
      && SealedOnlyHere(key, plain, chunk, Chunks(|plain|, chunk), cipher)
      && DecryptBytes(key, m, cipher).Ok?
      ==> DecryptBytes(key, m, cipher).value == plain
  }

  /** A manifest of no chunks accepts the empty ciphertext of any file and hands out zeros. */
  lemma NoChunksGiveZeros(key: nat, m: Manifest)
    requires m.alg == A256GcmChunkedV1 && m.chunks <= 0 && m.size >= 0
    ensures DecryptBytes(key, m, []) == Ok(Zeros(m.size))
  {
    assert [] + Zeros(m.size) == Zeros(m.size);
  }

  /** Exactly when: the count must be at least one, which the envelope decoder checks before a byte is fetched. */
  lemma SafeExactly(m: Manifest)
    requires m.alg == A256GcmChunkedV1
    ensures Safe(m) <==> m.chunks >= 1 || m.size < 0
  {
    if m.chunks >= 1 {
      forall key: nat, plain: Bytes, chunk: int, cipher: seq<Cell> |
        && |plain| <= MAX_FILE && 0 < chunk <= MAX_CHUNK
        && SealedOnlyHere(key, plain, chunk, Chunks(|plain|, chunk), cipher)
        && DecryptBytes(key, m, cipher).Ok?
        ensures DecryptBytes(key, m, cipher).value == plain
      {
        RefusesOrExact(key, plain, chunk, m, cipher);
      }
    } else if m.size >= 0 {
      NoChunksGiveZeros(0, m);
      var plain: Bytes := [1];
      assert SealedOnlyHere(0, plain, 1, Chunks(|plain|, 1), []);
      assert Zeros(m.size) != plain by {
        if m.size > 0 { assert Zeros(m.size)[0] == 0; }
      }
      assert DecryptBytes(0, m, []).Ok? && DecryptBytes(0, m, []).value != plain;
    }
  }

  /** What the envelope decoder demands of a manifest. */
  predicate EnvelopeAccepts(m: Manifest) {
    && m.alg == A256GcmChunkedV1 && 0 <= m.size <= MAX_FILE
    && 0 < m.chunk <= MAX_CHUNK && m.chunks == Chunks(m.size, m.chunk)
  }

  lemma AcceptedIsSafe(m: Manifest)
    requires EnvelopeAccepts(m)
    ensures Safe(m) && PlanChunks(m.size, m.chunk) == Ok(m)
  {
    SafeExactly(m);
  }

  // ------------------------------------------------------------------------
  // the loops
  // ------------------------------------------------------------------------

  method Place(buf: array<Cell>, at: nat, part: seq<Cell>)
    requires at + |part| <= buf.Length
    modifies buf
    ensures buf[..at + |part|] == old(buf[..at]) + part
  {
    forall k | 0 <= k < |part| { buf[at + k] := part[k]; }
  }

  /** One buffer of all parts, filled by offset. */
  method Join(key: nat, plain: Bytes, chunk: nat, total: nat, parts: seq<seq<Cell>>) returns (out: seq<Cell>)
    requires forall j: nat :: j < |parts| ==> parts[j] == SealChunk(key, j, total, Piece(plain, chunk, j))
    ensures out == SealUpTo(key, plain, chunk, total, |parts|)
  {
    var buf := new Cell[|SealUpTo(key, plain, chunk, total, |parts|)|](_ => Stray(0));
    var at, j := 0, 0;
    while j < |parts|
      invariant 0 <= j <= |parts|
      invariant at == |SealUpTo(key, plain, chunk, total, j)| && at <= buf.Length
      invariant buf[..at] == SealUpTo(key, plain, chunk, total, j)
    {
      SealedPrefix(key, plain, chunk, total, j + 1, |parts|);
      var part := parts[j];
      Place(buf, at, part);
      at, j := at + |part|, j + 1;
    }
    out := buf[..];
  }

  method Encrypt(key: nat, plain: Bytes, chunk: int) returns (r: Result<(Manifest, seq<Cell>)>)
    ensures r == EncryptBytes(key, plain, chunk)
  {
    var plan := PlanChunks(|plain|, chunk);
    if plan.Refused? {
      return Refused(plan.why);
    }
    var m := plan.value;
    var parts: seq<seq<Cell>> := [];
    var i: nat := 0;
    while i < m.chunks
      invariant 0 <= i <= m.chunks && |parts| == i
      invariant forall j: nat :: j < i ==> parts[j] == SealChunk(key, j, m.chunks, Piece(plain, chunk, j))
    {
      parts, i := parts + [SealChunk(key, i, m.chunks, Piece(plain, chunk, i))], i + 1;
    }
    var out := Join(key, plain, chunk, m.chunks, parts);
    return Ok((m, out));
  }

  /** Writes the next piece behind what is there already. */
  method Fill(out: array<bv8>, ghost done: Bytes, pt: Bytes, at: nat)
    requires at == |done| && at + |pt| <= out.Length && out[..] == done + Zeros(out.Length - |done|)
    modifies out
    ensures out[..] == (done + pt) + Zeros(out.Length - |done + pt|)
  {
    forall k | 0 <= k < |pt| { out[at + k] := pt[k]; }
  }

  method ExpectedLength(m: Manifest) returns (wanted: nat)
    ensures wanted == Expected(m, Max(0, m.chunks))
  {
    wanted := 0;
    var i := 0;
    while i < m.chunks
      invariant 0 <= i <= Max(0, m.chunks)
      invariant wanted == Expected(m, i)
    {
      wanted, i := wanted + ChunkCipherLen(m, i), i + 1;
    }
  }

  method Decrypt(key: nat, m: Manifest, cipher: seq<Cell>) returns (r: Result<Bytes>)
    ensures r == DecryptBytes(key, m, cipher)
  {
    if m.alg != A256GcmChunkedV1 {
      return Refused(UnknownAlg);
    }
    var wanted := ExpectedLength(m);
    if |cipher| != wanted {
      return Refused(WrongLength);
    }
    if m.size < 0 {
      return Refused(BadSize);
    }
    r := OpenAll(key, m, cipher, Max(0, m.chunks));
  }

  method Blank(n: nat) returns (out: array<bv8>)
    ensures fresh(out) && out.Length == n && out[..] == Zeros(n)
  {
    out := new bv8[n](_ => 0);
  }

  method OpenAll(key: nat, m: Manifest, cipher: seq<Cell>, n: nat) returns (r: Result<Bytes>)
    requires (n == 0 || n == m.chunks) && Expected(m, n) == |cipher| && m.size >= 0
    ensures r == FillBuffer(key, m, cipher, n)
  {
    hide ChunkCipherLen, OpenChunk, Zeros;
    var out := Blank(m.size);
    ghost var done: Bytes := [];
    assert out[..] == done + Zeros(m.size - |done|);
    var i, ctAt, ptAt := 0, 0, 0;
    while i < n
      invariant 0 <= i <= n && ctAt == Expected(m, i) <= |cipher|
      invariant OpenUpTo(key, m, cipher, i) == Ok(done)
      invariant ptAt == |done| <= m.size
      invariant out[..] == done + Zeros(m.size - |done|)
    {
      ExpectedGrows(m, i + 1, n);
      var len := ChunkCipherLen(m, i);
      var pt := OpenChunk(key, i, m.chunks, cipher[ctAt..ctAt + len]);
      if pt.None? {
        StopsAt(key, m, cipher, i + 1, n);
        return Refused(DoesNotOpen(i));
      }
      if ptAt + |pt.value| > m.size {
        StopsAt(key, m, cipher, i + 1, n);
        return Refused(DoesNotFit(i));
      }
      Fill(out, done, pt.value, ptAt);
      done := done + pt.value;
      ctAt, ptAt, i := ctAt + len, ptAt + |pt.value|, i + 1;
    }
    return Ok(out[..]);
  }

  /** The first refusal is the whole answer. */
  lemma {:induction false} StopsAt(key: nat, m: Manifest, cipher: seq<Cell>, i: nat, n: nat)
    requires 0 < i <= n <= m.chunks && Expected(m, i) <= Expected(m, n) <= |cipher|
    requires OpenUpTo(key, m, cipher, i).Refused?
    ensures OpenUpTo(key, m, cipher, n) == OpenUpTo(key, m, cipher, i)
  {
    if i < n {
      ExpectedGrows(m, i, n - 1);
      StopsAt(key, m, cipher, i, n - 1);
    }
  }
}
