/**
 The encrypted backup container: a magic string, a length-prefixed header, and chunks that are each
 length-prefixed and sealed under a nonce and associated data that bind the chunk's position.

 The cipher is any authenticated encryption with associated data in the sense of section 2 of
 RFC 5116; only its inverse law and its fixed expansion are used.
 */
module Container {
  import opened Basics

  type byte = x: int | 0 <= x < 256

  type Bytes = seq<byte>

  const MAGIC: Bytes := [72, 79, 83, 84, 80, 73, 78, 45, 66, 65, 67, 75, 85, 80, 0]
  const CHUNK: nat := 0x10_0000
  const MAX_HEADER: nat := 0x1_0000

  datatype Header = Header(
    format: string, version: int, kdf: string, memoryKiB: nat, iterations: nat, parallelism: nat,
    salt: string, noncePrefix: string, chunkSize: nat)

  /** The primitives the container is built from. */
  datatype Crypto = Crypto(
    encodeHeader: Header -> Bytes,
    decodeHeader: Bytes -> Option<Header>,
    encodeText: Bytes -> string,
    decodeText: string -> Option<Bytes>,
    hash: Bytes -> Bytes,
    deriveKey: (Bytes, Bytes, nat, nat, nat) -> Bytes,
    seal: (Bytes, Bytes, Bytes, Bytes) -> Bytes,
    open: (Bytes, Bytes, Bytes, Bytes) -> Option<Bytes>,
    overhead: nat)

  /** Decoders invert encoders, opening inverts sealing, and sealing adds exactly the overhead. */
  ghost predicate Lawful(c: Crypto) {
    && (forall h :: c.decodeHeader(c.encodeHeader(h)) == Some(h))
    && (forall b :: c.decodeText(c.encodeText(b)) == Some(b))
    && (forall k, n, p, a :: |c.seal(k, n, p, a)| == |p| + c.overhead)
    && (forall k, n, p, a :: c.open(k, n, c.seal(k, n, p, a), a) == Some(p))
    && FixedExpansion(c)
  }

  /** Whatever opens is shorter than its ciphertext by exactly the overhead. */
  ghost predicate FixedExpansion(c: Crypto) {
    forall k, n, x, a :: c.open(k, n, x, a).Some? ==> |x| == |c.open(k, n, x, a).value| + c.overhead
  }

  // ----- big-endian integers

  function Pow256(width: nat): (r: nat)
    ensures r > 0
  {
    if width == 0 then 1 else 256 * Pow256(width - 1)
  }

  /** The low `width` bytes of `n`, most significant first. */
  function BigEndian(n: nat, width: nat): (s: Bytes)
    ensures |s| == width
    decreases width
  {
    if width == 0 then [] else BigEndian(n / 256, width - 1) + [n % 256]
  }

  function FromBigEndian(s: Bytes): nat {
    if s == [] then 0 else FromBigEndian(s[..|s| - 1]) * 256 + s[|s| - 1]
  }

  lemma {:induction false} BigEndianRoundTrip(n: nat, width: nat)
    requires n < Pow256(width)
    ensures FromBigEndian(BigEndian(n, width)) == n
    decreases width
  {
    if width > 0 {
      BigEndianRoundTrip(n / 256, width - 1);
      assert BigEndian(n, width)[..width - 1] == BigEndian(n / 256, width - 1);
    }
  }

  lemma {:induction false} Uint32RoundTrip(n: nat)
    requires n < 0x1_0000_0000
    ensures FromBigEndian(BigEndian(n, 4)) == n
  {
    assert Pow256(4) == 256 * Pow256(3) == 0x1_0000 * Pow256(2) == 0x100_0000 * Pow256(1) == 0x1_0000_0000;
    BigEndianRoundTrip(n, 4);
  }

  function Nonce(prefix: Bytes, counter: nat): Bytes { prefix + BigEndian(counter, 8) }

  function AssociatedData(headerHash: Bytes, counter: nat, length: nat): Bytes {
    headerHash + BigEndian(counter, 8) + BigEndian(length, 4)
  }

  lemma NonceInjective(prefix: Bytes, i: nat, j: nat)
    requires i < 0x1_0000_0000_0000_0000 && j < 0x1_0000_0000_0000_0000
    requires Nonce(prefix, i) == Nonce(prefix, j)
    ensures i == j
  {
    assert Pow256(8) == 0x1_0000 * Pow256(6) == 0x1_0000_0000 * Pow256(4) == 0x1_0000_0000_0000 * Pow256(2)
        == 0x1_0000_0000_0000_0000;
    BigEndianRoundTrip(i, 8);
    BigEndianRoundTrip(j, 8);
    assert Nonce(prefix, i)[|prefix|..] == BigEndian(i, 8);
    assert Nonce(prefix, j)[|prefix|..] == BigEndian(j, 8);
  }

  // ----- writing a container

  function NewHeader(c: Crypto, salt: Bytes, prefix: Bytes, cpus: nat): Header {
    Header("hostpin-encrypted-backup", 1, "argon2id", 64 * 1024, 3, Min(cpus, 2),
           c.encodeText(salt), c.encodeText(prefix), CHUNK)
  }

  /** Key, nonce prefix and header hash, which stay the same for all chunks of a container. */
  datatype Session = Session(key: Bytes, prefix: Bytes, headerHash: Bytes)

  function SealedChunk(c: Crypto, s: Session, plain: Bytes, counter: nat): Bytes {
    c.seal(s.key, Nonce(s.prefix, counter), plain, AssociatedData(s.headerHash, counter, |plain|))
  }

  function Chunks(c: Crypto, s: Session, payload: Bytes, counter: nat): Bytes
    decreases |payload|
  {
    if payload == [] then BigEndian(0, 4)
    else
      var count := Min(CHUNK, |payload|);
      BigEndian(count, 4) + SealedChunk(c, s, payload[..count], counter) + Chunks(c, s, payload[count..], counter + 1)
  }

  /** The stream from a position on is one sealed chunk followed by the stream from the next position. */
  lemma {:induction false} ChunksStep(c: Crypto, s: Session, payload: Bytes, position: nat, count: nat, counter: nat)
    requires position < |payload| && count == Min(CHUNK, |payload| - position)
    ensures Chunks(c, s, payload[position..], counter)
         == BigEndian(count, 4) + SealedChunk(c, s, payload[position..position + count], counter)
            + Chunks(c, s, payload[position + count..], counter + 1)
  {
    hide BigEndian, SealedChunk;
    assert payload[position..][..count] == payload[position..position + count];
    assert payload[position..][count..] == payload[position + count..];
  }

  function Preamble(headerBytes: Bytes): Bytes { MAGIC + BigEndian(|headerBytes|, 4) + headerBytes }

  predicate PassphraseOk(passphrase: Bytes) { 12 <= |passphrase| <= 1024 }

  function Encrypted(c: Crypto, passphrase: Bytes, salt: Bytes, prefix: Bytes, cpus: nat, payload: Bytes): Bytes {
    var header := NewHeader(c, salt, prefix, cpus);
    var headerBytes := c.encodeHeader(header);
    var key := c.deriveKey(passphrase, salt, header.memoryKiB, header.iterations, header.parallelism);
    Preamble(headerBytes) + Chunks(c, Session(key, prefix, c.hash(headerBytes)), payload, 0)
  }

  /** The chunking loop over a payload that is read buffer by buffer. */
  method EncryptContainer(c: Crypto, passphrase: Bytes, salt: Bytes, prefix: Bytes, cpus: nat, payload: Bytes)
    returns (ok: bool, destination: Bytes)
    ensures ok == PassphraseOk(passphrase)
    ensures destination == if ok then Encrypted(c, passphrase, salt, prefix, cpus, payload) else []
  {
    hide BigEndian, SealedChunk;
    if |passphrase| < 12 || |passphrase| > 1024 {
      return false, [];
    }
    var header := NewHeader(c, salt, prefix, cpus);
    var headerBytes := c.encodeHeader(header);
    destination := MAGIC;
    destination := destination + BigEndian(|headerBytes|, 4);
    destination := destination + headerBytes;
    var key := c.deriveKey(passphrase, salt, header.memoryKiB, header.iterations, header.parallelism);
    var s := Session(key, prefix, c.hash(headerBytes));
    var counter, position := 0, 0;
    ghost var whole := Encrypted(c, passphrase, salt, prefix, cpus, payload);
    assert payload[0..] == payload;
    while true
      invariant 0 <= position <= |payload|
      invariant whole == destination + Chunks(c, s, payload[position..], counter)
      decreases |payload| - position
    {
      var count := Min(CHUNK, |payload| - position);
      if count == 0 {
        break;
      }
      var buffer := payload[position..position + count];
      ChunksStep(c, s, payload, position, count, counter);
      destination := destination + BigEndian(count, 4);
      destination := destination + SealedChunk(c, s, buffer, counter);
      counter, position := counter + 1, position + count;
      if count < CHUNK {
        break;
      }
    }
    destination := destination + BigEndian(0, 4);
    ok := true;
  }

  // ----- reading a container

  datatype Error = Ok | BadPassphrase | InvalidBackup | TooLarge | InvalidPassphrase

  predicate HeaderAccepted(h: Header) {
    && h.format == "hostpin-encrypted-backup" && h.version == 1 && h.kdf == "argon2id"
    && 8 * 1024 <= h.memoryKiB <= 128 * 1024 && 0 < h.iterations <= 6 && 0 < h.parallelism <= 4
    && 0x1_0000 <= h.chunkSize <= 0x40_0000
  }

  /** The header of an acceptable preamble and the bytes that follow it. */
  datatype Opened = Opened(header: Header, headerBytes: Bytes, salt: Bytes, prefix: Bytes, rest: Bytes)

  function OpenPreamble(c: Crypto, source: Bytes): Option<Opened> {
    if |source| < |MAGIC| || source[..|MAGIC|] != MAGIC then None
    else
      var afterMagic := source[|MAGIC|..];
      if |afterMagic| < 4 then None
      else
        var length := FromBigEndian(afterMagic[..4]);
        if length == 0 || length > MAX_HEADER || |afterMagic| < 4 + length then None
        else
          var headerBytes, rest := afterMagic[4..4 + length], afterMagic[4 + length..];
          var header := c.decodeHeader(headerBytes);
          if header.None? || !HeaderAccepted(header.value) then None
          else
            var salt, prefix := c.decodeText(header.value.salt), c.decodeText(header.value.noncePrefix);
            if salt.None? || |salt.value| != 16 || prefix.None? || |prefix.value| != 4 then None
            else Some(Opened(header.value, headerBytes, salt.value, prefix.value, rest))
  }

  /** What the next length-prefixed chunk turns out to be. */
  datatype ChunkRead = Stop(error: Error) | Next(plain: Bytes, rest: Bytes)

  function ReadChunk(
    c: Crypto, s: Session, chunkSize: nat, rest: Bytes, counter: nat, total: nat, maximum: nat): (r: ChunkRead)
    ensures r.Next? ==> |r.rest| < |rest|
  {
    if |rest| < 4 then Stop(InvalidBackup)
    else
      var plainLength, body := FromBigEndian(rest[..4]), rest[4..];
      if plainLength == 0 then Stop(if body == [] then Ok else InvalidBackup)
      else if plainLength > chunkSize || total + plainLength > maximum then Stop(TooLarge)
      else if |body| < plainLength + c.overhead then Stop(InvalidBackup)
      else
        var plain := c.open(s.key, Nonce(s.prefix, counter), body[..plainLength + c.overhead],
                            AssociatedData(s.headerHash, counter, plainLength));
        if plain.None? then Stop(InvalidPassphrase) else Next(plain.value, body[plainLength + c.overhead..])
  }

  /** The outcome of the chunk loop and what it wrote, from a position in the stream. */
  function DecryptChunks(
    c: Crypto, s: Session, chunkSize: nat, rest: Bytes, counter: nat, total: nat, maximum: nat): (Error, Bytes)
    decreases |rest|
  {
    match ReadChunk(c, s, chunkSize, rest, counter, total, maximum)
    case Stop(error) => (error, [])
    case Next(plain, more) =>
      var (error, written) := DecryptChunks(c, s, chunkSize, more, counter + 1, total + |plain|, maximum);
      (error, plain + written)
  }

  function SessionOf(c: Crypto, passphrase: Bytes, o: Opened): Session {
    Session(c.deriveKey(passphrase, o.salt, o.header.memoryKiB, o.header.iterations, o.header.parallelism),
            o.prefix, c.hash(o.headerBytes))
  }

  function Decrypted(c: Crypto, passphrase: Bytes, source: Bytes, maximum: nat): (Error, Bytes) {
    if !PassphraseOk(passphrase) then (BadPassphrase, [])
    else
      var found := OpenPreamble(c, source);
      if found.None? then (InvalidBackup, [])
      else DecryptChunks(c, SessionOf(c, passphrase, found.value), found.value.header.chunkSize, found.value.rest, 0,
          0, maximum)
  }

  method DecryptContainer(
    c: Crypto, passphrase: Bytes, source: Bytes, maximum: nat) returns (error: Error, destination: Bytes)
    ensures error == Decrypted(c, passphrase, source, maximum).0
    ensures destination == Decrypted(c, passphrase, source, maximum).1
  {
    hide ReadChunk, OpenPreamble;
    destination := [];
    if |passphrase| < 12 || |passphrase| > 1024 {
      return BadPassphrase, [];
    }
    var found := OpenPreamble(c, source);
    if found.None? {
      return InvalidBackup, [];
    }
    var o := found.value;
    var s := SessionOf(c, passphrase, o);
    var rest := o.rest;
    var counter: nat, total: nat := 0, 0;
    ghost var all := Decrypted(c, passphrase, source, maximum);
    while true
      invariant var tail := DecryptChunks(c, s, o.header.chunkSize, rest, counter, total, maximum);
                all.0 == tail.0 && all.1 == destination + tail.1
      decreases |rest|
    {
      var next := ReadOneChunk(c, s, o.header.chunkSize, rest, counter, total, maximum);
      if next.Stop? {
        return next.error, destination;
      }
      destination := destination + next.plain;
      rest, counter, total := next.rest, counter + 1, total + |next.plain|;
    }
  }

  /** One turn of the chunk loop, reading the stream field by field. */
  method ReadOneChunk(c: Crypto, s: Session, chunkSize: nat, stream: Bytes, counter: nat, total: nat, maximum: nat)
    returns (next: ChunkRead)
    ensures next == ReadChunk(c, s, chunkSize, stream, counter, total, maximum)
  {
    hide FromBigEndian, Nonce, AssociatedData;
    if |stream| < 4 {
      return Stop(InvalidBackup);
    }
    var plainLength := FromBigEndian(stream[..4]);
    var rest := stream[4..];
    if plainLength == 0 {
      return Stop(if rest != [] then InvalidBackup else Ok);
    }
    if plainLength > chunkSize || total + plainLength > maximum {
      return Stop(TooLarge);
    }
    if |rest| < plainLength + c.overhead {
      return Stop(InvalidBackup);
    }
    var ciphertext := rest[..plainLength + c.overhead];
    var plain := c.open(s.key, Nonce(s.prefix, counter), ciphertext,
        AssociatedData(s.headerHash, counter, plainLength));
    if plain.None? {
      return Stop(InvalidPassphrase);
    }
    next := Next(plain.value, rest[plainLength + c.overhead..]);
  }

  // ----- round trip

  lemma SealOpens(c: Crypto, key: Bytes, nonce: Bytes, plain: Bytes, data: Bytes)
    requires Lawful(c)
    ensures |c.seal(key, nonce, plain, data)| == |plain| + c.overhead
    ensures c.open(key, nonce, c.seal(key, nonce, plain, data), data) == Some(plain)
  {}

  lemma FrameSplits(length: Bytes, sealed: Bytes, tail: Bytes)
    requires |length| == 4
    ensures var stream := length + sealed + tail;
            && stream[..4] == length && |stream[4..]| >= |sealed|
            && stream[4..][..|sealed|] == sealed && stream[4..][|sealed|..] == tail
  {
    assert (length + sealed + tail)[4..] == sealed + tail;
  }

  lemma {:induction false} SealedChunkReads(
    c: Crypto, s: Session, plain: Bytes, tail: Bytes, counter: nat, total: nat, maximum: nat)
    requires Lawful(c) && 0 < |plain| <= CHUNK && total + |plain| <= maximum
    ensures ReadChunk(c, s, CHUNK, BigEndian(|plain|, 4) + SealedChunk(c, s, plain, counter) + tail, counter, total,
            maximum)
         == Next(plain, tail)
  {
    hide BigEndian, FromBigEndian, Nonce, AssociatedData, Lawful;
    var sealed := SealedChunk(c, s, plain, counter);
    SealOpens(c, s.key, Nonce(s.prefix, counter), plain, AssociatedData(s.headerHash, counter, |plain|));
    Uint32RoundTrip(|plain|);
    FrameSplits(BigEndian(|plain|, 4), sealed, tail);
  }

  lemma TerminatorReads(c: Crypto, s: Session, counter: nat, total: nat, maximum: nat)
    ensures ReadChunk(c, s, CHUNK, BigEndian(0, 4), counter, total, maximum) == Stop(Ok)
  {
    Uint32RoundTrip(0);
    assert BigEndian(0, 4)[..4] == BigEndian(0, 4);
  }

  lemma {:induction false} ChunksRoundTrip(
    c: Crypto, s: Session, payload: Bytes, counter: nat, total: nat, maximum: nat)
    requires Lawful(c) && total + |payload| <= maximum
    ensures DecryptChunks(c, s, CHUNK, Chunks(c, s, payload, counter), counter, total, maximum) == (Ok, payload)
    decreases |payload|
  {
    hide ReadChunk, BigEndian, SealedChunk, Lawful;
    if payload == [] {
      TerminatorReads(c, s, counter, total, maximum);
    } else {
      var count := Min(CHUNK, |payload|);
      SealedChunkReads(c, s, payload[..count], Chunks(c, s, payload[count..], counter + 1), counter, total, maximum);
      ChunksRoundTrip(c, s, payload[count..], counter + 1, total + count, maximum);
      assert payload[..count] + payload[count..] == payload;
    }
  }

  lemma PreambleOpens(c: Crypto, salt: Bytes, prefix: Bytes, cpus: nat, rest: Bytes)
    requires Lawful(c) && |salt| == 16 && |prefix| == 4 && cpus > 0
    requires 0 < |c.encodeHeader(NewHeader(c, salt, prefix, cpus))| <= MAX_HEADER
    ensures var header := NewHeader(c, salt, prefix, cpus);
            var headerBytes := c.encodeHeader(header);
            OpenPreamble(c, Preamble(headerBytes) + rest) == Some(Opened(header, headerBytes, salt, prefix, rest))
  {
    var headerBytes := c.encodeHeader(NewHeader(c, salt, prefix, cpus));
    var source := Preamble(headerBytes) + rest;
    Uint32RoundTrip(|headerBytes|);
    assert source[..|MAGIC|] == MAGIC;
    var afterMagic := source[|MAGIC|..];
    assert afterMagic == BigEndian(|headerBytes|, 4) + headerBytes + rest;
    assert afterMagic[..4] == BigEndian(|headerBytes|, 4);
    assert afterMagic[4..4 + |headerBytes|] == headerBytes;
    assert afterMagic[4 + |headerBytes|..] == rest;
  }

  /** Reading back what was written with the same passphrase yields exactly the payload. */
  lemma ContainerRoundTrip(
    c: Crypto, passphrase: Bytes, salt: Bytes, prefix: Bytes, cpus: nat, payload: Bytes, maximum: nat)
    requires Lawful(c) && PassphraseOk(passphrase) && |salt| == 16 && |prefix| == 4 && cpus > 0
    requires 0 < |c.encodeHeader(NewHeader(c, salt, prefix, cpus))| <= MAX_HEADER
    requires |payload| <= maximum
    ensures Decrypted(c, passphrase, Encrypted(c, passphrase, salt, prefix, cpus, payload), maximum) == (Ok, payload)
  {
    hide Chunks, DecryptChunks, OpenPreamble, Preamble, Lawful;
    var header := NewHeader(c, salt, prefix, cpus);
    var headerBytes := c.encodeHeader(header);
    var s := SessionOf(c, passphrase, Opened(header, headerBytes, salt, prefix, []));
    PreambleOpens(c, salt, prefix, cpus, Chunks(c, s, payload, 0));
    ChunksRoundTrip(c, s, payload, 0, 0, maximum);
  }

  // ----- no accepted container is a prefix of another

  /**
   If a chunk reads in one stream, then in an extension of it the same bytes read as a chunk, or
   reading stops in error.
   */
  lemma ReadChunkInExtension(
    c: Crypto, s: Session, t: Session, chunkSize: nat, x: Bytes, y: Bytes,
    i: nat, j: nat, totalX: nat, totalY: nat, maxX: nat, maxY: nat)
    ensures var a, b := ReadChunk(c, s, chunkSize, x, i, totalX, maxX),
            ReadChunk(c, t, chunkSize, x + y, j, totalY, maxY);
            && (a.Next? && b.Next? ==> b.rest == a.rest + y)
            && (a == Stop(Ok) ==> b.Stop? && (b == Stop(Ok) ==> y == []))
            && (a.Next? && b.Stop? ==> b != Stop(Ok))
  {
    hide FromBigEndian, Nonce, AssociatedData;
    if |x| >= 4 {
      assert (x + y)[..4] == x[..4] && (x + y)[4..] == x[4..] + y;
      var body, size := x[4..], FromBigEndian(x[..4]) + c.overhead;
      if size <= |body| {
        assert (body + y)[size..] == body[size..] + y;
      }
    }
  }

  lemma {:induction false} AcceptedChunksEndTheStream(
    c: Crypto, s: Session, t: Session, chunkSize: nat, x: Bytes, y: Bytes,
    i: nat, j: nat, totalX: nat, totalY: nat, maxX: nat, maxY: nat)
    requires DecryptChunks(c, s, chunkSize, x, i, totalX, maxX).0 == Ok
    requires DecryptChunks(c, t, chunkSize, x + y, j, totalY, maxY).0 == Ok
    ensures y == []
    decreases |x|
  {
    hide ReadChunk;
    ReadChunkInExtension(c, s, t, chunkSize, x, y, i, j, totalX, totalY, maxX, maxY);
    var a, b := ReadChunk(c, s, chunkSize, x, i, totalX, maxX), ReadChunk(c, t, chunkSize, x + y, j, totalY, maxY);
    if a.Next? {
      AcceptedChunksEndTheStream(c, s, t, chunkSize, a.rest, y, i + 1, j + 1, totalX + |a.plain|, totalY + |b.plain|,
          maxX, maxY);
    }
  }

  /**
   No proper extension of an accepted container is accepted, under any passphrases and limits; so the
   accepted byte strings are prefix-free.
   */
  lemma AcceptedContainersPrefixFree(c: Crypto, p: Bytes, q: Bytes, x: Bytes, y: Bytes, maxX: nat, maxY: nat)
    requires Decrypted(c, p, x, maxX).0 == Ok && Decrypted(c, q, x + y, maxY).0 == Ok
    ensures y == []
  {
    hide DecryptChunks;
    PreambleDependsOnPrefix(c, x, y);
    var o := OpenPreamble(c, x).value;
    AcceptedChunksEndTheStream(c, SessionOf(c, p, o), SessionOf(c, q, o), o.header.chunkSize, o.rest, y, 0, 0, 0, 0,
        maxX, maxY);
  }

  lemma PreambleDependsOnPrefix(c: Crypto, x: Bytes, y: Bytes)
    requires OpenPreamble(c, x).Some?
    ensures var o := OpenPreamble(c, x).value;
            OpenPreamble(c, x + y) == Some(o.(rest := o.rest + y))
  {
    var after := x[|MAGIC|..];
    var length := FromBigEndian(after[..4]);
    assert (x + y)[..|MAGIC|] == x[..|MAGIC|] && (x + y)[|MAGIC|..] == after + y;
    assert (after + y)[..4] == after[..4];
    assert (after + y)[4..4 + length] == after[4..4 + length];
    assert (after + y)[4 + length..] == after[4 + length..] + y;
  }

  // ----- bounds

  /** Whatever happens, no more than the limit is ever written. */
  lemma {:induction false} ChunksStayWithinLimit(
    c: Crypto, s: Session, chunkSize: nat, rest: Bytes, counter: nat, total: nat, maximum: nat)
    requires FixedExpansion(c) && total <= maximum
    ensures total + |DecryptChunks(c, s, chunkSize, rest, counter, total, maximum).1| <= maximum
    decreases |rest|
  {
    hide ReadChunk, FixedExpansion;
    ReadChunkFits(c, s, chunkSize, rest, counter, total, maximum);
    var next := ReadChunk(c, s, chunkSize, rest, counter, total, maximum);
    if next.Next? {
      ChunksStayWithinLimit(c, s, chunkSize, next.rest, counter + 1, total + |next.plain|, maximum);
    }
  }

  lemma ReadChunkFits(c: Crypto, s: Session, chunkSize: nat, rest: Bytes, counter: nat, total: nat, maximum: nat)
    requires FixedExpansion(c)
    ensures var next := ReadChunk(c, s, chunkSize, rest, counter, total, maximum);
            next.Next? ==> 0 < |next.plain| <= chunkSize && total + |next.plain| <= maximum
  {
    hide FromBigEndian, Nonce, AssociatedData;
    if |rest| >= 4 {
      var n, body := FromBigEndian(rest[..4]), rest[4..];
      if 0 < n && n + c.overhead <= |body| {
        var sealed := body[..n + c.overhead];
        var plain := c.open(s.key, Nonce(s.prefix, counter), sealed, AssociatedData(s.headerHash, counter, n));
        assert plain.Some? ==> |sealed| == |plain.value| + c.overhead;
      }
    }
  }

  lemma OutputWithinLimit(c: Crypto, passphrase: Bytes, source: Bytes, maximum: nat)
    requires FixedExpansion(c)
    ensures |Decrypted(c, passphrase, source, maximum).1| <= maximum
  {
    hide DecryptChunks, FixedExpansion;
    if PassphraseOk(passphrase) && OpenPreamble(c, source).Some? {
      var o := OpenPreamble(c, source).value;
      ChunksStayWithinLimit(c, SessionOf(c, passphrase, o), o.header.chunkSize, o.rest, 0, 0, maximum);
    }
  }

  // ----- nonces

  /** The nonces under which the chunks of a payload are sealed, in order. */
  function SealNonces(prefix: Bytes, payload: Bytes, counter: nat): seq<Bytes>
    decreases |payload|
  {
    if payload == [] then []
    else [Nonce(prefix, counter)] + SealNonces(prefix, payload[Min(CHUNK, |payload|)..], counter + 1)
  }

  /** The chunk stream when the nonces are taken from a list. */
  function ChunksUnder(c: Crypto, s: Session, payload: Bytes, counter: nat, nonces: seq<Bytes>): Bytes
    decreases |payload|
  {
    if payload == [] || nonces == [] then BigEndian(0, 4)
    else
      var count := Min(CHUNK, |payload|);
      BigEndian(count, 4) + c.seal(s.key, nonces[0], payload[..count], AssociatedData(s.headerHash, counter, count))
      + ChunksUnder(c, s, payload[count..], counter + 1, nonces[1..])
  }

  /** The listed nonces are the ones that the container's chunks are sealed under. */
  lemma {:induction false} ChunksUseSealNonces(c: Crypto, s: Session, payload: Bytes, counter: nat)
    ensures Chunks(c, s, payload, counter)
            == ChunksUnder(c, s, payload, counter, SealNonces(s.prefix, payload, counter))
    decreases |payload|
  {
    hide BigEndian, Nonce, AssociatedData;
    if payload != [] {
      var rest := payload[Min(CHUNK, |payload|)..];
      ChunksUseSealNonces(c, s, rest, counter + 1);
      var nonces := SealNonces(s.prefix, payload, counter);
      assert nonces[1..] == SealNonces(s.prefix, rest, counter + 1);
    }
  }

  lemma {:induction false} SealNonceAt(prefix: Bytes, payload: Bytes, counter: nat)
    ensures |SealNonces(prefix, payload, counter)| <= |payload|
    ensures forall i :: 0 <= i < |SealNonces(prefix, payload, counter)| ==>
              SealNonces(prefix, payload, counter)[i] == Nonce(prefix, counter + i)
    decreases |payload|
  {
    hide Nonce;
    if payload != [] {
      var rest := payload[Min(CHUNK, |payload|)..];
      SealNonceAt(prefix, rest, counter + 1);
      var nonces, tail := SealNonces(prefix, payload, counter), SealNonces(prefix, rest, counter + 1);
      forall i | 0 <= i < |nonces| ensures nonces[i] == Nonce(prefix, counter + i) {
        if i > 0 {
          assert nonces[i] == tail[i - 1];
          assert tail[i - 1] == Nonce(prefix, counter + 1 + (i - 1));
        }
      }
    }
  }

  /** No nonce is used twice in one container. */
  lemma {:induction false} NoncesPairwiseDistinct(prefix: Bytes, payload: Bytes, i: nat, j: nat)
    requires |payload| <= MAX_I64
    requires i < j < |SealNonces(prefix, payload, 0)|
    ensures SealNonces(prefix, payload, 0)[i] != SealNonces(prefix, payload, 0)[j]
  {
    hide Nonce;
    SealNonceAt(prefix, payload, 0);
    assert SealNonces(prefix, payload, 0)[i] == Nonce(prefix, 0 + i);
    assert SealNonces(prefix, payload, 0)[j] == Nonce(prefix, 0 + j);
    if Nonce(prefix, i) == Nonce(prefix, j) {
      NonceInjective(prefix, i, j);
    }
  }

  // ----- what binds a chunk to its place

  /** The associated data tells header, position and length of a chunk apart. */
  lemma AssociatedDataInjective(h: Bytes, g: Bytes, i: nat, j: nat, l: nat, m: nat)
    requires |h| == |g| && i < 0x1_0000_0000_0000_0000 && j < 0x1_0000_0000_0000_0000
    requires l < 0x1_0000_0000 && m < 0x1_0000_0000
    requires AssociatedData(h, i, l) == AssociatedData(g, j, m)
    ensures h == g && i == j && l == m
  {
    hide BigEndian;
    var a, b, n := AssociatedData(h, i, l), AssociatedData(g, j, m), |h|;
    assert a[..n] == h && b[..n] == g;
    assert a[n..n + 8] == BigEndian(i, 8) && b[n..n + 8] == BigEndian(j, 8);
    assert a[n + 8..] == BigEndian(l, 4) && b[n + 8..] == BigEndian(m, 4);
    Uint32RoundTrip(l);
    Uint32RoundTrip(m);
    assert Nonce([], i) == [] + BigEndian(i, 8) == BigEndian(i, 8)
        && Nonce([], j) == [] + BigEndian(j, 8) == BigEndian(j, 8);
    NonceInjective([], i, j);
  }

  /** A nonce is the container's prefix and the 8 bytes of the chunk's number. */
  lemma NonceHasPrefix(prefix: Bytes, counter: nat)
    ensures |Nonce(prefix, counter)| == |prefix| + 8 && Nonce(prefix, counter)[..|prefix|] == prefix
  {}

  /** A number's bytes come most significant first. */
  lemma {:induction false} Uint32Bytes(a: byte, b: byte, c: byte, d: byte)
    ensures BigEndian(0x100_0000 * a + 0x1_0000 * b + 0x100 * c + d, 4) == [a, b, c, d]
  {
    var n := 0x100_0000 * a + 0x1_0000 * b + 0x100 * c + d;
    assert n / 256 == 0x1_0000 * a + 0x100 * b + c && n % 256 == d;
    assert n / 256 / 256 == 0x100 * a + b && n / 256 % 256 == c;
    assert n / 256 / 256 / 256 == a && n / 256 / 256 % 256 == b;
    assert BigEndian(a, 1) == BigEndian(0, 0) + [a];
  }

  /** Both directions refuse a passphrase exactly if it has fewer than 12 or more than 1024 bytes. */
  lemma PassphraseRefusedExactlyWhen(c: Crypto, passphrase: Bytes, source: Bytes, maximum: nat)
    ensures !PassphraseOk(passphrase) <==> |passphrase| < 12 || |passphrase| > 1024
    ensures !PassphraseOk(passphrase) ==> Decrypted(c, passphrase, source, maximum) == (BadPassphrase, [])
  {}

  /** A container that is read at all starts with the magic string and carries a header within the limits. */
  lemma ReadHeaderIsWithinLimits(c: Crypto, passphrase: Bytes, source: Bytes, maximum: nat)
    requires PassphraseOk(passphrase) && Decrypted(c, passphrase, source, maximum).0 != InvalidBackup
    ensures |source| > |MAGIC| + 4 && source[..|MAGIC|] == MAGIC
    ensures OpenPreamble(c, source).Some? && var o := OpenPreamble(c, source).value;
            && 0 < |o.headerBytes| <= 65536 && c.decodeHeader(o.headerBytes) == Some(o.header)
            && source == MAGIC + source[|MAGIC|..|MAGIC| + 4] + o.headerBytes + o.rest
            && FromBigEndian(source[|MAGIC|..|MAGIC| + 4]) == |o.headerBytes|
            && o.header.format == "hostpin-encrypted-backup" && o.header.version == 1 && o.header.kdf == "argon2id"
            && 8192 <= o.header.memoryKiB <= 131072 && 1 <= o.header.iterations <= 6 && 1 <= o.header.parallelism <= 4
            && 65536 <= o.header.chunkSize <= 4194304 && |o.salt| == 16 && |o.prefix| == 4
  {
    hide FromBigEndian, DecryptChunks;
    var after := source[|MAGIC|..];
    assert after[..4] == source[|MAGIC|..|MAGIC| + 4];
  }

  /**
   One chunk reads exactly if it is announced within chunk size and limit, is complete and opens; else
   the error tells which failed.
   */
  lemma ChunkReadsExactlyWhen(
    c: Crypto, s: Session, chunkSize: nat, rest: Bytes, counter: nat, total: nat, maximum: nat)
    requires |rest| >= 4
    ensures var n, r := FromBigEndian(rest[..4]), ReadChunk(c, s, chunkSize, rest, counter, total, maximum);
            && (r == Stop(Ok) <==> n == 0 && |rest| == 4)
            && (r == Stop(TooLarge) <==> n > 0 && (chunkSize < n || maximum < total + n))
            && (r == Stop(InvalidBackup) <==>
                  (n == 0 && |rest| > 4) || (0 < n <= chunkSize && total + n <= maximum && |rest| - 4 < n + c.overhead))
            && (r.Next? ==> 0 < n <= chunkSize && total + n <= maximum
                            && rest == rest[..4] + rest[4..4 + n + c.overhead] + r.rest)
  {
    hide FromBigEndian, Nonce, AssociatedData;
    var n := FromBigEndian(rest[..4]);
    if n + c.overhead <= |rest| - 4 {
      assert rest[4..][..n + c.overhead] == rest[4..4 + n + c.overhead];
      assert rest[4..][n + c.overhead..] == rest[4 + n + c.overhead..];
    }
  }

  /** What a new container is written with: chunks of one MiB, and a key derived in three passes over 64 MiB. */
  lemma NewContainerParameters(c: Crypto, salt: Bytes, prefix: Bytes, cpus: nat)
    ensures CHUNK == 1024 * 1024 && MAX_HEADER == 64 * 1024 && |MAGIC| == 15
    ensures var h := NewHeader(c, salt, prefix, cpus);
            && h.memoryKiB == 65536 && h.iterations == 3 && h.parallelism <= 2 && h.chunkSize == 1048576
            && (cpus >= 2 ==> h.parallelism == 2) && (cpus == 1 ==> h.parallelism == 1)
  {}

  /** What was read before an error has been written all the same. */
  lemma {:induction false} ReadChunksAreWritten(
    c: Crypto, s: Session, chunkSize: nat, rest: Bytes, counter: nat, total: nat, maximum: nat)
    requires ReadChunk(c, s, chunkSize, rest, counter, total, maximum).Next?
    ensures ReadChunk(c, s, chunkSize, rest, counter, total, maximum).plain
         <= DecryptChunks(c, s, chunkSize, rest, counter, total, maximum).1
  {
    hide ReadChunk;
  }

}
