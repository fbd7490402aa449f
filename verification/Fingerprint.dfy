/** The byte stream that the payload fingerprint hashes, and a decoder for it: internal/modules/payload.go. */
module Fingerprint {
  import opened Wrappers
  import opened Strings

  type Byte = x: int | 0 <= x < 256
  type Bytes = seq<Byte>

  datatype PayloadFile = PayloadFile(path: Bytes, mode: int, data: Bytes)

  datatype Identity = Identity(moduleId: Bytes, version: Bytes, digest: Bytes, files: seq<PayloadFile>)

  const U64_LIMIT := 0x1_0000_0000_0000_0000

  // ---------------------------------------------------------------- the parts of the stream

  function Power256(k: nat): (p: nat)
    ensures p > 0
  {
    if k == 0 then 1 else 256 * Power256(k - 1)
  }

  function BigEndian(n: nat, k: nat): (b: Bytes)
    ensures |b| == k
  {
    if k == 0 then [] else BigEndian(n / 256, k - 1) + [n % 256]
  }

  function FromBigEndian(b: Bytes): nat {
    if b == [] then 0 else 256 * FromBigEndian(b[..|b| - 1]) + b[|b| - 1]
  }

  lemma {:induction false} BigEndianRoundTrip(n: nat, k: nat)
    requires n < Power256(k)
    ensures FromBigEndian(BigEndian(n, k)) == n
  {
    if k > 0 {
      BigEndianRoundTrip(n / 256, k - 1);
      assert BigEndian(n, k)[..k - 1] == BigEndian(n / 256, k - 1);
    }
  }

  /** binary.BigEndian.PutUint64 */
  function PutUint64(n: nat): (b: Bytes)
    ensures |b| == 8
  {
    BigEndian(if n < U64_LIMIT then n else n % U64_LIMIT, 8)
  }

  lemma EightBytes()
    ensures Power256(8) == U64_LIMIT
  {
    assert Power256(2) == 0x1_0000;
    assert Power256(4) == 0x1_0000_0000;
    assert Power256(6) == 0x1_0000_0000_0000;
  }

  lemma Uint64RoundTrip(n: nat)
    requires n < U64_LIMIT
    ensures FromBigEndian(PutUint64(n)) == n
  {
    EightBytes();
    BigEndianRoundTrip(n, 8);
  }

  /** writeBytes: the length, then the data. */
  function Chunk(data: Bytes): Bytes {
    PutUint64(|data|) + data
  }

  function Lower(b: Byte): Byte {
    if 65 <= b <= 90 then b + 32 else b
  }

  /** strings.ToLower on ASCII text */
  function ToLower(s: Bytes): (r: Bytes)
    ensures |r| == |s|
  {
    seq(|s|, i requires 0 <= i < |s| => Lower(s[i]))
  }

  const MINUS: Byte := 45

  /** strconv.FormatInt in base 10 */
  function FormatInt(n: int): (r: Bytes)
    ensures r != []
  {
    if n < 0 then [MINUS] + Numeral(-n) else Numeral(n)
  }

  function Numeral(n: nat): (r: Bytes)
    ensures r != [] && forall d <- r :: 48 <= d < 58
  {
    var ds := Digits(n);
    var r := seq(|ds|, i requires 0 <= i < |ds| => assert ds[i] in ds; 48 + ds[i]);
    assert forall i :: 0 <= i < |r| ==> ds[i] in ds && r[i] == 48 + ds[i];
    r
  }

  function ParseNumeral(s: Bytes): nat {
    Value(seq(|s|, i requires 0 <= i < |s| => if s[i] >= 48 then s[i] - 48 else 0))
  }

  function ParseInt(s: Bytes): int {
    if s != [] && s[0] == MINUS then 0 - ParseNumeral(s[1..]) else ParseNumeral(s)
  }

  lemma NumeralRoundTrip(n: nat)
    ensures ParseNumeral(Numeral(n)) == n
  {
    var s, ds := Numeral(n), Digits(n);
    assert forall i :: 0 <= i < |ds| ==> ds[i] in ds;
    assert seq(|s|, i requires 0 <= i < |s| => if s[i] >= 48 then s[i] - 48 else 0) == ds;
    ValueOfDigits(n);
  }

  lemma IntRoundTrip(n: int)
    ensures ParseInt(FormatInt(n)) == n
  {
    if n < 0 {
      NumeralRoundTrip(-n);
      assert FormatInt(n)[1..] == Numeral(-n);
    } else {
      NumeralRoundTrip(n);
      assert Numeral(n)[0] in Numeral(n);
    }
  }

  // ---------------------------------------------------------------- the stream

  function FileBytes(file: PayloadFile): Bytes {
    Chunk(file.path) + Chunk(FormatInt(file.mode)) + Chunk(file.data)
  }

  function FilesBytes(files: seq<PayloadFile>): Bytes {
    if files == [] then [] else FileBytes(files[0]) + FilesBytes(files[1..])
  }

  function Stream(p: Identity): Bytes {
    Chunk(p.moduleId) + Chunk(p.version) + Chunk(ToLower(p.digest)) + PutUint64(|p.files|) + FilesBytes(p.files)
  }

  // ---------------------------------------------------------------- the decoder

  function TakeChunk(s: Bytes): (r: Option<(Bytes, Bytes)>)
    ensures r.Some? ==> |r.value.1| + 8 <= |s|
  {
    if |s| < 8 then None
    else
      var n := FromBigEndian(s[..8]);
      if |s| < 8 + n then None else Some((s[8..8 + n], s[8 + n..]))
  }

  function TakeFile(s: Bytes): (r: Option<(PayloadFile, Bytes)>)
    ensures r.Some? ==> |r.value.1| < |s|
  {
    var path := TakeChunk(s);
    if path.None? then None
    else
      var mode := TakeChunk(path.value.1);
      if mode.None? then None
      else
        var data := TakeChunk(mode.value.1);
        if data.None? then None
        else Some((PayloadFile(path.value.0, ParseInt(mode.value.0), data.value.0), data.value.1))
  }

  function TakeFiles(s: Bytes): Option<seq<PayloadFile>>
    decreases |s|
  {
    if s == [] then Some([])
    else
      var file := TakeFile(s);
      if file.None? then None
      else
        var rest := TakeFiles(file.value.1);
        if rest.None? then None else Some([file.value.0] + rest.value)
  }

  function Decode(s: Bytes): Option<Identity> {
    var moduleId := TakeChunk(s);
    if moduleId.None? then None
    else
      var version := TakeChunk(moduleId.value.1);
      if version.None? then None
      else
        var digest := TakeChunk(version.value.1);
        if digest.None? || |digest.value.1| < 8 then None
        else
          var files := TakeFiles(digest.value.1[8..]);
          if files.None? || |files.value| != FromBigEndian(digest.value.1[..8]) then None
          else Some(Identity(moduleId.value.0, version.value.0, digest.value.0, files.value))
  }

  // ---------------------------------------------------------------- the round trip

  /** Lengths fit the eight bytes that hold them, as every Go length does. */
  predicate Sized(file: PayloadFile) {
    && |file.path| < U64_LIMIT && |file.data| < U64_LIMIT
    && -0x8000_0000_0000_0000 <= file.mode < 0x8000_0000_0000_0000
  }

  predicate SizedIdentity(p: Identity) {
    && |p.moduleId| < U64_LIMIT && |p.version| < U64_LIMIT && |p.digest| < U64_LIMIT && |p.files| < U64_LIMIT
    && forall file <- p.files :: Sized(file)
  }

  lemma TakeOwnChunk(data: Bytes, rest: Bytes)
    requires |data| < U64_LIMIT
    ensures TakeChunk(Chunk(data) + rest) == Some((data, rest))
  {
    var s := Chunk(data) + rest;
    assert s[..8] == PutUint64(|data|);
    Uint64RoundTrip(|data|);
    assert s[8..8 + |data|] == data;
    assert s[8 + |data|..] == rest;
  }

  lemma ModeFits(mode: int)
    requires -0x8000_0000_0000_0000 <= mode < 0x8000_0000_0000_0000
    ensures |FormatInt(mode)| < U64_LIMIT
  {
    EightBytes();
    DigitsShort(if mode < 0 then -mode else mode, 8);
  }

  /** A numeral is at most three digits per byte of the number. */
  lemma {:induction false} DigitsShort(n: nat, k: nat)
    requires n < Power256(k)
    ensures |Digits(n)| <= 3 * k + 1
  {
    if n >= 256 {
      DigitsShort(n / 256, k - 1);
      DigitsMonotone(n / 1000, n / 256);
      assert n / 10 / 10 / 10 == n / 1000;
      assert |Digits(n)| <= |Digits(n / 1000)| + 3;
    } else if k > 0 {
      assert |Digits(n / 10 / 10)| == 1;
      assert |Digits(n / 10)| <= 2;
    }
  }

  lemma {:induction false} DigitsMonotone(m: nat, n: nat)
    requires m <= n
    ensures |Digits(m)| <= |Digits(n)|
  {
    if n >= 10 && m >= 10 {
      DigitsMonotone(m / 10, n / 10);
    }
  }

  lemma TakeOwnFile(file: PayloadFile, rest: Bytes)
    requires Sized(file)
    ensures TakeFile(FileBytes(file) + rest) == Some((file, rest))
  {
    var mode := FormatInt(file.mode);
    ModeFits(file.mode);
    assert FileBytes(file) + rest == Chunk(file.path) + (Chunk(mode) + (Chunk(file.data) + rest));
    TakeOwnChunk(file.path, Chunk(mode) + (Chunk(file.data) + rest));
    TakeOwnChunk(mode, Chunk(file.data) + rest);
    TakeOwnChunk(file.data, rest);
    IntRoundTrip(file.mode);
  }

  lemma {:induction false} TakeOwnFiles(files: seq<PayloadFile>)
    requires forall file <- files :: Sized(file)
    ensures TakeFiles(FilesBytes(files)) == Some(files)
  {
    if files != [] {
      TakeOwnFiles(files[1..]);
      TakeOwnFile(files[0], FilesBytes(files[1..]));
      assert files == [files[0]] + files[1..];
    }
  }

  /** The hashed stream decodes to the identity it was made from, with the digest in lower case. */
  lemma StreamDecodes(p: Identity)
    requires SizedIdentity(p)
    ensures Decode(Stream(p)) == Some(p.(digest := ToLower(p.digest)))
  {
    var digest := ToLower(p.digest);
    var tail := PutUint64(|p.files|) + FilesBytes(p.files);
    assert Stream(p) == Chunk(p.moduleId) + (Chunk(p.version) + (Chunk(digest) + tail));
    TakeOwnChunk(p.moduleId, Chunk(p.version) + (Chunk(digest) + tail));
    TakeOwnChunk(p.version, Chunk(digest) + tail);
    TakeOwnChunk(digest, tail);
    assert tail[..8] == PutUint64(|p.files|) && tail[8..] == FilesBytes(p.files);
    Uint64RoundTrip(|p.files|);
    TakeOwnFiles(p.files);
  }

  /** Equal streams mean the same module, version, digest up to case, and list of files. */
  lemma StreamInjective(p: Identity, q: Identity)
    requires SizedIdentity(p) && SizedIdentity(q)
    ensures Stream(p) == Stream(q) <==>
            && p.moduleId == q.moduleId && p.version == q.version && ToLower(p.digest) == ToLower(q.digest)
            && p.files == q.files
  {
    StreamDecodes(p);
    StreamDecodes(q);
  }

  // ---------------------------------------------------------------- the writer

  lemma {:induction false} FilesBytesSnoc(files: seq<PayloadFile>, file: PayloadFile)
    ensures FilesBytes(files + [file]) == FilesBytes(files) + FileBytes(file)
  {
    if files == [] {
      assert [file][1..] == [] && [] + [file] == [file];
    } else {
      FilesBytesSnoc(files[1..], file);
      assert (files + [file])[1..] == files[1..] + [file];
      Assoc(FileBytes(files[0]), FilesBytes(files[1..]), FileBytes(file));
    }
  }

  lemma NextFile(header: Bytes, files: seq<PayloadFile>, n: nat)
    requires n < |files|
    ensures header + FilesBytes(files[..n + 1]) == header + FilesBytes(files[..n]) + FileBytes(files[n])
  {
    FilesBytesSnoc(files[..n], files[n]);
    assert files[..n + 1] == files[..n] + [files[n]];
    Assoc(header, FilesBytes(files[..n]), FileBytes(files[n]));
  }

  lemma Assoc(a: Bytes, b: Bytes, c: Bytes)
    ensures a + (b + c) == a + b + c
  {
  }

  method WriteBytes(hashed: Bytes, data: Bytes) returns (r: Bytes)
    ensures r == hashed + Chunk(data)
  {
    r := hashed + PutUint64(|data|);
    r := r + data;
    assert r == hashed + Chunk(data);
  }

  method WriteFile(hashed: Bytes, file: PayloadFile) returns (r: Bytes)
    ensures r == hashed + FileBytes(file)
  {
    r := WriteBytes(hashed, file.path);
    r := WriteBytes(r, FormatInt(file.mode));
    r := WriteBytes(r, file.data);
    var a, b, c := Chunk(file.path), Chunk(FormatInt(file.mode)), Chunk(file.data);
    Assoc(hashed, a, b);
    Assoc(hashed, a + b, c);
  }

  method WriteHeader(p: Identity) returns (r: Bytes)
    ensures r == Chunk(p.moduleId) + Chunk(p.version) + Chunk(ToLower(p.digest)) + PutUint64(|p.files|)
  {
    r := WriteBytes([], p.moduleId);
    assert r == Chunk(p.moduleId);
    r := WriteBytes(r, p.version);
    r := WriteBytes(r, ToLower(p.digest));
    r := r + PutUint64(|p.files|);
  }

  /** fingerprintValidatedPayload, up to the hash of everything written. */
  method FingerprintStream(p: Identity) returns (hashed: Bytes)
    ensures hashed == Stream(p)
  {
    hashed := WriteHeader(p);
    ghost var header := hashed;
    var n := 0;
    while n < |p.files|
      invariant 0 <= n <= |p.files|
      invariant hashed == header + FilesBytes(p.files[..n])
    {
      NextFile(header, p.files, n);
      hashed := WriteFile(hashed, p.files[n]);
      n := n + 1;
    }
    assert p.files[..n] == p.files;
  }
}
