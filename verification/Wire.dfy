/** Frames and associated data (`src/rust/wire.rs`, `src/rust/ratchet.rs`). */
module Wire {
  import opened Crypto

  const WIRE_VERSION_V2: byte := 2
  const WIRE_VERSION_V3: byte := 3
  const MAX_HINT: nat := 32

  function Be16(n: nat): (r: Bytes)
    requires n < 0x1_0000
    ensures |r| == 2
  {
    [n / 0x100, n % 0x100]
  }

  function FromBe16(b: Bytes): (n: nat)
    requires |b| == 2
  {
    b[0] as int * 0x100 + b[1]
  }

  function Be32(n: u32): (r: Bytes)
    ensures |r| == 4
  {
    [n / 0x100_0000, n / 0x1_0000 % 0x100, n / 0x100 % 0x100, n % 0x100]
  }

  function FromBe32(b: Bytes): (n: u32)
    requires |b| == 4
  {
    b[0] as int * 0x100_0000 + b[1] as int * 0x1_0000 + b[2] as int * 0x100 + b[3]
  }

  lemma Be32RoundTrip(n: u32)
    ensures FromBe32(Be32(n)) == n
  {
    var a, b, c := n / 0x100, n / 0x1_0000, n / 0x100_0000;
    assert n == a * 0x100 + n % 0x100 && a == b * 0x100 + a % 0x100 && b == c * 0x100 + b % 0x100;
  }

  lemma LastByte(high: nat, low: byte)
    ensures (high * 0x100 + low) / 0x100 == high && (high * 0x100 + low) % 0x100 == low
  {
  }

  lemma FromBe32RoundTrip(b: Bytes)
    requires |b| == 4
    ensures Be32(FromBe32(b)) == b
  {
    var high := b[0] as int * 0x1_0000 + b[1] as int * 0x100 + b[2];
    var n := FromBe32(b);
    LastByte(high, b[3]);
    LastByte(b[0] as int * 0x100 + b[1], b[2]);
    LastByte(b[0], b[1]);
    assert n == high * 0x100 + b[3];
    assert n / 0x1_0000 == n / 0x100 / 0x100 && n / 0x100_0000 == n / 0x100 / 0x100 / 0x100;
    assert Be32(n) == [b[0], b[1], b[2], b[3]];
  }

  function Be64(n: u64): (r: Bytes)
    ensures |r| == 8
  {
    Be32(n / 0x1_0000_0000) + Be32(n % 0x1_0000_0000)
  }

  function FromBe64(b: Bytes): u64
    requires |b| == 8
  {
    FromBe32(b[..4]) * 0x1_0000_0000 + FromBe32(b[4..])
  }

  lemma Be64RoundTrip(n: u64)
    ensures FromBe64(Be64(n)) == n
  {
    Be32RoundTrip(n / 0x1_0000_0000);
    Be32RoundTrip(n % 0x1_0000_0000);
    assert Be64(n)[..4] == Be32(n / 0x1_0000_0000) && Be64(n)[4..] == Be32(n % 0x1_0000_0000);
  }

  function Truncate(hint: Bytes): (r: Bytes)
    ensures |r| <= MAX_HINT && r <= hint && (|hint| <= MAX_HINT ==> r == hint)
  {
    if |hint| > MAX_HINT then hint[..MAX_HINT] else hint
  }

  function BuildWireAad(version: byte, hint: Bytes, step: u32, senderDh: Pub): Bytes {
    [version] + Truncate(hint) + Be32(step) + senderDh
  }

  function BuildWireAadV3(hint: Bytes, step: u32, epochStart: u32, senderDh: Pub): Bytes {
    [WIRE_VERSION_V3] + Truncate(hint) + Be32(step) + Be32(epochStart) + senderDh
  }

  /** Two headers with hints of at most 32 bytes never share their associated data, although
      the hint is written without its length: the other fields have fixed widths. */
  lemma AadV3Injective(hint: Bytes, step: u32, epochStart: u32, dh: Pub,
                       hint': Bytes, step': u32, epochStart': u32, dh': Pub)
    requires |hint| <= MAX_HINT && |hint'| <= MAX_HINT && |dh| == |dh'| == 32
    requires BuildWireAadV3(hint, step, epochStart, dh) == BuildWireAadV3(hint', step', epochStart', dh')
    ensures hint == hint' && step == step' && epochStart == epochStart' && dh == dh'
  {
    var aad := BuildWireAadV3(hint, step, epochStart, dh);
    var n := |hint|;
    assert |aad| == 41 + n && |hint'| == n;
    assert aad[1..1 + n] == hint && aad[1..1 + n] == hint';
    assert aad[1 + n..5 + n] == Be32(step) && aad[1 + n..5 + n] == Be32(step');
    assert aad[5 + n..9 + n] == Be32(epochStart) && aad[5 + n..9 + n] == Be32(epochStart');
    assert aad[9 + n..] == dh && aad[9 + n..] == dh';
    Be32RoundTrip(step);
    Be32RoundTrip(step');
    Be32RoundTrip(epochStart);
    Be32RoundTrip(epochStart');
  }

  lemma AadV2Injective(version: byte, hint: Bytes, step: u32, dh: Pub, version': byte, hint': Bytes, step': u32, dh': Pub)
    requires |hint| <= MAX_HINT && |hint'| <= MAX_HINT && |dh| == |dh'| == 32
    requires BuildWireAad(version, hint, step, dh) == BuildWireAad(version', hint', step', dh')
    ensures version == version' && hint == hint' && step == step' && dh == dh'
  {
    var aad := BuildWireAad(version, hint, step, dh);
    var n := |hint|;
    assert |aad| == 37 + n && |hint'| == n;
    assert aad[0] == version && aad[0] == version';
    assert aad[1..1 + n] == hint && aad[1..1 + n] == hint';
    assert aad[1 + n..5 + n] == Be32(step) && aad[1 + n..5 + n] == Be32(step');
    assert aad[5 + n..] == dh && aad[5 + n..] == dh';
    Be32RoundTrip(step);
    Be32RoundTrip(step');
  }

  /** The header fields of a v3 frame. */
  datatype FrameV3 = FrameV3(hint: Bytes, step: u32, epochStart: u32, senderDh: Pub, ciphertext: Bytes)

  datatype WireError = TooShort | UnsupportedVersion | HintTooLong | Truncated | EpochAfterStep | LengthMismatch

  /** `frame_v3`. */
  function EncodeV3(hint: Bytes, step: u32, epochStart: u32, senderDh: Pub, ciphertext: Bytes): Bytes {
    [WIRE_VERSION_V3, |Truncate(hint)|] + Truncate(hint) + Be32(step) + Be32(epochStart) + senderDh
    + Be32(|ciphertext| % 0x1_0000_0000) + ciphertext
  }

  /** What `frame_v3` is called with: fields that the wire format can carry. */
  predicate Encodable(f: FrameV3) {
    |f.hint| <= MAX_HINT && f.epochStart <= f.step && |f.senderDh| == 32 && |f.ciphertext| < 0x1_0000_0000
  }

  function Encode(f: FrameV3): Bytes {
    EncodeV3(f.hint, f.step, f.epochStart, f.senderDh, f.ciphertext)
  }

  /** What `unframe_v3` answers for every byte string, with the errors in the order it checks them. */
  function DecodeV3(bs: Bytes): Result<FrameV3, WireError> {
    if |bs| < 46 then Err(TooShort)
    else if bs[0] != WIRE_VERSION_V3 then Err(UnsupportedVersion)
    else if bs[1] > MAX_HINT then Err(HintTooLong)
    else if |bs| < 46 + bs[1] then Err(Truncated)
    else
      var body := bs[2 + bs[1]..];
      var step, epochStart := FromBe32(body[..4]), FromBe32(body[4..8]);
      if epochStart > step then Err(EpochAfterStep)
      else if |body| != 44 + FromBe32(body[40..44]) then Err(LengthMismatch)
      else Ok(FrameV3(bs[2..2 + bs[1]], step, epochStart, body[8..40], body[44..]))
  }

  /** `unframe_v3`: a cursor walks over the frame. */
  method UnframeV3(bs: Bytes) returns (r: Result<FrameV3, WireError>)
    ensures r == DecodeV3(bs)
  {
    if |bs| < 2 + 8 + 32 + 4 {
      return Err(TooShort);
    }
    if bs[0] != WIRE_VERSION_V3 {
      return Err(UnsupportedVersion);
    }
    var hl: nat := bs[1];
    if hl > 32 {
      return Err(HintTooLong);
    }
    if |bs| < 2 + hl + 8 + 32 + 4 {
      return Err(Truncated);
    }
    ghost var body := bs[2 + hl..];
    var pos := 2;
    var hint := bs[pos..pos + hl];
    pos := pos + hl;
    var step := FromBe32(bs[pos..pos + 4]);
    pos := pos + 4;
    var epochStart := FromBe32(bs[pos..pos + 4]);
    pos := pos + 4;
    assert bs[2 + hl..2 + hl + 4] == body[..4] && bs[2 + hl + 4..2 + hl + 8] == body[4..8];
    if epochStart > step {
      return Err(EpochAfterStep);
    }
    var senderDh := bs[pos..pos + 32];
    pos := pos + 32;
    var cl := FromBe32(bs[pos..pos + 4]);
    pos := pos + 4;
    assert bs[10 + hl..42 + hl] == body[8..40] && bs[42 + hl..46 + hl] == body[40..44] && bs[46 + hl..] == body[44..];
    if |bs| != pos + cl {
      return Err(LengthMismatch);
    }
    return Ok(FrameV3(hint, step, epochStart, senderDh, bs[pos..]));
  }

  /** Decoding a frame whose fixed-width fields are given as bytes. */
  lemma DecodeFields(hint: Bytes, step: Bytes, epochStart: Bytes, dh: Pub, length: Bytes, ct: Bytes)
    requires |hint| <= MAX_HINT && |step| == |epochStart| == |length| == 4 && |dh| == 32
    requires FromBe32(epochStart) <= FromBe32(step) && FromBe32(length) == |ct|
    ensures DecodeV3([WIRE_VERSION_V3, |hint|] + hint + step + epochStart + dh + length + ct)
         == Ok(FrameV3(hint, FromBe32(step), FromBe32(epochStart), dh, ct))
  {
    var bs: Bytes := [WIRE_VERSION_V3, |hint|] + hint + step + epochStart + dh + length + ct;
    var n := |hint|;
    var body := bs[2 + n..];
    assert bs[0] == WIRE_VERSION_V3 && bs[1] == n;
    assert bs[2..2 + n] == hint;
    assert body == step + epochStart + dh + length + ct;
    assert body[..4] == step && body[4..8] == epochStart;
    assert body[8..40] == dh && body[40..44] == length && body[44..] == ct;
  }

  /** `unframe_v3` undoes `frame_v3`. */
  lemma DecodeEncode(f: FrameV3)
    requires Encodable(f)
    ensures DecodeV3(Encode(f)) == Ok(f)
  {
    var step, epochStart, length := Be32(f.step), Be32(f.epochStart), Be32(|f.ciphertext|);
    Be32RoundTrip(f.step);
    Be32RoundTrip(f.epochStart);
    Be32RoundTrip(|f.ciphertext|);
    assert |f.ciphertext| % 0x1_0000_0000 == |f.ciphertext|;
    DecodeFields(f.hint, step, epochStart, f.senderDh, length, f.ciphertext);
  }

  /** The parts of an accepted frame, in order. */
  lemma FrameParts(bs: Bytes)
    requires DecodeV3(bs).Ok?
    ensures var body := bs[2 + bs[1]..];
            bs == [bs[0], bs[1]] + bs[2..2 + bs[1]] + body[..4] + body[4..8] + body[8..40] + body[40..44] + body[44..]
  {
    var body := bs[2 + bs[1]..];
    assert body == body[..4] + body[4..8] + body[8..40] + body[40..44] + body[44..];
    assert bs == [bs[0], bs[1]] + bs[2..2 + bs[1]] + body;
  }

  /** `unframe_v3` accepts nothing but what `frame_v3` writes. */
  lemma EncodeDecode(bs: Bytes)
    requires DecodeV3(bs).Ok?
    ensures Encodable(DecodeV3(bs).value)
    ensures Encode(DecodeV3(bs).value) == bs
  {
    var body := bs[2 + bs[1]..];
    FrameParts(bs);
    FromBe32RoundTrip(body[..4]);
    FromBe32RoundTrip(body[4..8]);
    FromBe32RoundTrip(body[40..44]);
    hide Be32, FromBe32;
    var f := DecodeV3(bs).value;
    assert |f.ciphertext| % 0x1_0000_0000 == |f.ciphertext| == FromBe32(body[40..44]);
  }

  /** Hence the accepted byte strings are exactly the image of the encoder. */
  lemma AcceptsExactlyTheImage(bs: Bytes)
    ensures DecodeV3(bs).Ok? <==> exists f :: Encodable(f) && bs == Encode(f)
  {
    if DecodeV3(bs).Ok? {
      EncodeDecode(bs);
    } else if f :| Encodable(f) && bs == Encode(f) {
      DecodeEncode(f);
    }
  }
}
