/** Where each field stands in the encodings, and for which reason bytes are refused (`src/rust/wire.rs`,
    `src/rust/padding.rs`, `build_wire_aad` and `to_bytes` in `src/rust/ratchet.rs`). */
module Layouts {
  import opened Crypto
  import opened Cursor
  import opened Wire
  import opened Padding
  import opened Ratchet
  import opened RatchetBlob

  // ---------------------------------------------------------------- numbers

  /** Numbers are written with their highest byte first. */
  lemma BigEndian(n: u32)
    ensures Be32(n)[0] as int * 0x100_0000 + Be32(n)[1] as int * 0x1_0000 + Be32(n)[2] as int * 0x100 + Be32(n)[3] == n
  {
    Be32RoundTrip(n);
  }

  lemma BigEndian16(n: nat)
    requires n < 0x1_0000
    ensures Be16(n)[0] as int * 0x100 + Be16(n)[1] == n
  {
  }

  lemma BigEndian64(n: u64)
    ensures Be64(n)[..4] == Be32(n / 0x1_0000_0000) && Be64(n)[4..] == Be32(n % 0x1_0000_0000)
  {
  }

  // ---------------------------------------------------------------- frames

  /** A v3 frame: version 3, hint length, hint, step, start of the epoch, sender key, length, ciphertext. */
  lemma FrameLayout(hint: Bytes, step: u32, epochStart: u32, dh: Pub, ct: Bytes)
    requires |dh| == 32 && |ct| < 0x1_0000_0000
    ensures var f, kept := EncodeV3(hint, step, epochStart, dh, ct), if |hint| <= 32 then hint else hint[..32];
            var h := |kept|;
            && |f| == 46 + h + |ct| && f[0] == 3 && f[1] == h && f[2..2 + h] == kept
            && f[2 + h..6 + h] == Be32(step) && f[6 + h..10 + h] == Be32(epochStart) && f[10 + h..42 + h] == dh
            && f[42 + h..46 + h] == Be32(|ct|) && f[46 + h..] == ct
  {
    hide Be32;
    assert |ct| % 0x1_0000_0000 == |ct|;
  }

  /** The associated data: version, hint, step, start of the epoch, sender key. */
  lemma AadLayout(hint: Bytes, step: u32, epochStart: u32, dh: Pub)
    ensures var a, kept := BuildWireAadV3(hint, step, epochStart, dh), if |hint| <= 32 then hint else hint[..32];
            var h := |kept|;
            && a[0] == 3 && a[1..1 + h] == kept && a[1 + h..5 + h] == Be32(step) && a[5 + h..9 + h] == Be32(epochStart) && a[9 + h..] == dh
  {
    hide Be32;
  }

  lemma OldAadLayout(version: byte, hint: Bytes, step: u32, dh: Pub)
    ensures var a, kept := BuildWireAad(version, hint, step, dh), if |hint| <= 32 then hint else hint[..32];
            var h := |kept|;
            && a[0] == version && a[1..1 + h] == kept && a[1 + h..5 + h] == Be32(step) && a[5 + h..] == dh
  {
    hide Be32;
  }

  /** Each refusal of `unframe_v3` has its reason, and the first reason that applies is the answer. */
  lemma FrameRefusedIff(bs: Bytes)
    ensures DecodeV3(bs) == Err(TooShort) <==> |bs| < 46
    ensures DecodeV3(bs) == Err(UnsupportedVersion) <==> |bs| >= 46 && bs[0] != 3
    ensures DecodeV3(bs) == Err(HintTooLong) <==> |bs| >= 46 && bs[0] == 3 && bs[1] > 32
    ensures DecodeV3(bs) == Err(Truncated) <==> |bs| >= 46 && bs[0] == 3 && bs[1] <= 32 && |bs| < 46 + bs[1]
    ensures |bs| >= 46 && bs[0] == 3 && bs[1] <= 32 && |bs| >= 46 + bs[1] ==>
              var h := bs[1];
              var late := FromBe32(bs[2 + h..6 + h]) < FromBe32(bs[6 + h..10 + h]);
              && (DecodeV3(bs) == Err(EpochAfterStep) <==> late)
              && (DecodeV3(bs) == Err(LengthMismatch) <==> !late && |bs| - 46 - h != FromBe32(bs[42 + h..46 + h]))
  {
    hide FromBe32;
    if |bs| >= 46 && bs[1] <= 32 && |bs| >= 46 + bs[1] {
      var h := bs[1];
      var body := bs[2 + h..];
      assert body[..4] == bs[2 + h..6 + h] && body[4..8] == bs[6 + h..10 + h] && body[40..44] == bs[42 + h..46 + h];
    }
  }

  // ---------------------------------------------------------------- padding

  /** A padded message: its length in two bytes, the message, zeros up to the end of the class. */
  lemma PaddedLayout(data: Bytes)
    requires |data| <= 8446
    ensures var p := Padded(data);
            && p[0] as int * 0x100 + p[1] == |data| && p[2..2 + |data|] == data && |p| in {512, 1024, 2048, 4096, 8448}
            && forall i :: 2 + |data| <= i < |p| ==> p[i] == 0
  {
    var p := Padded(data);
    forall i | 2 + |data| <= i < |p|
      ensures p[i] == 0
    {
      assert p[i] == Zeros(|p| - 2 - |data|)[i - 2 - |data|];
    }
  }

  predicate IsSize(n: nat) {
    n == 512 || n == 1024 || n == 2048 || n == 4096 || n == 8448
  }

  /** A smaller class would have held `n` bytes. */
  predicate SmallerHolds(n: nat, size: nat) {
    2 + n <= 512 < size || 2 + n <= 1024 < size || 2 + n <= 2048 < size || 2 + n <= 4096 < size
  }

  /** Each refusal of `unpad` has its reason. */
  lemma PaddingRefusedIff(p: Bytes)
    ensures Unpad(p) == Err(BadSize) <==> !IsSize(|p|)
    ensures IsSize(|p|) ==>
              var n := p[0] as int * 0x100 + p[1];
              && (Unpad(p) == Err(BadLength) <==> 2 + n > |p|)
              && (Unpad(p) == Err(OversizedClass) <==> 2 + n <= |p| && SmallerHolds(n, |p|))
              && (Unpad(p) == Err(NonzeroPadding) <==>
                    2 + n <= |p| && !SmallerHolds(n, |p|) && exists i :: 2 + n <= i < |p| && p[i] != 0)
  {
    Classes(|p|);
    if IsSize(|p|) {
      var n := p[0] as int * 0x100 + p[1];
      assert p[..2][0] == p[0] && p[..2][1] == p[1];
      if 2 + n <= |p| {
        SmallestIff(n, |p|);
      }
    }
  }

  lemma Classes(n: nat)
    ensures n in SIZE_CLASSES <==> IsSize(n)
  {
    assert SIZE_CLASSES[0] == 512 && SIZE_CLASSES[1] == 1024 && SIZE_CLASSES[2] == 2048 && SIZE_CLASSES[3] == 4096 && SIZE_CLASSES[4] == 8448;
  }

  lemma SmallestIff(n: nat, size: nat)
    requires IsSize(size) && n + 2 <= size
    ensures ClassFor(n) == Some(size) <==> !SmallerHolds(n, size)
  {
    hide ClassFor;
    Classes(512);
    Classes(1024);
    Classes(2048);
    Classes(4096);
    Classes(size);
    Classes(ClassFor(n).value);
  }

  // ---------------------------------------------------------------- ratchet blobs

  /** A ratchet blob: version 2, secret, public key, remote key if any, root and both chains, the three
      counters, the number of skipped keys, and for each its step and key, lowest step first. */
  lemma BlobLayout(s: State)
    requires |s.skipped| <= U32_MAX
    ensures var b, at := Serialize(s), if s.remote.Some? then 5 else 4;
            && |b| == at + 19 + 5 * |s.skipped|
            && b[0] == Octet(2) && b[1] == SecretCell(s.secret) && b[2] == PubCell(s.public)
            && b[3] == Octet(if s.remote.Some? then 1 else 0) && (s.remote.Some? ==> b[4] == PubCell(s.remote.value))
            && b[at] == KeyCell(s.root) && b[at + 1] == KeyCell(s.chainSend) && b[at + 2] == KeyCell(s.chainRecv)
            && ReadU32(b, at + 3) == Some(s.sendCount) && ReadU32(b, at + 7) == Some(s.recvCount)
            && ReadU32(b, at + 11) == Some(s.sendsSinceDh) && ReadU32(b, at + 15) == Some(|s.skipped|)
            && (s.skipped != map[] ==>
                  var n := Lowest(s.skipped);
                  ReadU32(b, at + 19) == Some(n) && b[at + 23] == KeyCell(s.skipped[n]))
  {
    hide TailCells, Serialize, ReadU32, SkippedCells, CounterCells, StoreCells;
    var pre := [Octet(2), SecretCell(s.secret), PubCell(s.public)] + RemoteCells(s.remote);
    var b, at := Serialize(s), |pre|;
    SerializeParts(s);
    assert b[..at] == pre;
    assert b[0] == pre[0] && b[1] == pre[1] && b[2] == pre[2] && b[3] == pre[3] && (s.remote.Some? ==> b[4] == pre[4]);
    TailLayout(b, at, s);
  }

  lemma TailLayout(b: Blob, at: nat, s: State)
    requires |s.skipped| <= U32_MAX && at <= |b| && b[at..] == TailCells(s)
    ensures |b| == at + 19 + 5 * |s.skipped|
    ensures b[at] == KeyCell(s.root) && b[at + 1] == KeyCell(s.chainSend) && b[at + 2] == KeyCell(s.chainRecv)
    ensures ReadU32(b, at + 3) == Some(s.sendCount) && ReadU32(b, at + 7) == Some(s.recvCount)
    ensures ReadU32(b, at + 11) == Some(s.sendsSinceDh) && ReadU32(b, at + 15) == Some(|s.skipped|)
    ensures s.skipped != map[] ==>
              ReadU32(b, at + 19) == Some(Lowest(s.skipped)) && b[at + 23] == KeyCell(s.skipped[Lowest(s.skipped)])
  {
    hide ReadU32, SkippedCells, At, Be32, Octets;
    var keys := [KeyCell(s.root), KeyCell(s.chainSend), KeyCell(s.chainRecv)];
    var store := StoreCells(s.skipped);
    var counters := CounterCells(s.sendCount, s.recvCount, s.sendsSinceDh, store);
    SkippedSize(s.skipped);
    assert b[at..][0] == keys[0] && b[at..][1] == keys[1] && b[at..][2] == keys[2];
    Ends(b, at, keys + counters);
    AtSplit(b, at, keys, counters);
    hide CounterCells, StoreCells;
    ReadCountersAt(b, at + 3, s.sendCount, s.recvCount, s.sendsSinceDh, store);
    ReadStoreAt(b, at + 15, s.skipped);
    FirstEntry(b, at + 15, s.skipped);
  }

  lemma Ends(b: Blob, at: nat, part: Blob)
    requires at <= |b| && b[at..] == part
    ensures At(b, at, part)
  {
    assert b[at..|b|] == b[at..];
  }

  lemma {:induction false} SkippedSize(m: map<u32, Key>)
    ensures |SkippedCells(m)| == 5 * |m|
    decreases |m|
  {
    if m == map[] {
    } else {
      RemoveShrinks(m, Lowest(m));
      SkippedSize(m - {Lowest(m)});
    }
  }

  lemma FirstEntry(b: Blob, pos: nat, m: map<u32, Key>)
    requires |m| <= U32_MAX && At(b, pos, StoreCells(m))
    ensures m != map[] ==> pos + 8 < |b| && ReadU32(b, pos + 4) == Some(Lowest(m)) && b[pos + 8] == KeyCell(m[Lowest(m)])
  {
    hide ReadU32, Be32, Octets, At;
    ReadCountAt(b, pos, |m| % 0x1_0000_0000, SkippedCells(m));
    if m != map[] {
      var n := Lowest(m);
      ReadEntryAt(b, pos + 4, n, m[n], SkippedCells(m - {n}));
    }
  }

  /** The steps of the skipped keys stand in ascending order. */
  lemma {:induction false} SkippedAscend(m: map<u32, Key>, k: nat)
    requires k < |m|
    ensures var cells := SkippedCells(m);
            && |cells| == 5 * |m| && ReadU32(cells, 5 * k).Some? && ReadU32(cells, 5 * k).value in m
            && (k > 0 ==> ReadU32(cells, 5 * (k - 1)).Some? && ReadU32(cells, 5 * (k - 1)).value < ReadU32(cells, 5 * k).value)
    decreases |m|
  {
    hide ReadU32, EntryCells;
    var n := Lowest(m);
    var rest, cells := SkippedCells(m - {n}), SkippedCells(m);
    RemoveShrinks(m, n);
    SkippedSize(m);
    Ends(cells, 0, EntryCells(n, m[n]) + rest);
    ReadEntryAt(cells, 0, n, m[n], rest);
    if k > 0 {
      SkippedAscend(m - {n}, k - 1);
      assert cells[5..] == rest;
      ReadFurther(cells, rest, 5 * (k - 1));
      if k > 1 {
        ReadFurther(cells, rest, 5 * (k - 2));
      }
    }
  }

  lemma ReadFurther(cells: Blob, rest: Blob, pos: nat)
    requires |cells| >= 5 && cells[5..] == rest
    ensures ReadU32(cells, pos + 5) == ReadU32(rest, pos)
  {
    if pos + 4 <= |rest| {
      assert rest[pos] == cells[pos + 5] && rest[pos + 1] == cells[pos + 6] && rest[pos + 2] == cells[pos + 7] && rest[pos + 3] == cells[pos + 8];
    }
  }

  /** No other version is read. */
  lemma OtherVersionsRefused(data: Blob)
    requires data == [] || (data[0] != Octet(1) && data[0] != Octet(2))
    ensures Deserialize(data) == None
  {
  }

  /** There is a remote key exactly when the flag before it is 1. */
  lemma RemoteFlagIs(data: Blob)
    requires Deserialize(data).Some?
    ensures |data| > 3 && (Deserialize(data).value.remote.Some? <==> data[3] == Octet(1))
  {
    hide ReadU32, ReadKey, ReadEntries;
  }

  lemma {:induction false} EntriesNeedCells(data: Blob, pos: nat, left: nat, found: map<u32, Key>)
    requires ReadEntries(data, pos, left, found).Some? && pos <= |data|
    ensures pos + 5 * left <= |data|
    decreases left
  {
    hide ReadU32;
    if left == 0 {
    } else {
      EntriesNeedCells(data, pos + 5, left - 1, found[ReadU32(data, pos).value := ReadKey(data, pos + 4).value]);
    }
  }

  /** A blob that is cut off anywhere is refused. */
  lemma TruncatedBlobRefused(s: State, k: nat)
    requires |s.skipped| <= U32_MAX && k < |Serialize(s)|
    ensures Deserialize(Serialize(s)[..k]) == None
  {
    hide Serialize, ReadTail;
    BlobLayout(s);
    var b, at := Serialize(s), if s.remote.Some? then 5 else 4;
    var cut := b[..k];
    if Deserialize(cut).Some? {
      ReadTailNeedsCells(b, cut, at, s.secret, s.public, s.remote);
    }
  }

  lemma SameNumber(b: Blob, cut: Blob, pos: nat)
    requires cut <= b && ReadU32(cut, pos).Some?
    ensures pos + 4 <= |cut| && ReadU32(b, pos) == ReadU32(cut, pos)
  {
  }

  lemma ReadTailNeedsCells(b: Blob, cut: Blob, at: nat, secret: Secret, public: Pub, remote: Option<Pub>)
    requires cut <= b && ReadTail(cut, at, 2, secret, public, remote).Some?
    ensures ReadU32(b, at + 15).Some? && |cut| >= at + 19 + 5 * ReadU32(b, at + 15).value
  {
    hide ReadU32, ReadEntries;
    SameNumber(b, cut, at + 15);
    EntriesNeedCells(cut, at + 19, ReadU32(cut, at + 15).value, map[]);
  }
}
