/** Size classes for message plaintext (`src/rust/padding.rs`). */
module Padding {
  import opened Crypto
  import opened Wire

  const SIZE_CLASSES: seq<nat> := [512, 1024, 2048, 4096, 8448]
  const LEN_PREFIX: nat := 2
  const MAX_PADDED_DATA: nat := 8446

  datatype PadError = TooLongToPad | BadSize | BadLength | OversizedClass | NonzeroPadding

  /** `class_for`: the first class that holds the data and its length prefix. */
  function ClassFor(n: nat): (r: Option<nat>)
    ensures r.None? <==> n > MAX_PADDED_DATA
    ensures r.Some? ==> r.value in SIZE_CLASSES && n + LEN_PREFIX <= r.value
                        && forall c :: c in SIZE_CLASSES && n + LEN_PREFIX <= c ==> r.value <= c
  {
    FirstClass(n, 0)
  }

  function FirstClass(n: nat, i: nat): (r: Option<nat>)
    requires i <= |SIZE_CLASSES|
    ensures r.None? <==> forall j :: i <= j < |SIZE_CLASSES| ==> n + LEN_PREFIX > SIZE_CLASSES[j]
    ensures r.Some? ==> exists j :: i <= j < |SIZE_CLASSES| && SIZE_CLASSES[j] == r.value && n + LEN_PREFIX <= r.value
                                    && forall k :: i <= k < j ==> n + LEN_PREFIX > SIZE_CLASSES[k]
    decreases |SIZE_CLASSES| - i
  {
    if i == |SIZE_CLASSES| then None
    else if n + LEN_PREFIX <= SIZE_CLASSES[i] then Some(SIZE_CLASSES[i])
    else FirstClass(n, i + 1)
  }

  function Padded(data: Bytes): (r: Bytes)
    requires |data| <= MAX_PADDED_DATA
    ensures |r| == ClassFor(|data|).value
  {
    Be16(|data|) + data + Zeros(ClassFor(|data|).value - LEN_PREFIX - |data|)
  }

  /** `pad` fills a zeroed buffer of the size of the class. */
  method Pad(data: Bytes) returns (r: Result<array<byte>, PadError>)
    ensures |data| > MAX_PADDED_DATA ==> r == Err(TooLongToPad)
    ensures |data| <= MAX_PADDED_DATA ==> r.Ok? && fresh(r.value) && r.value[..] == Padded(data)
  {
    var size := ClassFor(|data|);
    if size.None? {
      return Err(TooLongToPad);
    }
    var out := new byte[size.value](_ => 0);
    var prefix := Be16(|data|);
    out[0], out[1] := prefix[0], prefix[1];
    var i := 0;
    while i < |data|
      invariant 0 <= i <= |data|
      invariant out[0] == prefix[0] && out[1] == prefix[1]
      invariant forall j :: 0 <= j < i ==> out[LEN_PREFIX + j] == data[j]
      invariant forall j :: LEN_PREFIX + |data| <= j < out.Length ==> out[j] == 0
    {
      out[LEN_PREFIX + i] := data[i];
      i := i + 1;
    }
    assert out[..] == Padded(data);
    return Ok(out);
  }

  /** `unpad`, with its errors in the order it checks them. */
  function Unpad(padded: Bytes): Result<Bytes, PadError> {
    if |padded| !in SIZE_CLASSES then Err(BadSize)
    else
      var n := FromBe16(padded[..2]);
      if LEN_PREFIX + n > |padded| then Err(BadLength)
      else if ClassFor(n) != Some(|padded|) then Err(OversizedClass)
      else if exists i :: LEN_PREFIX + n <= i < |padded| && padded[i] != 0 then Err(NonzeroPadding)
      else Ok(padded[LEN_PREFIX..LEN_PREFIX + n])
  }

  /** Unpadding undoes padding. */
  lemma UnpadPadded(data: Bytes)
    requires |data| <= MAX_PADDED_DATA
    ensures Unpad(Padded(data)) == Ok(data)
  {
    var p := Padded(data);
    assert p[..2] == Be16(|data|);
    assert FromBe16(Be16(|data|)) == |data|;
    assert p[LEN_PREFIX..LEN_PREFIX + |data|] == data;
    forall i | LEN_PREFIX + |data| <= i < |p|
      ensures p[i] == 0
    {
      assert p[i] == Zeros(|p| - LEN_PREFIX - |data|)[i - LEN_PREFIX - |data|];
    }
  }

  /** What unpads is what was padded: one encoding for each message. */
  lemma PaddedUnpad(padded: Bytes)
    requires Unpad(padded).Ok?
    ensures |Unpad(padded).value| <= MAX_PADDED_DATA && Padded(Unpad(padded).value) == padded
  {
    var data := Unpad(padded).value;
    var n := |data|;
    assert Be16(n) == padded[..2];
    var zeros := Zeros(|padded| - LEN_PREFIX - n);
    assert padded[LEN_PREFIX + n..] == zeros;
    assert padded == padded[..2] + data + padded[LEN_PREFIX + n..];
  }
}
