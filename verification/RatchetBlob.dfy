/** The serialized ratchet (`to_bytes` / `from_bytes` in `src/rust/ratchet.rs`). A 32-byte
    secret, public key or derived key is one cell of the blob; all other fields are bytes. */
module RatchetBlob {
  import opened Crypto
  import opened Cursor
  import opened Wire
  import opened Ratchet

  datatype Cell = Octet(b: byte) | SecretCell(secret: Secret) | PubCell(public: Pub) | KeyCell(key: Key)

  type Blob = seq<Cell>

  function Octets(b: Bytes): (r: Blob)
    ensures |r| == |b| && forall i :: 0 <= i < |b| ==> r[i] == Octet(b[i])
  {
    if b == [] then [] else [Octet(b[0])] + Octets(b[1..])
  }

  function RemoteCells(remote: Option<Pub>): Blob {
    match remote
    case Some(p) => [Octet(1), PubCell(p)]
    case None => [Octet(0)]
  }

  function EntryCells(n: u32, key: Key): (r: Blob)
    ensures |r| == 5
  {
    Octets(Be32(n)) + [KeyCell(key)]
  }

  /** The skipped keys in ascending order of their steps, as a `BTreeMap` iterates. */
  ghost function SkippedCells(m: map<u32, Key>): Blob
    decreases |m|
  {
    if m == map[] then [] else
      var n := Lowest(m);
      RemoveShrinks(m, n);
      EntryCells(n, m[n]) + SkippedCells(m - {n})
  }

  lemma RemoveShrinks(m: map<u32, Key>, n: u32)
    requires n in m
    ensures |m - {n}| == |m| - 1
  {
    assert (m - {n}).Keys == m.Keys - {n};
  }

  function HeadCells(s: State): Blob {
    [Octet(2), SecretCell(s.secret), PubCell(s.public)] + RemoteCells(s.remote)
    + [KeyCell(s.root), KeyCell(s.chainSend), KeyCell(s.chainRecv)]
    + Octets(Be32(s.sendCount)) + Octets(Be32(s.recvCount)) + Octets(Be32(s.sendsSinceDh))
  }

  ghost function Serialize(s: State): Blob {
    HeadCells(s) + Octets(Be32(|s.skipped| % 0x1_0000_0000)) + SkippedCells(s.skipped)
  }

  // ---------------------------------------------------------------- reading

  function ReadU32(data: Blob, pos: nat): Option<u32> {
    if pos + 4 <= |data| && data[pos].Octet? && data[pos + 1].Octet? && data[pos + 2].Octet? && data[pos + 3].Octet?
    then Some(FromBe32([data[pos].b, data[pos + 1].b, data[pos + 2].b, data[pos + 3].b]))
    else None
  }

  function ReadKey(data: Blob, pos: nat): Option<Key> {
    if pos < |data| && data[pos].KeyCell? then Some(data[pos].key) else None
  }

  /** Read `left` entries from `pos`; a step that occurs twice keeps its last key. */
  function ReadEntries(data: Blob, pos: nat, left: nat, found: map<u32, Key>): Option<map<u32, Key>>
    decreases left
  {
    if left == 0 then Some(found)
    else
      var n, k := ReadU32(data, pos), ReadKey(data, pos + 4);
      if n.None? || k.None? then None
      else ReadEntries(data, pos + 5, left - 1, found[n.value := k.value])
  }

  /** The fields after the remote key, which begin at `pos`. */
  function ReadTail(data: Blob, pos: nat, version: byte, secret: Secret, public: Pub, remote: Option<Pub>): Option<State> {
    var root, cs, cr := ReadKey(data, pos), ReadKey(data, pos + 1), ReadKey(data, pos + 2);
    var send, recv := ReadU32(data, pos + 3), ReadU32(data, pos + 7);
    var since := if version >= 2 then ReadU32(data, pos + 11) else Some(0);
    var at := if version >= 2 then pos + 15 else pos + 11;
    var count := ReadU32(data, at);
    if root.None? || cs.None? || cr.None? || send.None? || recv.None? || since.None? || count.None? then None
    else
      var skipped := ReadEntries(data, at + 4, count.value, map[]);
      if skipped.None? then None
      else Some(State(secret, public, remote, root.value, cs.value, cr.value, send.value, recv.value, since.value, skipped.value))
  }

  /** `from_bytes`; version 1 has no send-since-rotation counter. */
  function Deserialize(data: Blob): Option<State> {
    if |data| == 0 || (data[0] != Octet(1) && data[0] != Octet(2)) then None
    else if |data| < 4 || !data[1].SecretCell? || !data[2].PubCell? || !data[3].Octet? then None
    else if data[3].b != 1 then ReadTail(data, 4, data[0].b, data[1].secret, data[2].public, None)
    else if |data| < 5 || !data[4].PubCell? then None
    else ReadTail(data, 5, data[0].b, data[1].secret, data[2].public, Some(data[4].public))
  }

  /** The number of skipped keys that a blob can hold is limited by the width of its length field. */
  lemma {:induction false} ReadEntriesSize(data: Blob, pos: nat, left: nat, found: map<u32, Key>)
    requires ReadEntries(data, pos, left, found).Some?
    ensures |ReadEntries(data, pos, left, found).value| <= |found| + left
    decreases left
  {
    if left == 0 {
    } else {
      var n, k := ReadU32(data, pos).value, ReadKey(data, pos + 4).value;
      assert |found[n := k]| <= |found| + 1 by {
        assert found[n := k].Keys == found.Keys + {n};
      }
      ReadEntriesSize(data, pos + 5, left - 1, found[n := k]);
    }
  }

  lemma ReadTailSize(data: Blob, pos: nat, version: byte, secret: Secret, public: Pub, remote: Option<Pub>)
    ensures var r := ReadTail(data, pos, version, secret, public, remote); r.Some? ==> |r.value.skipped| <= U32_MAX
  {
    hide ReadU32, ReadKey, ReadEntries;
    var at := if version >= 2 then pos + 15 else pos + 11;
    if ReadTail(data, pos, version, secret, public, remote).Some? {
      ReadEntriesSize(data, at + 4, ReadU32(data, at).value, map[]);
    }
  }

  lemma DeserializedSize(data: Blob)
    requires Deserialize(data).Some?
    ensures |Deserialize(data).value.skipped| <= U32_MAX
  {
    hide ReadTail;
    ReadTailSize(data, 4, data[0].b, data[1].secret, data[2].public, None);
    if data[3].b == 1 {
      ReadTailSize(data, 5, data[0].b, data[1].secret, data[2].public, Some(data[4].public));
    }
  }

  // ---------------------------------------------------------------- round trip

  lemma ReadU32At(data: Blob, pos: nat, n: u32)
    requires At(data, pos, Octets(Be32(n)))
    ensures ReadU32(data, pos) == Some(n)
  {
    var b, part := Be32(n), data[pos..pos + 4];
    assert part[0] == Octet(b[0]) && part[1] == Octet(b[1]) && part[2] == Octet(b[2]) && part[3] == Octet(b[3]);
    assert [b[0], b[1], b[2], b[3]] == b;
    Be32RoundTrip(n);
  }

  lemma ReadKeyAt(data: Blob, pos: nat, key: Key)
    requires At(data, pos, [KeyCell(key)])
    ensures ReadKey(data, pos) == Some(key)
  {
    assert data[pos] == data[pos..pos + 1][0];
  }

  lemma ReadEntryAt(data: Blob, pos: nat, n: u32, key: Key, rest: Blob)
    requires At(data, pos, EntryCells(n, key) + rest)
    ensures ReadU32(data, pos) == Some(n) && ReadKey(data, pos + 4) == Some(key)
    ensures At(data, pos + 5, rest)
  {
    AtSplit(data, pos, EntryCells(n, key), rest);
    AtSplit(data, pos, Octets(Be32(n)), [KeyCell(key)]);
    ReadU32At(data, pos, n);
    ReadKeyAt(data, pos + 4, key);
  }

  lemma PutFirst<K, V>(found: map<K, V>, m: map<K, V>, n: K)
    requires n in m
    ensures found[n := m[n]] + (m - {n}) == found + m
  {
  }

  lemma {:induction false} ReadEntriesAt(data: Blob, pos: nat, m: map<u32, Key>, found: map<u32, Key>)
    requires At(data, pos, SkippedCells(m))
    ensures ReadEntries(data, pos, |m|, found) == Some(found + m)
    decreases |m|
  {
    if m == map[] {
      assert found + m == found;
    } else {
      var n := Lowest(m);
      RemoveShrinks(m, n);
      ReadEntryAt(data, pos, n, m[n], SkippedCells(m - {n}));
      ReadEntriesAt(data, pos + 5, m - {n}, found[n := m[n]]);
      PutFirst(found, m, n);
    }
  }

  lemma ReadThreeKeysAt(data: Blob, pos: nat, a: Key, b: Key, c: Key, rest: Blob)
    requires At(data, pos, [KeyCell(a), KeyCell(b), KeyCell(c)] + rest)
    ensures ReadKey(data, pos) == Some(a) && ReadKey(data, pos + 1) == Some(b) && ReadKey(data, pos + 2) == Some(c)
    ensures At(data, pos + 3, rest)
  {
    var keys := [KeyCell(a), KeyCell(b), KeyCell(c)];
    AtSplit(data, pos, keys, rest);
    assert data[pos] == keys[0] && data[pos + 1] == keys[1] && data[pos + 2] == keys[2];
  }

  lemma ReadCountAt(data: Blob, pos: nat, n: u32, rest: Blob)
    requires At(data, pos, Octets(Be32(n)) + rest)
    ensures ReadU32(data, pos) == Some(n) && At(data, pos + 4, rest)
  {
    AtSplit(data, pos, Octets(Be32(n)), rest);
    ReadU32At(data, pos, n);
  }

  function CounterCells(send: u32, recv: u32, since: u32, rest: Blob): Blob {
    Octets(Be32(send)) + (Octets(Be32(recv)) + (Octets(Be32(since)) + rest))
  }

  lemma ReadCountersAt(data: Blob, pos: nat, send: u32, recv: u32, since: u32, rest: Blob)
    requires At(data, pos, CounterCells(send, recv, since, rest))
    ensures ReadU32(data, pos) == Some(send) && ReadU32(data, pos + 4) == Some(recv) && ReadU32(data, pos + 8) == Some(since)
    ensures At(data, pos + 12, rest)
  {
    hide Be32, Octets, ReadU32, At;
    ReadCountAt(data, pos, send, Octets(Be32(recv)) + (Octets(Be32(since)) + rest));
    ReadCountAt(data, pos + 4, recv, Octets(Be32(since)) + rest);
    ReadCountAt(data, pos + 8, since, rest);
  }

  /** The skipped keys, preceded by their number as 32 bits. */
  ghost function StoreCells(m: map<u32, Key>): Blob {
    Octets(Be32(|m| % 0x1_0000_0000)) + SkippedCells(m)
  }

  lemma ReadStoreAt(data: Blob, pos: nat, m: map<u32, Key>)
    requires |m| <= U32_MAX && At(data, pos, StoreCells(m))
    ensures ReadU32(data, pos) == Some(|m|) && ReadEntries(data, pos + 4, |m|, map[]) == Some(m)
  {
    hide Be32, Octets, ReadU32, At, SkippedCells, ReadEntries;
    assert |m| % 0x1_0000_0000 == |m|;
    ReadCountAt(data, pos, |m|, SkippedCells(m));
    ReadEntriesAt(data, pos + 4, m, map[]);
    assert map[] + m == m;
  }

  /** The fields that `to_bytes` writes after the remote key. */
  ghost function TailCells(s: State): Blob {
    [KeyCell(s.root), KeyCell(s.chainSend), KeyCell(s.chainRecv)]
    + CounterCells(s.sendCount, s.recvCount, s.sendsSinceDh, StoreCells(s.skipped))
  }

  lemma ReadTailAt(data: Blob, pos: nat, s: State)
    requires |s.skipped| <= U32_MAX && At(data, pos, TailCells(s))
    ensures ReadTail(data, pos, 2, s.secret, s.public, s.remote) == Some(s)
  {
    hide CounterCells, StoreCells, ReadEntries, ReadU32, ReadKey, At;
    var store := StoreCells(s.skipped);
    ReadThreeKeysAt(data, pos, s.root, s.chainSend, s.chainRecv, CounterCells(s.sendCount, s.recvCount, s.sendsSinceDh, store));
    ReadCountersAt(data, pos + 3, s.sendCount, s.recvCount, s.sendsSinceDh, store);
    ReadStoreAt(data, pos + 15, s.skipped);
  }

  lemma SerializeParts(s: State)
    ensures Serialize(s) == [Octet(2), SecretCell(s.secret), PubCell(s.public)] + RemoteCells(s.remote) + TailCells(s)
  {
    hide Be32, Octets, SkippedCells;
  }

  /** `from_bytes` undoes `to_bytes` whatever the number of skipped keys, and ignores what follows. */
  lemma DeserializeSerialize(s: State, post: Blob)
    requires |s.skipped| <= U32_MAX
    ensures Deserialize(Serialize(s) + post) == Some(s)
  {
    hide TailCells, ReadTail, HeadCells, Serialize;
    var pre := [Octet(2), SecretCell(s.secret), PubCell(s.public)] + RemoteCells(s.remote);
    var data := Serialize(s) + post;
    SerializeParts(s);
    assert data[..|pre|] == pre;
    assert data[0] == pre[0] && data[1] == pre[1] && data[2] == pre[2] && data[3] == pre[3];
    assert s.remote.Some? ==> data[4] == pre[4];
    assert At(data, |pre|, TailCells(s));
    ReadTailAt(data, |pre|, s);
  }

  /** A blob as version 1 wrote it: without the count of sends since the last rotation. */
  ghost function SerializeV1(s: State): Blob {
    [Octet(1), SecretCell(s.secret), PubCell(s.public)] + RemoteCells(s.remote)
    + ([KeyCell(s.root), KeyCell(s.chainSend), KeyCell(s.chainRecv)]
       + (Octets(Be32(s.sendCount)) + (Octets(Be32(s.recvCount)) + StoreCells(s.skipped))))
  }

  lemma ReadOldTailAt(data: Blob, pos: nat, s: State)
    requires |s.skipped| <= U32_MAX
    requires At(data, pos, [KeyCell(s.root), KeyCell(s.chainSend), KeyCell(s.chainRecv)]
                           + (Octets(Be32(s.sendCount)) + (Octets(Be32(s.recvCount)) + StoreCells(s.skipped))))
    ensures ReadTail(data, pos, 1, s.secret, s.public, s.remote) == Some(s.(sendsSinceDh := 0))
  {
    hide Be32, Octets, StoreCells, ReadEntries, ReadU32, ReadKey, At;
    var store := StoreCells(s.skipped);
    ReadThreeKeysAt(data, pos, s.root, s.chainSend, s.chainRecv, Octets(Be32(s.sendCount)) + (Octets(Be32(s.recvCount)) + store));
    ReadCountAt(data, pos + 3, s.sendCount, Octets(Be32(s.recvCount)) + store);
    ReadCountAt(data, pos + 7, s.recvCount, store);
    ReadStoreAt(data, pos + 11, s.skipped);
  }

  /** From a version 1 blob the whole state comes back but for that count, which starts again at zero in
      the middle of an epoch. */
  lemma VersionOneResetsTheCadence(s: State, post: Blob)
    requires |s.skipped| <= U32_MAX
    ensures Deserialize(SerializeV1(s) + post) == Some(s.(sendsSinceDh := 0))
  {
    hide ReadTail, StoreCells, Be32, Octets;
    var pre := [Octet(1), SecretCell(s.secret), PubCell(s.public)] + RemoteCells(s.remote);
    var tail := [KeyCell(s.root), KeyCell(s.chainSend), KeyCell(s.chainRecv)]
                + (Octets(Be32(s.sendCount)) + (Octets(Be32(s.recvCount)) + StoreCells(s.skipped)));
    var data := SerializeV1(s) + post;
    assert data == pre + tail + post;
    assert data[0] == pre[0] && data[1] == pre[1] && data[2] == pre[2] && data[3] == pre[3];
    assert s.remote.Some? ==> data[4] == pre[4];
    assert At(data, |pre|, tail);
    ReadOldTailAt(data, |pre|, s);
  }
}
