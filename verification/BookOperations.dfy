/** What the operations of the transcript do to its entries, field by field, and which byte strings it
    loads (`src/rust/message_book.rs`). */
module BookOperations {
  import opened Collections
  import opened Crypto
  import opened Cursor
  import opened Wire
  import opened Text
  import opened SafeText
  import opened MessageBook
  import opened TranscriptCodec

  // ---------------------------------------------------------------- adding

  lemma {:induction false} NewestIsSuffix(es: seq<Entry>)
    ensures Newest(es) == if |es| <= 2000 then es else es[|es| - 2000..]
    decreases |es|
  {
    if |es| <= 2000 {
    } else {
      NewestIsSuffix(es[1..]);
    }
  }

  /** `add`: one entry follows those that were there; the oldest go when there are more than 2000. It has
      the id, text, time and direction given, is queued exactly when it is the user's own, and expires
      exactly when there is a time to live. The text is kept as it is if it is clean. */
  lemma AddStores(b: Book, mine: bool, text: Str, now: u64, ttl: u64)
    ensures var r := Added(b, mine, text, now, ttl);
            && |r.entries| == (if |b.entries| < 2000 then |b.entries| + 1 else 2000)
            && r.entries[..|r.entries| - 1] == b.entries[|b.entries| + 1 - |r.entries|..]
            && (r.held, r.ephemeral) == (b.held, b.ephemeral)
            && var e := r.entries[|r.entries| - 1];
               && e.id == (if b.nextId == 0 then 1 else b.nextId) && r.nextId == (if e.id == U64_MAX then 1 else e.id + 1)
               && (e.mine, e.sentAt) == (mine, now) && e.delivery == (if mine then Queued else NoDelivery)
               && e.expiresAt == (if ttl == 0 then None else Some(if now + ttl <= U64_MAX then now + ttl else U64_MAX))
               && e.text == Capped(Sanitized(text), 8192)
               && ((forall c :: c in text ==> !Harmful(c)) && |Utf8(text)| <= 8192 ==> e.text == text)
  {
    hide Newest, Sanitized, Capped, Utf8, Harmful;
    var e := NewEntry(b, mine, text, now, ttl);
    NewestIsSuffix(b.entries + [e]);
    SanitizedIsHarmless(text);
    var r := Added(b, mine, text, now, ttl);
    assert r.entries[|r.entries| - 1] == e;
  }

  // ---------------------------------------------------------------- changing and removing entries

  /** Entry `i` is the first with the id, among the user's own entries if `mineOnly`. */
  predicate IsFirst(es: seq<Entry>, i: nat, id: u64, mineOnly: bool) {
    && i < |es| && es[i].id == id && (mineOnly ==> es[i].mine)
    && forall k :: 0 <= k < i ==> es[k].id != id || (mineOnly && !es[k].mine)
  }

  lemma {:induction false} FirstIndexIsFirst(es: seq<Entry>, id: u64, mineOnly: bool)
    ensures var i := FirstIndex(es, id, mineOnly);
            if i < |es| then IsFirst(es, i, id, mineOnly) else forall k :: 0 <= k < |es| ==> es[k].id != id || (mineOnly && !es[k].mine)
  {
    if es == [] || (es[0].id == id && (es[0].mine || !mineOnly)) {
    } else {
      FirstIndexIsFirst(es[1..], id, mineOnly);
      assert forall k :: 1 <= k < |es| ==> es[k] == es[1..][k - 1];
    }
  }

  /** `set_delivery`: the first own entry with the id gets the state, and nothing else changes. */
  lemma DeliveryChangesOne(b: Book, id: u64, d: Delivery)
    ensures var r := WithDelivery(b, id, d);
            && |r.entries| == |b.entries| && (r.held, r.nextId, r.ephemeral) == (b.held, b.nextId, b.ephemeral)
            && forall i :: 0 <= i < |b.entries| ==>
                 r.entries[i] == if IsFirst(b.entries, i, id, true) then b.entries[i].(delivery := d) else b.entries[i]
  {
    FirstIndexIsFirst(b.entries, id, true);
  }

  /** `delete`: the first entry with the id is removed, and nothing else changes. */
  lemma DeleteRemovesOne(b: Book, id: u64)
    ensures var r := Deleted(b, id);
            && (r.held, r.nextId, r.ephemeral) == (b.held, b.nextId, b.ephemeral)
            && (forall i :: 0 <= i < |b.entries| && IsFirst(b.entries, i, id, false) ==> r.entries == b.entries[..i] + b.entries[i + 1..])
            && (!HasId(b.entries, id) ==> r == b)
  {
    FirstIndexIsFirst(b.entries, id, false);
    var i := FirstIndex(b.entries, id, false);
    if i < |b.entries| {
      assert HasId(b.entries, id);
      forall j | 0 <= j < |b.entries| && IsFirst(b.entries, j, id, false)
        ensures j == i
      {
      }
    }
  }

  ghost function Unexpired(now: u64): Entry -> bool {
    (e: Entry) => e.expiresAt.None? || e.expiresAt.value > now
  }

  lemma {:induction false} LivingAreUnexpired(es: seq<Entry>, now: u64)
    ensures Living(es, now) == Filter(es, Unexpired(now))
  {
    if es == [] {
    } else {
      LivingAreUnexpired(es[1..], now);
    }
  }

  /** `purge_expired`: exactly the entries whose deadline has come are gone, visible and parked. */
  lemma PurgeDropsExpired(b: Book, now: u64)
    ensures var r := Purged(b, now);
            && r.entries == Filter(b.entries, Unexpired(now)) && (r.nextId, r.ephemeral) == (b.nextId, b.ephemeral)
            && r.held == (if b.held.None? then None else Some(Filter(b.held.value, Unexpired(now))))
  {
    LivingAreUnexpired(b.entries, now);
    if b.held.Some? {
      LivingAreUnexpired(b.held.value, now);
    }
  }

  /** Parking shows nothing and an unpark undoes it; a second park keeps what the first one parked. */
  lemma UnparkUndoesPark(b: Book)
    ensures Parked(b).entries == [] && Parked(b).held.Some?
    ensures b.held.None? ==> Unparked(Parked(b)) == b && Unparked(b) == b
    ensures b.held.Some? ==> Unparked(Parked(b)) == b.(entries := b.held.value, held := None) && Unparked(Parked(b)) == Unparked(b)
  {
  }

  /** After a clear nothing comes back: neither an unpark nor an export has anything of what was there. */
  lemma ClearLeavesNothing(b: Book, now: u64)
    ensures var r := Cleared(b);
            && r.entries == [] && Unparked(r) == r && (r.nextId, r.ephemeral) == (b.nextId, b.ephemeral)
            && Parse(Exported(r), now) == Ok(Loaded([], 0))
  {
    hide Parse;
    var r := Cleared(b);
    assert Exported(r) == MAGIC + (Be32(0) + []);
    NothingParsed(now);
  }

  lemma NothingParsed(now: u64)
    ensures Parse(MAGIC + (Be32(0) + []), now) == Ok(Loaded([], 0))
  {
    ParseParts([], 0, now);
  }

  /** `load`: bytes that are refused change nothing; otherwise the entries are those loaded, a parked
      transcript is dropped, and the next id follows the highest loaded one. */
  lemma LoadReplaces(b: Book, raw: Bytes, now: u64)
    ensures match Parse(raw, now)
            case Err(_) => After(b, Parse(raw, now)) == b
            case Ok(l) => After(b, Parse(raw, now)) == Book(l.entries, None, if l.maxId == U64_MAX then 1 else l.maxId + 1, b.ephemeral)
  {
    hide Parse;
  }

  // ---------------------------------------------------------------- which bytes are loaded

  /** The encoding of an entry, byte by byte: id, direction, delivery, time, deadline, length, text. */
  lemma EntryLayout(e: Entry)
    requires |Utf8(e.text)| < 0x1_0000_0000
    ensures var b := EntryBytes(e);
            && |b| == 30 + |Utf8(e.text)| && FromBe64(b[0..8]) == e.id && b[8] == (if e.mine then 1 else 0)
            && b[9] == (match e.delivery case NoDelivery => 0 case Queued => 1 case Sent => 2 case Failed => 3)
            && FromBe64(b[10..18]) == e.sentAt && FromBe64(b[18..26]) == (if e.expiresAt.None? then 0 else e.expiresAt.value)
            && FromBe32(b[26..30]) == |Utf8(e.text)| && b[30..] == Utf8(e.text)
  {
    hide Be64, Be32, FromBe64, FromBe32, Utf8;
    var b := EntryBytes(e);
    assert b[0..|b|] == b;
    FieldsAt(b, 0, e);
    Be64RoundTrip(e.id);
    Be64RoundTrip(e.sentAt);
    Be64RoundTrip(Deadline(e));
    Be32RoundTrip(|Utf8(e.text)|);
    assert b[8..9] == [b[8]] && b[9..10] == [b[9]] && b[30..|b|] == b[30..];
  }

  /** What `load` answers to a header that it does not take: bytes over the limit and counts over 2000 are
      too large, anything else that does not begin with the magic and a count is malformed. */
  lemma HeaderRefused(raw: Bytes, now: u64)
    ensures |raw| > MAX_ENCODED_BYTES ==> Parse(raw, now) == Err(TooLarge)
    ensures |raw| <= MAX_ENCODED_BYTES && (|raw| < 9 || raw[..5] != [0x48, 0x43, 0x4D, 0x42, 0x31]) ==> Parse(raw, now) == Err(Malformed)
    ensures 9 <= |raw| <= MAX_ENCODED_BYTES && raw[..5] == [0x48, 0x43, 0x4D, 0x42, 0x31] && FromBe32(raw[5..9]) > 2000 ==>
              Parse(raw, now) == Err(TooLarge)
  {
    hide FromBe32, ReadEntries;
    if |raw| >= 5 {
      assert raw[0..5] == raw[..5];
    }
  }

  /** An entry is too large exactly when all before its text is well-formed but the length of the text is
      over the limit; every other entry that cannot be read is malformed. */
  lemma EntryTooLargeIff(raw: Bytes, pos: nat)
    ensures ReadEntry(raw, pos) == Err(TooLarge)
       <==> pos + 30 <= |raw| && raw[pos + 8] <= 1 && FromBe64(raw[pos..pos + 8]) != 0 && raw[pos + 9] <= 3 && FromBe32(raw[pos + 26..pos + 30]) > 8192
  {
    hide FromBe32, FromBe64, FromUtf8;
  }

  /** What the encoding can carry: text need not be clean. */
  predicate Carried(e: Entry) {
    1 <= e.id && e.expiresAt != Some(0) && |Utf8(e.text)| <= MAX_TEXT_BYTES
  }

  /** No entry has the id of an earlier one that has not expired. */
  ghost predicate NoClash(es: seq<Entry>, now: u64) {
    forall i, j :: 0 <= i < j < |es| && Unexpired(now)(es[i]) ==> es[i].id != es[j].id
  }

  ghost predicate AllCarried(es: seq<Entry>) {
    forall i :: 0 <= i < |es| ==> Carried(es[i])
  }

  /** The entries as they are loaded: without the expired ones, and with clean text. */
  ghost function Cleanly(es: seq<Entry>, now: u64): seq<Entry> {
    if es == [] then []
    else (if Unexpired(now)(es[0]) then [es[0].(text := Capped(Sanitized(es[0].text), 8192))] else []) + Cleanly(es[1..], now)
  }

  lemma Be64Back(b: Bytes)
    requires |b| == 8
    ensures Be64(FromBe64(b)) == b
  {
    hide Be32, FromBe32;
    var hi: nat, lo: nat := FromBe32(b[..4]), FromBe32(b[4..]);
    FromBe32RoundTrip(b[..4]);
    FromBe32RoundTrip(b[4..]);
    assert (hi * 0x1_0000_0000 + lo) / 0x1_0000_0000 == hi && (hi * 0x1_0000_0000 + lo) % 0x1_0000_0000 == lo;
    assert b[..4] + b[4..] == b;
  }

  lemma DeliveryBack(b: byte)
    requires DeliveryFromByte(b).Some?
    ensures DeliveryToByte(DeliveryFromByte(b).value) == b
  {
  }

  /** The pieces that `ReadEntry` takes lie side by side. */
  lemma TakenPieces(raw: Bytes, pos: nat, n: nat)
    requires pos + 30 + n <= |raw|
    ensures raw[pos..pos + 30 + n] == raw[pos..pos + 8] + (raw[pos + 8..pos + 9] + (raw[pos + 9..pos + 10] + (raw[pos + 10..pos + 18]
            + (raw[pos + 18..pos + 26] + (raw[pos + 26..pos + 30] + raw[pos + 30..pos + 30 + n])))))
  {
  }

  /** What is read as an entry is the encoding of it. */
  lemma ReadIsEncoded(raw: Bytes, pos: nat)
    requires ReadEntry(raw, pos).Ok?
    ensures var r := ReadEntry(raw, pos).value;
            Carried(r.entry) && pos <= r.pos <= |raw| && raw[pos..r.pos] == EntryBytes(r.entry)
  {
    hide Be64, Be32, FromBe64, FromBe32, Utf8, FromUtf8, DeliveryToByte, DeliveryFromByte;
    var e, end := ReadEntry(raw, pos).value.entry, ReadEntry(raw, pos).value.pos;
    var n := end - pos - 30;
    TakenPieces(raw, pos, n);
    Be64Back(raw[pos..pos + 8]);
    DeliveryBack(raw[pos + 9]);
    Be64Back(raw[pos + 10..pos + 18]);
    Be64Back(raw[pos + 18..pos + 26]);
    FromBe32RoundTrip(raw[pos + 26..pos + 30]);
    Utf8Back(raw[pos + 30..pos + 30 + n]);
    assert raw[pos + 8..pos + 9] == [raw[pos + 8]] && raw[pos + 9..pos + 10] == [raw[pos + 9]];
    assert |Utf8(e.text)| == n && n % 0x1_0000_0000 == n;
  }

  /** An entry that is carried is read back, clean or not. */
  lemma CarriedIsRead(raw: Bytes, pos: nat, e: Entry)
    requires Carried(e) && At(raw, pos, EntryBytes(e))
    ensures ReadEntry(raw, pos) == Ok(Read(e, pos + |EntryBytes(e)|))
  {
    hide Be64, Be32, FromBe64, FromBe32, Utf8, FromUtf8, Take, At, EntryBytes;
    FieldsAt(raw, pos, e);
    Be64RoundTrip(e.id);
    Be64RoundTrip(e.sentAt);
    Be64RoundTrip(Deadline(e));
    Be32RoundTrip(|Utf8(e.text)|);
    FromUtf8Back(e.text);
    EntryLength(e);
  }

  lemma CleanlyAppends(found: seq<Entry>, e: Entry, rest: seq<Entry>, now: u64)
    ensures Kept(found, e, now) + Cleanly(rest, now) == found + Cleanly([e] + rest, now)
    ensures forall id :: HasId(Kept(found, e, now), id) <==> HasId(found, id) || (Unexpired(now)(e) && e.id == id)
  {
    hide Capped, Sanitized, HasId;
    assert ([e] + rest)[1..] == rest;
    KeptIds(found, e, now);
  }

  lemma KeptIds(found: seq<Entry>, e: Entry, now: u64)
    ensures forall id :: HasId(Kept(found, e, now), id) <==> HasId(found, id) || (Unexpired(now)(e) && e.id == id)
  {
    hide Cleaned;
    var kept := Kept(found, e, now);
    forall id
      ensures HasId(kept, id) <==> HasId(found, id) || (Unexpired(now)(e) && e.id == id)
    {
      if HasId(found, id) {
        var i :| 0 <= i < |found| && found[i].id == id;
        assert kept[i].id == id;
      }
      if Unexpired(now)(e) && e.id == id {
        assert kept[|found|].id == id;
      }
    }
  }

  /** None of the entries has an id that is already found, nor one of an unexpired earlier one. */
  ghost predicate Loadable(es: seq<Entry>, found: seq<Entry>, now: u64) {
    NoClash(es, now) && forall i :: 0 <= i < |es| ==> !HasId(found, es[i].id)
  }

  lemma LoadableTail(e: Entry, rest: seq<Entry>, found: seq<Entry>, now: u64)
    requires Loadable([e] + rest, found, now)
    ensures !HasId(found, e.id) && Loadable(rest, Kept(found, e, now), now)
  {
    hide HasId, Unexpired, Kept;
    KeptIds(found, e, now);
    var es := [e] + rest;
    assert es[0] == e && forall i :: 0 <= i < |rest| ==> es[i + 1] == rest[i];
    forall i | 0 <= i < |rest|
      ensures !HasId(Kept(found, e, now), rest[i].id)
    {
      assert !HasId(found, es[i + 1].id);
    }
    forall i, j | 0 <= i < j < |rest| && Unexpired(now)(rest[i])
      ensures rest[i].id != rest[j].id
    {
      assert es[i + 1] == rest[i] && es[j + 1] == rest[j];
    }
  }

  lemma LoadableCons(e: Entry, rest: seq<Entry>, found: seq<Entry>, now: u64)
    requires !HasId(found, e.id) && Loadable(rest, Kept(found, e, now), now)
    ensures Loadable([e] + rest, found, now)
  {
    hide HasId, Unexpired, Kept;
    KeptIds(found, e, now);
    var es := [e] + rest;
    forall i, j | 0 <= i < j < |es| && Unexpired(now)(es[i])
      ensures es[i].id != es[j].id
    {
      assert es[j] == rest[j - 1] && !HasId(Kept(found, e, now), rest[j - 1].id);
      if i > 0 {
        assert es[i] == rest[i - 1];
      }
    }
    forall i | 0 <= i < |es|
      ensures !HasId(found, es[i].id)
    {
      if i > 0 {
        assert es[i] == rest[i - 1] && !HasId(Kept(found, e, now), rest[i - 1].id);
      }
    }
  }

  lemma LoadableConsIff(e: Entry, rest: seq<Entry>, found: seq<Entry>, now: u64)
    ensures Loadable([e] + rest, found, now) <==> !HasId(found, e.id) && Loadable(rest, Kept(found, e, now), now)
  {
    hide Loadable, HasId, Kept;
    if Loadable([e] + rest, found, now) {
      LoadableTail(e, rest, found, now);
    } else if !HasId(found, e.id) && Loadable(rest, Kept(found, e, now), now) {
      LoadableCons(e, rest, found, now);
    }
  }

  /** The entries encoded from `pos` to the end are read, if and only if their ids allow it. */
  lemma {:induction false} EncodedAreRead(raw: Bytes, pos: nat, es: seq<Entry>, found: seq<Entry>, maxId: u64, now: u64)
    requires At(raw, pos, EntriesBytes(es)) && pos + |EntriesBytes(es)| == |raw| && AllCarried(es)
    ensures ReadEntries(raw, pos, |es|, found, maxId, now)
         == if Loadable(es, found, now) then Ok(Loaded(found + Cleanly(es, now), MaxId(es, maxId))) else Err(Malformed)
    decreases |es|
  {
    hide ReadEntry, EntryBytes, Carried, Kept, Loadable, HasId;
    if es == [] {
      NothingClashes(found, now);
      assert found + Cleanly(es, now) == found;
    } else {
      var e, rest := es[0], es[1..];
      assert es == [e] + rest && Carried(e);
      AtSplit(raw, pos, EntryBytes(e), EntriesBytes(rest));
      CarriedIsRead(raw, pos, e);
      LoadableConsIff(e, rest, found, now);
      CleanlyAppends(found, e, rest, now);
      EncodedAreRead(raw, pos + |EntryBytes(e)|, rest, Kept(found, e, now), if e.id > maxId then e.id else maxId, now);
    }
  }

  lemma NothingClashes(found: seq<Entry>, now: u64)
    ensures Loadable([], found, now)
  {
  }

  /** Whatever is read to the end is the encoding of as many entries. */
  lemma {:induction false} ReadAreEncoded(raw: Bytes, pos: nat, left: nat, found: seq<Entry>, maxId: u64, now: u64) returns (es: seq<Entry>)
    requires pos <= |raw| && ReadEntries(raw, pos, left, found, maxId, now).Ok?
    ensures |es| == left && AllCarried(es) && raw[pos..] == EntriesBytes(es)
    decreases left
  {
    hide ReadEntry, EntryBytes, Carried, Kept, HasId;
    if left == 0 {
      es := [];
    } else {
      var r := ReadEntry(raw, pos).value;
      ReadIsEncoded(raw, pos);
      var rest := ReadAreEncoded(raw, r.pos, left - 1, Kept(found, r.entry, now), if r.entry.id > maxId then r.entry.id else maxId, now);
      es := [r.entry] + rest;
      assert es[1..] == rest && raw[pos..] == raw[pos..r.pos] + raw[r.pos..];
    }
  }

  ghost predicate Encodes(raw: Bytes, es: seq<Entry>) {
    |es| <= MAX_MESSAGES && AllCarried(es) && raw == MAGIC + (Be32(|es|) + EntriesBytes(es))
  }

  lemma HeaderParts(raw: Bytes, n: nat)
    requires |raw| >= 9 && raw[0..5] == MAGIC && FromBe32(raw[5..9]) == n && n < 0x1_0000_0000
    ensures raw == MAGIC + (Be32(n) + raw[9..])
  {
    hide Be32, FromBe32;
    FromBe32RoundTrip(raw[5..9]);
    assert raw == raw[0..5] + (raw[5..9] + raw[9..]);
  }

  lemma ParsedIsEncoded(raw: Bytes, now: u64) returns (es: seq<Entry>)
    requires Parse(raw, now).Ok?
    ensures Encodes(raw, es)
  {
    hide Be32, FromBe32, ReadEntries, EntriesBytes, AllCarried;
    var n := FromBe32(raw[5..9]);
    HeaderParts(raw, n);
    es := ReadAreEncoded(raw, 9, n, [], 0, now);
  }

  lemma EncodedIsParsedIff(raw: Bytes, es: seq<Entry>, now: u64)
    requires Encodes(raw, es) && |raw| <= MAX_ENCODED_BYTES
    ensures Parse(raw, now) == if NoClash(es, now) then Ok(Loaded(Cleanly(es, now), MaxId(es, 0))) else Err(Malformed)
  {
    hide Be32, FromBe32, ReadEntries, EntriesBytes, AllCarried, Parse, MaxId, Cleanly, NoClash;
    ParseParts(EntriesBytes(es), |es|, now);
    EncodedAreRead(raw, 9, es, [], 0, now);
    assert [] + Cleanly(es, now) == Cleanly(es, now);
  }

  /** `load` accepts exactly the encodings of at most 2000 entries that the limit on the size admits and
      in which no entry has the id of an earlier one that has not expired. */
  lemma LoadsExactlyTheEncodings(raw: Bytes, now: u64)
    ensures Parse(raw, now).Ok? <==> |raw| <= MAX_ENCODED_BYTES && exists es :: Encodes(raw, es) && NoClash(es, now)
    ensures forall es :: Encodes(raw, es) && Parse(raw, now).Ok? ==> Parse(raw, now).value == Loaded(Cleanly(es, now), MaxId(es, 0))
  {
    hide Encodes, NoClash, Cleanly, MaxId, ReadEntries;
    if Parse(raw, now).Ok? {
      var es := ParsedIsEncoded(raw, now);
      EncodedIsParsedIff(raw, es, now);
      hide Parse;
    }
    forall es | Encodes(raw, es) && |raw| <= MAX_ENCODED_BYTES
      ensures Parse(raw, now) == if NoClash(es, now) then Ok(Loaded(Cleanly(es, now), MaxId(es, 0))) else Err(Malformed)
    {
      EncodedIsParsedIff(raw, es, now);
    }
  }
}
