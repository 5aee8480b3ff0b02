/** What every transcript keeps, what survives its encoding, and the decoy screen
    (`src/rust/message_book.rs`). */
module TranscriptCodec {
  import opened Crypto
  import opened Cursor
  import opened Wire
  import opened Text
  import opened MessageBook

  // ---------------------------------------------------------------- well-formed books

  /** An entry that the encoding can carry: the deadline 0 is the code of "never". */
  predicate EntryOk(e: Entry) {
    1 <= e.id && Clean(e.text) && e.expiresAt != Some(0)
  }

  ghost predicate EntriesOk(es: seq<Entry>, next: u64) {
    && |es| <= MAX_MESSAGES
    && (forall i :: 0 <= i < |es| ==> EntryOk(es[i]) && es[i].id < next)
    && (forall i, j :: 0 <= i < j < |es| ==> es[i].id != es[j].id)
  }

  ghost predicate BookOk(b: Book) {
    1 <= b.nextId && EntriesOk(b.entries, b.nextId) && (b.held.Some? ==> EntriesOk(b.held.value, b.nextId))
  }

  datatype Event =
    | Add(mine: bool, text: Str, now: u64, ttl: u64)
    | SetDelivery(id: u64, d: Delivery)
    | Delete(id: u64)
    | Clear
    | Park
    | Unpark
    | Purge(now: u64)
    | Load(raw: Bytes, now: u64)
    | SetEphemeral(on: bool)

  function Next(b: Book, ev: Event): Book {
    match ev
    case Add(mine, text, now, ttl) => Added(b, mine, text, now, ttl)
    case SetDelivery(id, d) => WithDelivery(b, id, d)
    case Delete(id) => Deleted(b, id)
    case Clear => Cleared(b)
    case Park => Parked(b)
    case Unpark => Unparked(b)
    case Purge(now) => Purged(b, now)
    case Load(raw, now) => After(b, Parse(raw, now))
    case SetEphemeral(on) => b.(ephemeral := on)
  }

  /** The event does not take the id counter around. */
  predicate NoWrap(b: Book, ev: Event) {
    match ev
    case Add(_, _, _, _) => b.nextId < U64_MAX
    case Load(raw, now) => Parse(raw, now).Ok? ==> Parse(raw, now).value.maxId < U64_MAX
    case _ => true
  }

  lemma EntriesOkSuffix(es: seq<Entry>, k: nat, next: u64)
    requires EntriesOk(es, next) && k <= |es|
    ensures EntriesOk(es[k..], next)
  {
  }

  lemma EntriesOkSnoc(es: seq<Entry>, e: Entry, next: u64, next': u64)
    requires EntriesOk(es, next) && EntryOk(e) && !HasId(es, e.id) && e.id < next' && next <= next' && |es| < MAX_MESSAGES
    ensures EntriesOk(es + [e], next')
  {
    hide EntryOk;
    forall i | 0 <= i < |es|
      ensures es[i].id != e.id
    {
    }
  }

  lemma EntriesOkCons(e: Entry, es: seq<Entry>, next: u64)
    requires EntriesOk(es, next) && EntryOk(e) && !HasId(es, e.id) && e.id < next && |es| < MAX_MESSAGES
    ensures EntriesOk([e] + es, next)
  {
    hide EntryOk;
  }

  lemma NewEntryOk(b: Book, mine: bool, text: Str, now: u64, ttl: u64)
    ensures EntryOk(NewEntry(b, mine, text, now, ttl))
  {
    CleanTextIdempotent(text);
    hide Cleaned, Clean;
  }

  /** `add` drops the oldest entry when the list is full. */
  lemma NewestOfFull(es: seq<Entry>, e: Entry)
    requires |es| <= MAX_MESSAGES
    ensures Newest(es + [e]) == (if |es| < MAX_MESSAGES then es else es[1..]) + [e]
  {
    if |es| == MAX_MESSAGES {
      assert (es + [e])[1..] == es[1..] + [e];
    }
  }

  lemma NoSuchId(es: seq<Entry>, next: u64)
    requires EntriesOk(es, next)
    ensures !HasId(es, next)
  {
  }

  lemma AddKeeps(b: Book, mine: bool, text: Str, now: u64, ttl: u64)
    requires BookOk(b) && b.nextId < U64_MAX
    ensures BookOk(Added(b, mine, text, now, ttl))
  {
    hide EntryOk, EntriesOk, Newest, HasId;
    var e := NewEntry(b, mine, text, now, ttl);
    var kept := if |b.entries| < MAX_MESSAGES then b.entries else b.entries[1..];
    EntriesOkSize(b.entries, b.nextId);
    NewEntryOk(b, mine, text, now, ttl);
    NewestOfFull(b.entries, e);
    EntriesOkSuffix(b.entries, if |b.entries| < MAX_MESSAGES then 0 else 1, b.nextId);
    assert b.entries[0..] == b.entries;
    NoSuchId(kept, b.nextId);
    EntriesOkSnoc(kept, e, b.nextId, b.nextId + 1);
    if b.held.Some? {
      EntriesOkLater(b.held.value, b.nextId, b.nextId + 1);
    }
  }

  lemma EntriesOkSize(es: seq<Entry>, next: u64)
    requires EntriesOk(es, next)
    ensures |es| <= MAX_MESSAGES
  {
  }

  lemma EntriesOkLater(es: seq<Entry>, next: u64, next': u64)
    requires EntriesOk(es, next) && next <= next'
    ensures EntriesOk(es, next')
  {
  }

  lemma {:induction false} LivingIds(es: seq<Entry>, now: u64, id: u64)
    ensures HasId(Living(es, now), id) ==> HasId(es, id)
    ensures |Living(es, now)| <= |es|
  {
    if es == [] {
    } else {
      LivingIds(es[1..], now, id);
      var rest := Living(es[1..], now);
      if HasId(rest, id) {
        var j :| 0 <= j < |es[1..]| && es[1..][j].id == id;
        assert es[j + 1].id == id;
      }
    }
  }

  lemma HeadIdIsAlone(es: seq<Entry>, next: u64)
    requires EntriesOk(es, next) && es != []
    ensures EntriesOk(es[1..], next) && EntryOk(es[0]) && es[0].id < next && !HasId(es[1..], es[0].id)
  {
  }

  lemma {:induction false} LivingKeeps(es: seq<Entry>, now: u64, next: u64)
    requires EntriesOk(es, next)
    ensures EntriesOk(Living(es, now), next)
  {
    hide EntryOk, EntriesOk, HasId;
    if es == [] {
      EntriesOkSuffix(es, 0, next);
    } else {
      EntriesOkSize(es, next);
      HeadIdIsAlone(es, next);
      LivingKeeps(es[1..], now, next);
      LivingIds(es[1..], now, es[0].id);
      var rest := Living(es[1..], now);
      EntriesOkCons(es[0], rest, next);
      assert [] + rest == rest;
    }
  }

  lemma DeleteKeeps(b: Book, id: u64)
    requires BookOk(b)
    ensures BookOk(Deleted(b, id))
  {
    hide EntryOk, FirstIndex;
    var i := FirstIndex(b.entries, id, false);
    if i < |b.entries| {
      var r := b.entries[..i] + b.entries[i + 1..];
      forall j | 0 <= j < |r|
        ensures r[j] == b.entries[if j < i then j else j + 1]
      {
      }
    }
  }

  lemma KeptOk(found: seq<Entry>, e: Entry, now: u64, next: u64, next': u64)
    requires EntriesOk(found, next) && next <= next' && e.id < next' && |found| < MAX_MESSAGES
    requires 1 <= e.id && e.expiresAt != Some(0) && !HasId(found, e.id)
    ensures EntriesOk(Kept(found, e, now), next') && |Kept(found, e, now)| <= |found| + 1
  {
    hide EntriesOk, Cleaned, Clean, HasId;
    CleanTextIdempotent(e.text);
    EntriesOkSnoc(found, e.(text := Cleaned(e.text)), next, next');
    EntriesOkLater(found, next, next');
  }

  lemma {:induction false} ReadKeeps(raw: Bytes, pos: nat, left: nat, found: seq<Entry>, maxId: u64, now: u64)
    requires maxId < U64_MAX && EntriesOk(found, maxId + 1) && |found| + left <= MAX_MESSAGES
    requires ReadEntries(raw, pos, left, found, maxId, now).Ok?
    ensures var l := ReadEntries(raw, pos, left, found, maxId, now).value;
            maxId <= l.maxId && (l.maxId < U64_MAX ==> EntriesOk(l.entries, l.maxId + 1))
    decreases left
  {
    hide ReadEntry, EntriesOk, Kept, HasId;
    if left == 0 {
    } else {
      var r := ReadEntry(raw, pos).value;
      ReadEntryFields(raw, pos);
      var m := if r.entry.id > maxId then r.entry.id else maxId;
      var next := Kept(found, r.entry, now);
      if m == U64_MAX {
        MaxIdOnlyGrows(raw, r.pos, left - 1, next, m, now);
      } else {
        KeptOk(found, r.entry, now, maxId + 1, m + 1);
        ReadKeeps(raw, r.pos, left - 1, next, m, now);
      }
    }
  }

  lemma ReadEntryFields(raw: Bytes, pos: nat)
    requires ReadEntry(raw, pos).Ok?
    ensures var e := ReadEntry(raw, pos).value.entry; 1 <= e.id && e.expiresAt != Some(0)
  {
    hide FromUtf8, FromBe32, FromBe64;
  }

  lemma {:induction false} MaxIdOnlyGrows(raw: Bytes, pos: nat, left: nat, found: seq<Entry>, maxId: u64, now: u64)
    requires ReadEntries(raw, pos, left, found, maxId, now).Ok?
    ensures maxId <= ReadEntries(raw, pos, left, found, maxId, now).value.maxId
    decreases left
  {
    hide ReadEntry, Kept, HasId;
    if left == 0 {
    } else {
      var r := ReadEntry(raw, pos).value;
      MaxIdOnlyGrows(raw, r.pos, left - 1, Kept(found, r.entry, now), if r.entry.id > maxId then r.entry.id else maxId, now);
    }
  }

  /** Every operation, a load of arbitrary bytes included, keeps the book well-formed until the id
      counter wraps around. */
  lemma EventKeepsBook(b: Book, ev: Event)
    requires BookOk(b) && NoWrap(b, ev)
    ensures BookOk(Next(b, ev))
  {
    hide EntryOk, ReadEntries, Living, Newest;
    match ev
    case Add(mine, text, now, ttl) => AddKeeps(b, mine, text, now, ttl);
    case Delete(id) => DeleteKeeps(b, id);
    case SetDelivery(id, d) => DeliveryKeeps(b, id, d);
    case Purge(now) =>
      LivingKeeps(b.entries, now, b.nextId);
      if b.held.Some? {
        LivingKeeps(b.held.value, now, b.nextId);
      }
    case Load(raw, now) =>
      if Parse(raw, now).Ok? {
        ReadKeeps(raw, 9, FromBe32(Take(raw, 5, 4).value), [], 0, now);
      }
    case _ =>
  }

  ghost function Run(b: Book, run: seq<Event>): Book
    decreases |run|
  {
    if run == [] then b else Run(Next(b, run[0]), run[1..])
  }

  ghost predicate NoWraps(b: Book, run: seq<Event>)
    decreases |run|
  {
    run == [] || (NoWrap(b, run[0]) && NoWraps(Next(b, run[0]), run[1..]))
  }

  lemma {:induction false} RunKeepsBook(b: Book, run: seq<Event>)
    requires BookOk(b) && NoWraps(b, run)
    ensures BookOk(Run(b, run))
    decreases |run|
  {
    hide BookOk, NoWrap, Next;
    if run == [] {
    } else {
      EventKeepsBook(b, run[0]);
      RunKeepsBook(Next(b, run[0]), run[1..]);
    }
  }

  lemma DeliveryKeeps(b: Book, id: u64, d: Delivery)
    requires BookOk(b)
    ensures BookOk(WithDelivery(b, id, d))
  {
    var es := WithDelivery(b, id, d).entries;
    assert |es| == |b.entries|;
    forall i | 0 <= i < |es|
      ensures es[i] == b.entries[i].(delivery := es[i].delivery)
    {
    }
  }

  // ---------------------------------------------------------------- the round trip

  function MaxId(es: seq<Entry>, m: u64): u64 {
    if es == [] then m else MaxId(es[1..], if es[0].id > m then es[0].id else m)
  }

  lemma TakeAt(raw: Bytes, pos: nat, part: Bytes)
    requires At(raw, pos, part)
    ensures Take(raw, pos, |part|) == Some(part)
  {
  }

  lemma TakeThen(raw: Bytes, pos: nat, part: Bytes, rest: Bytes)
    requires At(raw, pos, part + rest)
    ensures Take(raw, pos, |part|) == Some(part) && At(raw, pos + |part|, rest)
  {
    AtSplit(raw, pos, part, rest);
    TakeAt(raw, pos, part);
  }

  lemma EntryLength(e: Entry)
    ensures |EntryBytes(e)| == 30 + |Utf8(e.text)|
  {
  }

  function Deadline(e: Entry): u64 {
    if e.expiresAt.None? then 0 else e.expiresAt.value
  }

  /** The fields of an entry, each at its place. */
  lemma FieldsAt(raw: Bytes, pos: nat, e: Entry)
    requires |Utf8(e.text)| < 0x1_0000_0000 && At(raw, pos, EntryBytes(e))
    ensures Take(raw, pos, 8) == Some(Be64(e.id)) && Take(raw, pos + 8, 1) == Some([if e.mine then 1 else 0])
    ensures Take(raw, pos + 9, 1) == Some([DeliveryToByte(e.delivery)]) && Take(raw, pos + 10, 8) == Some(Be64(e.sentAt))
    ensures Take(raw, pos + 18, 8) == Some(Be64(Deadline(e))) && Take(raw, pos + 26, 4) == Some(Be32(|Utf8(e.text)|))
    ensures Take(raw, pos + 30, |Utf8(e.text)|) == Some(Utf8(e.text))
  {
    hide Be64, Be32, Utf8, Take, At, DeliveryToByte;
    var text := Utf8(e.text);
    var n := |text|;
    assert n % 0x1_0000_0000 == n;
    var f1: Bytes, f2: Bytes := [if e.mine then 1 else 0], [DeliveryToByte(e.delivery)];
    var r4 := Be32(n) + text;
    var r3 := Be64(Deadline(e)) + r4;
    var r2 := Be64(e.sentAt) + r3;
    TakeThen(raw, pos, Be64(e.id), f1 + (f2 + r2));
    TakeThen(raw, pos + 8, f1, f2 + r2);
    TakeThen(raw, pos + 9, f2, r2);
    TakeThen(raw, pos + 10, Be64(e.sentAt), r3);
    TakeThen(raw, pos + 18, Be64(Deadline(e)), r4);
    TakeThen(raw, pos + 26, Be32(n), text);
    TakeAt(raw, pos + 30, text);
  }

  /** An entry is read back as it was written. */
  lemma ReadEntryAt(raw: Bytes, pos: nat, e: Entry)
    requires EntryOk(e) && At(raw, pos, EntryBytes(e))
    ensures ReadEntry(raw, pos) == Ok(Read(e, pos + |EntryBytes(e)|))
  {
    hide Be64, Be32, FromBe64, FromBe32, Utf8, FromUtf8, Take, At, EntryBytes, IsTerminalSafe;
    FieldsAt(raw, pos, e);
    Be64RoundTrip(e.id);
    Be64RoundTrip(e.sentAt);
    Be64RoundTrip(Deadline(e));
    Be32RoundTrip(|Utf8(e.text)|);
    FromUtf8Back(e.text);
    EntryLength(e);
  }

  lemma KeptClean(found: seq<Entry>, e: Entry, now: u64)
    requires EntryOk(e)
    ensures Kept(found, e, now) == found + Living([e], now)
  {
    CleanTextIdempotent(e.text);
    assert Living([e], now) == if Lives(e, now) then [e] else [];
    assert found + [] == found;
  }

  lemma LivingCons(e: Entry, rest: seq<Entry>, now: u64)
    ensures Living([e] + rest, now) == Living([e], now) + Living(rest, now)
  {
    assert ([e] + rest)[1..] == rest;
  }

  /** Nothing in `es` has the id of another of its entries or of one in `found`. */
  ghost predicate AllNew(es: seq<Entry>, found: seq<Entry>) {
    && (forall i :: 0 <= i < |es| ==> EntryOk(es[i]) && !HasId(found, es[i].id))
    && (forall i, j :: 0 <= i < j < |es| ==> es[i].id != es[j].id)
  }

  lemma AllNewTail(es: seq<Entry>, found: seq<Entry>, now: u64)
    requires AllNew(es, found) && es != []
    ensures EntryOk(es[0]) && !HasId(found, es[0].id) && AllNew(es[1..], Kept(found, es[0], now))
  {
    hide EntryOk, HasId, Kept;
    forall i | 0 <= i < |es[1..]|
      ensures EntryOk(es[1..][i]) && !HasId(Kept(found, es[0], now), es[1..][i].id)
    {
      assert es[1..][i] == es[i + 1];
      NoNewId(found, es[0], now, es[i + 1].id);
    }
  }

  lemma {:induction false} ReadEntriesAt(raw: Bytes, pos: nat, es: seq<Entry>, found: seq<Entry>, maxId: u64, now: u64)
    requires At(raw, pos, EntriesBytes(es)) && pos + |EntriesBytes(es)| == |raw| && AllNew(es, found)
    ensures ReadEntries(raw, pos, |es|, found, maxId, now) == Ok(Loaded(found + Living(es, now), MaxId(es, maxId)))
    decreases |es|
  {
    hide ReadEntry, EntryBytes, EntryOk, Kept, AllNew, HasId, Lives;
    if es == [] {
      assert found + Living(es, now) == found;
    } else {
      var e, rest := es[0], es[1..];
      AllNewTail(es, found, now);
      AtSplit(raw, pos, EntryBytes(e), EntriesBytes(rest));
      ReadEntryAt(raw, pos, e);
      KeptClean(found, e, now);
      var next := Kept(found, e, now);
      ReadEntriesAt(raw, pos + |EntryBytes(e)|, rest, next, if e.id > maxId then e.id else maxId, now);
      assert es == [e] + rest;
      LivingCons(e, rest, now);
      assert next + Living(rest, now) == found + Living(es, now);
    }
  }

  lemma NoNewId(found: seq<Entry>, e: Entry, now: u64, id: u64)
    requires !HasId(found, id) && e.id != id
    ensures !HasId(Kept(found, e, now), id)
  {
  }

  lemma {:induction false} EntriesFit(es: seq<Entry>)
    requires forall i :: 0 <= i < |es| ==> EntryOk(es[i])
    ensures |EntriesBytes(es)| <= |es| * (MAX_TEXT_BYTES + 30)
  {
    if es == [] {
    } else {
      EntryLength(es[0]);
      hide EntryBytes;
      EntriesFit(es[1..]);
      assert |es| * (MAX_TEXT_BYTES + 30) == (|es| - 1) * (MAX_TEXT_BYTES + 30) + (MAX_TEXT_BYTES + 30);
    }
  }

  /** The encoding never exceeds what `load` is willing to parse. */
  lemma ExportFits(b: Book)
    requires BookOk(b)
    ensures |Exported(b)| <= MAX_ENCODED_BYTES
  {
    hide EntriesBytes, EntryOk;
    EntriesFit(Persisted(b));
    assert |Persisted(b)| * (MAX_TEXT_BYTES + 30) <= MAX_MESSAGES * (MAX_TEXT_BYTES + 30);
  }

  lemma ParseParts(body: Bytes, n: nat, now: u64)
    requires n <= MAX_MESSAGES && |MAGIC + (Be32(n) + body)| <= MAX_ENCODED_BYTES
    ensures var raw := MAGIC + (Be32(n) + body);
            Parse(raw, now) == ReadEntries(raw, 9, n, [], 0, now) && At(raw, 9, body) && 9 + |body| == |raw|
  {
    hide Be32, FromBe32, ReadEntries;
    var raw := MAGIC + (Be32(n) + body);
    assert raw[0..5] == MAGIC;
    assert raw[5..9] == Be32(n) && raw[9..] == body;
    Be32RoundTrip(n);
  }

  /** Loading an export gives back exactly the persisted entries that have not expired, in order. */
  lemma LoadExport(b: Book, now: u64)
    requires BookOk(b) && !b.ephemeral
    ensures Parse(Exported(b), now) == Ok(Loaded(Living(Persisted(b), now), MaxId(Persisted(b), 0)))
  {
    hide EntriesBytes, EntryOk, ReadEntries, Living, MaxId, Parse;
    var es := Persisted(b);
    ExportFits(b);
    assert |es| % 0x1_0000_0000 == |es|;
    ParseParts(EntriesBytes(es), |es|, now);
    ReadEntriesAt(Exported(b), 9, es, [], 0, now);
    assert [] + Living(es, now) == Living(es, now);
  }

  /** An ephemeral book exports an empty one. */
  lemma EphemeralExportsNothing(b: Book, now: u64)
    requires b.ephemeral
    ensures Parse(Exported(b), now) == Ok(Loaded([], 0))
  {
    assert Exported(b) == MAGIC + (Be32(0) + []);
    ParseParts([], 0, now);
  }

  lemma {:induction false} MaxIdBounds(es: seq<Entry>, m: u64)
    ensures m <= MaxId(es, m) && forall i :: 0 <= i < |es| ==> es[i].id <= MaxId(es, m)
    ensures MaxId(es, m) == m || exists i :: 0 <= i < |es| && es[i].id == MaxId(es, m)
  {
    if es == [] {
    } else {
      var n := if es[0].id > m then es[0].id else m;
      MaxIdBounds(es[1..], n);
      forall i | 0 <= i < |es|
        ensures es[i].id <= MaxId(es, m)
      {
        if i > 0 {
          assert es[i] == es[1..][i - 1];
        }
      }
      if MaxId(es, m) != n {
        var i :| 0 <= i < |es[1..]| && es[1..][i].id == MaxId(es[1..], n);
        assert es[i + 1].id == MaxId(es, m);
      } else if MaxId(es, m) != m {
        assert es[0].id == MaxId(es, m);
      }
    }
  }

  /** Every transcript that a new one can become, whatever is added, deleted, parked or loaded, has an
      export that fits, and loading it gives back what was persisted and has not expired. */
  lemma ReachableBookRoundTrips(run: seq<Event>, now: u64)
    requires NoWraps(Book([], None, 1, false), run)
    ensures var b := Run(Book([], None, 1, false), run);
            && |Exported(b)| <= MAX_ENCODED_BYTES
            && Parse(Exported(b), now) == Ok(if b.ephemeral then Loaded([], 0)
                                             else Loaded(Living(Persisted(b), now), MaxId(Persisted(b), 0)))
  {
    hide Run, NoWraps, Exported, Parse, Living, MaxId;
    var b := Run(Book([], None, 1, false), run);
    RunKeepsBook(Book([], None, 1, false), run);
    ExportFits(b);
    if b.ephemeral {
      EphemeralExportsNothing(b, now);
    } else {
      LoadExport(b, now);
    }
  }

  // ---------------------------------------------------------------- ids after a load

  /** The ids of the next `left` entries of the bytes, expired ones included. */
  function IdsFrom(raw: Bytes, pos: nat, left: nat): seq<u64>
    decreases left
  {
    if left == 0 then []
    else match ReadEntry(raw, pos)
      case Err(_) => []
      case Ok(r) => [r.entry.id] + IdsFrom(raw, r.pos, left - 1)
  }

  /** All ids in the bytes of a transcript. */
  function IdsIn(raw: Bytes): seq<u64> {
    var count := Take(raw, 5, 4);
    if count.None? then [] else IdsFrom(raw, 9, FromBe32(count.value))
  }

  /** `m` is the highest of `ids` and `least`. */
  ghost predicate IsHighest(ids: seq<u64>, least: u64, m: u64) {
    && least <= m && (forall i :: 0 <= i < |ids| ==> ids[i] <= m)
    && (m == least || m in ids)
  }

  lemma HighestCons(id: u64, ids: seq<u64>, least: u64, m: u64)
    requires IsHighest(ids, if id > least then id else least, m)
    ensures IsHighest([id] + ids, least, m)
  {
    assert ([id] + ids)[0] == id && forall i :: 0 <= i < |ids| ==> ([id] + ids)[i + 1] == ids[i];
  }

  lemma KeptBelow(found: seq<Entry>, e: Entry, now: u64, m: u64)
    requires forall i :: 0 <= i < |found| ==> found[i].id <= m
    ensures forall i :: 0 <= i < |Kept(found, e, now)| ==> Kept(found, e, now)[i].id <= if e.id > m then e.id else m
  {
    hide Cleaned;
  }

  /** What `load` takes for the highest id is that, and no entry it keeps has a higher one. */
  lemma {:induction false} MaxIdIsHighest(raw: Bytes, pos: nat, left: nat, found: seq<Entry>, maxId: u64, now: u64)
    requires ReadEntries(raw, pos, left, found, maxId, now).Ok?
    requires forall i :: 0 <= i < |found| ==> found[i].id <= maxId
    ensures var l := ReadEntries(raw, pos, left, found, maxId, now).value;
            && IsHighest(IdsFrom(raw, pos, left), maxId, l.maxId)
            && forall i :: 0 <= i < |l.entries| ==> l.entries[i].id <= l.maxId
    decreases left
  {
    hide ReadEntry, Kept, HasId, IsHighest;
    if left == 0 {
      assert IsHighest([], maxId, maxId) by {
        NoneIsHigher(maxId);
      }
    } else {
      var r := ReadEntry(raw, pos).value;
      var m := if r.entry.id > maxId then r.entry.id else maxId;
      KeptBelow(found, r.entry, now, maxId);
      MaxIdIsHighest(raw, r.pos, left - 1, Kept(found, r.entry, now), m, now);
      HighestCons(r.entry.id, IdsFrom(raw, r.pos, left - 1), maxId,
                  ReadEntries(raw, pos, left, found, maxId, now).value.maxId);
    }
  }

  lemma NoneIsHigher(m: u64)
    ensures IsHighest([], m, m)
  {
  }

  lemma ParsedHighest(raw: Bytes, now: u64)
    requires Parse(raw, now).Ok?
    ensures var l := Parse(raw, now).value;
            IsHighest(IdsIn(raw), 0, l.maxId) && forall i :: 0 <= i < |l.entries| ==> l.entries[i].id <= l.maxId
  {
    hide ReadEntries, IsHighest;
    MaxIdIsHighest(raw, 9, FromBe32(Take(raw, 5, 4).value), [], 0, now);
  }

  /** After any successful load the next id is above every id in the bytes if and only if none of these
      is the largest number there is. */
  lemma FreshIdIff(b: Book, raw: Bytes, now: u64)
    requires Parse(raw, now).Ok?
    ensures var next := After(b, Parse(raw, now)).nextId;
            (forall i :: 0 <= i < |IdsIn(raw)| ==> IdsIn(raw)[i] < next) <==> U64_MAX !in IdsIn(raw)
  {
    hide Parse, IdsIn;
    ParsedHighest(raw, now);
  }

  /** After a load the next message gets an id that is already there if and only if the bytes contain the
      largest id and an entry with id 1 was kept. */
  lemma NextAddCollidesIff(b: Book, raw: Bytes, now: u64, mine: bool, text: Str, later: u64, ttl: u64)
    requires Parse(raw, now).Ok?
    ensures var loaded := After(b, Parse(raw, now));
            HasId(loaded.entries, NewEntry(loaded, mine, text, later, ttl).id)
            <==> U64_MAX in IdsIn(raw) && HasId(loaded.entries, 1)
  {
    hide Parse, IdsIn, Cleaned;
    ParsedHighest(raw, now);
  }

  /** Ids never collide after loading what was exported. */
  lemma ExportReloadsFresh(b: Book, now: u64)
    requires BookOk(b) && !b.ephemeral
    ensures forall i :: 0 <= i < |Persisted(b)| ==> Persisted(b)[i].id < After(b, Parse(Exported(b), now)).nextId
  {
    hide Parse, Exported, EntryOk, Living, MaxId;
    LoadExport(b, now);
    MaxIdBounds(Persisted(b), 0);
  }

  function Plain(id: u64): Entry {
    Entry(id, false, NoDelivery, 0, None, [])
  }

  lemma PlainOk(id: u64)
    requires 1 <= id
    ensures EntryOk(Plain(id))
  {
  }

  /** They do collide here: two entries with the ids 1 and 2^64 - 1 are loaded, and a third is added. */
  lemma WrappedIdCollides(b: Book, now: u64)
    ensures var es := [Plain(1), Plain(U64_MAX)];
            var loaded := After(b, Parse(Exported(Book(es, None, 1, false)), now));
            loaded.entries == es && Added(loaded, true, [], now, 0).entries[2].id == es[0].id
  {
    hide EntriesBytes, Parse, EntryOk, Cleaned, ReadEntries, Living, MaxId;
    var es := [Plain(1), Plain(U64_MAX)];
    PlainOk(1);
    PlainOk(U64_MAX);
    EntriesFit(es);
    ParseParts(EntriesBytes(es), 2, now);
    assert AllNew(es, []);
    ReadEntriesAt(Exported(Book(es, None, 1, false)), 9, es, [], 0, now);
    PlainLive(now);
  }

  lemma PlainLive(now: u64)
    ensures var es := [Plain(1), Plain(U64_MAX)]; [] + Living(es, now) == es && MaxId(es, 0) == U64_MAX
  {
    var es := [Plain(1), Plain(U64_MAX)];
    assert es[1..] == [Plain(U64_MAX)] && es[1..][1..] == [];
    assert Living(es[1..], now) == [Plain(U64_MAX)];
    assert MaxId(es[1..], 1) == U64_MAX;
  }

  // ---------------------------------------------------------------- the decoy screen

  /** What may happen on the decoy screen. */
  predicate OnDecoy(ev: Event) {
    ev.Add? || ev.SetDelivery? || ev.Delete? || ev.Purge? || ev.Park?
  }

  /** The primary transcript over a run: only purges touch it. */
  ghost function Primary(es: seq<Entry>, run: seq<Event>): seq<Entry>
    decreases |run|
  {
    if run == [] then es else Primary(if run[0].Purge? then Living(es, run[0].now) else es, run[1..])
  }

  lemma {:induction false} DecoyRun(b: Book, run: seq<Event>)
    requires b.held.Some? && forall i :: 0 <= i < |run| ==> OnDecoy(run[i])
    ensures Run(b, run).held == Some(Primary(b.held.value, run)) && Run(b, run).ephemeral == b.ephemeral
    decreases |run|
  {
    if run == [] {
    } else {
      assert OnDecoy(run[0]);
      assert forall i :: 0 <= i < |run[1..]| ==> run[1..][i] == run[i + 1];
      DecoyRun(Next(b, run[0]), run[1..]);
    }
  }

  /** From a park to its unpark, whatever is typed, deleted or parked again on the decoy screen, an
      export encodes the primary transcript without what expired, and the unpark restores exactly that. */
  lemma DecoyIsolation(b: Book, run: seq<Event>)
    requires b.held.None? && forall i :: 0 <= i < |run| ==> OnDecoy(run[i])
    ensures var c, primary := Run(Parked(b), run), Primary(b.entries, run);
            && Exported(c) == Exported(Book(primary, None, c.nextId, b.ephemeral))
            && Unparked(c).entries == primary && Unparked(c).held.None?
  {
    DecoyRun(Parked(b), run);
  }
}
