/** The transcript (`src/rust/message_book.rs`): its operations, its encoding, and the decoy screen. */
module MessageBook {
  import opened Crypto
  import opened Wire
  import opened Text

  const MAGIC: Bytes := [0x48, 0x43, 0x4D, 0x42, 0x31] // "HCMB1"
  const MAX_MESSAGES: nat := 2000
  const MAX_ENCODED_BYTES: nat := MAX_MESSAGES * (MAX_TEXT_BYTES + 30) + 16

  datatype Delivery = NoDelivery | Queued | Sent | Failed

  function DeliveryToByte(d: Delivery): byte {
    match d
    case NoDelivery => 0
    case Queued => 1
    case Sent => 2
    case Failed => 3
  }

  function DeliveryFromByte(b: byte): Option<Delivery> {
    if b == 0 then Some(NoDelivery) else if b == 1 then Some(Queued)
    else if b == 2 then Some(Sent) else if b == 3 then Some(Failed) else None
  }

  datatype Entry = Entry(id: u64, mine: bool, delivery: Delivery, sentAt: u64, expiresAt: Option<u64>, text: Str)

  datatype BookError = Malformed | TooLarge

  /** The visible entries; the primary transcript while it is parked behind a decoy screen. */
  datatype Book = Book(entries: seq<Entry>, held: Option<seq<Entry>>, nextId: u64, ephemeral: bool)

  // ---------------------------------------------------------------- the operations on values

  function Max1(n: u64): u64 {
    if n == 0 then 1 else n
  }

  function WrappingInc(n: u64): u64 {
    if n == U64_MAX then 0 else n + 1
  }

  function Newest(entries: seq<Entry>): (r: seq<Entry>)
    ensures |r| <= MAX_MESSAGES
    decreases |entries|
  {
    if |entries| > MAX_MESSAGES then Newest(entries[1..]) else entries
  }

  function NewEntry(b: Book, mine: bool, text: Str, now: u64, ttl: u64): Entry {
    Entry(Max1(b.nextId), mine, if mine then Queued else NoDelivery, now,
          if ttl > 0 then Some(SaturatingAdd(now, ttl)) else None, Cleaned(text))
  }

  function Added(b: Book, mine: bool, text: Str, now: u64, ttl: u64): Book {
    b.(entries := Newest(b.entries + [NewEntry(b, mine, text, now, ttl)]), nextId := Max1(WrappingInc(Max1(b.nextId))))
  }

  /** The index of the first entry that satisfies the search, or the length. */
  function FirstIndex(entries: seq<Entry>, id: u64, mineOnly: bool): (i: nat)
    ensures i <= |entries|
  {
    if entries == [] || (entries[0].id == id && (entries[0].mine || !mineOnly)) then 0
    else 1 + FirstIndex(entries[1..], id, mineOnly)
  }

  function Deleted(b: Book, id: u64): Book {
    var i := FirstIndex(b.entries, id, false);
    if i == |b.entries| then b else b.(entries := b.entries[..i] + b.entries[i + 1..])
  }

  function WithDelivery(b: Book, id: u64, d: Delivery): Book {
    var i := FirstIndex(b.entries, id, true);
    if i == |b.entries| then b else b.(entries := b.entries[i := b.entries[i].(delivery := d)])
  }

  predicate Lives(e: Entry, now: u64) {
    e.expiresAt.None? || now < e.expiresAt.value
  }

  function Living(entries: seq<Entry>, now: u64): seq<Entry> {
    if entries == [] then []
    else (if Lives(entries[0], now) then [entries[0]] else []) + Living(entries[1..], now)
  }

  function Purged(b: Book, now: u64): Book {
    b.(entries := Living(b.entries, now),
       held := match b.held case None => None case Some(h) => Some(Living(h, now)))
  }

  function Parked(b: Book): Book {
    if b.held.None? then b.(held := Some(b.entries), entries := []) else b.(entries := [])
  }

  function Unparked(b: Book): Book {
    match b.held
    case None => b
    case Some(h) => b.(entries := h, held := None)
  }

  function Cleared(b: Book): Book {
    b.(entries := [], held := None)
  }

  // ---------------------------------------------------------------- the encoding

  function EntryBytes(e: Entry): Bytes {
    Be64(e.id) + ([if e.mine then 1 else 0] + ([DeliveryToByte(e.delivery)] + (Be64(e.sentAt)
    + (Be64(if e.expiresAt.None? then 0 else e.expiresAt.value)
    + (Be32(|Utf8(e.text)| % 0x1_0000_0000) + Utf8(e.text))))))
  }

  function EntriesBytes(entries: seq<Entry>): Bytes {
    if entries == [] then [] else EntryBytes(entries[0]) + EntriesBytes(entries[1..])
  }

  function Persisted(b: Book): seq<Entry> {
    if b.held.Some? then b.held.value else b.entries
  }

  /** `export`. */
  function Exported(b: Book): Bytes {
    if b.ephemeral then MAGIC + Be32(0)
    else MAGIC + (Be32(|Persisted(b)| % 0x1_0000_0000) + EntriesBytes(Persisted(b)))
  }

  /** `Reader::take`. */
  function Take(raw: Bytes, pos: nat, n: nat): Option<Bytes> {
    if pos + n <= |raw| then Some(raw[pos..pos + n]) else None
  }

  datatype Read = Read(entry: Entry, pos: nat)

  /** One entry at `pos`, with its text as it stands in the bytes. */
  function ReadEntry(raw: Bytes, pos: nat): Result<Read, BookError> {
    var id, flags := Take(raw, pos, 8), Take(raw, pos + 8, 1);
    if id.None? || flags.None? then Err(Malformed)
    else if flags.value[0] > 1 || FromBe64(id.value) == 0 then Err(Malformed)
    else
      var delivery, sentAt, exp, len := Take(raw, pos + 9, 1), Take(raw, pos + 10, 8), Take(raw, pos + 18, 8), Take(raw, pos + 26, 4);
      if delivery.None? || DeliveryFromByte(delivery.value[0]).None? || sentAt.None? || exp.None? || len.None? then Err(Malformed)
      else
        var n := FromBe32(len.value);
        if n > MAX_TEXT_BYTES then Err(TooLarge)
        else
          var bytes := Take(raw, pos + 30, n);
          if bytes.None? || FromUtf8(bytes.value).None? then Err(Malformed)
          else
            var expires := FromBe64(exp.value);
            Ok(Read(Entry(FromBe64(id.value), flags.value[0] == 1, DeliveryFromByte(delivery.value[0]).value, FromBe64(sentAt.value),
                          if expires == 0 then None else Some(expires), FromUtf8(bytes.value).value),
                    pos + 30 + n))
  }

  predicate HasId(entries: seq<Entry>, id: u64) {
    exists i :: 0 <= i < |entries| && entries[i].id == id
  }

  datatype Loaded = Loaded(entries: seq<Entry>, maxId: u64)

  /** Read `left` entries from `pos` up to the end of the bytes. Entries that have expired are
      dropped, and so are not looked at when ids are compared. */
  function ReadEntries(raw: Bytes, pos: nat, left: nat, found: seq<Entry>, maxId: u64, now: u64): Result<Loaded, BookError>
    decreases left
  {
    if left == 0 then (if pos == |raw| then Ok(Loaded(found, maxId)) else Err(Malformed))
    else match ReadEntry(raw, pos)
      case Err(e) => Err(e)
      case Ok(r) =>
        if HasId(found, r.entry.id) then Err(Malformed)
        else ReadEntries(raw, r.pos, left - 1, Kept(found, r.entry, now), if r.entry.id > maxId then r.entry.id else maxId, now)
  }

  function Kept(found: seq<Entry>, e: Entry, now: u64): seq<Entry> {
    if Lives(e, now) then found + [e.(text := Cleaned(e.text))] else found
  }

  function Parse(raw: Bytes, now: u64): Result<Loaded, BookError> {
    if |raw| > MAX_ENCODED_BYTES then Err(TooLarge)
    else if Take(raw, 0, 5) != Some(MAGIC) then Err(Malformed)
    else
      var count := Take(raw, 5, 4);
      if count.None? then Err(Malformed)
      else if FromBe32(count.value) > MAX_MESSAGES then Err(TooLarge)
      else ReadEntries(raw, 9, FromBe32(count.value), [], 0, now)
  }

  /** `load`: the book after it; unchanged when the bytes are refused. */
  function After(b: Book, loaded: Result<Loaded, BookError>): Book {
    match loaded
    case Err(_) => b
    case Ok(l) => b.(entries := l.entries, held := None, nextId := Max1(WrappingInc(l.maxId)))
  }

  // ---------------------------------------------------------------- the program

  class Transcript {
    var entries: seq<Entry>
    var held: Option<seq<Entry>>
    var nextId: u64
    var ephemeral: bool

    function Abs(): Book
      reads this
    {
      Book(entries, held, nextId, ephemeral)
    }

    constructor ()
      ensures Abs() == Book([], None, 1, false)
    {
      entries, held, nextId, ephemeral := [], None, 1, false;
    }

    method SetEphemeral(on: bool)
      modifies this
      ensures Abs() == old(Abs()).(ephemeral := on)
    {
      ephemeral := on;
    }

    method Add(mine: bool, text: Str, now: u64, ttl: u64) returns (id: u64)
      modifies this
      ensures Abs() == Added(old(Abs()), mine, text, now, ttl) && id == Max1(old(nextId))
    {
      id := Max1(nextId);
      nextId := Max1(WrappingInc(id));
      var expiresAt := if ttl > 0 then Some(SaturatingAdd(now, ttl)) else None;
      var clean := CleanText(text);
      entries := entries + [Entry(id, mine, if mine then Queued else NoDelivery, now, expiresAt, clean)];
      ghost var all := entries;
      while |entries| > MAX_MESSAGES
        invariant Newest(entries) == Newest(all)
        invariant nextId == Max1(WrappingInc(id)) && held == old(held) && ephemeral == old(ephemeral)
        decreases |entries|
      {
        entries := entries[1..];
      }
    }

    method FindFirst(id: u64, mineOnly: bool) returns (i: nat)
      ensures i == FirstIndex(entries, id, mineOnly)
    {
      i := 0;
      while i < |entries| && !(entries[i].id == id && (entries[i].mine || !mineOnly))
        invariant 0 <= i <= |entries|
        invariant FirstIndex(entries, id, mineOnly) == i + FirstIndex(entries[i..], id, mineOnly)
      {
        assert entries[i..][1..] == entries[i + 1..];
        i := i + 1;
      }
    }

    method SetDelivery(id: u64, d: Delivery) returns (done: bool)
      modifies this`entries
      ensures Abs() == WithDelivery(old(Abs()), id, d) && done == (FirstIndex(old(entries), id, true) < |old(entries)|)
    {
      var i := FindFirst(id, true);
      done := i < |entries|;
      if done {
        entries := entries[i := entries[i].(delivery := d)];
      }
    }

    method Delete(id: u64) returns (done: bool)
      modifies this`entries
      ensures Abs() == Deleted(old(Abs()), id) && done == (FirstIndex(old(entries), id, false) < |old(entries)|)
    {
      var i := FindFirst(id, false);
      done := i < |entries|;
      if done {
        entries := entries[..i] + entries[i + 1..];
      }
    }

    method Clear()
      modifies this
      ensures Abs() == Cleared(old(Abs()))
    {
      entries, held := [], None;
    }

    method Park()
      modifies this
      ensures Abs() == Parked(old(Abs()))
    {
      if held.None? {
        held := Some(entries);
        entries := [];
      } else {
        entries := [];
      }
    }

    method Unpark() returns (was: bool)
      modifies this
      ensures Abs() == Unparked(old(Abs())) && was == old(held).Some?
    {
      was := held.Some?;
      if was {
        entries := held.value;
        held := None;
      }
    }

    method PurgeExpired(now: u64) returns (dropped: nat)
      modifies this
      ensures Abs() == Purged(old(Abs()), now)
      ensures dropped == |old(entries)| - |entries| + (if held.Some? then |old(held).value| - |held.value| else 0)
    {
      var kept := DropExpired(entries, now);
      dropped := |entries| - |kept|;
      entries := kept;
      if held.Some? {
        kept := DropExpired(held.value, now);
        dropped := dropped + (|held.value| - |kept|);
        held := Some(kept);
      }
    }

    method Export() returns (out: Bytes)
      ensures out == Exported(Abs())
    {
      out := MAGIC;
      if ephemeral {
        out := out + Be32(0);
        return;
      }
      var es := if held.Some? then held.value else entries;
      out := out + Be32(|es| % 0x1_0000_0000);
      var body := WriteEntries(es);
      assert MAGIC + (Be32(|es| % 0x1_0000_0000) + body) == out + body;
      out := out + body;
    }

    method Load(raw: Bytes, now: u64) returns (r: Result<(), BookError>)
      modifies this
      ensures Abs() == After(old(Abs()), Parse(raw, now))
      ensures r == match Parse(raw, now) case Ok(_) => Ok(()) case Err(e) => Err(e)
    {
      var loaded := ReadBook(raw, now);
      if loaded.Err? {
        return Err(loaded.error);
      }
      held := None;
      entries := loaded.value.entries;
      nextId := Max1(WrappingInc(loaded.value.maxId));
      return Ok(());
    }
  }

  /** The loop of `export`. */
  method WriteEntries(es: seq<Entry>) returns (out: Bytes)
    ensures out == EntriesBytes(es)
  {
    hide EntryBytes;
    out := [];
    var i := 0;
    while i < |es|
      invariant 0 <= i <= |es|
      invariant out + EntriesBytes(es[i..]) == EntriesBytes(es)
    {
      assert es[i..][1..] == es[i + 1..];
      out := out + EntryBytes(es[i]);
      i := i + 1;
    }
  }

  /** The part of `load` that reads, before anything is replaced. */
  method ReadBook(raw: Bytes, now: u64) returns (r: Result<Loaded, BookError>)
    ensures r == Parse(raw, now)
  {
    hide ReadEntry, Kept, HasId;
    if |raw| > MAX_ENCODED_BYTES {
      return Err(TooLarge);
    }
    if Take(raw, 0, 5) != Some(MAGIC) {
      return Err(Malformed);
    }
    var countBytes := Take(raw, 5, 4);
    if countBytes.None? {
      return Err(Malformed);
    }
    var count: nat := FromBe32(countBytes.value);
    if count > MAX_MESSAGES {
      return Err(TooLarge);
    }
    var pos, found: seq<Entry>, maxId: u64 := 9, [], 0;
    var i := 0;
    while i < count
      invariant 0 <= i <= count
      invariant ReadEntries(raw, pos, count - i, found, maxId, now) == ReadEntries(raw, 9, count, [], 0, now)
    {
      var e := ReadEntry(raw, pos);
      if e.Err? {
        return Err(e.error);
      }
      if HasId(found, e.value.entry.id) {
        return Err(Malformed);
      }
      pos := e.value.pos;
      found := Kept(found, e.value.entry, now);
      maxId := if e.value.entry.id > maxId then e.value.entry.id else maxId;
      i := i + 1;
    }
    if pos != |raw| {
      return Err(Malformed);
    }
    return Ok(Loaded(found, maxId));
  }

  method DropExpired(entries: seq<Entry>, now: u64) returns (kept: seq<Entry>)
    ensures kept == Living(entries, now) && |kept| <= |entries|
  {
    kept := [];
    var i := 0;
    while i < |entries|
      invariant 0 <= i <= |entries| && |kept| <= i
      invariant kept + Living(entries[i..], now) == Living(entries, now)
    {
      assert entries[i..][1..] == entries[i + 1..];
      if Lives(entries[i], now) {
        kept := kept + [entries[i]];
      }
      i := i + 1;
    }
  }
}
