/** The outgoing queue: `send_text`, `flush_held_sends`, `retry_pending` and `lock_ui` in
    `src/bin/hashchat_tui.rs`, `queue_pending`, `ack_pending_frame`, `commit_outgoing_with_key` and
    `for_disk` in `src/rust/session_persist.rs`. Saving to disk is taken to succeed. */
module OutboundQueue {
  import opened Crypto

  const MAX_PENDING_FRAMES: nat := 64

  datatype Entry = Entry(onion: Bytes, frame: Bytes)

  datatype Held = Held(due: int, entry: Entry)

  /** `committed` lists every frame that a commit accepted, `handed` every frame that Tor took. */
  datatype Queue = Queue(
    pending: seq<Entry>,
    disk: seq<Entry>,
    held: seq<Held>,
    extreme: bool,
    committed: seq<Entry>,
    handed: seq<Entry>)

  // ---------------------------------------------------------------- the operations on values

  function QueuePending(p: seq<Entry>, e: Entry): seq<Entry> {
    if |p| >= MAX_PENDING_FRAMES then p else p + [e]
  }

  function Ack(p: seq<Entry>, e: Entry): seq<Entry> {
    if p == [] then []
    else if p[0] == e then p[1..]
    else [p[0]] + Ack(p[1..], e)
  }

  /** `for_disk`: the Extreme posture keeps no frames on disk. */
  function Save(q: Queue): Queue {
    q.(disk := if q.extreme then [] else q.pending)
  }

  /** The frame reaches the disk before anything else happens to it. */
  function Commit(q: Queue, e: Entry): Queue
    requires |q.disk| < MAX_PENDING_FRAMES
  {
    q.(disk := if q.extreme then [] else q.disk + [e],
       pending := QueuePending(q.pending, e),
       committed := q.committed + [e])
  }

  /** `send_text`; `due` is set when jitter is on, `sock` says whether Tor took the frame. */
  function Sent(q: Queue, e: Entry, due: Option<int>, bridgesHold: bool, sock: bool): Queue {
    if |q.disk| >= MAX_PENDING_FRAMES then q
    else
      var c := Commit(q, e);
      if due.Some? then c.(held := c.held + [Held(due.value, e)])
      else if bridgesHold || !sock then c
      else Save(c.(pending := Ack(c.pending, e), handed := c.handed + [e]))
  }

  function Due(held: seq<Held>, now: int): seq<Held> {
    if held == [] then [] else (if held[0].due <= now then [held[0]] else []) + Due(held[1..], now)
  }

  function NotDue(held: seq<Held>, now: int): seq<Held> {
    if held == [] then [] else (if held[0].due <= now then [] else [held[0]]) + NotDue(held[1..], now)
  }

  /** Try the due frames in turn; `sock[i]` says whether Tor takes the one at place `i`. */
  function FlushEach(q: Queue, due: seq<Held>, sock: seq<bool>): Queue
    requires |sock| == |due|
    decreases |due|
  {
    if due == [] then q
    else
      var e := due[0].entry;
      var next := if e in q.pending && sock[0] then q.(pending := Ack(q.pending, e), handed := q.handed + [e]) else q;
      FlushEach(next, due[1..], sock[1..])
  }

  /** `flush_held_sends`. `open` is false when Tor is down or bridges are required and not active. */
  function Flushed(q: Queue, now: int, open: bool, sock: seq<bool>): Queue
    requires |sock| == |Due(q.held, now)|
  {
    var c := q.(held := NotDue(q.held, now));
    if !open then c
    else
      var d := FlushEach(c, Due(q.held, now), sock);
      if d.handed == c.handed then d else Save(d)
  }

  /** `is_held_until_later`. */
  predicate HeldUntilLater(held: seq<Held>, e: Entry, now: int) {
    exists i :: 0 <= i < |held| && held[i].due > now && held[i].entry == e
  }

  function Waiting(p: seq<Entry>, held: seq<Held>, now: int): seq<Entry> {
    if p == [] then []
    else (if HeldUntilLater(held, p[0], now) then [] else [p[0]]) + Waiting(p[1..], held, now)
  }

  function StillHeld(p: seq<Entry>, held: seq<Held>, now: int): seq<Entry> {
    if p == [] then []
    else (if HeldUntilLater(held, p[0], now) then [p[0]] else []) + StillHeld(p[1..], held, now)
  }

  function Pick(es: seq<Entry>, sock: seq<bool>, which: bool): seq<Entry>
    requires |es| == |sock|
  {
    if es == [] then [] else (if sock[0] == which then [es[0]] else []) + Pick(es[1..], sock[1..], which)
  }

  function QueueAll(p: seq<Entry>, es: seq<Entry>): seq<Entry>
    decreases |es|
  {
    if es == [] then p else QueueAll(QueuePending(p, es[0]), es[1..])
  }

  /** `retry_pending`. `open` is false when the transport is refused, Tor is down or bridges hold;
      `sock[i]` is the fate of waiting frame `i`. */
  function Retried(q: Queue, now: int, open: bool, sock: seq<bool>): Queue
    requires |sock| == |Waiting(q.pending, q.held, now)|
  {
    var waiting := Waiting(q.pending, q.held, now);
    var kept := QueueAll([], StillHeld(q.pending, q.held, now));
    if !open || q.pending == [] then q
    else if waiting == [] then q.(pending := kept)
    else Save(q.(pending := QueueAll(kept, Pick(waiting, sock, false)), handed := q.handed + Pick(waiting, sock, true)))
  }

  /** `lock_ui`, then unlocking again: what is on disk is what comes back. */
  function Reloaded(q: Queue): Queue {
    var s := Save(q);
    s.(held := [], pending := s.disk)
  }

  lemma {:induction false} AckOfAbsent(p: seq<Entry>, e: Entry)
    requires e !in p
    ensures Ack(p, e) == p
  {
    if p == [] {
    } else {
      AckOfAbsent(p[1..], e);
      assert p == [p[0]] + p[1..];
    }
  }

  lemma {:induction false} AckOfFirst(before: seq<Entry>, e: Entry, after: seq<Entry>)
    requires e !in before
    ensures Ack(before + [e] + after, e) == before + after
  {
    var p := before + [e] + after;
    if before == [] {
      assert p == [e] + after && p[1..] == after;
    } else {
      AckOfFirst(before[1..], e, after);
      assert p[0] == before[0] && p[1..] == before[1..] + [e] + after;
      assert [before[0]] + (before[1..] + after) == before + after;
    }
  }

  lemma AckAt(p: seq<Entry>, e: Entry, i: nat)
    requires i <= |p| && e !in p[..i] && (i < |p| ==> p[i] == e)
    ensures Ack(p, e) == if i == |p| then p else p[..i] + p[i + 1..]
    ensures e in p <==> i < |p|
  {
    hide Ack;
    if i == |p| {
      assert p[..i] == p;
      AckOfAbsent(p, e);
    } else {
      assert p == p[..i] + [e] + p[i + 1..];
      AckOfFirst(p[..i], e, p[i + 1..]);
    }
  }

  lemma PickStart(es: seq<Entry>, sock: seq<bool>)
    requires |es| == |sock|
    ensures Pick(es[..0], sock[..0], true) == Pick(es[..0], sock[..0], false) == []
  {
  }

  lemma PickCons(e: Entry, taken: bool, a: seq<Entry>, sa: seq<bool>, which: bool)
    requires |a| == |sa|
    ensures Pick([e] + a, [taken] + sa, which) == (if taken == which then [e] else []) + Pick(a, sa, which)
  {
    assert ([e] + a)[1..] == a && ([taken] + sa)[1..] == sa;
  }

  lemma PickNone(which: bool)
    ensures Pick([], [], which) == []
  {
  }

  lemma {:induction false} PickAppend(a: seq<Entry>, sa: seq<bool>, e: Entry, taken: bool, which: bool)
    requires |a| == |sa|
    ensures Pick(a + [e], sa + [taken], which) == Pick(a, sa, which) + (if taken == which then [e] else [])
  {
    hide Pick;
    if a == [] {
      assert a + [e] == [e] + [] && sa + [taken] == [taken] + [] && sa == [];
      PickCons(e, taken, [], [], which);
      PickNone(which);
    } else {
      var first := if sa[0] == which then [a[0]] else [];
      PickAppend(a[1..], sa[1..], e, taken, which);
      PickCons(a[0], sa[0], a[1..] + [e], sa[1..] + [taken], which);
      PickCons(a[0], sa[0], a[1..], sa[1..], which);
      assert a == [a[0]] + a[1..] && sa == [sa[0]] + sa[1..];
      assert a + [e] == [a[0]] + (a[1..] + [e]) && sa + [taken] == [sa[0]] + (sa[1..] + [taken]);
    }
  }

  lemma PickSnoc(es: seq<Entry>, sock: seq<bool>, k: nat)
    requires |es| == |sock| && k < |es|
    ensures Pick(es[..k + 1], sock[..k + 1], true) == Pick(es[..k], sock[..k], true) + (if sock[k] then [es[k]] else [])
    ensures Pick(es[..k + 1], sock[..k + 1], false) == Pick(es[..k], sock[..k], false) + (if sock[k] then [] else [es[k]])
  {
    hide Pick;
    assert es[..k + 1] == es[..k] + [es[k]] && sock[..k + 1] == sock[..k] + [sock[k]];
    PickAppend(es[..k], sock[..k], es[k], sock[k], true);
    PickAppend(es[..k], sock[..k], es[k], sock[k], false);
  }

  // ---------------------------------------------------------------- the program

  class App {
    var pending: seq<Entry>
    var disk: seq<Entry>
    var held: seq<Held>
    const extreme: bool
    ghost var committed: seq<Entry>
    ghost var handed: seq<Entry>

    ghost function Abs(): Queue
      reads this
    {
      Queue(pending, disk, held, extreme, committed, handed)
    }

    constructor (extreme: bool)
      ensures Abs() == Queue([], [], [], extreme, [], [])
    {
      this.extreme := extreme;
      pending, disk, held, committed, handed := [], [], [], [], [];
    }

    method Persist()
      modifies this`disk
      ensures Abs() == Save(old(Abs()))
    {
      disk := if extreme then [] else pending;
    }

    method QueuePendingFrame(e: Entry) returns (queued: bool)
      modifies this`pending
      ensures pending == QueuePending(old(pending), e) && queued == (|old(pending)| < MAX_PENDING_FRAMES)
    {
      if |pending| >= MAX_PENDING_FRAMES {
        return false;
      }
      pending := pending + [e];
      return true;
    }

    /** Removes the first exact match. */
    method AckPendingFrame(e: Entry) returns (removed: bool)
      modifies this`pending
      ensures pending == Ack(old(pending), e) && removed == (e in old(pending))
    {
      var i := 0;
      while i < |pending| && pending[i] != e
        invariant 0 <= i <= |pending| && e !in pending[..i]
      {
        i := i + 1;
      }
      AckAt(pending, e, i);
      if i == |pending| {
        return false;
      }
      pending := pending[..i] + pending[i + 1..];
      return true;
    }

    method SendText(e: Entry, due: Option<int>, bridgesHold: bool, sock: bool) returns (committedNow: bool)
      modifies this
      ensures Abs() == Sent(old(Abs()), e, due, bridgesHold, sock)
      ensures committedNow == (|old(disk)| < MAX_PENDING_FRAMES)
    {
      // commit_outgoing_with_key
      if |disk| >= MAX_PENDING_FRAMES {
        return false;
      }
      disk := if extreme then [] else disk + [e];
      committed := committed + [e];
      // mirror the commit in memory
      var _ := QueuePendingFrame(e);
      if due.Some? {
        held := held + [Held(due.value, e)];
        return true;
      }
      if bridgesHold {
        return true;
      }
      if sock {
        var _ := AckPendingFrame(e);
        handed := handed + [e];
        Persist();
      }
      return true;
    }

    method FlushHeldSends(now: int, open: bool, sock: seq<bool>)
      requires |sock| == |Due(held, now)|
      modifies this
      ensures Abs() == Flushed(old(Abs()), now, open, sock)
    {
      var due := Due(held, now);
      held := NotDue(held, now);
      if !open {
        return;
      }
      var changed := TryEach(due, sock);
      if changed {
        Persist();
      }
    }

    /** Try the due frames; says whether Tor took any. */
    method TryEach(due: seq<Held>, sock: seq<bool>) returns (changed: bool)
      requires |sock| == |due|
      modifies this`pending, this`handed
      ensures Abs() == FlushEach(old(Abs()), due, sock)
      ensures changed <==> handed != old(handed)
    {
      hide Ack;
      changed := false;
      var k := 0;
      while k < |due|
        invariant 0 <= k <= |due|
        invariant |handed| >= |old(handed)| && (changed ==> |handed| > |old(handed)|)
        invariant !changed ==> handed == old(handed)
        invariant FlushEach(Abs(), due[k..], sock[k..]) == FlushEach(old(Abs()), due, sock)
      {
        assert due[k..][1..] == due[k + 1..] && sock[k..][1..] == sock[k + 1..];
        var e := due[k].entry;
        if e in pending {
          if sock[k] {
            var _ := AckPendingFrame(e);
            handed := handed + [e];
            changed := true;
          }
        }
        k := k + 1;
      }
    }

    method RetryPending(now: int, open: bool, sock: seq<bool>)
      requires |sock| == |Waiting(pending, held, now)|
      modifies this
      ensures Abs() == Retried(old(Abs()), now, open, sock)
    {
      if !open {
        return;
      }
      if pending == [] {
        return;
      }
      hide StillHeld, Waiting, Pick, QueueAll, HeldUntilLater;
      var heldBack := StillHeld(pending, held, now);
      var waiting := Waiting(pending, held, now);
      pending := [];
      RequeueAll(heldBack);
      if waiting == [] {
        return;
      }
      var remain := SendEach(waiting, sock);
      RequeueAll(remain);
      Persist();
    }

    /** Hand the frames to Tor in turn; what it does not take is returned. */
    method SendEach(waiting: seq<Entry>, sock: seq<bool>) returns (remain: seq<Entry>)
      requires |waiting| == |sock|
      modifies this`handed
      ensures remain == Pick(waiting, sock, false) && handed == old(handed) + Pick(waiting, sock, true)
    {
      hide Pick;
      remain := [];
      PickStart(waiting, sock);
      var k := 0;
      while k < |waiting|
        invariant 0 <= k <= |waiting|
        invariant remain == Pick(waiting[..k], sock[..k], false)
        invariant handed == old(handed) + Pick(waiting[..k], sock[..k], true)
      {
        PickSnoc(waiting, sock, k);
        if sock[k] {
          handed := handed + [waiting[k]];
        } else {
          remain := remain + [waiting[k]];
        }
        k := k + 1;
      }
      assert waiting[..k] == waiting && sock[..k] == sock;
    }

    method RequeueAll(es: seq<Entry>)
      modifies this`pending
      ensures pending == QueueAll(old(pending), es)
    {
      var k := 0;
      while k < |es|
        invariant 0 <= k <= |es|
        invariant QueueAll(pending, es[k..]) == QueueAll(old(pending), es)
      {
        assert es[k..][1..] == es[k + 1..];
        var _ := QueuePendingFrame(es[k]);
        k := k + 1;
      }
    }

    method LockAndUnlock()
      modifies this
      ensures Abs() == Reloaded(old(Abs()))
    {
      Persist();
      held := [];
      pending := disk;
    }
  }

  // ---------------------------------------------------------------- conservation

  /** Every committed frame is pending or was handed to Tor, as often as it was committed. */
  ghost predicate Conserved(q: Queue) {
    multiset(q.committed) == multiset(q.pending) + multiset(q.handed)
  }

  /** What is on disk is what the posture keeps of the pending frames, the cap holds, and nothing is
      lost or sent twice. */
  ghost predicate Sound(q: Queue) {
    q.disk == (if q.extreme then [] else q.pending) && |q.pending| <= MAX_PENDING_FRAMES && Conserved(q)
  }

  lemma {:induction false} AckRemovesOne(p: seq<Entry>, e: Entry)
    requires e in p
    ensures multiset(p) == multiset(Ack(p, e)) + multiset{e} && |Ack(p, e)| == |p| - 1
  {
    assert p == [p[0]] + p[1..];
    if p[0] == e {
    } else {
      AckRemovesOne(p[1..], e);
    }
  }

  lemma {:induction false} FlushConserves(q: Queue, due: seq<Held>, sock: seq<bool>)
    requires |sock| == |due| && Conserved(q) && |q.pending| <= MAX_PENDING_FRAMES
    ensures var r := FlushEach(q, due, sock);
            && Conserved(r) && |r.pending| <= MAX_PENDING_FRAMES && |r.handed| >= |q.handed|
            && (r.disk, r.held, r.extreme, r.committed) == (q.disk, q.held, q.extreme, q.committed)
            && (|r.handed| == |q.handed| ==> r == q)
    decreases |due|
  {
    if due == [] {
    } else {
      var e := due[0].entry;
      if e in q.pending && sock[0] {
        AckRemovesOne(q.pending, e);
        FlushConserves(q.(pending := Ack(q.pending, e), handed := q.handed + [e]), due[1..], sock[1..]);
      } else {
        FlushConserves(q, due[1..], sock[1..]);
      }
    }
  }

  ghost predicate Splits(p: seq<Entry>, a: seq<Entry>, b: seq<Entry>) {
    multiset(p) == multiset(a) + multiset(b) && |p| == |a| + |b| && (b == [] ==> a == p)
  }

  lemma SplitsLeft(e: Entry, p: seq<Entry>, a: seq<Entry>, b: seq<Entry>)
    requires Splits(p, a, b)
    ensures Splits([e] + p, [e] + a, b)
  {
  }

  lemma SplitsRight(e: Entry, p: seq<Entry>, a: seq<Entry>, b: seq<Entry>)
    requires Splits(p, a, b)
    ensures Splits([e] + p, a, [e] + b)
  {
  }

  lemma {:induction false} PartitionConserves(p: seq<Entry>, held: seq<Held>, now: int)
    ensures Splits(p, StillHeld(p, held, now), Waiting(p, held, now))
  {
    hide HeldUntilLater;
    if p == [] {
    } else {
      hide Splits;
      var a, b := StillHeld(p[1..], held, now), Waiting(p[1..], held, now);
      PartitionConserves(p[1..], held, now);
      assert p == [p[0]] + p[1..] && [] + a == a && [] + b == b;
      if HeldUntilLater(held, p[0], now) {
        SplitsLeft(p[0], p[1..], a, b);
      } else {
        SplitsRight(p[0], p[1..], a, b);
      }
    }
  }

  lemma {:induction false} PickConserves(es: seq<Entry>, sock: seq<bool>)
    requires |es| == |sock|
    ensures multiset(es) == multiset(Pick(es, sock, true)) + multiset(Pick(es, sock, false))
    ensures |es| == |Pick(es, sock, true)| + |Pick(es, sock, false)|
  {
    if es == [] {
    } else {
      assert es == [es[0]] + es[1..];
      PickConserves(es[1..], sock[1..]);
    }
  }

  /** Re-queuing drops nothing while the cap is respected. */
  lemma {:induction false} QueueAllFits(p: seq<Entry>, es: seq<Entry>)
    requires |p| + |es| <= MAX_PENDING_FRAMES
    ensures QueueAll(p, es) == p + es
    decreases |es|
  {
    if es == [] {
    } else {
      QueueAllFits(p + [es[0]], es[1..]);
      assert p + [es[0]] + es[1..] == p + es;
    }
  }

  datatype Event =
    | Send(entry: Entry, due: Option<int>, bridgesHold: bool, sock: bool)
    | Flush(now: int, open: bool, outcomes: seq<bool>)
    | Retry(now: int, open: bool, outcomes: seq<bool>)
    | Relock

  predicate Fits(q: Queue, ev: Event) {
    match ev
    case Flush(now, _, outcomes) => |outcomes| == |Due(q.held, now)|
    case Retry(now, _, outcomes) => |outcomes| == |Waiting(q.pending, q.held, now)|
    case _ => true
  }

  function After(q: Queue, ev: Event): Queue
    requires Fits(q, ev)
  {
    match ev
    case Send(e, due, bridgesHold, sock) => Sent(q, e, due, bridgesHold, sock)
    case Flush(now, open, outcomes) => Flushed(q, now, open, outcomes)
    case Retry(now, open, outcomes) => Retried(q, now, open, outcomes)
    case Relock => Reloaded(q)
  }

  ghost predicate AllFit(q: Queue, run: seq<Event>)
    decreases |run|
  {
    run == [] || (Fits(q, run[0]) && AllFit(After(q, run[0]), run[1..]))
  }

  ghost function Run(q: Queue, run: seq<Event>): Queue
    requires AllFit(q, run)
    decreases |run|
  {
    if run == [] then q else Run(After(q, run[0]), run[1..])
  }

  // ---------------------------------------------------------------- which events lose a frame

  /** In the Extreme posture the queue on disk is always empty. So locking drops what is pending, and a
      commit is not refused when the queue in memory is full: the frame is then dropped from memory,
      and is lost unless it goes out at once. */
  predicate Loses(q: Queue, ev: Event) {
    q.extreme &&
    match ev
    case Send(e, due, bridgesHold, sock) =>
      |q.pending| == MAX_PENDING_FRAMES && (due.Some? || bridgesHold || !sock || e in q.pending)
    case Relock => q.pending != []
    case _ => false
  }

  lemma Snoc(es: seq<Entry>, e: Entry)
    ensures multiset(es + [e]) == multiset(es) + multiset{e}
  {
  }

  /** A commit that finds room: the frame is pending. */
  lemma CommitConserves(q: Queue, e: Entry)
    requires Sound(q) && |q.disk| < MAX_PENDING_FRAMES && |q.pending| < MAX_PENDING_FRAMES
    ensures var c := Commit(q, e);
            Sound(c) && c.pending == q.pending + [e] && (c.handed, c.extreme) == (q.handed, q.extreme)
  {
    Snoc(q.committed, e);
    Snoc(q.pending, e);
  }

  lemma HandOver(q: Queue, e: Entry)
    requires e in q.pending && Conserved(q)
    ensures Conserved(q.(pending := Ack(q.pending, e), handed := q.handed + [e])) && |Ack(q.pending, e)| == |q.pending| - 1
  {
    AckRemovesOne(q.pending, e);
    Snoc(q.handed, e);
  }

  /** A commit while memory is full and the disk is empty. */
  lemma FullCommit(q: Queue, e: Entry)
    requires Conserved(q) && q.extreme && |q.disk| < MAX_PENDING_FRAMES <= |q.pending|
    ensures var c := Commit(q, e);
            c.pending == q.pending && multiset(c.committed) == multiset(q.pending) + multiset(q.handed) + multiset{e}
  {
    Snoc(q.committed, e);
  }

  lemma CountsMatch(q: Queue)
    requires Conserved(q)
    ensures |q.committed| == |q.pending| + |q.handed|
  {
    assert |multiset(q.committed)| == |multiset(q.pending)| + |multiset(q.handed)|;
  }

  /** How many committed frames are unaccounted for. */
  function Lost(q: Queue): int {
    |q.committed| - |q.pending| - |q.handed|
  }

  lemma FullSendConservesIff(q: Queue, e: Entry, due: Option<int>, bridgesHold: bool, sock: bool)
    requires Sound(q) && q.extreme && |q.pending| == MAX_PENDING_FRAMES
    ensures var r := Sent(q, e, due, bridgesHold, sock);
            if due.Some? || bridgesHold || !sock || e in q.pending then Lost(r) > 0 else Sound(r)
  {
    hide Ack;
    FullCommit(q, e);
    CountsMatch(q);
    if due.None? && !bridgesHold && sock {
      Snoc(q.handed, e);
      if e in q.pending {
        AckRemovesOne(q.pending, e);
      } else {
        AckOfAbsent(q.pending, e);
      }
    }
  }

  lemma SendIsSound(q: Queue, e: Entry, due: Option<int>, bridgesHold: bool, sock: bool)
    requires Sound(q) && |q.disk| < MAX_PENDING_FRAMES && |q.pending| < MAX_PENDING_FRAMES
    ensures Sound(Sent(q, e, due, bridgesHold, sock))
  {
    hide Ack, Conserved;
    CommitConserves(q, e);
    HeldPlaysNoPart(Commit(q, e), due);
    if due.None? && !bridgesHold && sock {
      HandOver(Commit(q, e), e);
      SaveIsSound(Commit(q, e).(pending := Ack(Commit(q, e).pending, e), handed := q.handed + [e]));
    }
  }

  lemma HeldPlaysNoPart(q: Queue, due: Option<int>)
    requires Sound(q)
    ensures forall held :: Sound(q.(held := held))
  {
  }

  lemma SaveIsSound(q: Queue)
    requires Conserved(q) && |q.pending| <= MAX_PENDING_FRAMES
    ensures Sound(Save(q))
  {
  }

  lemma FlushIsSound(q: Queue, now: int, open: bool, sock: seq<bool>)
    requires Sound(q) && |sock| == |Due(q.held, now)|
    ensures Sound(Flushed(q, now, open, sock))
  {
    FlushConserves(q.(held := NotDue(q.held, now)), Due(q.held, now), sock);
  }

  lemma RetryIsSound(q: Queue, now: int, open: bool, sock: seq<bool>)
    requires Sound(q) && |sock| == |Waiting(q.pending, q.held, now)|
    ensures Sound(Retried(q, now, open, sock))
  {
    hide Waiting, StillHeld, Pick, QueueAll;
    var waiting, back := Waiting(q.pending, q.held, now), StillHeld(q.pending, q.held, now);
    PartitionConserves(q.pending, q.held, now);
    PickConserves(waiting, sock);
    QueueAllFits([], back);
    assert [] + back == back;
    QueueAllFits(back, Pick(waiting, sock, false));
  }

  lemma RelockLoses(q: Queue)
    requires Sound(q)
    ensures if q.extreme && q.pending != [] then Lost(Reloaded(q)) > 0 else Sound(Reloaded(q))
  {
    CountsMatch(q);
  }

  /** An event loses a frame exactly when it is one of the losing ones; otherwise everything is kept. */
  lemma EventConservesIff(q: Queue, ev: Event)
    requires Sound(q) && Fits(q, ev)
    ensures if Loses(q, ev) then Lost(After(q, ev)) > 0 && !Conserved(After(q, ev)) else Sound(After(q, ev))
  {
    hide Sent, Flushed, Retried, Reloaded;
    match ev {
      case Send(e, due, bridgesHold, sock) => SendOutcome(q, e, due, bridgesHold, sock);
      case Flush(now, open, outcomes) => FlushIsSound(q, now, open, outcomes);
      case Retry(now, open, outcomes) => RetryIsSound(q, now, open, outcomes);
      case Relock => RelockLoses(q);
    }
    if Loses(q, ev) && Conserved(After(q, ev)) {
      CountsMatch(After(q, ev));
    }
  }

  lemma SendOutcome(q: Queue, e: Entry, due: Option<int>, bridgesHold: bool, sock: bool)
    requires Sound(q)
    ensures var r := Sent(q, e, due, bridgesHold, sock);
            if Loses(q, Send(e, due, bridgesHold, sock)) then Lost(r) > 0 else Sound(r)
  {
    hide Ack, Conserved, Lost;
    if |q.disk| < MAX_PENDING_FRAMES {
      if |q.pending| < MAX_PENDING_FRAMES {
        SendIsSound(q, e, due, bridgesHold, sock);
      } else {
        FullSendConservesIff(q, e, due, bridgesHold, sock);
      }
    }
  }

  // ---------------------------------------------------------------- runs

  lemma {:induction false} AckSize(p: seq<Entry>, e: Entry)
    ensures |Ack(p, e)| == if e in p then |p| - 1 else |p|
  {
    if p != [] && p[0] != e {
      AckSize(p[1..], e);
    }
  }

  lemma {:induction false} QueueAllSize(p: seq<Entry>, es: seq<Entry>)
    ensures |QueueAll(p, es)| <= |p| + |es|
    decreases |es|
  {
    if es == [] {
    } else {
      QueueAllSize(QueuePending(p, es[0]), es[1..]);
    }
  }

  lemma {:induction false} FlushNeverFinds(q: Queue, due: seq<Held>, sock: seq<bool>)
    requires |sock| == |due|
    ensures Lost(FlushEach(q, due, sock)) == Lost(q) && FlushEach(q, due, sock).extreme == q.extreme
    decreases |due|
  {
    if due == [] {
    } else {
      var e := due[0].entry;
      AckSize(q.pending, e);
      FlushNeverFinds(if e in q.pending && sock[0] then q.(pending := Ack(q.pending, e), handed := q.handed + [e]) else q,
                      due[1..], sock[1..]);
    }
  }

  lemma SendNeverFinds(q: Queue, e: Entry, due: Option<int>, bridgesHold: bool, sock: bool)
    ensures Lost(q) <= Lost(Sent(q, e, due, bridgesHold, sock))
  {
    if |q.disk| < MAX_PENDING_FRAMES {
      AckSize(Commit(q, e).pending, e);
    }
  }

  lemma RetryNeverFinds(q: Queue, now: int, open: bool, sock: seq<bool>)
    requires |sock| == |Waiting(q.pending, q.held, now)|
    ensures Lost(q) <= Lost(Retried(q, now, open, sock))
  {
    hide Waiting, StillHeld, Pick, QueueAll;
    var waiting, back := Waiting(q.pending, q.held, now), StillHeld(q.pending, q.held, now);
    PartitionConserves(q.pending, q.held, now);
    PickConserves(waiting, sock);
    QueueAllSize([], back);
    QueueAllSize(QueueAll([], back), Pick(waiting, sock, false));
  }

  /** A lost frame is never found again. */
  lemma EventNeverFinds(q: Queue, ev: Event)
    requires Fits(q, ev)
    ensures Lost(q) <= Lost(After(q, ev))
  {
    match ev
    case Send(e, due, bridgesHold, sock) => SendNeverFinds(q, e, due, bridgesHold, sock);
    case Flush(now, open, outcomes) => FlushNeverFinds(q.(held := NotDue(q.held, now)), Due(q.held, now), outcomes);
    case Retry(now, open, outcomes) => RetryNeverFinds(q, now, open, outcomes);
    case Relock =>
  }

  lemma {:induction false} RunNeverFinds(q: Queue, run: seq<Event>)
    requires AllFit(q, run)
    ensures Lost(q) <= Lost(Run(q, run))
    decreases |run|
  {
    hide After, Fits;
    if run == [] {
    } else {
      EventNeverFinds(q, run[0]);
      RunNeverFinds(After(q, run[0]), run[1..]);
    }
  }

  /** No event of the run is a losing one when its turn comes. */
  ghost predicate NoLoss(q: Queue, run: seq<Event>)
    requires AllFit(q, run)
    decreases |run|
  {
    run == [] || (!Loses(q, run[0]) && NoLoss(After(q, run[0]), run[1..]))
  }

  /** Over every interleaving of sends, flushes, retries and lock and unlock, with any fate of each
      attempt and in any posture: the queue stays sound if no event is a losing one, and frames are
      conserved only then. */
  lemma {:induction false} RunConservesIff(q: Queue, run: seq<Event>)
    requires Sound(q) && AllFit(q, run)
    ensures NoLoss(q, run) ==> Sound(Run(q, run))
    ensures Conserved(Run(q, run)) <==> NoLoss(q, run)
    decreases |run|
  {
    hide After, Fits, Loses;
    if run == [] {
    } else {
      EventConservesIff(q, run[0]);
      if Loses(q, run[0]) {
        RunNeverFinds(After(q, run[0]), run[1..]);
        if Conserved(Run(q, run)) {
          CountsMatch(Run(q, run));
        }
      } else {
        RunConservesIff(After(q, run[0]), run[1..]);
      }
    }
  }

  lemma EventKeepsPosture(q: Queue, ev: Event)
    requires Fits(q, ev)
    ensures After(q, ev).extreme == q.extreme
  {
    if ev.Flush? {
      FlushNeverFinds(q.(held := NotDue(q.held, ev.now)), Due(q.held, ev.now), ev.outcomes);
    }
  }

  /** In every other posture there are no losing events. */
  lemma {:induction false} RunIsSound(q: Queue, run: seq<Event>)
    requires Sound(q) && AllFit(q, run) && !q.extreme
    ensures NoLoss(q, run) && Sound(Run(q, run))
    decreases |run|
  {
    hide After, Fits;
    if run == [] {
    } else {
      EventConservesIff(q, run[0]);
      EventKeepsPosture(q, run[0]);
      RunIsSound(After(q, run[0]), run[1..]);
    }
  }

  lemma {:induction false} OccursOnce(es: seq<Entry>, e: Entry)
    requires e in es && forall i, j :: 0 <= i < j < |es| ==> es[i] != es[j]
    ensures multiset(es)[e] == 1
  {
    assert es == [es[0]] + es[1..];
    if es[0] == e {
      assert e !in es[1..];
    } else {
      OccursOnce(es[1..], e);
    }
  }

  /** When the committed frames are pairwise distinct, each is either still pending, once, or was
      handed to Tor exactly once. */
  lemma PendingOrHandedOnce(q: Queue, e: Entry)
    requires Sound(q) && e in q.committed
    requires forall i, j :: 0 <= i < j < |q.committed| ==> q.committed[i] != q.committed[j]
    ensures multiset(q.pending)[e] + multiset(q.handed)[e] == 1
    ensures e in q.pending <==> e !in q.handed
  {
    OccursOnce(q.committed, e);
    assert multiset(q.committed)[e] == multiset(q.pending)[e] + multiset(q.handed)[e];
    assert e in q.pending <==> multiset(q.pending)[e] > 0;
    assert e in q.handed <==> multiset(q.handed)[e] > 0;
  }

  /** The Extreme posture writes no frames to disk: locking conserves the frames if and only if the
      posture is another one or none is pending. */
  lemma RelockConservesIff(q: Queue)
    requires Conserved(q)
    ensures Conserved(Reloaded(q)) <==> !q.extreme || q.pending == []
  {
    CountsMatch(q);
    if Conserved(Reloaded(q)) {
      CountsMatch(Reloaded(q));
    }
  }

  function Numbered(n: nat): (r: seq<Entry>)
    requires n <= 0x100
    ensures |r| == n && forall i :: 0 <= i < n ==> r[i] == Entry([], [i])
  {
    if n == 0 then [] else Numbered(n - 1) + [Entry([], [n - 1])]
  }

  lemma FullHeldSend(p: seq<Entry>, e: Entry, due: int)
    requires |p| == MAX_PENDING_FRAMES && e !in p
    ensures var q := Queue(p, [], [], true, p, []);
            var r := Sent(q, e, Some(due), false, false);
            Sound(q) && e in r.committed && e !in r.pending && e !in r.handed && e !in r.disk
  {
    assert multiset(p) + multiset([]) == multiset(p);
    assert (p + [e])[|p|] == e;
  }

  /** Such a loss needs no lock: with 64 different frames waiting in the Extreme posture, a send that is
      held for its delay is committed, and its frame is nowhere. */
  lemma FullExtremeSendIsLost(due: int)
    ensures var p, e := Numbered(MAX_PENDING_FRAMES), Entry([], []);
            var q := Queue(p, [], [], true, p, []);
            var r := Sent(q, e, Some(due), false, false);
            Sound(q) && e in r.committed && e !in r.pending && e !in r.handed && e !in r.disk
  {
    hide Numbered, Sound, Sent;
    FullHeldSend(Numbered(MAX_PENDING_FRAMES), Entry([], []), due);
  }

  // ---------------------------------------------------------------- what goes out, and when

  predicate DueNow(held: seq<Held>, e: Entry, now: int) {
    exists i :: 0 <= i < |held| && held[i].due <= now && held[i].entry == e
  }

  /** When an event may hand `e` to Tor. */
  predicate MayHand(q: Queue, ev: Event, e: Entry) {
    match ev
    case Send(entry, due, bridgesHold, sock) => e == entry && due.None? && !bridgesHold && sock
    case Flush(now, open, _) => open && e in q.pending && DueNow(q.held, e, now)
    case Retry(now, open, _) => open && e in q.pending && !HeldUntilLater(q.held, e, now)
    case Relock => false
  }

  ghost predicate HandsOnly(q: Queue, ev: Event, handed: seq<Entry>) {
    q.handed <= handed && forall i :: |q.handed| <= i < |handed| ==> MayHand(q, ev, handed[i])
  }

  lemma {:induction false} AckOnlyRemoves(p: seq<Entry>, x: Entry, e: Entry)
    requires e in Ack(p, x)
    ensures e in p
  {
    if p[0] != x && e != p[0] {
      AckOnlyRemoves(p[1..], x, e);
    }
  }

  lemma {:induction false} DueIsDue(held: seq<Held>, now: int, i: nat)
    requires i < |Due(held, now)|
    ensures DueNow(held, Due(held, now)[i].entry, now)
  {
    if held[0].due <= now && i == 0 {
      assert held[0].entry == Due(held, now)[0].entry;
    } else {
      var k := if held[0].due <= now then i - 1 else i;
      DueIsDue(held[1..], now, k);
      assert Due(held, now)[i] == Due(held[1..], now)[k];
      var j :| 0 <= j < |held[1..]| && held[1..][j].due <= now && held[1..][j].entry == Due(held[1..], now)[k].entry;
      assert held[j + 1] == held[1..][j];
    }
  }

  predicate Among(due: seq<Held>, e: Entry) {
    exists k :: 0 <= k < |due| && due[k].entry == e
  }

  lemma {:induction false} FlushHandsDue(q: Queue, due: seq<Held>, sock: seq<bool>)
    requires |sock| == |due|
    ensures var r := FlushEach(q, due, sock);
            && q.handed <= r.handed
            && forall i :: |q.handed| <= i < |r.handed| ==>
                 r.handed[i] in q.pending && Among(due, r.handed[i])
    decreases |due|
  {
    if due == [] {
    } else {
      var e := due[0].entry;
      var next := if e in q.pending && sock[0] then q.(pending := Ack(q.pending, e), handed := q.handed + [e]) else q;
      var r := FlushEach(next, due[1..], sock[1..]);
      FlushHandsDue(next, due[1..], sock[1..]);
      forall i | |q.handed| <= i < |r.handed|
        ensures r.handed[i] in q.pending && Among(due, r.handed[i])
      {
        if i < |next.handed| {
          assert r.handed[i] == e == due[0].entry;
        } else {
          assert Among(due[1..], r.handed[i]);
          var k :| 0 <= k < |due[1..]| && due[1..][k].entry == r.handed[i];
          assert due[k + 1].entry == r.handed[i];
          if next != q {
            AckOnlyRemoves(q.pending, e, r.handed[i]);
          }
        }
      }
    }
  }

  lemma {:induction false} WaitingMayGo(p: seq<Entry>, held: seq<Held>, now: int, e: Entry)
    requires e in Waiting(p, held, now)
    ensures e in p && !HeldUntilLater(held, e, now)
  {
    if e in Waiting(p[1..], held, now) {
      WaitingMayGo(p[1..], held, now, e);
    }
  }

  lemma {:induction false} PickPicks(es: seq<Entry>, sock: seq<bool>, which: bool, e: Entry)
    requires |es| == |sock| && e in Pick(es, sock, which)
    ensures e in es
  {
    if e in Pick(es[1..], sock[1..], which) {
      PickPicks(es[1..], sock[1..], which, e);
    }
  }

  /** A frame is handed to Tor only by a send that is not to be held, by a flush when its delay has run
      out, or by a retry when it is not waiting for its delay; and never when Tor is closed. */
  lemma HandedOnlyInTime(q: Queue, ev: Event)
    requires Fits(q, ev)
    ensures HandsOnly(q, ev, After(q, ev).handed)
  {
    match ev
    case Send(_, _, _, _) =>
    case Relock =>
    case Flush(now, open, sock) => FlushInTime(q, now, open, sock);
    case Retry(now, open, sock) => RetryInTime(q, now, open, sock);
  }

  lemma FlushInTime(q: Queue, now: int, open: bool, sock: seq<bool>)
    requires |sock| == |Due(q.held, now)|
    ensures HandsOnly(q, Flush(now, open, sock), Flushed(q, now, open, sock).handed)
  {
    hide FlushEach, Due, NotDue;
    var c, due := q.(held := NotDue(q.held, now)), Due(q.held, now);
    FlushHandsDue(c, due, sock);
    var r := FlushEach(c, due, sock);
    forall i | |q.handed| <= i < |r.handed|
      ensures DueNow(q.held, r.handed[i], now)
    {
      assert Among(due, r.handed[i]);
      var k :| 0 <= k < |due| && due[k].entry == r.handed[i];
      DueIsDue(q.held, now, k);
    }
  }

  lemma RetryInTime(q: Queue, now: int, open: bool, sock: seq<bool>)
    requires |sock| == |Waiting(q.pending, q.held, now)|
    ensures HandsOnly(q, Retry(now, open, sock), Retried(q, now, open, sock).handed)
  {
    hide Waiting, Pick, StillHeld, QueueAll;
    var waiting := Waiting(q.pending, q.held, now);
    var more := Pick(waiting, sock, true);
    forall i | 0 <= i < |more|
      ensures more[i] in q.pending && !HeldUntilLater(q.held, more[i], now)
    {
      PickPicks(waiting, sock, true, more[i]);
      WaitingMayGo(q.pending, q.held, now, more[i]);
    }
  }
}
