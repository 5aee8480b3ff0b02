/** That the outgoing queue does its work: what a send, a flush and a retry hand to Tor and what they
    leave behind, and that a delay is kept over whole runs (`send_text`, `flush_held_sends`,
    `retry_pending` in `src/bin/hashchat_tui.rs`). */
module QueueProgress {
  import opened Collections
  import opened Crypto
  import opened OutboundQueue

  // ---------------------------------------------------------------- a send

  /** A send that finds the disk full changes nothing. Otherwise the frame is committed, and kept on disk
      but in the Extreme posture, and pending in memory if there is room. With a delay it is recorded with
      it; without one Tor gets it at once, if it can, and one copy of it is pending no longer. */
  lemma SendDoes(q: Queue, e: Entry, due: Option<int>, bridgesHold: bool, sock: bool)
    ensures var r, p := Sent(q, e, due, bridgesHold, sock), if |q.pending| < 64 then q.pending + [e] else q.pending;
            if |q.disk| >= 64 then r == q
            else if due.Some? then
              r == q.(pending := p, disk := if q.extreme then [] else q.disk + [e],
                      held := q.held + [Held(due.value, e)], committed := q.committed + [e])
            else if bridgesHold || !sock then
              r == q.(pending := p, disk := if q.extreme then [] else q.disk + [e], committed := q.committed + [e])
            else
              && (r.handed, r.committed, r.held, r.extreme) == (q.handed + [e], q.committed + [e], q.held, q.extreme)
              && multiset(r.pending) == multiset(p) - multiset{e} && (e !in q.pending ==> r.pending == q.pending)
              && r.disk == (if q.extreme then [] else r.pending)
  {
    hide Ack;
    AckAfterCommit(q.pending, e);
  }

  lemma AckAfterCommit(pending: seq<Entry>, e: Entry)
    ensures var p := QueuePending(pending, e);
            multiset(Ack(p, e)) == multiset(p) - multiset{e} && (e !in pending ==> Ack(p, e) == pending)
  {
    hide Ack;
    if |pending| < 64 {
      AckLast(pending, e);
    } else if e in pending {
      AckRemovesOne(pending, e);
      assert multiset(Ack(pending, e)) == multiset(pending) - multiset{e};
    } else {
      AckOfAbsent(pending, e);
    }
  }

  lemma AckLast(p: seq<Entry>, e: Entry)
    ensures multiset(Ack(p + [e], e)) == multiset(p) && (e !in p ==> Ack(p + [e], e) == p)
  {
    hide Ack;
    AckRemovesOne(p + [e], e);
    assert multiset(p + [e]) == multiset(p) + multiset{e};
    assert multiset(Ack(p + [e], e)) == multiset(p + [e]) - multiset{e};
    if e !in p {
      AckOfFirst(p, e, []);
      assert p + [e] + [] == p + [e] && p + [] == p;
    }
  }

  // ---------------------------------------------------------------- a retry

  /** No delay of the frame runs beyond `now`. */
  ghost function Free(held: seq<Held>, now: int): Entry -> bool {
    (e: Entry) => forall h :: h in held && h.entry == e ==> h.due <= now
  }

  ghost function Delayed(held: seq<Held>, now: int): Entry -> bool {
    (e: Entry) => exists h :: h in held && h.entry == e && h.due > now
  }

  lemma {:induction false} WaitingAreFree(p: seq<Entry>, held: seq<Held>, now: int)
    ensures Waiting(p, held, now) == Filter(p, Free(held, now))
    ensures StillHeld(p, held, now) == Filter(p, Delayed(held, now))
  {
    if p == [] {
    } else {
      WaitingAreFree(p[1..], held, now);
      HeldIsDelayed(held, p[0], now);
    }
  }

  lemma HeldIsDelayed(held: seq<Held>, e: Entry, now: int)
    ensures HeldUntilLater(held, e, now) <==> Delayed(held, now)(e)
    ensures Delayed(held, now)(e) <==> !Free(held, now)(e)
  {
    if h :| h in held && h.entry == e && h.due > now {
      var i :| 0 <= i < |held| && held[i] == h;
    }
  }

  /** How many of the flags are `which`. */
  ghost function Count(flags: seq<bool>, which: bool): nat {
    if flags == [] then 0 else (if flags[0] == which then 1 else 0) + Count(flags[1..], which)
  }

  lemma CountCons(first: bool, rest: seq<bool>, which: bool)
    ensures Count([first] + rest, which) == (if first == which then 1 else 0) + Count(rest, which)
  {
    assert ([first] + rest)[1..] == rest;
  }

  lemma CountNone(which: bool)
    ensures Count([], which) == 0
  {
  }

  lemma {:induction false} PickSize(es: seq<Entry>, sock: seq<bool>, which: bool)
    requires |es| == |sock|
    ensures |Pick(es, sock, which)| == Count(sock, which)
  {
    if es == [] {
    } else {
      PickSize(es[1..], sock[1..], which);
      CountCons(sock[0], sock[1..], which);
      assert sock == [sock[0]] + sock[1..];
    }
  }

  /** Element `i` is picked at the place given by the flags before it. */
  lemma {:induction false} PickAt(es: seq<Entry>, sock: seq<bool>, which: bool, i: nat)
    requires i < |es| == |sock| && sock[i] == which
    ensures Count(sock[..i], which) < |Pick(es, sock, which)| && Pick(es, sock, which)[Count(sock[..i], which)] == es[i]
  {
    hide Pick, Count;
    var rest := Pick(es[1..], sock[1..], which);
    PickCons(es[0], sock[0], es[1..], sock[1..], which);
    assert es == [es[0]] + es[1..] && sock == [sock[0]] + sock[1..];
    if i == 0 {
      assert sock[..0] == [];
      CountNone(which);
    } else {
      var at := Count(sock[1..][..i - 1], which);
      PickAt(es[1..], sock[1..], which, i - 1);
      CountCons(sock[0], sock[1..][..i - 1], which);
      assert sock[..i] == [sock[0]] + sock[1..][..i - 1];
      assert rest[at] == es[1..][i - 1] == es[i];
    }
  }

  /** `list` is `before`, followed by the frames whose flag is `which`, each at the place given by the
      number of such flags before its own. */
  ghost predicate Placed(list: seq<Entry>, before: seq<Entry>, frames: seq<Entry>, flags: seq<bool>, which: bool)
    requires |flags| == |frames|
  {
    && before <= list && |list| == |before| + Count(flags, which)
    && forall i :: 0 <= i < |frames| && flags[i] == which ==>
         var at := |before| + Count(flags[..i], which);
         at < |list| && list[at] == frames[i]
  }

  /** Every waiting frame goes where its attempt puts it: those that Tor takes are handed over in order,
      behind what was handed before; those that fail are pending again in order, behind the frames that
      are held for their delay. */
  ghost predicate Follows(q: Queue, r: Queue, waiting: seq<Entry>, back: seq<Entry>, sock: seq<bool>)
    requires |sock| == |waiting|
  {
    Placed(r.handed, q.handed, waiting, sock, true) && Placed(r.pending, back, waiting, sock, false)
  }

  lemma PickedArePlaced(before: seq<Entry>, frames: seq<Entry>, flags: seq<bool>, which: bool)
    requires |flags| == |frames|
    ensures Placed(before + Pick(frames, flags, which), before, frames, flags, which)
  {
    hide Pick, Count;
    PickSize(frames, flags, which);
    forall i | 0 <= i < |frames| && flags[i] == which
      ensures Count(flags[..i], which) < |Pick(frames, flags, which)| && Pick(frames, flags, which)[Count(flags[..i], which)] == frames[i]
    {
      PickAt(frames, flags, which, i);
    }
  }

  /** `retry_pending` with Tor open. */
  lemma RetrySends(q: Queue, now: int, sock: seq<bool>)
    requires |q.pending| <= 64 && |sock| == |Filter(q.pending, Free(q.held, now))|
    ensures Waiting(q.pending, q.held, now) == Filter(q.pending, Free(q.held, now))
    ensures var r, waiting, back := Retried(q, now, true, sock), Filter(q.pending, Free(q.held, now)), Filter(q.pending, Delayed(q.held, now));
            && Follows(q, r, waiting, back, sock)
            && (r.held, r.extreme, r.committed) == (q.held, q.extreme, q.committed)
            && r.disk == (if waiting == [] then q.disk else if q.extreme then [] else r.pending)
  {
    hide Waiting, StillHeld, Pick, QueueAll, Filter, Placed;
    WaitingAreFree(q.pending, q.held, now);
    var r, waiting, back := Retried(q, now, true, sock), Filter(q.pending, Free(q.held, now)), Filter(q.pending, Delayed(q.held, now));
    PartitionConserves(q.pending, q.held, now);
    PickConserves(waiting, sock);
    QueueAllFits([], back);
    assert [] + back == back;
    QueueAllFits(back, Pick(waiting, sock, false));
    if waiting == [] {
      PickNone(true);
      PickNone(false);
      assert sock == [] && q.handed + [] == q.handed && back + [] == back;
    }
    PickedArePlaced(q.handed, waiting, sock, true);
    PickedArePlaced(back, waiting, sock, false);
  }

  /** With Tor closed it does nothing. */
  lemma ClosedRetryWaits(q: Queue, now: int, sock: seq<bool>)
    requires |sock| == |Waiting(q.pending, q.held, now)|
    ensures Retried(q, now, false, sock) == q
  {
  }

  ghost predicate AllTaken(sock: seq<bool>) {
    forall i :: 0 <= i < |sock| ==> sock[i]
  }

  lemma {:induction false} AllPicked(es: seq<Entry>, sock: seq<bool>)
    requires |es| == |sock| && AllTaken(sock)
    ensures Pick(es, sock, true) == es && Pick(es, sock, false) == []
  {
    if es == [] {
    } else {
      assert es == [es[0]] + es[1..] && sock[0];
      AllPicked(es[1..], sock[1..]);
    }
  }

  /** After any run of the program outside the Extreme posture, one retry with Tor open, at a moment when
      no delay is running, brings out everything: all that was ever committed has been handed to Tor, and
      nothing is pending. */
  lemma RetryDrains(run: seq<Event>, now: int, sock: seq<bool>)
    requires var q := Queue([], [], [], false, [], []);
             AllFit(q, run) && (forall h :: h in Run(q, run).held ==> h.due <= now) && |sock| == |Run(q, run).pending| && AllTaken(sock)
    ensures var q := Run(Queue([], [], [], false, [], []), run);
            && |sock| == |Waiting(q.pending, q.held, now)|
            && Retried(q, now, true, sock).pending == [] && Retried(q, now, true, sock).handed == q.handed + q.pending
            && multiset(Retried(q, now, true, sock).handed) == multiset(q.committed)
  {
    hide Run, AllFit, Waiting, StillHeld, Pick, QueueAll, Filter, Retried;
    var start := Queue([], [], [], false, [], []);
    assert Sound(start);
    RunIsSound(start, run);
    DrainsFrom(Run(start, run), now, sock);
  }

  lemma DrainsFrom(q: Queue, now: int, sock: seq<bool>)
    requires Sound(q) && (forall h :: h in q.held ==> h.due <= now) && |sock| == |q.pending| && AllTaken(sock)
    ensures |sock| == |Waiting(q.pending, q.held, now)|
    ensures var r := Retried(q, now, true, sock); r.pending == [] && r.handed == q.handed + q.pending && multiset(r.handed) == multiset(q.committed)
  {
    hide Waiting, StillHeld, Pick, QueueAll, Filter;
    WaitingAreFree(q.pending, q.held, now);
    forall e | e in q.pending
      ensures Free(q.held, now)(e) && !Delayed(q.held, now)(e)
    {
      HeldIsDelayed(q.held, e, now);
    }
    FilterAll(q.pending, Free(q.held, now));
    FilterNone(q.pending, Delayed(q.held, now));
    AllPicked(q.pending, sock);
    QueueAllFits([], []);
    var none: seq<Entry> := [];
    assert none + none == none && q.handed + [] == q.handed;
    assert multiset(q.handed + q.pending) == multiset(q.handed) + multiset(q.pending);
  }

  // ---------------------------------------------------------------- a flush

  ghost function DueBy(now: int): Held -> bool {
    (h: Held) => h.due <= now
  }

  ghost function DueLater(now: int): Held -> bool {
    (h: Held) => h.due > now
  }

  lemma {:induction false} DueAre(held: seq<Held>, now: int)
    ensures Due(held, now) == Filter(held, DueBy(now)) && NotDue(held, now) == Filter(held, DueLater(now))
  {
    if held == [] {
    } else {
      DueAre(held[1..], now);
    }
  }

  /** How many attempts at the frame succeed, if it can be had. */
  ghost function Successes(due: seq<Held>, sock: seq<bool>, e: Entry): nat
    requires |sock| == |due|
  {
    if due == [] then 0 else (if due[0].entry == e && sock[0] then 1 else 0) + Successes(due[1..], sock[1..], e)
  }

  ghost function Min(a: nat, b: nat): nat {
    if a <= b then a else b
  }

  /** A frame is handed over as often as an attempt at it succeeds while it is still pending. */
  lemma {:induction false} FlushHandsOver(q: Queue, due: seq<Held>, sock: seq<bool>, e: Entry)
    requires |sock| == |due|
    ensures var r, n := FlushEach(q, due, sock), Min(multiset(q.pending)[e], Successes(due, sock, e));
            multiset(r.handed)[e] == multiset(q.handed)[e] + n && multiset(r.pending)[e] == multiset(q.pending)[e] - n
    decreases |due|
  {
    hide Ack;
    if due == [] {
    } else {
      var x := due[0].entry;
      if x in q.pending && sock[0] {
        AckRemovesOne(q.pending, x);
        Snoc(q.handed, x);
        FlushHandsOver(q.(pending := Ack(q.pending, x), handed := q.handed + [x]), due[1..], sock[1..], e);
      } else {
        assert x !in q.pending ==> multiset(q.pending)[x] == 0;
        FlushHandsOver(q, due[1..], sock[1..], e);
      }
    }
  }

  ghost function Entries(due: seq<Held>): (r: seq<Entry>)
    ensures |r| == |due|
  {
    seq(|due|, i requires 0 <= i < |due| => due[i].entry)
  }

  /** Which attempts at different frames succeed: those that Tor takes of frames that are pending. */
  ghost function Fates(p: seq<Entry>, due: seq<Held>, sock: seq<bool>): (r: seq<bool>)
    requires |sock| == |due|
    ensures |r| == |due|
  {
    seq(|due|, i requires 0 <= i < |due| => sock[i] && due[i].entry in p)
  }

  lemma {:induction false} AckLeavesOthers(p: seq<Entry>, x: Entry, e: Entry)
    requires e != x
    ensures e in Ack(p, x) <==> e in p
  {
    if p != [] && p[0] != x {
      AckLeavesOthers(p[1..], x, e);
    }
  }

  lemma DistinctTail(due: seq<Held>)
    requires due != [] && Distinct(Entries(due))
    ensures Entries(due) == [due[0].entry] + Entries(due[1..]) && Distinct(Entries(due[1..]))
    ensures forall i :: 1 <= i < |due| ==> due[i].entry != due[0].entry
  {
    var es := Entries(due);
    assert forall i :: 1 <= i < |due| ==> es[i] == due[i].entry && es[0] != es[i];
    assert Entries(due[1..]) == es[1..];
  }

  lemma FatesTail(p: seq<Entry>, next: seq<Entry>, due: seq<Held>, sock: seq<bool>)
    requires |sock| == |due| && due != []
    requires forall i :: 1 <= i < |due| ==> (due[i].entry in next <==> due[i].entry in p)
    ensures Fates(p, due, sock) == [sock[0] && due[0].entry in p] + Fates(next, due[1..], sock[1..])
  {
  }

  lemma NoneToTry(p: seq<Entry>)
    ensures Entries([]) == [] && Fates(p, [], []) == []
  {
  }

  /** Different frames are handed over in the order in which they came. */
  lemma {:induction false} FlushInOrder(q: Queue, due: seq<Held>, sock: seq<bool>)
    requires |sock| == |due| && Distinct(Entries(due))
    ensures FlushEach(q, due, sock).handed == q.handed + Pick(Entries(due), Fates(q.pending, due, sock), true)
    decreases |due|
  {
    hide Ack, Distinct, Entries, Fates, Pick;
    if due == [] {
      PickNone(true);
      NoneToTry(q.pending);
      assert sock == [] && q.handed + [] == q.handed;
    } else {
      var x := due[0].entry;
      var taken := sock[0] && x in q.pending;
      var next := if taken then q.(pending := Ack(q.pending, x), handed := q.handed + [x]) else q;
      DistinctTail(due);
      forall i | 1 <= i < |due|
        ensures due[i].entry in next.pending <==> due[i].entry in q.pending
      {
        AckLeavesOthers(q.pending, x, due[i].entry);
      }
      FatesTail(q.pending, next.pending, due, sock);
      FlushInOrder(next, due[1..], sock[1..]);
      PickCons(x, taken, Entries(due[1..]), Fates(next.pending, due[1..], sock[1..]), true);
    }
  }

  /** `flush_held_sends`: the delays that have run out are forgotten. With Tor open, every frame whose
      delay has run out is tried, and handed over if it is still pending and Tor takes it; the queue is
      saved if anything went out. With Tor closed nothing else happens. */
  lemma FlushSends(q: Queue, now: int, open: bool, sock: seq<bool>, e: Entry)
    requires |sock| == |Filter(q.held, DueBy(now))|
    ensures Due(q.held, now) == Filter(q.held, DueBy(now))
    ensures var r, due := Flushed(q, now, open, sock), Filter(q.held, DueBy(now));
            && (r.held, r.extreme, r.committed) == (Filter(q.held, DueLater(now)), q.extreme, q.committed)
            && (if open then
                  var n := Min(multiset(q.pending)[e], Successes(due, sock, e));
                  && multiset(r.handed)[e] == multiset(q.handed)[e] + n && multiset(r.pending)[e] == multiset(q.pending)[e] - n
                  && (Distinct(Entries(due)) ==> r.handed == q.handed + Pick(Entries(due), Fates(q.pending, due, sock), true))
                  && r.disk == (if r.handed == q.handed then q.disk else if q.extreme then [] else r.pending)
                else (r.pending, r.handed, r.disk) == (q.pending, q.handed, q.disk))
  {
    hide Due, NotDue, Filter, FlushEach, Pick, Successes, Min, Distinct, Entries, Fates;
    DueAre(q.held, now);
    var c, due := q.(held := NotDue(q.held, now)), Filter(q.held, DueBy(now));
    FlushHandsOver(c, due, sock, e);
    FlushKeeps(c, due, sock);
    if Distinct(Entries(due)) {
      FlushInOrder(c, due, sock);
    }
  }

  lemma {:induction false} FlushKeeps(q: Queue, due: seq<Held>, sock: seq<bool>)
    requires |sock| == |due|
    ensures var r := FlushEach(q, due, sock); (r.disk, r.held, r.extreme, r.committed) == (q.disk, q.held, q.extreme, q.committed)
    decreases |due|
  {
    if due == [] {
    } else {
      var e := due[0].entry;
      FlushKeeps(if e in q.pending && sock[0] then q.(pending := Ack(q.pending, e), handed := q.handed + [e]) else q, due[1..], sock[1..]);
    }
  }

  // ---------------------------------------------------------------- the delay is kept

  /** The frame waits for a delay until `due`, and for none that ends before. */
  ghost predicate Awaits(q: Queue, e: Entry, due: int) {
    Held(due, e) in q.held && forall h :: h in q.held && h.entry == e ==> h.due >= due
  }

  /** The event comes before `due`, and is neither a lock nor another send of the frame. */
  predicate Before(ev: Event, e: Entry, due: int) {
    match ev
    case Send(entry, _, _, _) => entry != e
    case Flush(now, _, _) => now < due
    case Retry(now, _, _) => now < due
    case Relock => false
  }

  lemma NotHandedYet(q: Queue, ev: Event, e: Entry, due: int)
    requires Fits(q, ev) && Awaits(q, e, due) && Before(ev, e, due)
    ensures !MayHand(q, ev, e)
  {
    if ev.Retry? {
      var i :| 0 <= i < |q.held| && q.held[i] == Held(due, e);
      assert HeldUntilLater(q.held, e, ev.now);
    }
  }

  lemma {:induction false} FilterHas<T>(s: seq<T>, keep: T -> bool, x: T)
    ensures x in Filter(s, keep) <==> x in s && keep(x)
  {
    if s == [] {
    } else {
      FilterHas(s[1..], keep, x);
      assert s == [s[0]] + s[1..];
    }
  }

  lemma StillAwaits(q: Queue, ev: Event, e: Entry, due: int)
    requires Fits(q, ev) && Awaits(q, e, due) && Before(ev, e, due)
    ensures Awaits(After(q, ev), e, due)
  {
    hide FlushEach, Ack, QueueAll, Pick, Waiting, StillHeld, Due, NotDue, Filter;
    if ev.Flush? {
      DueAre(q.held, ev.now);
      FlushKeeps(q.(held := NotDue(q.held, ev.now)), Due(q.held, ev.now), ev.outcomes);
      forall h: Held
        ensures h in NotDue(q.held, ev.now) <==> h in q.held && h.due > ev.now
      {
        FilterHas(q.held, DueLater(ev.now), h);
      }
    }
  }

  lemma HandsNoMore(q: Queue, ev: Event, e: Entry, handed: seq<Entry>)
    requires HandsOnly(q, ev, handed) && !MayHand(q, ev, e)
    ensures multiset(handed)[e] == multiset(q.handed)[e]
  {
    hide MayHand;
    var more := handed[|q.handed|..];
    assert handed == q.handed + more;
    assert e !in more;
  }

  /** A frame that is held for its delay is not handed to Tor before, over any run in which the program is
      not locked and the frame is not sent again. */
  lemma {:induction false} DelayIsKept(q: Queue, run: seq<Event>, e: Entry, due: int)
    requires AllFit(q, run) && Awaits(q, e, due) && forall i :: 0 <= i < |run| ==> Before(run[i], e, due)
    ensures multiset(Run(q, run).handed)[e] == multiset(q.handed)[e] && Awaits(Run(q, run), e, due)
    decreases |run|
  {
    hide After, Fits, Awaits, Before, MayHand;
    if run == [] {
    } else {
      NotHandedYet(q, run[0], e, due);
      HandedOnlyInTime(q, run[0]);
      HandsNoMore(q, run[0], e, After(q, run[0]).handed);
      StillAwaits(q, run[0], e, due);
      DelayIsKept(After(q, run[0]), run[1..], e, due);
    }
  }

  /** A send with a delay makes the frame wait for it. */
  lemma SendAwaits(q: Queue, e: Entry, due: int, bridgesHold: bool, sock: bool)
    requires |q.disk| < 64 && forall h :: h in q.held ==> h.entry != e
    ensures Awaits(Sent(q, e, Some(due), bridgesHold, sock), e, due)
  {
    assert Sent(q, e, Some(due), bridgesHold, sock).held == q.held + [Held(due, e)];
    assert (q.held + [Held(due, e)])[|q.held|] == Held(due, e);
  }

  /** Locking forgets the delays: a frame that is still to wait goes out with the first retry after it. */
  lemma LockForgetsTheDelay(e: Entry, due: int, now: int)
    requires now < due
    ensures var q := Sent(Queue([], [], [], false, [], []), e, Some(due), false, true);
            var run := [Relock, Retry(now, true, [true])];
            Awaits(q, e, due) && AllFit(q, run) && Run(q, run).handed == [e]
  {
    var start := Queue([], [], [], false, [], []);
    var q := Sent(start, e, Some(due), false, true);
    SendAwaits(start, e, due, false, true);
    OneGoesOut(e, now);
    var retry := Retry(now, true, [true]);
    var locked := Queue([e], [e], [], false, [e], []);
    assert After(q, Relock) == locked;
    assert [Relock, retry][1..] == [retry];
    RunOne(locked, retry);
  }

  lemma RunOne(q: Queue, ev: Event)
    requires Fits(q, ev)
    ensures AllFit(q, [ev]) && Run(q, [ev]) == After(q, ev)
  {
    hide After, Fits;
    assert [ev][1..] == [];
    assert Run(After(q, ev), []) == After(q, ev);
  }

  lemma OneGoesOut(e: Entry, now: int)
    ensures var q, retry := Queue([e], [e], [], false, [e], []), Retry(now, true, [true]);
            Fits(q, retry) && After(q, retry).handed == [e]
  {
    var q := Queue([e], [e], [], false, [e], []);
    assert AllTaken([true]) && Sound(q);
    DrainsFrom(q, now, [true]);
    assert [] + [e] == [e];
  }
}
