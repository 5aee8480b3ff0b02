/** When no skipped key is ever evicted, over whole runs of two peers (`store_skipped_key` in
    `src/rust/ratchet.rs`). */
module Retention {
  import opened Crypto
  import opened Ratchet
  import opened Agreement
  import opened AgreementDeliver
  import opened AgreementAnswer
  import opened AgreementTheorem
  import opened Delivery

  /** How many of the frames that the receiver has passed it has not accepted. */
  function Missing(w: World): int {
    w.b.recvCount - |w.ab.got|
  }

  lemma {:induction false} BelowSize(n: nat, below: set<int>)
    requires forall k :: k in below <==> 0 <= k < n
    ensures |below| == n
  {
    if n == 0 {
      assert forall k :: k !in below;
    } else {
      BelowSize(n - 1, below - {n - 1});
    }
  }

  lemma PartsSize(a: set<int>, b: set<int>, n: nat)
    requires a !! b && forall k :: k in a || k in b <==> 0 <= k < n
    ensures |a| + |b| == n
  {
    BelowSize(n, a + b);
  }

  /** As long as nothing was evicted, the keys stored are as many as the frames missing. */
  lemma StoredAreMissing(w: World)
    requires StoredKeys(w.b, w.ab) && AllStored(w) && forall n :: n in w.ab.got ==> n < w.b.recvCount
    ensures |w.b.skipped| == Missing(w)
  {
    var keys: set<int>, got: set<int> := w.b.skipped.Keys, w.ab.got;
    forall k: int
      ensures k in keys || k in got <==> 0 <= k < w.b.recvCount
    {
      if 0 <= k < w.b.recvCount && k !in got {
        assert (k as u32) in w.b.skipped;
      }
    }
    PartsSize(keys, got, w.b.recvCount);
  }

  /** After a new frame the store has had room for all keys passed, if no more than the cap are missing. */
  lemma RoomIfFewMissing(w: World, n: nat)
    requires Inv(w) && AllStored(w) && n < |w.ab.sent| && Openable(w, n) && Missing(DeliverStep(w, n)) <= MAX_SKIPPED_KEYS
    ensures Room(w, n)
  {
    hide Inv, AllStored, Open, Openable, SkipTo, AtBoundary, StoredKeys, Advance;
    StoredOfWorld(w);
    InboxOf(w);
    StoredAreMissing(w);
    if n >= w.b.recvCount {
      HonestAnswer(w, n);
      hide CaseOf;
      NewFrameCounts(w, n);
    }
  }

  lemma InboxOf(w: World)
    requires Inv(w)
    ensures forall n :: n in w.ab.got ==> n < w.b.recvCount
  {
    hide Log, OneHistory, KeysApart, Lineage, StoredKeys, Advance;
  }

  lemma NewFrameCounts(w: World, n: nat)
    requires Inv(w) && n < |w.ab.sent| && Openable(w, n) && n >= w.b.recvCount
    ensures DeliverStep(w, n).b.recvCount == n + 1 && DeliverStep(w, n).ab.got == w.ab.got + {n} && n !in w.ab.got
  {
    hide Inv, Open, EpochInTurn, GapFits, SkipTo, AtBoundary, HeaderPasses;
    HonestAnswer(w, n);
  }

  lemma DeliverKeepsStored(w: World, n: nat)
    requires Inv(w) && AllStored(w) && n < |w.ab.sent| && Missing(DeliverStep(w, n)) <= MAX_SKIPPED_KEYS
    ensures AllStored(DeliverStep(w, n))
  {
    hide Inv, AllStored, Openable, DeliverStep, Missing;
    if Openable(w, n) {
      RoomIfFewMissing(w, n);
      RoomKeepsAll(w, n);
    } else {
      RefusedStays(w, n);
    }
  }

  lemma RefusedStays(w: World, n: nat)
    requires Inv(w) && n < |w.ab.sent| && !Openable(w, n)
    ensures DeliverStep(w, n) == w
  {
    hide Inv, Open, Openable, AfterOpening;
    HonestAnswer(w, n);
  }

  lemma EventKeepsStored(w: World, event: Event)
    requires Inv(w) && |w.ab.epochs| > 0 && Possible(w, event) && AllStored(w) && AllStored(Flip(w))
    requires Missing(Do(w, event)) <= MAX_SKIPPED_KEYS
    ensures AllStored(Do(w, event)) && AllStored(Flip(Do(w, event)))
  {
    hide Inv, Open, MaySend, MayInject, SendFrame, Missing;
    match event
    case Send(_, _, _) =>
    case Deliver(n) => DeliverKeepsStored(w, n);
    case Inject(f) => EventKeepsInv(w, event);
  }

  /** At no moment of the run are more than MAX_SKIPPED_KEYS frames missing at either peer. */
  ghost predicate FewMissing(w: World, run: seq<Action>)
    requires Admissible(w, run)
    decreases |run|
  {
    && Missing(w) <= MAX_SKIPPED_KEYS && Missing(Flip(w)) <= MAX_SKIPPED_KEYS
    && (run == [] || FewMissing(View(Do(View(w, run[0].flip), run[0].event), run[0].flip), run[1..]))
  }

  lemma ActionKeepsStored(w: World, action: Action)
    requires Inv(w) && AllStored(w) && AllStored(Flip(w))
    requires |View(w, action.flip).ab.epochs| > 0 && Possible(View(w, action.flip), action.event)
    requires var next := View(Do(View(w, action.flip), action.event), action.flip);
             Missing(next) <= MAX_SKIPPED_KEYS && Missing(Flip(next)) <= MAX_SKIPPED_KEYS
    ensures var next := View(Do(View(w, action.flip), action.event), action.flip);
            Inv(next) && AllStored(next) && AllStored(Flip(next))
  {
    hide Inv, AllStored, Do, Possible, Answered;
    var v := View(w, action.flip);
    InvFlips(w);
    EventKeepsInv(v, action.event);
    InvFlips(Do(v, action.event));
    EventKeepsStored(v, action.event);
  }

  /** Over every admissible run, as long as never more than MAX_SKIPPED_KEYS frames are missing at a peer,
      no key is evicted: every frame that was passed and has not been accepted still opens. */
  lemma {:induction false} NothingIsEvicted(w: World, run: seq<Action>)
    requires Inv(w) && AllStored(w) && AllStored(Flip(w)) && Admissible(w, run) && FewMissing(w, run)
    ensures AllStored(Run(w, run)) && AllStored(Flip(Run(w, run)))
    decreases |run|
  {
    hide Inv, AllStored, Do, Possible, Missing;
    if run == [] {
    } else {
      var next := View(Do(View(w, run[0].flip), run[0].event), run[0].flip);
      FewMissingNow(next, run[1..]);
      ActionKeepsStored(w, run[0]);
      NothingIsEvicted(next, run[1..]);
    }
  }

  lemma FewMissingNow(w: World, run: seq<Action>)
    requires Admissible(w, run) && FewMissing(w, run)
    ensures Missing(w) <= MAX_SKIPPED_KEYS && Missing(Flip(w)) <= MAX_SKIPPED_KEYS
  {
  }

  /** Then a late frame opens exactly when it has not been accepted. */
  lemma LateFramesOpen(w: World, n: nat)
    requires Inv(w) && AllStored(w) && n < w.b.recvCount && n < |w.ab.sent|
    ensures Answer(w, n).result.Ok? <==> n !in w.ab.got
  {
    hide Inv, Open, AfterOpening, StoredKeys;
    HonestAnswer(w, n);
    StoredOfWorld(w);
    if n in w.ab.got {
      AcceptedIsNotStored(w.b, w.ab, n);
    }
  }
}
