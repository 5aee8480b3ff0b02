/** The connection-slot counter (`try_reserve_slot` and `ConnSlot::drop` in
    `src/rust/hidden_service.rs`), one atomic step at a time and with any number of threads. */
module Slots {
  import opened Crypto

  type Thread = nat

  /** Where a thread stands in `try_reserve_slot`: outside, in the loop with the value it last saw, or
      holding a slot. */
  datatype Phase = Outside | Looping(seen: nat) | Holding

  datatype World = World(live: u64, threads: map<Thread, Phase>)

  datatype Step =
    | Load(t: Thread)        // live.load
    | GiveUp(t: Thread)      // the value seen is at least max
    | Exchange(t: Thread)    // compare_exchange_weak that succeeds
    | Miss(t: Thread)        // compare_exchange_weak that fails, spuriously or not
    | Drop(t: Thread)        // the slot is dropped: fetch_sub

  predicate Enabled(w: World, max: u64, s: Step) {
    s.t in w.threads &&
    match s
    case Load(t) => w.threads[t].Outside?
    case GiveUp(t) => w.threads[t].Looping? && w.threads[t].seen >= max
    case Exchange(t) => w.threads[t].Looping? && w.threads[t].seen < max && w.live == w.threads[t].seen
    case Miss(t) => w.threads[t].Looping? && w.threads[t].seen < max
    case Drop(t) => w.threads[t].Holding?
  }

  /** `fetch_sub` wraps around at zero. */
  function WrappingDec(n: u64): u64 {
    if n == 0 then U64_MAX else n - 1
  }

  function Do(w: World, max: u64, s: Step): World
    requires Enabled(w, max, s)
  {
    match s
    case Load(t) => w.(threads := w.threads[t := Looping(w.live)])
    case GiveUp(t) => w.(threads := w.threads[t := Outside])
    case Exchange(t) => World(w.live + 1, w.threads[t := Holding])
    case Miss(t) => w.(threads := w.threads[t := Looping(w.live)])
    case Drop(t) => World(WrappingDec(w.live), w.threads[t := Outside])
  }

  function Holders(w: World): set<Thread> {
    set t | t in w.threads && w.threads[t].Holding?
  }

  ghost predicate Counted(w: World, max: u64) {
    w.live == |Holders(w)| && w.live <= max
  }

  lemma ExchangeCounts(w: World, t: Thread)
    requires t in w.threads && !w.threads[t].Holding?
    ensures |Holders(w.(threads := w.threads[t := Holding]))| == |Holders(w)| + 1
  {
    assert Holders(w.(threads := w.threads[t := Holding])) == Holders(w) + {t};
  }

  lemma DropCounts(w: World, t: Thread)
    requires t in w.threads && w.threads[t].Holding?
    ensures |Holders(w.(threads := w.threads[t := Outside]))| == |Holders(w)| - 1 && |Holders(w)| >= 1
  {
    assert t in Holders(w) && Holders(w.(threads := w.threads[t := Outside])) == Holders(w) - {t};
  }

  lemma OthersCount(w: World, t: Thread, phase: Phase)
    requires t in w.threads && !w.threads[t].Holding? && !phase.Holding?
    ensures Holders(w.(threads := w.threads[t := phase])) == Holders(w)
  {
  }

  lemma SameThreads(w: World, v: World)
    requires v.threads == w.threads
    ensures Holders(v) == Holders(w)
  {
  }

  lemma StepKeepsCount(w: World, max: u64, s: Step)
    requires Counted(w, max) && Enabled(w, max, s)
    ensures Counted(Do(w, max, s), max)
  {
    hide Holders;
    match s
    case Exchange(t) =>
      ExchangeCounts(w, t);
      SameThreads(w.(threads := w.threads[t := Holding]), Do(w, max, s));
    case Drop(t) =>
      DropCounts(w, t);
      SameThreads(w.(threads := w.threads[t := Outside]), Do(w, max, s));
    case Load(t) => OthersCount(w, t, Looping(w.live));
    case GiveUp(t) => OthersCount(w, t, Outside);
    case Miss(t) => OthersCount(w, t, Looping(w.live));
  }

  ghost predicate Possible(w: World, max: u64, run: seq<Step>)
    decreases |run|
  {
    run == [] || (Enabled(w, max, run[0]) && Possible(Do(w, max, run[0]), max, run[1..]))
  }

  ghost function Run(w: World, max: u64, run: seq<Step>): World
    requires Possible(w, max, run)
    decreases |run|
  {
    if run == [] then w else Run(Do(w, max, run[0]), max, run[1..])
  }

  lemma {:induction false} RunSnoc(w: World, max: u64, run: seq<Step>, s: Step)
    requires Possible(w, max, run) && Enabled(Run(w, max, run), max, s)
    ensures Possible(w, max, run + [s]) && Run(w, max, run + [s]) == Do(Run(w, max, run), max, s)
    decreases |run|
  {
    hide Do, Enabled;
    if run == [] {
      assert [s][1..] == [] && run + [s] == [s];
      assert Run(Do(w, max, s), max, []) == Do(w, max, s);
    } else {
      assert (run + [s])[1..] == run[1..] + [s];
      RunSnoc(Do(w, max, run[0]), max, run[1..], s);
    }
  }

  /** Under every interleaving the counter is the number of slots in use, and never above `max`; so
      the decrement never wraps. */
  lemma {:induction false} LiveCountsSlots(w: World, max: u64, run: seq<Step>)
    requires Counted(w, max) && Possible(w, max, run)
    ensures Counted(Run(w, max, run), max)
    decreases |run|
  {
    if run == [] {
    } else {
      StepKeepsCount(w, max, run[0]);
      LiveCountsSlots(Do(w, max, run[0]), max, run[1..]);
    }
  }

  /** At some moment of the run all slots are in use. */
  ghost predicate EverFull(w: World, max: u64, run: seq<Step>)
    requires Possible(w, max, run)
    decreases |run|
  {
    w.live == max || (run != [] && EverFull(Do(w, max, run[0]), max, run[1..]))
  }

  /** A thread that has yet to see the counter at `max` is refused only if, after this point, all
      slots really were in use. */
  lemma {:induction false} RefusedOnlyWhenFull(w: World, max: u64, run: seq<Step>, t: Thread)
    requires Counted(w, max) && Possible(w, max, run)
    requires t in w.threads && (w.threads[t].Looping? ==> w.threads[t].seen < max)
    requires Enabled(Run(w, max, run), max, GiveUp(t))
    ensures EverFull(w, max, run)
    decreases |run|
  {
    if run != [] && w.live != max {
      StepKeepsCount(w, max, run[0]);
      RefusedOnlyWhenFull(Do(w, max, run[0]), max, run[1..], t);
    }
  }

  /** A thread that is let in while a slot is free gets it, when no other thread steps in between. */
  lemma FreeSlotIsTaken(w: World, max: u64, t: Thread)
    requires t in w.threads && w.threads[t].Outside? && w.live < max
    ensures Enabled(w, max, Load(t)) && Enabled(Do(w, max, Load(t)), max, Exchange(t))
    ensures Do(Do(w, max, Load(t)), max, Exchange(t)) == World(w.live + 1, w.threads[t := Holding])
  {
    assert w.threads[t := Looping(w.live)][t := Holding] == w.threads[t := Holding];
  }

  /** A slot that is dropped can be had again. */
  lemma DropFreesTheSlot(w: World, max: u64, t: Thread)
    requires Counted(w, max) && t in w.threads && w.threads[t].Holding?
    ensures w.live >= 1 && Enabled(w, max, Drop(t)) && Do(w, max, Drop(t)) == World(w.live - 1, w.threads[t := Outside])
    ensures Do(w, max, Drop(t)).live < max
  {
    DropCounts(w, t);
  }

  /** Nobody loses a slot, gets one or is turned away by the step of another thread. */
  lemma StepsAreOwn(w: World, max: u64, s: Step, t: Thread)
    requires Enabled(w, max, s) && t in w.threads && s.t != t
    ensures t in Do(w, max, s).threads && Do(w, max, s).threads[t] == w.threads[t]
  {
  }

  /** A missed exchange is tried again with the value seen last, and full is reported only then. */
  lemma MissedTriesAgain(w: World, max: u64, t: Thread)
    requires Enabled(w, max, Miss(t))
    ensures var v := Do(w, max, Miss(t));
            && v == w.(threads := w.threads[t := Looping(w.live)])
            && (Enabled(v, max, Exchange(t)) <==> w.live < max) && (Enabled(v, max, GiveUp(t)) <==> w.live >= max)
  {
  }
}
