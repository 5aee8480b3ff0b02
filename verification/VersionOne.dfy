/** What follows from a version 1 blob in the middle of an epoch (`from_bytes` in
    `src/rust/ratchet.rs`): the restored peer announces the wrong start of its epoch. */
module VersionOne {
  import opened Crypto
  import opened Ratchet
  import opened Agreement
  import opened AgreementDeliver
  import opened AgreementKeys
  import opened AgreementAnswer
  import opened Delivery

  /** The peer as a version 1 blob restores it, after `k` more sends. */
  function Restored(s: State, k: nat): State {
    if k == 0 then s.(sendsSinceDh := 0) else AfterSend(Restored(s, k - 1), Secret([]))
  }

  lemma {:induction false} RestoredIs(s: State, k: nat)
    requires k <= DH_SEND_EVERY && s.sendCount + k <= U32_MAX
    ensures Restored(s, k) == s.(chainSend := Advance(s.chainSend, k), sendCount := s.sendCount + k, sendsSinceDh := k)
  {
    if k == 0 {
    } else {
      RestoredIs(s, k - 1);
    }
  }

  /** What the restored peer puts on the wire next: it gives its step after the restore as the start of
      an epoch that began earlier. */
  lemma RestoredFrame(w: World, k: nat, plaintext: Bytes)
    requires Inv(w) && k < DH_SEND_EVERY && w.a.sendCount + k < U32_MAX
    ensures |w.ab.epochs| > 0 && Last(w.ab.epochs).first <= w.a.sendCount
    ensures var e, n := Last(w.ab.epochs), w.a.sendCount + k;
            var f := SendFrame(Restored(w.a, k), Secret([]), [], plaintext);
            && f.dh == e.dh && f.step == n && f.epochStart == w.a.sendCount
            && f.ct == Sealed(KeyIn(e, n), AadOf(f), plaintext)
  {
    hide Restored, Inbox, OneHistory, KeysApart, Lineage, EpochsOk, SentOk;
    Basics(w);
    var e := Last(w.ab.epochs);
    RestoredIs(w.a, k);
    AdvanceSum(e.chain, w.a.sendCount - e.first, k);
  }

  lemma NewestKeyPasses(w: World)
    requires Inv(w)
    ensures |w.ab.epochs| > 0
    ensures var e := Last(w.ab.epochs); e.dh != w.b.public && WasContributory(e.dh) && (|w.ab.epochs| > 1 ==> e.chain.DhChain?)
  {
    hide SentOk, EpochsOk, Inbox, OneHistory, DepthsDiffer, Above, Lineage, Advance;
    Basics(w);
    assert w.b.public == Last(w.ba.epochs).dh;
  }

  lemma NewestKeyIsNew(w: World)
    requires Inv(w) && w.b.remote.Some?
    ensures w.ab.seen < |w.ab.epochs| && (w.b.remote == Some(Last(w.ab.epochs).dh) <==> CaughtUp(w.ab))
  {
    hide Log, OneHistory, Deepening, DepthsDiffer, Above, Lineage, Advance, StoredKeys;
    assert w.b.remote.value == w.ab.epochs[w.ab.seen].dh;
  }

  lemma NewestKey(w: World)
    requires Inv(w)
    ensures |w.ab.epochs| > 0 && w.ab.seen < |w.ab.epochs|
    ensures var e := Last(w.ab.epochs);
            && e.dh != w.b.public && WasContributory(e.dh) && (!CaughtUp(w.ab) ==> e.chain.DhChain?)
            && (w.b.remote.Some? ==> (w.b.remote == Some(e.dh) <==> CaughtUp(w.ab)))
  {
    hide Inv;
    Basics(w);
    NewestKeyPasses(w);
    if w.b.remote.Some? {
      NewestKeyIsNew(w);
    }
  }

  lemma NewestPlace(w: World, n: nat)
    requires Inv(w) && w.a.sendCount <= n < U32_MAX
    ensures |w.ab.epochs| > 0 && w.b.recvCount <= w.a.sendCount && n !in w.b.skipped && Last(w.ab.epochs).first <= w.a.sendCount
    ensures !CaughtUp(w.ab) ==> w.b.recvCount <= Last(w.ab.epochs).first && w.a.sendsSinceDh >= 1
                                && Last(w.ab.epochs).first + w.a.sendsSinceDh == w.a.sendCount
  {
    hide SentOk, OneHistory, KeysApart, Lineage, Advance, StoredKeys;
    InPlace(w.b, w.ab);
    StoredBelowCounter(w.b, w.ab, n);
  }

  /** What the receiver finds in the header of the sender's newest epoch. */
  lemma NewestHeader(w: World, n: nat)
    requires Inv(w) && w.a.sendCount <= n < U32_MAX
    ensures |w.ab.epochs| > 0 && w.b.recvCount <= w.a.sendCount && n !in w.b.skipped
    ensures var e := Last(w.ab.epochs);
            && e.dh != w.b.public && WasContributory(e.dh) && e.first <= w.a.sendCount
            && (w.b.remote.Some? ==> (w.b.remote == Some(e.dh) <==> CaughtUp(w.ab)))
            && (!CaughtUp(w.ab) ==> e.chain.DhChain? && w.b.recvCount <= e.first && e.first + w.a.sendsSinceDh == w.a.sendCount && w.a.sendsSinceDh >= 1)
  {
    hide Inv;
    NewestKey(w);
    NewestPlace(w, n);
  }

  lemma StoredBelowCounter(r: State, c: Chan, n: nat)
    requires Inbox(r, c) && |c.sent| <= n
    ensures n !in r.skipped
  {
    hide Advance;
  }

  /** The receiver's chain when it is in the sender's newest epoch. */
  lemma NewestChain(w: World)
    requires Inv(w) && CaughtUp(w.ab)
    ensures var e := Last(w.ab.epochs);
            e.first <= w.b.recvCount && w.b.chainRecv == Advance(e.chain, w.b.recvCount - e.first)
  {
    hide SentOk, OneHistory, KeysApart, Lineage, Advance, StoredKeys;
  }

  lemma OpenBySearchPlan(r: State, f: Frame)
    requires f.step !in r.skipped && r.recvCount < U32_MAX && f.dh != r.public && WasContributory(f.dh)
    requires r.recvCount <= f.step && r.remote.Some? && r.remote != Some(f.dh)
    ensures OpenBySearch(r, f) == Search(r, f.dh, f.step, f.ct, AadOf(f), 0, NotOpened(NotAuthentic))
  {
    hide Search, Commit, AadOf;
  }

  lemma KnownBySearchPlan(r: State, f: Frame)
    requires f.step !in r.skipped && r.recvCount < U32_MAX && f.dh != r.public && WasContributory(f.dh)
    requires r.recvCount <= f.step && (r.remote.Some? ==> r.remote == Some(f.dh))
    ensures OpenBySearch(r, f) == Commit(r, SameChain(f.dh, f.step), f.ct, AadOf(f))
  {
    hide Search, Commit, AadOf;
  }

  /** A receiver that has not received anything cannot open a frame of a rotated epoch. */
  lemma FirstChainFails(w: World, f: Frame, e: Epoch, n: u32, plaintext: Bytes)
    requires Inv(w) && w.b.remote.None? && e.first <= n && e.chain.DhChain?
    requires f.ct == Sealed(KeyIn(e, n), AadOf(f), plaintext)
    ensures Commit(w.b, SameChain(f.dh, n), f.ct, AadOf(f)).result.Err?
  {
    hide Inv, Prepare, Commit, KeyIn, AadOf;
    CommitOpensIff(w.b, SameChain(f.dh, n), KeyIn(e, n), AadOf(f), plaintext);
    if Prepare(w.b, SameChain(f.dh, n)).Ok? {
      PlanBase(w.b, SameChain(f.dh, n));
      FirstChainBase(w);
      KeyBase(e, n);
    }
  }

  lemma CaughtUpOpensIff(w: World, f: Frame, e: Epoch, n: u32, plaintext: Bytes)
    requires e.first <= w.b.recvCount <= n && w.b.chainRecv == Advance(e.chain, w.b.recvCount - e.first)
    requires f.ct == Sealed(KeyIn(e, n), AadOf(f), plaintext)
    ensures Commit(w.b, SameChain(f.dh, n), f.ct, AadOf(f)).result.Ok? <==> n - w.b.recvCount <= MAX_SKIP
  {
    hide Prepare, Commit, KeyIn, AadOf;
    CommitOpensIff(w.b, SameChain(f.dh, n), KeyIn(e, n), AadOf(f), plaintext);
    SameChainReaches(w.b, e, f.dh, n);
  }

  /** The frames that the restored peer sends next open by their header if and only if the receiver is
      already in the epoch, with a gap of at most MAX_SKIP. A receiver in an earlier epoch opens none of
      them, although nothing was lost. */
  lemma RestoredFrameOpensIff(w: World, k: nat, plaintext: Bytes)
    requires Inv(w) && k < DH_SEND_EVERY && w.a.sendCount + k < U32_MAX
    ensures Open(w.b, SendFrame(Restored(w.a, k), Secret([]), [], plaintext)).result.Ok?
       <==> CaughtUp(w.ab) && w.a.sendCount + k - w.b.recvCount <= MAX_SKIP
  {
    hide Restored, SendFrame, Open, Commit, AadOf, KeyIn, Inv;
    var n := w.a.sendCount + k;
    var f := SendFrame(Restored(w.a, k), Secret([]), [], plaintext);
    RestoredFrame(w, k, plaintext);
    NewestHeader(w, n);
    var e := Last(w.ab.epochs);
    if CaughtUp(w.ab) {
      NewestChain(w);
      KnownKeyPlan(w.b, f);
      CaughtUpOpensIff(w, f, e, n, plaintext);
    } else if w.b.remote.None? {
      KnownKeyPlan(w.b, f);
      FirstChainFails(w, f, e, n, plaintext);
    } else {
      NewKeyPlan(w.b, f);
      WrongGuessFails(w.b, e.dh, n, k, e, AadOf(f), plaintext);
    }
  }

  /** The attempt at the true boundary, which the search includes when it lies near enough. */
  lemma DirectOpensIff(w: World, n: u32, aad: Bytes, plaintext: Bytes)
    requires Inv(w) && !CaughtUp(w.ab) && w.b.remote.Some?
    requires |w.ab.epochs| > 0 && w.b.recvCount <= Last(w.ab.epochs).first <= n && n - Last(w.ab.epochs).first <= MAX_SKIP
    ensures Commit(w.b, NewChain(Last(w.ab.epochs).dh, Last(w.ab.epochs).first, n),
                   Sealed(KeyIn(Last(w.ab.epochs), n), aad, plaintext), aad).result.Ok?
       <==> w.ab.seen + 2 == |w.ab.epochs| && Last(w.ab.epochs).first - w.b.recvCount <= MAX_SKIP
  {
    hide Inv, Prepare, Commit, KeyIn;
    var e, plan := Last(w.ab.epochs), NewChain(Last(w.ab.epochs).dh, Last(w.ab.epochs).first, n);
    CommitOpensIff(w.b, plan, KeyIn(e, n), aad, plaintext);
    Basics(w);
    NextLink(w);
    if w.ab.seen + 2 == |w.ab.epochs| {
      PlanReachesKey(w.b, e, n);
    } else if Prepare(w.b, plan).Ok? {
      PlanBase(w.b, plan);
      LaterEpochBase(w, |w.ab.epochs| - 1, n);
    }
  }

  /** Without the header, the search opens them also in the next epoch, if and only if they are among its
      first DH_SEND_EVERY frames: the cadence that the search rests on is broken as well. */
  lemma RestoredSearchOpensIff(w: World, k: nat, plaintext: Bytes)
    requires Inv(w) && k < DH_SEND_EVERY && w.a.sendCount + k < U32_MAX
    ensures OpenBySearch(w.b, SendFrame(Restored(w.a, k), Secret([]), [], plaintext)).result.Ok?
       <==> if CaughtUp(w.ab) then w.a.sendCount + k - w.b.recvCount <= MAX_SKIP
            else w.b.remote.Some? && w.ab.seen + 2 == |w.ab.epochs| && Last(w.ab.epochs).first - w.b.recvCount <= MAX_SKIP
                 && w.a.sendsSinceDh + k < DH_SEND_EVERY
  {
    hide Restored, SendFrame, OpenBySearch, Search, Commit, AadOf, KeyIn, Inv;
    var n := w.a.sendCount + k;
    var f := SendFrame(Restored(w.a, k), Secret([]), [], plaintext);
    RestoredFrame(w, k, plaintext);
    NewestHeader(w, n);
    var e := Last(w.ab.epochs);
    if CaughtUp(w.ab) {
      NewestChain(w);
      KnownBySearchPlan(w.b, f);
      CaughtUpOpensIff(w, f, e, n, plaintext);
    } else if w.b.remote.None? {
      KnownBySearchPlan(w.b, f);
      FirstChainFails(w, f, e, n, plaintext);
    } else {
      OpenBySearchPlan(w.b, f);
      SearchFindsBoundary(w.b, e.dh, n, e, AadOf(f), plaintext, 0, NotOpened(NotAuthentic));
      if n - e.first < DH_SEND_EVERY {
        DirectOpensIff(w, n, AadOf(f), plaintext);
      }
    }
  }
}
