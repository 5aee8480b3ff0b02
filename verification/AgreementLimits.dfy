/** Where agreement ends: exactly when a rotation is safe. */
module AgreementLimits {
  import opened Crypto
  import opened Wire
  import opened Ratchet
  import opened Agreement
  import opened AgreementDeliver
  import opened AgreementKeys
  import opened AgreementAnswer

  /** Peer `a` is about to rotate, while `b` has kept up with `a` and can follow the jump. */
  predicate AboutToRotate(w: World, ephemeral: Secret, hint: Bytes) {
    && Rotates(w.a) && w.a.sendCount < U32_MAX && |hint| <= MAX_HINT && New(w, ephemeral.point)
    && CaughtUp(w.ab) && w.b.remote.Some? && w.a.sendCount - w.b.recvCount <= MAX_SKIP
  }

  /** The receiver knows the sender's present key and has no key for its next step. */
  lemma KnowsPresentKey(w: World)
    requires Inv(w) && CaughtUp(w.ab) && w.b.remote.Some? && w.a.sendCount < U32_MAX
    ensures |w.ab.epochs| > 0 && w.b.remote == Some(Last(w.ab.epochs).dh) && w.b.recvCount <= w.a.sendCount
    ensures w.a.sendCount !in w.b.skipped && |w.ba.epochs| > 0 && w.b.public == Last(w.ba.epochs).dh
  {
    hide SentOk, OneHistory, KeysApart, Lineage, Advance, EpochsOk;
  }

  /** The receive of the rotated frame comes down to one plan. */
  lemma RotatedPlan(w: World, e: Secret, hint: Bytes, plaintext: Bytes)
    requires Inv(w) && AboutToRotate(w, e, hint)
    ensures var f := SendFrame(w.a, e, hint, plaintext);
            && f.dh == e.point && f.step == w.a.sendCount == f.epochStart
            && Open(w.b, f) == Commit(w.b, NewChain(e.point, w.a.sendCount, w.a.sendCount), f.ct, AadOf(f))
  {
    hide Commit, AadOf, Open, Inv;
    KnowsPresentKey(w);
    NewKeyPlan(w.b, SendFrame(w.a, e, hint, plaintext));
  }

  /** A rotation is safe if and only if the peer that rotates has processed a frame of the other's
      newest epoch: only then does its first frame open, although nothing was lost. */
  lemma RotationOpensIff(w: World, e: Secret, hint: Bytes, plaintext: Bytes)
    requires Inv(w) && AboutToRotate(w, e, hint)
    ensures Open(w.b, SendFrame(w.a, e, hint, plaintext)).result.Ok? <==> CaughtUp(w.ba)
  {
    hide Open, Commit, AadOf, SentOk, Advance, StoredKeys, PubsDiffer, DepthsDiffer, Prepare, KeyIn, Lineage;
    var f := SendFrame(w.a, e, hint, plaintext);
    var t := DhSend(w.a, e);
    var x := Epoch(e.point, w.a.sendCount, t.chainSend, t.root);
    RotatedPlan(w, e, hint, plaintext);
    RotatedFrameIs(w, e, hint, plaintext);
    CommitOpensIff(w.b, NewChain(e.point, w.a.sendCount, w.a.sendCount), KeyIn(x, w.a.sendCount), AadOf(f), plaintext);
    if CaughtUp(w.ba) {
      PlanReachesKey(w.b, x, w.a.sendCount);
    } else {
      var plan := NewChain(e.point, w.a.sendCount, w.a.sendCount);
      if Prepare(w.b, plan).Ok? {
        PlanBase(w.b, plan);
        KeyBase(x, w.a.sendCount);
        LeaderIsDeeper(w);
      }
    }
  }

  lemma RotatedFrameIs(w: World, e: Secret, hint: Bytes, plaintext: Bytes)
    requires Rotates(w.a)
    ensures var f, t := SendFrame(w.a, e, hint, plaintext), DhSend(w.a, e);
            f.ct == Sealed(KeyIn(Epoch(e.point, w.a.sendCount, t.chainSend, t.root), w.a.sendCount), AadOf(f), plaintext)
  {
  }

  /** A peer that the other has not caught up with stands on a deeper root. */
  lemma LeaderIsDeeper(w: World)
    requires Inv(w) && !CaughtUp(w.ba)
    ensures RootDepth(w.b.root) > RootDepth(w.a.root)
  {
    hide Log, Inbox, PubsDiffer, DepthsDiffer, Lineage;
    InvFlips(w);
    Basics(Flip(w));
    assert OpenedInTurn(w.a.root, w.a.secret.point, w.ba, w.ba.seen + 1);
    assert RootDepth(w.ba.epochs[w.ba.seen + 1].root) == RootDepth(w.a.root) + 1;
  }
}
