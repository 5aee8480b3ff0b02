/** What the receiver answers to each frame that the other peer sent, exactly. */
module AgreementAnswer {
  import opened Crypto
  import opened Ratchet
  import opened Agreement
  import opened AgreementDeliver
  import opened AgreementKeys

  lemma Basics(w: World)
    requires Inv(w)
    ensures |w.ab.epochs| > 0 && |w.ba.epochs| > 0 && AllSentOk(w.ab) && w.ab.seen < |w.ab.epochs| && |w.ab.sent| <= U32_MAX
    ensures w.b.remote.None? ==> CaughtUp(w.ba)
  {
  }

  lemma LateEpoch(r: State, c: Chan, n: nat)
    requires AllSentOk(c) && Inbox(r, c) && n < r.recvCount
    ensures c.sent[n].epoch <= c.seen
  {
    var x := c.sent[n];
    assert SentOk(c.epochs, n, x);
  }

  lemma CurrentEpoch(r: State, c: Chan, n: nat)
    requires AllSentOk(c) && Inbox(r, c) && r.recvCount <= n < |c.sent|
    ensures c.seen <= c.sent[n].epoch
  {
    var x := c.sent[n];
    assert SentOk(c.epochs, n, x);
  }

  /** A rotated epoch has no frame beyond its first DH_SEND_EVERY. */
  lemma RotatedEpochIsShort(s: State, c: Chan, n: nat)
    requires Log(s, c) && n < |c.sent| && c.sent[n].epoch >= 1
    ensures n - c.epochs[c.sent[n].epoch].first < DH_SEND_EVERY
  {
    assert SentOk(c.epochs, n, c.sent[n]);
  }

  /** The answer to a frame, and the receiver after it. */
  ghost function Answer(w: World, n: nat): Outcome
    requires n < |w.ab.sent|
  {
    Open(w.b, w.ab.sent[n].frame)
  }

  /** The plan for an honest frame that is not late. */
  ghost function PlanFor(w: World, n: nat): Plan
    requires n < |w.ab.sent|
  {
    var f := w.ab.sent[n].frame;
    if w.b.remote.None? || w.ab.sent[n].epoch == w.ab.seen then SameChain(f.dh, f.step)
    else NewChain(f.dh, f.epochStart, f.step)
  }

  lemma NewKeyDiffers(w: World, n: nat)
    requires Inv(w) && HeaderPasses(w.b, w.ab, n) && w.b.recvCount <= n && w.ab.seen <= w.ab.sent[n].epoch
    ensures w.b.remote.Some? && w.ab.sent[n].epoch != w.ab.seen ==>
              w.ab.epochs[w.ab.sent[n].epoch].dh != w.ab.epochs[w.ab.seen].dh
              && w.b.recvCount <= w.ab.epochs[w.ab.sent[n].epoch].first
  {
    hide AadOf, OneHistory, Above, DepthsDiffer, Deepening, StoredKeys, Advance, Lineage, SenderAt;
  }

  lemma AnswerIsPlan(w: World, n: nat)
    requires Inv(w) && w.b.recvCount <= n < |w.ab.sent|
    ensures var x := w.ab.sent[n];
            && HeaderPasses(w.b, w.ab, n) && w.ab.seen <= x.epoch
            && Answer(w, n) == Commit(w.b, PlanFor(w, n), x.frame.ct, AadOf(x.frame))
  {
    hide Open, Commit, AadOf, Log, OneHistory, KeysApart, StoredKeys, Advance, Lineage, HeaderPasses;
    HonestHeaderPasses(w, n);
    InBounds(w.b, w.ab, n);
    Basics(w);
    CurrentEpoch(w.b, w.ab, n);
    NewKeyDiffers(w, n);
    HonestPlan(w.b, w.ab, n);
  }

  lemma CommitOpensIff(s: State, plan: Plan, key: Key, aad: Bytes, plaintext: Bytes)
    ensures Commit(s, plan, Sealed(key, aad, plaintext), aad).result.Ok?
       <==> Prepare(s, plan).Ok? && MsgKey(Prepare(s, plan).value.chainRecv) == key
  {
    hide Prepare;
  }

  lemma SkipOkIff(s: State, until: u32)
    requires s.recvCount <= until
    ensures Skip(s, until).Ok? <==> until - s.recvCount <= MAX_SKIP
    ensures match Skip(s, until)
            case Err(_) => true
            case Ok(t) => && t.recvCount == until && t.chainRecv == Advance(s.chainRecv, until - s.recvCount)
                          && (t.root, t.secret, t.remote) == (s.root, s.secret, s.remote)
  {
    SkipMoves(s, until);
  }

  lemma PlanReachesKey(s: State, e: Epoch, n: u32)
    requires s.recvCount <= e.first <= n && n - e.first <= MAX_SKIP && OpenedFrom(e, s.root, s.secret.point)
    ensures var plan := NewChain(e.dh, e.first, n);
            && (Prepare(s, plan).Ok? <==> e.first - s.recvCount <= MAX_SKIP)
            && (Prepare(s, plan).Ok? ==> MsgKey(Prepare(s, plan).value.chainRecv) == KeyIn(e, n))
  {
    hide Skip;
    SkipOkIff(s, e.first);
    if Skip(s, e.first).Ok? {
      var t := Skip(s, e.first).value;
      assert {s.secret.point, e.dh} == {e.dh, s.secret.point};
      SkipOkIff(DhRecv(t, e.dh), n);
    }
  }

  /** The sealing key of an epoch past the receiver's, and where the receiver stands. */
  lemma LaterEpochBase(w: World, q: nat, n: nat)
    requires Inv(w) && w.ab.seen < q < |w.ab.epochs| && w.ab.epochs[q].first <= n
    ensures var key := KeyIn(w.ab.epochs[q], n);
            Base(key.chain).DhChain? && Base(key.chain).root == w.ab.epochs[q].root
            && RootDepth(Base(key.chain).root) >= RootDepth(w.b.root) + (if q == w.ab.seen + 1 then 1 else 2)
  {
    hide Log, Inbox, PubsDiffer, DepthsDiffer, Above, Lineage, KeyIn;
    KeyBase(w.ab.epochs[q], n);
    assert OpenedInTurn(w.b.root, w.b.secret.point, w.ab, w.ab.seen + 1);
    assert RootDepth(w.ab.epochs[w.ab.seen + 1].root) == RootDepth(w.b.root) + 1;
  }

  lemma FirstChainBase(w: World)
    requires Inv(w) && w.b.remote.None?
    ensures !Base(w.b.chainRecv).DhChain?
  {
    hide Log, OneHistory, PubsDiffer, DepthsDiffer, Above, Lineage, StoredKeys;
    BaseAndPosition(w.ab.epochs[0].chain, w.b.recvCount);
  }

  /** The key of an epoch beyond the next is out of reach: the receiver's root is too shallow. */
  lemma MissedEpochUnreachable(w: World, n: nat)
    requires Inv(w) && w.b.recvCount <= n < |w.ab.sent| && w.ab.sent[n].epoch > w.ab.seen
    requires HeaderPasses(w.b, w.ab, n) && Prepare(w.b, PlanFor(w, n)).Ok? && !EpochInTurn(w, n)
    ensures w.ab.sent[n].epoch < |w.ab.epochs| && w.ab.epochs[w.ab.sent[n].epoch].first <= n
    ensures MsgKey(Prepare(w.b, PlanFor(w, n)).value.chainRecv) != KeyIn(w.ab.epochs[w.ab.sent[n].epoch], n)
  {
    hide Inv, AadOf, Prepare, KeyIn, HeaderPasses;
    HeaderIs(w.b, w.ab, n);
    PlanBase(w.b, PlanFor(w, n));
    LaterEpochBase(w, w.ab.sent[n].epoch, n);
    if w.b.remote.None? {
      FirstChainBase(w);
    }
  }

  /** A frame beyond the receive counter opens if and only if its epoch is in turn and the gap is
      within MAX_SKIP. The second condition never fails because of the part after the boundary. */
  lemma NewFrameOpensIff(w: World, n: nat)
    requires Inv(w) && w.b.recvCount <= n < |w.ab.sent|
    ensures Answer(w, n).result.Ok? <==> EpochInTurn(w, n) && GapFits(w, n)
  {
    hide Advance, Open, Commit, Prepare, AadOf, StoredKeys, OneHistory, KeysApart, KeyIn, SenderAt, Lineage;
    var x, plan := w.ab.sent[n], PlanFor(w, n);
    var e := w.ab.epochs[x.epoch];
    AnswerIsPlan(w, n);
    CommitOpensIff(w.b, plan, KeyIn(e, n), AadOf(x.frame), x.plaintext);
    if x.epoch == w.ab.seen {
      SameEpochReaches(w, n);
    } else if EpochInTurn(w, n) {
      RotatedEpochIsShort(w.a, w.ab, n);
      InBounds(w.b, w.ab, n);
      NextLink(w);
      PlanReachesKey(w.b, e, n);
    } else if Prepare(w.b, plan).Ok? {
      MissedEpochUnreachable(w, n);
    }
  }

  lemma SameChainReaches(s: State, e: Epoch, remote: Pub, n: u32)
    requires e.first <= s.recvCount <= n && s.chainRecv == Advance(e.chain, s.recvCount - e.first)
    ensures var plan := SameChain(remote, n);
            && (Prepare(s, plan).Ok? <==> n - s.recvCount <= MAX_SKIP)
            && (Prepare(s, plan).Ok? ==> MsgKey(Prepare(s, plan).value.chainRecv) == KeyIn(e, n))
  {
    hide Skip;
    SkipOkIff(s, n);
    AdvanceSum(e.chain, s.recvCount - e.first, n - s.recvCount);
  }

  lemma SameEpochReaches(w: World, n: nat)
    requires Inv(w) && w.b.recvCount <= n < |w.ab.sent| && w.ab.sent[n].epoch == w.ab.seen
    requires HeaderPasses(w.b, w.ab, n)
    ensures w.ab.seen < |w.ab.epochs| && w.ab.epochs[w.ab.seen].first <= n
    ensures var plan := PlanFor(w, n);
            && (Prepare(w.b, plan).Ok? <==> GapFits(w, n))
            && (Prepare(w.b, plan).Ok? ==> MsgKey(Prepare(w.b, plan).value.chainRecv) == KeyIn(w.ab.epochs[w.ab.seen], n))
  {
    hide Prepare, AadOf, Log, OneHistory, KeysApart, StoredKeys, Lineage, KeyIn;
    InPlace(w.b, w.ab);
    HeaderIs(w.b, w.ab, n);
    SameChainReaches(w.b, w.ab.epochs[w.ab.seen], w.ab.sent[n].frame.dh, n);
  }

  lemma HeaderIs(r: State, c: Chan, n: nat)
    requires HeaderPasses(r, c, n)
    ensures n < |c.sent| <= U32_MAX && c.sent[n].epoch < |c.epochs| && c.epochs[c.sent[n].epoch].first <= n
    ensures var f, e := c.sent[n].frame, c.epochs[c.sent[n].epoch];
            f.step == n && f.epochStart == e.first && f.dh == e.dh && f.ct == Sealed(KeyIn(e, n), AadOf(f), c.sent[n].plaintext)
  {
  }

  lemma NextLink(w: World)
    requires Inv(w) && w.ab.seen + 1 < |w.ab.epochs|
    ensures OpenedInTurn(w.b.root, w.b.secret.point, w.ab, w.ab.seen + 1)
    ensures w.ab.epochs[w.ab.seen + 1].dh != w.ab.epochs[w.ab.seen].dh
  {
  }

  // ---------------------------------------------------------------- every case

  /** How a delivery goes. */
  datatype Case = Refused | Late | Same | Next

  ghost function CaseOf(w: World, n: nat): Case
    requires n < |w.ab.sent|
  {
    if !Openable(w, n) then Refused
    else if n < w.b.recvCount then Late
    else if w.ab.sent[n].epoch == w.ab.seen then Same
    else Next
  }

  /** A frame of the next epoch, if it is one, is at or beyond the boundary. */
  ghost predicate BoundaryAhead(w: World, n: nat)
    requires n < |w.ab.sent|
  {
    CaseOf(w, n).Next? ==> w.ab.sent[n].epoch == w.ab.seen + 1 < |w.ab.epochs| && w.b.remote.Some?
                           && w.b.recvCount <= w.ab.epochs[w.ab.seen + 1].first <= n
  }

  /** What the receiver is left with when frame `n` opens. */
  ghost function AfterOpening(w: World, n: nat): State
    requires HeaderPasses(w.b, w.ab, n) && BoundaryAhead(w, n)
  {
    match CaseOf(w, n)
    case Refused => w.b
    case Late => w.b.(skipped := w.b.skipped - {n})
    case Same => AfterSame(w.b, w.ab, n)
    case Next => AfterNext(w.b, w.ab, n)
  }

  lemma NextAnswer(w: World, n: nat)
    requires Inv(w) && n < |w.ab.sent| && CaseOf(w, n).Next? && HeaderPasses(w.b, w.ab, n)
    ensures w.ab.sent[n].epoch == w.ab.seen + 1 < |w.ab.epochs| && w.b.remote.Some?
    ensures w.b.recvCount <= w.ab.epochs[w.ab.seen + 1].first <= n
    ensures OpenedInTurn(w.b.root, w.b.secret.point, w.ab, w.ab.seen + 1)
    ensures Answer(w, n) == Outcome(AfterNext(w.b, w.ab, n), Ok(Opened(w.ab.sent[n].plaintext, n)))
  {
    hide Open, AfterNext, StoredKeys, AadOf, OneHistory, KeysApart, Lineage, HeaderPasses, Inbox, SenderAt, SentOk, EpochsOk, KeyIn;
    Basics(w);
    InPlace(w.b, w.ab);
    CurrentEpoch(w.b, w.ab, n);
    RotatedEpochIsShort(w.a, w.ab, n);
    InBounds(w.b, w.ab, n);
    HeaderIs(w.b, w.ab, n);
    NextLink(w);
    NextEpochOpens(w.b, w.ab, n);
  }

  lemma LateAnswer(w: World, n: nat)
    requires Inv(w) && n < |w.ab.sent| && CaseOf(w, n).Late? && HeaderPasses(w.b, w.ab, n)
    ensures Answer(w, n) == Outcome(w.b.(skipped := w.b.skipped - {n}), Ok(Opened(w.ab.sent[n].plaintext, n)))
  {
    hide Open, HeaderPasses, Inbox, StoredKeys, Log, OneHistory, KeysApart, Lineage, EpochInTurn, GapFits;
    LateOpensIff(w.b, w.ab, n);
  }

  lemma SameAnswer(w: World, n: nat)
    requires Inv(w) && n < |w.ab.sent| && CaseOf(w, n).Same? && HeaderPasses(w.b, w.ab, n)
    ensures Answer(w, n) == Outcome(AfterSame(w.b, w.ab, n), Ok(Opened(w.ab.sent[n].plaintext, n)))
  {
    hide Open, AfterSame, HeaderPasses, Inbox, StoredKeys, Log, OneHistory, KeysApart, Lineage, EpochInTurn;
    SameEpochOpens(w.b, w.ab, n);
  }

  lemma RefusedAnswer(w: World, n: nat)
    requires Inv(w) && n < |w.ab.sent| && !Openable(w, n) && HeaderPasses(w.b, w.ab, n)
    ensures Answer(w, n).result.Err? && Answer(w, n).state == w.b
  {
    hide Open, StoredKeys, AadOf, OneHistory, KeysApart, Lineage, EpochInTurn, GapFits, HeaderPasses, Log;
    InPlace(w.b, w.ab);
    if n < w.b.recvCount {
      if n in w.ab.got {
        AcceptedIsNotStored(w.b, w.ab, n);
      }
      LateOpensIff(w.b, w.ab, n);
    } else {
      NewFrameOpensIff(w, n);
      ReceiverHasOneOrigin(w);
      OpensOnlyFromOrigin(w.b, w.ab.sent[n].frame, Origin(w.b.root));
    }
  }

  lemma AcceptedIsNotStored(r: State, c: Chan, n: nat)
    requires StoredKeys(r, c) && n in c.got
    ensures n !in r.skipped
  {
  }

  /** The answer to every frame of the other peer, in every order, after any losses, whether it comes
      for the first time or again: it opens to the plaintext sent if and only if it is openable, and is
      refused without effect if it is not. */
  lemma HonestAnswer(w: World, n: nat)
    requires Inv(w) && n < |w.ab.sent|
    ensures HeaderPasses(w.b, w.ab, n) && BoundaryAhead(w, n)
    ensures if Openable(w, n) then Answer(w, n) == Outcome(AfterOpening(w, n), Ok(Opened(w.ab.sent[n].plaintext, n)))
            else Answer(w, n).result.Err? && Answer(w, n).state == w.b
  {
    hide Inv, Open, Openable, AfterSame, AfterNext, HeaderPasses;
    HonestHeaderPasses(w, n);
    match CaseOf(w, n)
    case Refused => RefusedAnswer(w, n);
    case Late => LateAnswer(w, n);
    case Same => SameAnswer(w, n);
    case Next => NextAnswer(w, n);
  }
}
