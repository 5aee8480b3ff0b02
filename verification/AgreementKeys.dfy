/** In the two-peer world no two frames share a key, and no frame that was not sent is accepted. */
module AgreementKeys {
  import opened Crypto
  import opened Wire
  import opened Ratchet
  import opened Agreement
  import opened AtMostOnce

  lemma KeyBase(e: Epoch, n: nat)
    requires e.first <= n && !e.chain.NextChain?
    ensures Base(KeyIn(e, n).chain) == e.chain && Position(KeyIn(e, n).chain) == n - e.first
  {
    BaseAndPosition(e.chain, n - e.first);
  }

  lemma SameSenderKeysDiffer(c: seq<Epoch>, q: nat, n: nat, p: nat, m: nat)
    requires Deepening(c) && q < |c| && p < |c| && c[q].first <= n && c[p].first <= m
    requires q != p || n != m
    ensures KeyIn(c[q], n) != KeyIn(c[p], m)
  {
    hide Advance;
    KeyBase(c[q], n);
    KeyBase(c[p], m);
  }

  lemma TwoSenderKeysDiffer(c: seq<Epoch>, q: nat, n: nat, d: seq<Epoch>, p: nat, m: nat)
    requires Deepening(c) && Deepening(d) && DepthsDiffer(c, d)
    requires q < |c| && p < |d| && c[q].first <= n && d[p].first <= m
    ensures KeyIn(c[q], n) != KeyIn(d[p], m)
  {
    hide Advance;
    KeyBase(c[q], n);
    KeyBase(d[p], m);
  }

  function KeyOf(c: Chan, n: nat): Key
    requires n < |c.sent| && c.sent[n].frame.ct.Sealed?
  {
    c.sent[n].frame.ct.key
  }

  /** No key seals two frames, in one direction or across both. */
  lemma NoKeySealsTwoFrames(w: World)
    requires Inv(w)
    ensures forall n :: 0 <= n < |w.ab.sent| ==> w.ab.sent[n].frame.ct.Sealed?
    ensures forall n :: 0 <= n < |w.ba.sent| ==> w.ba.sent[n].frame.ct.Sealed?
    ensures forall n, m :: 0 <= n < m < |w.ab.sent| ==> KeyOf(w.ab, n) != KeyOf(w.ab, m)
    ensures forall n, m :: 0 <= n < m < |w.ba.sent| ==> KeyOf(w.ba, n) != KeyOf(w.ba, m)
    ensures forall n, m :: 0 <= n < |w.ab.sent| && 0 <= m < |w.ba.sent| ==> KeyOf(w.ab, n) != KeyOf(w.ba, m)
  {
    hide Advance, AadOf, Inbox, OneHistory, SenderAt, PubsDiffer, Above, Deepening, DepthsDiffer, KeyIn, Lineage;
    forall n, m | 0 <= n < m < |w.ab.sent|
      ensures KeyOf(w.ab, n) != KeyOf(w.ab, m)
    {
      assert SentOk(w.ab.epochs, n, w.ab.sent[n]) && SentOk(w.ab.epochs, m, w.ab.sent[m]);
      SameSenderKeysDiffer(w.ab.epochs, w.ab.sent[n].epoch, n, w.ab.sent[m].epoch, m);
    }
    forall n, m | 0 <= n < m < |w.ba.sent|
      ensures KeyOf(w.ba, n) != KeyOf(w.ba, m)
    {
      assert SentOk(w.ba.epochs, n, w.ba.sent[n]) && SentOk(w.ba.epochs, m, w.ba.sent[m]);
      SameSenderKeysDiffer(w.ba.epochs, w.ba.sent[n].epoch, n, w.ba.sent[m].epoch, m);
    }
    forall n, m | 0 <= n < |w.ab.sent| && 0 <= m < |w.ba.sent|
      ensures KeyOf(w.ab, n) != KeyOf(w.ba, m)
    {
      assert SentOk(w.ab.epochs, n, w.ab.sent[n]) && SentOk(w.ba.epochs, m, w.ba.sent[m]);
      TwoSenderKeysDiffer(w.ab.epochs, w.ab.sent[n].epoch, n, w.ba.epochs, w.ba.sent[m].epoch, m);
    }
  }

  // ---------------------------------------------------------------- forged frames

  /** The receive key that a plan arrives at, by where its chain begins. */
  lemma PlanBase(s: State, plan: Plan)
    requires Prepare(s, plan).Ok?
    ensures var base := Base(Prepare(s, plan).value.chainRecv);
            match plan
            case SameChain(_, _) => base == Base(s.chainRecv)
            case NewChain(_, _, _) => base.DhChain? && RootDepth(base.root) == RootDepth(s.root) + 1
                                      && base.root == StepRoot(s.root, Dh({s.secret.point, plan.remote}))
  {
    match plan
    case SameChain(_, step) =>
      SkipMoves(s, step);
      BaseAndPosition(s.chainRecv, step - s.recvCount);
    case NewChain(remote, first, step) =>
      SkipMoves(s, first);
      var t := DhRecv(Skip(s, first).value, remote);
      SkipMoves(t, step);
      BaseAndPosition(t.chainRecv, step - t.recvCount);
  }

  /** A ciphertext of the honest log goes with no header but its own. */
  lemma OnlyItsOwnHeader(epochs: seq<Epoch>, m: nat, x: Sent, f: Frame)
    requires SentOk(epochs, m, x) && |epochs[x.epoch].dh| == 32
    requires f.ct == x.frame.ct && |f.hint| <= MAX_HINT && |f.dh| == 32 && f.ct.aad == AadOf(f)
    ensures f == x.frame
  {
    AadV3Injective(f.hint, f.step, f.epochStart, f.dh, x.frame.hint, x.frame.step, x.frame.epochStart, x.frame.dh);
  }

  lemma StoredKeyIsNotOwn(w: World, m: nat, step: u32)
    requires Inv(w) && m < |w.ba.sent| && step in w.b.skipped
    ensures SentOk(w.ba.epochs, m, w.ba.sent[m]) && w.b.skipped[step] != KeyIn(w.ba.epochs[w.ba.sent[m].epoch], m)
  {
    hide Advance, AadOf, OneHistory, PubsDiffer, Above, SenderAt, Deepening, DepthsDiffer, Lineage;
    assert SentOk(w.ba.epochs, m, w.ba.sent[m]) && SentOk(w.ab.epochs, step, w.ab.sent[step]);
    TwoSenderKeysDiffer(w.ab.epochs, w.ab.sent[step].epoch, step, w.ba.epochs, w.ba.sent[m].epoch, m);
  }

  lemma PlannedKeyIsNotOwn(w: World, m: nat, plan: Plan)
    requires Inv(w) && m < |w.ba.sent| && plan.NewChain? && Prepare(w.b, plan).Ok?
    ensures SentOk(w.ba.epochs, m, w.ba.sent[m])
    ensures MsgKey(Prepare(w.b, plan).value.chainRecv) != KeyIn(w.ba.epochs[w.ba.sent[m].epoch], m)
  {
    hide Advance, AadOf, OneHistory, PubsDiffer, DepthsDiffer, SenderAt, Inbox, Prepare, Lineage;
    assert SentOk(w.ba.epochs, m, w.ba.sent[m]);
    PlanBase(w.b, plan);
    KeyBase(w.ba.epochs[w.ba.sent[m].epoch], m);
  }

  /** A frame of one's own never looks like one of the epoch one is receiving. */
  lemma OwnHeader(w: World, m: nat)
    requires Inv(w) && m < |w.ba.sent|
    ensures var f := w.ba.sent[m].frame;
            SentOk(w.ba.epochs, m, w.ba.sent[m]) && f.ct == Sealed(KeyIn(w.ba.epochs[w.ba.sent[m].epoch], m), AadOf(f), w.ba.sent[m].plaintext)
            && (f.dh != w.b.public ==> w.b.remote.Some? && w.b.remote != Some(f.dh))
  {
    hide Advance, AadOf, OneHistory, Deepening, DepthsDiffer, Above, StoredKeys, Lineage;
    assert SentOk(w.ba.epochs, m, w.ba.sent[m]);
  }

  /** The receiver's own frame comes back: refused, whatever epoch it is from. */
  lemma ReflectedRefused(w: World, m: nat)
    requires Inv(w) && m < |w.ba.sent|
    ensures Open(w.b, w.ba.sent[m].frame).result.Err?
  {
    hide AadOf, Prepare, TakeKey, Inv, SentOk, KeyIn;
    var f := w.ba.sent[m].frame;
    OwnHeader(w, m);
    if f.step in w.b.skipped {
      StoredKeyIsNotOwn(w, m, f.step);
    } else {
      var plan := NewChain(f.dh, f.epochStart, f.step);
      if Prepare(w.b, plan).Ok? {
        PlannedKeyIsNotOwn(w, m, plan);
      }
    }
  }

  lemma SentFactsForInjection(w: World)
    requires Inv(w)
    ensures forall n :: 0 <= n < |w.ab.sent| ==> SentOk(w.ab.epochs, n, w.ab.sent[n]) && |w.ab.epochs[w.ab.sent[n].epoch].dh| == 32
    ensures forall n :: 0 <= n < |w.ba.sent| ==> SentOk(w.ba.epochs, n, w.ba.sent[n]) && |w.ba.epochs[w.ba.sent[n].epoch].dh| == 32
    ensures Inbox(w.b, w.ab)
  {
    hide Inbox, OneHistory, Deepening, DepthsDiffer, Above, SenderAt, Lineage;
  }

  // ---------------------------------------------------------------- keys from elsewhere

  /** Everything that `s` receives with derives from `origin`. */
  ghost predicate ReceivesFrom(s: State, origin: Key) {
    && Origin(s.root) == origin && Origin(s.chainRecv) == origin
    && (forall n :: n in s.skipped ==> Origin(s.skipped[n]) == origin)
  }

  lemma SkipOrigin(s: State, until: u32)
    requires Skip(s, until).Ok?
    ensures var t := Skip(s, until).value;
            (t.root, t.secret) == (s.root, s.secret) && Origin(t.chainRecv) == Origin(s.chainRecv)
  {
    hide SkipTo, Advance, Origin;
    SkipMoves(s, until);
    OriginOfAdvance(s.chainRecv, until - s.recvCount);
  }

  lemma PlanOrigin(s: State, plan: Plan, origin: Key)
    requires ReceivesFrom(s, origin) && Prepare(s, plan).Ok?
    ensures Origin(Prepare(s, plan).value.chainRecv) == origin
  {
    hide Skip;
    match plan
    case SameChain(_, step) =>
      SkipOrigin(s, step);
    case NewChain(remote, first, step) =>
      SkipOrigin(s, first);
      SkipOrigin(DhRecv(Skip(s, first).value, remote), step);
  }

  /** Whatever its header says, and whosever key it names, a frame opens only with a key that derives
      from the initial root of the receiver. A frame that fails to open changes nothing. */
  lemma OpensOnlyFromOrigin(s: State, f: Frame, origin: Key)
    requires WellFormed(s) && ReceivesFrom(s, origin)
    ensures Open(s, f).result.Err? ==> Open(s, f).state == s
    ensures Open(s, f).result.Ok? ==> f.ct.Sealed? && f.ct.aad == AadOf(f) && Origin(f.ct.key) == origin
  {
    hide AadOf, Receive, Prepare;
    ReceiveIsTransactional(s, f.dh, f.step, Some(f.epochStart), f.ct, AadOf(f));
    var o := Open(s, f);
    if o.result.Ok? {
      var route :| Via(s, route, f.dh, f.step, Some(f.epochStart), f.ct, AadOf(f), o);
      if route.ByPlan? {
        PlanOrigin(s, route.plan, origin);
      }
    }
  }

  lemma EpochKeyOrigin(e: Epoch, n: nat)
    requires e.first <= n
    ensures Origin(KeyIn(e, n)) == Origin(Advance(e.chain, n - e.first)) == Origin(e.chain)
  {
    OriginOfAdvance(e.chain, n - e.first);
  }

  lemma StoredKeyOrigin(w: World, n: u32)
    requires Inv(w) && n in w.b.skipped
    ensures Origin(w.b.skipped[n]) == Origin(w.b.root)
  {
    hide Advance, AadOf, OneHistory, KeysApart, SenderAt, KeyIn, Origin, EpochsOk;
    assert SentOk(w.ab.epochs, n, w.ab.sent[n]);
    EpochKeyOrigin(w.ab.epochs[w.ab.sent[n].epoch], n);
  }

  lemma ReceiverHasOneOrigin(w: World)
    requires Inv(w)
    ensures WellFormed(w.b) && ReceivesFrom(w.b, Origin(w.b.root))
  {
    hide Advance, OneHistory, KeysApart, Log, Origin;
    EpochKeyOrigin(w.ab.epochs[w.ab.seen], w.b.recvCount);
    forall n | n in w.b.skipped
      ensures Origin(w.b.skipped[n]) == Origin(w.b.root)
    {
      StoredKeyOrigin(w, n);
    }
  }

  /** Forged, altered and reflected frames are refused and change nothing. */
  lemma InjectedRefused(w: World, f: Frame)
    requires Inv(w) && MayInject(w, f)
    ensures Open(w.b, f).result.Err? && Open(w.b, f).state == w.b
  {
    hide AadOf, Open, Inv, SentOk, Inbox, Origin, ReceivesFrom;
    SentFactsForInjection(w);
    ReceiverHasOneOrigin(w);
    OpensOnlyFromOrigin(w.b, f, Origin(w.b.root));
    if Open(w.b, f).result.Ok? {
      if n :| 0 <= n < |w.ab.sent| && f.ct == w.ab.sent[n].frame.ct {
        OnlyItsOwnHeader(w.ab.epochs, n, w.ab.sent[n], f);
        assert false;
      } else {
        var m :| 0 <= m < |w.ba.sent| && f.ct == w.ba.sent[m].frame.ct;
        OnlyItsOwnHeader(w.ba.epochs, m, w.ba.sent[m], f);
        ReflectedRefused(w, m);
        assert false;
      }
    }
  }
}
