/** What happens after agreement has ended: roots that have parted never meet again, whatever is sent
    and received (`src/rust/ratchet.rs`). */
module Fork {
  import opened Crypto
  import opened Ratchet
  import opened AtMostOnce
  import opened SenderTrace
  import opened Agreement
  import opened AgreementDeliver
  import opened AgreementKeys
  import opened AgreementAnswer

  // ---------------------------------------------------------------- roots

  lemma SiblingsPart(x: Key, y: Key)
    requires x.StepRoot? && y.StepRoot? && x.root == y.root && x != y
    ensures !LeadsTo(y, x)
  {
    if LeadsTo(y, x) {
      LeadsDeeper(y, x);
    }
  }

  /** A chain that was opened at root `x` or later. */
  predicate ChainUnder(x: Key, chain: Key) {
    Base(chain).DhChain? && LeadsTo(x, Base(chain).root)
  }

  predicate Under(x: Key, key: Key) {
    key.MsgKey? && ChainUnder(x, key.chain)
  }

  /** The receiver has nothing that comes from `x`: no root, no receive chain, no stored key. */
  ghost predicate Outside(s: State, x: Key) {
    && !LeadsTo(x, s.root) && !ChainUnder(x, s.chainRecv)
    && forall n :: n in s.skipped ==> !Under(x, s.skipped[n])
  }

  lemma AdvanceUnder(x: Key, chain: Key, n: nat)
    ensures ChainUnder(x, Advance(chain, n)) == ChainUnder(x, chain) == Under(x, MsgKey(Advance(chain, n)))
  {
    BaseAndPosition(chain, n);
  }

  // ---------------------------------------------------------------- one call

  lemma SkipOutside(s: State, until: u32, x: Key)
    requires WellFormed(s) && Outside(s, x) && Skip(s, until).Ok?
    ensures Outside(Skip(s, until).value, x)
  {
    hide LeadsTo, ChainUnder, SkipTo, Advance;
    var t := Skip(s, until).value;
    SkipMoves(s, until);
    SkipKeeps(s, until);
    AdvanceUnder(x, s.chainRecv, until - s.recvCount);
    forall n | n in t.skipped
      ensures !Under(x, t.skipped[n])
    {
      if n !in s.skipped {
        AdvanceUnder(x, s.chainRecv, n - s.recvCount);
      }
    }
  }

  lemma DhRecvOutside(s: State, remote: Pub, x: Key)
    requires Outside(s, x) && DhRecv(s, remote).root != x
    ensures Outside(DhRecv(s, remote), x)
  {
  }

  lemma SkipKeepsRoot(s: State, until: u32)
    requires WellFormed(s) && Skip(s, until).Ok?
    ensures var t := Skip(s, until).value; (t.root, t.secret) == (s.root, s.secret) && WellFormed(t)
  {
    SkipSummary(s, until);
  }

  lemma PlanOutside(s: State, plan: Plan, x: Key)
    requires WellFormed(s) && Outside(s, x) && Prepare(s, plan).Ok? && Prepare(s, plan).value.root != x
    ensures Outside(Prepare(s, plan).value, x)
  {
    hide Outside, Skip;
    match plan
    case SameChain(_, step) =>
      SkipOutside(s, step, x);
      OutsideIgnoresRemote(Skip(s, step).value, x);
    case NewChain(remote, first, step) =>
      SkipOutside(s, first, x);
      SkipKeepsRoot(s, first);
      var t := Skip(s, first).value;
      SkipKeepsRoot(DhRecv(t, remote), step);
      DhRecvOutside(t, remote, x);
      SkipOutside(DhRecv(t, remote), step, x);
  }

  lemma OutsideIgnoresRemote(s: State, x: Key)
    requires Outside(s, x)
    ensures forall remote :: Outside(s.(remote := remote), x)
  {
  }

  lemma TakeOutside(s: State, x: Key)
    requires Outside(s, x)
    ensures Outside(TakeKey(s), x) && !Under(x, MsgKey(s.chainRecv))
  {
    AdvanceUnder(x, s.chainRecv, 1);
    AdvanceUnder(x, s.chainRecv, 0);
    assert Advance(s.chainRecv, 1) == NextChain(Advance(s.chainRecv, 0));
  }

  /** A receive that does not arrive at root `x` itself accepts nothing from `x` on. */
  lemma ReceiveOutside(s: State, call: Call, x: Key)
    requires WellFormed(s) && Outside(s, x) && call.Recv? && After(s, call).root != x
    ensures Outside(After(s, call), x)
    ensures Accepts(s, call) ==> call.ct.Sealed? && !Under(x, call.ct.key)
  {
    hide Outside, Under, Receive, Prepare;
    ReceiveIsTransactional(s, call.remote, call.step, call.epochStart, call.ct, call.aad);
    var o := Receive(s, call.remote, call.step, call.epochStart, call.ct, call.aad);
    if o.result.Ok? {
      var route :| Via(s, route, call.remote, call.step, call.epochStart, call.ct, call.aad, o);
      match route
      case ByStoredKey => SpendOutside(s, call.step, x);
      case ByPlan(plan) =>
        PlanOutside(s, plan, x);
        TakeOutside(Prepare(s, plan).value, x);
    }
  }

  lemma SpendOutside(s: State, n: u32, x: Key)
    requires Outside(s, x) && n in s.skipped
    ensures Outside(s.(skipped := s.skipped - {n}), x) && !Under(x, s.skipped[n])
  {
  }

  lemma SendOutside(s: State, e: Secret, x: Key)
    requires Outside(s, x) && AfterSend(s, e).root != x
    ensures Outside(AfterSend(s, e), x)
  {
  }

  lemma SendStaysWellFormed(s: State, e: Secret)
    requires WellFormed(s)
    ensures WellFormed(AfterSend(s, e))
  {
  }

  /** Roots only move forward. */
  lemma RootMovesOn(s: State, call: Call)
    requires WellFormed(s)
    ensures LeadsTo(s.root, After(s, call).root)
  {
    match call
    case Send(_) =>
    case Recv(remote, step, epochStart, ct, aad) =>
      hide Receive;
      ReceiveIsTransactional(s, remote, step, epochStart, ct, aad);
      var o := Receive(s, remote, step, epochStart, ct, aad);
      if o.result.Ok? {
        var route :| Via(s, route, remote, step, epochStart, ct, aad, o);
        if route.ByPlan? {
          PlanMovesOn(s, route.plan);
        }
      }
  }

  lemma PlanMovesOn(s: State, plan: Plan)
    requires WellFormed(s) && Prepare(s, plan).Ok?
    ensures LeadsTo(s.root, Prepare(s, plan).value.root)
  {
    hide Skip;
    match plan
    case SameChain(_, step) => SkipKeepsRoot(s, step);
    case NewChain(remote, first, step) =>
      SkipKeepsRoot(s, first);
      SkipKeepsRoot(DhRecv(Skip(s, first).value, remote), step);
  }

  lemma CallOutside(s: State, call: Call, x: Key)
    requires WellFormed(s) && Outside(s, x) && After(s, call).root != x
    ensures Outside(After(s, call), x)
  {
    hide Outside, Receive, AfterSend;
    match call
    case Send(e) => SendOutside(s, e, x);
    case Recv(_, _, _, _, _) => ReceiveOutside(s, call, x);
  }

  // ---------------------------------------------------------------- roots that have parted

  /** The receiver's root and `x` lie on different histories. */
  ghost predicate Forked(s: State, x: Key) {
    Outside(s, x) && !LeadsTo(s.root, x)
  }

  lemma CallKeepsFork(s: State, call: Call, x: Key)
    requires WellFormed(s) && Forked(s, x)
    ensures WellFormed(After(s, call)) && Forked(After(s, call), x)
  {
    hide Outside, After;
    CallKeeps(s, call);
    RootMovesOn(s, call);
    if LeadsTo(After(s, call).root, x) {
      LeadsToTransitive(s.root, After(s, call).root, x);
    }
    CallOutside(s, call, x);
  }

  /** Over any run, whatever is sent and whatever arrives, they stay on different histories. */
  lemma {:induction false} ForkNeverHeals(s: State, x: Key, calls: seq<Call>)
    requires WellFormed(s) && Forked(s, x)
    ensures WellFormed(Final(s, calls)) && Forked(Final(s, calls), x)
    decreases |calls|
  {
    hide WellFormed, Forked, After;
    if calls == [] {
    } else {
      CallKeepsFork(s, calls[0], x);
      ForkNeverHeals(After(s, calls[0]), x, calls[1..]);
    }
  }

  /** So no frame sealed at `x` or later is ever accepted. */
  lemma ForkedRefuses(s: State, x: Key, calls: seq<Call>, call: Call)
    requires WellFormed(s) && Forked(s, x) && call.Recv? && call.ct.Sealed? && Under(x, call.ct.key)
    ensures !Accepts(Final(s, calls), call)
  {
    hide Outside, After, Under, Accepts, Final;
    ForkNeverHeals(s, x, calls);
    var t := Final(s, calls);
    RootMovesOn(t, call);
    ReceiveOutside(t, call, x);
  }

  /** The sender stands at `x` or later, and so does its sending chain. */
  predicate Beyond(s: State, x: Key) {
    LeadsTo(x, s.root) && ChainUnder(x, s.chainSend)
  }

  lemma SendBeyond(s: State, e: Secret, x: Key)
    requires Beyond(s, x)
    ensures Beyond(AfterSend(s, e), x) && Under(x, SendKey(s, e))
  {
    var b := BeforeSend(s, e);
    AdvanceUnder(x, b.chainSend, 1);
    AdvanceUnder(x, b.chainSend, 0);
    assert Advance(b.chainSend, 1) == NextChain(Advance(b.chainSend, 0));
  }

  lemma ReceiveKeepsBeyond(s: State, call: Call, x: Key)
    requires WellFormed(s) && Beyond(s, x) && call.Recv?
    ensures Beyond(After(s, call), x)
  {
    hide Receive, LeadsTo;
    RootMovesOn(s, call);
    LeadsToTransitive(x, s.root, After(s, call).root);
    ReceiveIsTransactional(s, call.remote, call.step, call.epochStart, call.ct, call.aad);
    var o := Receive(s, call.remote, call.step, call.epochStart, call.ct, call.aad);
    if o.result.Ok? {
      var route :| Via(s, route, call.remote, call.step, call.epochStart, call.ct, call.aad, o);
      if route.ByPlan? {
        PrepareSummary(s, route.plan);
      }
    }
  }

  /** All that such a sender sends over any run is sealed at `x` or later. */
  lemma {:induction false} SendsBeyond(s: State, x: Key, calls: seq<Call>)
    requires WellFormed(s) && Beyond(s, x)
    ensures forall r :: r in Records(s, calls) ==> Under(x, r.key)
    decreases |calls|
  {
    hide Beyond, Under, WellFormed, Receive, AfterSend;
    if calls == [] {
    } else {
      CallKeeps(s, calls[0]);
      if calls[0].Send? {
        SendBeyond(s, calls[0].ephemeral, x);
      } else {
        ReceiveKeepsBeyond(s, calls[0], x);
      }
      SendsBeyond(After(s, calls[0]), x, calls[1..]);
    }
  }

  // ---------------------------------------------------------------- where a receiver stands

  predicate NoDeeper(chain: Key, depth: nat) {
    Base(chain).DhChain? ==> RootDepth(Base(chain).root) <= depth
  }

  lemma EpochNoDeeper(e: Epoch, n: nat, depth: nat)
    requires e.first <= n && !e.chain.NextChain? && (e.chain.DhChain? ==> e.chain.root == e.root) && RootDepth(e.root) <= depth
    ensures NoDeeper(Advance(e.chain, n - e.first), depth) && KeyIn(e, n).MsgKey? && NoDeeper(KeyIn(e, n).chain, depth)
  {
    BaseAndPosition(e.chain, n - e.first);
  }

  lemma StoredKeyIs(w: World, n: u32)
    requires Inv(w) && n in w.b.skipped
    ensures n < |w.ab.sent| && w.ab.sent[n].epoch <= w.ab.seen < |w.ab.epochs|
    ensures var e := w.ab.epochs[w.ab.sent[n].epoch]; e.first <= n && w.b.skipped[n] == KeyIn(e, n)
  {
    hide Advance, AadOf, OneHistory, KeysApart, Lineage, SenderAt, EpochsOk, KeyIn;
    Basics(w);
    InPlace(w.b, w.ab);
    LateEpoch(w.b, w.ab, n);
    assert SentOk(w.ab.epochs, n, w.ab.sent[n]);
  }

  lemma StoredNoDeeper(w: World, n: u32)
    requires Inv(w) && n in w.b.skipped
    ensures w.b.skipped[n].MsgKey? && NoDeeper(w.b.skipped[n].chain, RootDepth(w.b.root))
  {
    hide Log, Inbox, OneHistory, PubsDiffer, DepthsDiffer, Lineage, NoDeeper, KeyIn;
    StoredKeyIs(w, n);
    EpochNoDeeper(w.ab.epochs[w.ab.sent[n].epoch], n, RootDepth(w.b.root));
  }

  lemma ChainNoDeeper(w: World)
    requires Inv(w)
    ensures NoDeeper(w.b.chainRecv, RootDepth(w.b.root))
  {
    hide Advance, OneHistory, PubsDiffer, DepthsDiffer, Lineage, SenderAt, NoDeeper, StoredKeys;
    EpochNoDeeper(w.ab.epochs[w.ab.seen], w.b.recvCount, RootDepth(w.b.root));
  }

  lemma NotUnderDeeper(x: Key, chain: Key, depth: nat)
    requires NoDeeper(chain, depth) && depth < RootDepth(x)
    ensures !ChainUnder(x, chain)
  {
    if ChainUnder(x, chain) {
      LeadsDeeper(x, Base(chain).root);
    }
  }

  /** A receiver has nothing from a root deeper than its own. */
  lemma ReceiverIsOutside(w: World, x: Key)
    requires Inv(w) && RootDepth(w.b.root) < RootDepth(x)
    ensures WellFormed(w.b) && Outside(w.b, x)
  {
    hide Inv, NoDeeper, ChainUnder;
    ReceiverHasOneOrigin(w);
    ChainNoDeeper(w);
    NotUnderDeeper(x, w.b.chainRecv, RootDepth(w.b.root));
    if LeadsTo(x, w.b.root) {
      LeadsDeeper(x, w.b.root);
    }
    forall n | n in w.b.skipped
      ensures !Under(x, w.b.skipped[n])
    {
      StoredNoDeeper(w, n);
      NotUnderDeeper(x, w.b.skipped[n].chain, RootDepth(w.b.root));
    }
  }

  // ---------------------------------------------------------------- simultaneous rotations

  /** Both peers rotate before they hear of each other. */
  ghost predicate Collides(w: World, ea: Secret, eb: Secret) {
    && Inv(w) && CaughtUp(w.ab) && CaughtUp(w.ba) && Rotates(w.a) && Rotates(w.b)
    && New(w, ea.point) && New(w, eb.point) && ea.point != eb.point
  }

  lemma CollisionParts(w: World, ea: Secret, eb: Secret)
    requires Collides(w, ea, eb)
    ensures w.a.root == w.b.root && AfterSend(w.a, ea).root != AfterSend(w.b, eb).root
    ensures AfterSend(w.a, ea).root.StepRoot? && AfterSend(w.a, ea).root.root == w.b.root
    ensures AfterSend(w.b, eb).root.StepRoot? && AfterSend(w.b, eb).root.root == w.b.root
    ensures Base(AfterSend(w.a, ea).chainSend) == DhChain(AfterSend(w.a, ea).root, AfterSend(w.a, ea).root.shared)
    ensures SendKey(w.a, ea).MsgKey? && SendKey(w.a, ea).chain == DhChain(AfterSend(w.a, ea).root, AfterSend(w.a, ea).root.shared)
  {
    hide Inbox, KeysApart, Lineage, EpochsOk, SentOk;
    var i := |w.ab.epochs| - 1;
    assert w.a.public == w.ab.epochs[i].dh && w.a.public != ea.point;
    assert ea.point in {ea.point, w.a.remote.value} && ea.point !in {eb.point, w.b.remote.value} by {
      KnowsEachOther(w);
    }
  }

  lemma KnowsEachOther(w: World)
    requires Inv(w) && CaughtUp(w.ab) && Rotates(w.b)
    ensures w.b.remote == Some(w.a.public) && |w.ab.epochs| > 0 && w.a.public == Last(w.ab.epochs).dh
  {
    hide OneHistory, KeysApart, Lineage, StoredKeys, EpochsOk, SentOk, Advance;
  }

  /** After a collision no frame that one peer ever sends is accepted by the other, whatever either does:
      `callsA` and `callsB` are any runs of the peers with any frames in them. */
  lemma CollisionIsForEver(w: World, ea: Secret, eb: Secret, callsA: seq<Call>, callsB: seq<Call>, r: Record, call: Call)
    requires Collides(w, ea, eb)
    requires r == RecordOf(w.a, ea) || r in Records(AfterSend(w.a, ea), callsA)
    requires call.Recv? && call.ct.Sealed? && call.ct.key == r.key
    ensures !Accepts(Final(AfterSend(w.b, eb), callsB), call)
  {
    hide Records, Accepts, Final, AfterSend, Inv, New, SendKey;
    var x := AfterSend(w.a, ea).root;
    CollisionParts(w, ea, eb);
    ReceiverIsOutside(w, x);
    SenderIsBeyond(w, ea, eb, callsA);
    ReceiverIsForked(w, ea, eb);
    ForkedRefuses(AfterSend(w.b, eb), x, callsB, call);
  }

  lemma ReceiverIsForked(w: World, ea: Secret, eb: Secret)
    requires Collides(w, ea, eb) && WellFormed(w.b) && Outside(w.b, AfterSend(w.a, ea).root)
    ensures WellFormed(AfterSend(w.b, eb)) && Forked(AfterSend(w.b, eb), AfterSend(w.a, ea).root)
  {
    var x, y := AfterSend(w.a, ea).root, AfterSend(w.b, eb).root;
    CollisionParts(w, ea, eb);
    hide Outside, Collides, WellFormed, AfterSend, Inv;
    SiblingsPart(x, y);
    SendOutside(w.b, eb, x);
    SendStaysWellFormed(w.b, eb);
  }

  lemma SenderIsBeyond(w: World, ea: Secret, eb: Secret, calls: seq<Call>)
    requires Collides(w, ea, eb)
    ensures var x := AfterSend(w.a, ea).root;
            && Under(x, SendKey(w.a, ea)) && forall r :: r in Records(AfterSend(w.a, ea), calls) ==> Under(x, r.key)
  {
    hide Inv, WellFormed, Records, AfterSend, SendKey;
    CollisionParts(w, ea, eb);
    InvFlips(w);
    ReceiverHasOneOrigin(Flip(w));
    SendStaysWellFormed(w.a, ea);
    SendsBeyond(AfterSend(w.a, ea), AfterSend(w.a, ea).root, calls);
  }

  // ---------------------------------------------------------------- an epoch of which nothing arrives

  /** The call neither brings a frame of the epoch that begins at root `x` nor draws one of the two keys
      that the epoch was opened with once more. */
  predicate Avoids(call: Call, x: Key) {
    match call
    case Send(e) => x.StepRoot? && x.shared.Dh? ==> e.point !in x.shared.ends
    case Recv(_, _, _, ct, _) => !(ct.Sealed? && ct.key.MsgKey? && Base(ct.key.chain).DhChain? && Base(ct.key.chain).root == x)
  }

  lemma SendAvoids(s: State, e: Secret, x: Key)
    requires s.root != x && Avoids(Call.Send(e), x)
    ensures AfterSend(s, e).root != x
  {
    if Rotates(s) {
      assert e.point in {e.point, s.remote.value};
    }
  }

  lemma PlanArrives(s: State, plan: Plan)
    requires WellFormed(s) && Prepare(s, plan).Ok?
    ensures var t := Prepare(s, plan).value;
            t.root == s.root || (Base(t.chainRecv).DhChain? && Base(t.chainRecv).root == t.root)
  {
    hide Skip, Advance;
    match plan
    case SameChain(_, step) => SkipKeepsRoot(s, step);
    case NewChain(remote, first, step) =>
      SkipKeepsRoot(s, first);
      var t := DhRecv(Skip(s, first).value, remote);
      SkipKeepsRoot(t, step);
      SkipBase(t, step);
  }

  lemma SkipBase(s: State, until: u32)
    requires Skip(s, until).Ok?
    ensures Base(Skip(s, until).value.chainRecv) == Base(s.chainRecv)
  {
    SkipMoves(s, until);
    BaseAndPosition(s.chainRecv, until - s.recvCount);
  }

  lemma ReceiveAvoids(s: State, call: Call, x: Key)
    requires WellFormed(s) && s.root != x && call.Recv? && Avoids(call, x)
    ensures After(s, call).root != x
  {
    hide Receive, Prepare;
    ReceiveIsTransactional(s, call.remote, call.step, call.epochStart, call.ct, call.aad);
    var o := Receive(s, call.remote, call.step, call.epochStart, call.ct, call.aad);
    if o.result.Ok? {
      var route :| Via(s, route, call.remote, call.step, call.epochStart, call.ct, call.aad, o);
      if route.ByPlan? {
        PlanArrives(s, route.plan);
      }
    }
  }

  lemma CallAvoids(s: State, call: Call, x: Key)
    requires WellFormed(s) && Outside(s, x) && Avoids(call, x)
    ensures WellFormed(After(s, call)) && Outside(After(s, call), x)
    ensures call.Recv? && Accepts(s, call) ==> call.ct.Sealed? && !Under(x, call.ct.key)
  {
    CallKeeps(s, call);
    hide Receive, AfterSend, Avoids, Accepts;
    if call.Send? {
      SendAvoids(s, call.ephemeral, x);
    } else {
      ReceiveAvoids(s, call, x);
      ReceiveOutside(s, call, x);
    }
    hide Outside, After;
    CallOutside(s, call, x);
  }

  lemma {:induction false} StaysOutside(s: State, x: Key, calls: seq<Call>)
    requires WellFormed(s) && Outside(s, x) && forall i :: 0 <= i < |calls| ==> Avoids(calls[i], x)
    ensures WellFormed(Final(s, calls)) && Outside(Final(s, calls), x)
    decreases |calls|
  {
    hide WellFormed, Outside, After, Avoids;
    if calls == [] {
    } else {
      CallAvoids(s, calls[0], x);
      assert forall i :: 0 <= i < |calls[1..]| ==> calls[1..][i] == calls[i + 1];
      StaysOutside(After(s, calls[0]), x, calls[1..]);
    }
  }

  lemma {:induction false} EpochsLead(w: World, q: nat)
    requires Inv(w) && w.ab.seen < q < |w.ab.epochs|
    ensures LeadsTo(w.ab.epochs[w.ab.seen + 1].root, w.ab.epochs[q].root)
    decreases q
  {
    hide Log, Inbox, KeysApart, Lineage;
    if q > w.ab.seen + 1 {
      EpochsLead(w, q - 1);
      assert OpenedInTurn(w.b.root, w.b.secret.point, w.ab, q);
    }
  }

  lemma NewestIsBeyond(w: World)
    requires Inv(w) && !CaughtUp(w.ab)
    ensures w.ab.seen + 1 < |w.ab.epochs| && Beyond(w.a, w.ab.epochs[w.ab.seen + 1].root)
    ensures RootDepth(w.ab.epochs[w.ab.seen + 1].root) == RootDepth(w.b.root) + 1
  {
    hide Inbox, PubsDiffer, DepthsDiffer, Above, Lineage, EpochsOk, SentOk, LeadsTo;
    Basics(w);
    var e := Last(w.ab.epochs);
    EpochsLead(w, |w.ab.epochs| - 1);
    assert OpenedInTurn(w.b.root, w.b.secret.point, w.ab, w.ab.seen + 1);
    BaseAndPosition(e.chain, w.a.sendCount - e.first);
  }

  lemma SentIsBeyond(w: World, n: nat)
    requires Inv(w) && n < |w.ab.sent| && w.ab.sent[n].epoch > w.ab.seen
    ensures w.ab.seen + 1 < |w.ab.epochs| && w.ab.sent[n].frame.ct.Sealed?
    ensures Under(w.ab.epochs[w.ab.seen + 1].root, w.ab.sent[n].frame.ct.key)
  {
    hide Inbox, OneHistory, PubsDiffer, DepthsDiffer, Above, Lineage, EpochsOk, LeadsTo, AadOf;
    Basics(w);
    assert SentOk(w.ab.epochs, n, w.ab.sent[n]);
    var e := w.ab.epochs[w.ab.sent[n].epoch];
    EpochsLead(w, w.ab.sent[n].epoch);
    BaseAndPosition(e.chain, n - e.first);
  }

  /** A key of the epoch after the receiver's or of a later one: of a frame sent already, or of one that
      the sender sends during `calls`. */
  ghost predicate LaterKey(w: World, calls: seq<Call>, key: Key) {
    || (exists r :: r in Records(w.a, calls) && r.key == key)
    || (exists n :: 0 <= n < |w.ab.sent| && w.ab.sent[n].epoch > w.ab.seen && w.ab.sent[n].frame.ct.Sealed?
                    && w.ab.sent[n].frame.ct.key == key)
  }

  lemma LaterIsUnder(w: World, calls: seq<Call>, key: Key)
    requires Inv(w) && !CaughtUp(w.ab) && LaterKey(w, calls, key)
    ensures w.ab.seen + 1 < |w.ab.epochs| && Under(w.ab.epochs[w.ab.seen + 1].root, key)
  {
    hide Inv, Records, Beyond, Under;
    NewestIsBeyond(w);
    InvFlips(w);
    ReceiverHasOneOrigin(Flip(w));
    SendsBeyond(w.a, w.ab.epochs[w.ab.seen + 1].root, calls);
    if n :| 0 <= n < |w.ab.sent| && w.ab.sent[n].epoch > w.ab.seen && w.ab.sent[n].frame.ct.Sealed?
            && w.ab.sent[n].frame.ct.key == key {
      SentIsBeyond(w, n);
    }
  }

  /** As long as no frame of an epoch arrives at the other peer, no frame of that epoch or of a later one is
      accepted, whatever else the two peers send and receive. */
  lemma MissedEpochIsForEver(w: World, callsA: seq<Call>, callsB: seq<Call>, call: Call)
    requires Inv(w) && !CaughtUp(w.ab) && w.ab.seen + 1 < |w.ab.epochs|
    requires forall i :: 0 <= i < |callsB| ==> Avoids(callsB[i], w.ab.epochs[w.ab.seen + 1].root)
    requires call.Recv? && call.ct.Sealed? && LaterKey(w, callsA, call.ct.key) && Avoids(call, w.ab.epochs[w.ab.seen + 1].root)
    ensures !Accepts(Final(w.b, callsB), call)
  {
    hide Inv, Avoids, LaterKey, Accepts, Final, Beyond, Outside, Under;
    var x := w.ab.epochs[w.ab.seen + 1].root;
    NewestIsBeyond(w);
    ReceiverIsOutside(w, x);
    LaterIsUnder(w, callsA, call.ct.key);
    StaysOutside(w.b, x, callsB);
    CallAvoids(Final(w.b, callsB), call, x);
  }
}
