/** What one receive can do to the state, and what any run of sends and receives with
    arbitrary, possibly forged, frames keeps (`src/rust/ratchet.rs`). */
module AtMostOnce {
  import opened Collections
  import opened Crypto
  import opened Ratchet

  /** Every stored key belongs to a step that the receive counter has passed. */
  ghost predicate WellFormed(s: State) {
    forall n :: n in s.skipped ==> n < s.recvCount
  }

  ghost predicate Enclosed(lo: int, n: int, hi: int) {
    lo <= n < hi
  }

  /** A successful plan brings the counter to its step. It stores keys for passed steps only,
      keeps the highest when the cap is exceeded and leaves the sending side alone. */
  ghost predicate Prepared(s: State, plan: Plan, t: State) {
    && s.recvCount <= plan.step == t.recvCount
    && plan.step - s.recvCount <= (if plan.SameChain? then MAX_SKIP else 2 * MAX_SKIP)
    && (forall n :: n in t.skipped ==> n in s.skipped || s.recvCount <= n < plan.step)
    && (forall n :: n in t.skipped && n in s.skipped ==> t.skipped[n] == s.skipped[n])
    && (forall x, y :: x in s.skipped && x !in t.skipped && y in t.skipped ==> x < y)
    && (forall x, y :: Enclosed(s.recvCount, x, plan.step) && x !in t.skipped && y in t.skipped ==> x < y)
    && (|s.skipped| <= MAX_SKIPPED_KEYS ==> |t.skipped| <= MAX_SKIPPED_KEYS)
    && (t.secret, t.public, t.chainSend, t.sendCount, t.sendsSinceDh)
       == (s.secret, s.public, s.chainSend, s.sendCount, s.sendsSinceDh)
    && t.remote == Some(if plan.SameChain? && s.remote.Some? then s.remote.value else plan.remote)
  }

  ghost predicate Skipped(s: State, until: u32, t: State) {
    && s.recvCount <= until == t.recvCount && until - s.recvCount <= MAX_SKIP
    && WellFormed(t)
    && (forall n :: n in t.skipped ==> n in s.skipped || s.recvCount <= n < until)
    && (forall n :: n in t.skipped && n in s.skipped ==> t.skipped[n] == s.skipped[n])
    && (forall x, y :: x in s.skipped && x !in t.skipped && y in t.skipped ==> x < y)
    && (forall x, y :: Enclosed(s.recvCount, x, until) && x !in t.skipped && y in t.skipped ==> x < y)
    && (|s.skipped| <= MAX_SKIPPED_KEYS ==> |t.skipped| <= MAX_SKIPPED_KEYS)
    && t == s.(recvCount := until, chainRecv := t.chainRecv, skipped := t.skipped)
  }

  lemma AllKeysAre(s: State, until: u32)
    requires WellFormed(s) && s.recvCount <= until
    ensures forall n :: n in AllKeys(s, until) <==> n in s.skipped || s.recvCount <= n < until
    ensures forall n :: n in s.skipped ==> AllKeys(s, until)[n] == s.skipped[n]
  {
  }

  lemma SkipSummary(s: State, until: u32)
    requires WellFormed(s) && Skip(s, until).Ok?
    ensures Skipped(s, until, Skip(s, until).value)
  {
    hide AllKeys, SkipTo;
    var t, all := Skip(s, until).value, AllKeys(s, until);
    SkipMoves(s, until);
    if |s.skipped| <= MAX_SKIPPED_KEYS {
      SkipBounded(s, until);
    }
    SkipKeeps(s, until);
    AllKeysAre(s, until);
    forall x, y | x !in t.skipped && y in t.skipped && (x in s.skipped || Enclosed(s.recvCount, x, until))
      ensures x < y
    {
      assert x in all;
    }
  }

  lemma NewChainSummary(s: State, plan: Plan, t: State, u: State)
    requires WellFormed(s) && plan.NewChain?
    requires Skipped(s, plan.first, t) && Skipped(DhRecv(t, plan.remote), plan.step, u)
    ensures Prepared(s, plan, u)
  {
    forall x, y | x in s.skipped && x !in u.skipped && y in u.skipped
      ensures x < y
    {
      assert x in t.skipped || y in t.skipped || t.recvCount <= y;
    }
    forall x, y | Enclosed(s.recvCount, x, plan.step) && x !in u.skipped && y in u.skipped
      ensures x < y
    {
      if x < t.recvCount {
        assert Enclosed(s.recvCount, x, plan.first);
      } else {
        assert Enclosed(t.recvCount, x, plan.step);
      }
    }
  }

  lemma PrepareSummary(s: State, plan: Plan)
    requires WellFormed(s) && Prepare(s, plan).Ok?
    ensures Prepared(s, plan, Prepare(s, plan).value)
  {
    match plan
    case SameChain(_, step) =>
      SkipSummary(s, step);
    case NewChain(remote, first, step) =>
      var t := Skip(s, first).value;
      SkipSummary(s, first);
      SkipSummary(DhRecv(t, remote), step);
      NewChainSummary(s, plan, t, Prepare(s, plan).value);
  }

  // ---------------------------------------------------------------- one receive

  /** How a receive that answers Ok came about. */
  datatype Route = ByStoredKey | ByPlan(plan: Plan)

  ghost predicate Took(s: State, route: Route, step: u32, ct: Ciphertext, aad: Bytes, o: Outcome) {
    o.result.Ok? &&
    match route
    case ByStoredKey =>
      && step in s.skipped
      && o.state == s.(skipped := s.skipped - {step})
      && Decrypt(s.skipped[step], ct, aad) == Ok(o.result.value.plaintext)
    case ByPlan(plan) =>
      && plan.step == step && step !in s.skipped && s.recvCount < U32_MAX
      && Prepare(s, plan).Ok?
      && var t := Prepare(s, plan).value;
      && o.state == TakeKey(t)
      && Decrypt(MsgKey(t.chainRecv), ct, aad) == Ok(o.result.value.plaintext)
  }

  /** The route that the header calls for. */
  ghost predicate Chosen(s: State, route: Route, remote: Pub, step: u32, epochStart: Option<u32>) {
    match route
    case ByStoredKey => step in s.skipped
    case ByPlan(plan) =>
      && plan.remote == remote && plan.step == step && remote != s.public
      && (s.remote != Some(remote) ==> WasContributory(remote))
      && (plan.SameChain? <==> s.remote.None? || s.remote == Some(remote))
      && (plan.NewChain? ==> match epochStart
                             case Some(first) => plan.first == first
                             case None => plan.first <= step < plan.first + DH_SEND_EVERY)
  }

  ghost predicate Via(s: State, route: Route, remote: Pub, step: u32, epochStart: Option<u32>, ct: Ciphertext, aad: Bytes, o: Outcome) {
    Chosen(s, route, remote, step, epochStart) && Took(s, route, step, ct, aad, o)
  }

  lemma CommitRoute(s: State, plan: Plan, ct: Ciphertext, aad: Bytes)
    requires WellFormed(s) && plan.step !in s.skipped && s.recvCount < U32_MAX
    ensures var o := Commit(s, plan, ct, aad);
            match o.result
            case Err(_) => o.state == s
            case Ok(v) => v.step == plan.step && Took(s, ByPlan(plan), plan.step, ct, aad, o)
  {
    if Prepare(s, plan).Ok? {
      PrepareSummary(s, plan);
    }
  }

  ghost predicate FoundAt(s: State, remote: Pub, first: u32, step: u32, ct: Ciphertext, aad: Bytes, o: Outcome) {
    first <= step < first + DH_SEND_EVERY && Took(s, ByPlan(NewChain(remote, first, step)), step, ct, aad, o)
  }

  lemma {:induction false} SearchRoute(s: State, remote: Pub, step: u32, ct: Ciphertext, aad: Bytes, k: nat, last: Error)
    requires WellFormed(s) && k <= DH_SEND_EVERY && step !in s.skipped && s.recvCount < U32_MAX
    ensures var o := Search(s, remote, step, ct, aad, k, last);
            match o.result
            case Err(_) => o.state == s
            case Ok(v) => v.step == step && exists first: u32 :: FoundAt(s, remote, first, step, ct, aad, o)
    decreases DH_SEND_EVERY - k
  {
    if k < DH_SEND_EVERY && k <= step && s.recvCount <= step - k {
      var plan := NewChain(remote, step - k, step);
      CommitRoute(s, plan, ct, aad);
      var attempt := Commit(s, plan, ct, aad);
      if attempt.result.Ok? {
        assert FoundAt(s, remote, step - k, step, ct, aad, attempt);
      } else {
        SearchRoute(s, remote, step, ct, aad, k + 1, attempt.result.error);
      }
    }
  }

  lemma FailureLeavesTheState(s: State, remote: Pub, step: u32, epochStart: Option<u32>, ct: Ciphertext, aad: Bytes)
    requires WellFormed(s)
    ensures var o := Receive(s, remote, step, epochStart, ct, aad); o.result.Err? ==> o.state == s
  {
    if step !in s.skipped && s.recvCount < U32_MAX {
      if s.remote.Some? && s.remote != Some(remote) && epochStart.None? {
        SearchRoute(s, remote, step, ct, aad, 0, NotOpened(NotAuthentic));
      }
    }
  }

  /** A receive is a transaction. If it fails, the state is the one before; if it answers, the
      new state is that of the one plan that the header calls for, run on the live state (or of one
      stored key spent), and the answer carries the step of the header. This holds for every attempt
      of the search. */
  lemma ReceiveIsTransactional(s: State, remote: Pub, step: u32, epochStart: Option<u32>, ct: Ciphertext, aad: Bytes)
    requires WellFormed(s)
    ensures var o := Receive(s, remote, step, epochStart, ct, aad);
            match o.result
            case Err(_) => o.state == s
            case Ok(v) => v.step == step && exists route :: Via(s, route, remote, step, epochStart, ct, aad, o)
  {
    var o := Receive(s, remote, step, epochStart, ct, aad);
    if o.result.Ok? {
      if step in s.skipped {
        assert Via(s, ByStoredKey, remote, step, epochStart, ct, aad, o);
      } else if s.remote.None? || s.remote == Some(remote) {
        var plan := SameChain(remote, step);
        CommitRoute(s, plan, ct, aad);
        assert Via(s, ByPlan(plan), remote, step, epochStart, ct, aad, o);
      } else if epochStart.Some? {
        var plan := NewChain(remote, epochStart.value, step);
        CommitRoute(s, plan, ct, aad);
        assert Via(s, ByPlan(plan), remote, step, epochStart, ct, aad, o);
      } else {
        SearchRoute(s, remote, step, ct, aad, 0, NotOpened(NotAuthentic));
        var first: u32 :| FoundAt(s, remote, first, step, ct, aad, o);
        assert Via(s, ByPlan(NewChain(remote, first, step)), remote, step, epochStart, ct, aad, o);
      }
    } else {
      FailureLeavesTheState(s, remote, step, epochStart, ct, aad);
    }
  }

  /** Skipping is bounded: one accepted frame moves the counter by at most 2 * MAX_SKIP + 1, stores
      keys only for the steps it passes over, never holds more than the cap, and when it evicts it
      evicts the lowest steps. The cap on the gap applies once on each side of an epoch boundary. */
  ghost predicate Bounded(s: State, step: u32, t: State) {
    && s.recvCount <= t.recvCount <= s.recvCount + 2 * MAX_SKIP + 1
    && |t.skipped| <= MAX_SKIPPED_KEYS && |t.skipped| <= |s.skipped| + 2 * MAX_SKIP
    && (forall n :: n in t.skipped ==> n in s.skipped || s.recvCount <= n < step)
    && (forall x, y :: x in s.skipped && x != step && x !in t.skipped && y in t.skipped ==> x < y)
    && (forall x, y :: (step !in s.skipped && t != s && Enclosed(s.recvCount, x, step)
                        && x !in t.skipped && y in t.skipped) ==> x < y)
    && (forall n :: n in t.skipped && n in s.skipped ==> t.skipped[n] == s.skipped[n])
  }

  lemma PlanIsBounded(s: State, plan: Plan, t: State)
    requires |s.skipped| <= MAX_SKIPPED_KEYS && Prepared(s, plan, t) && plan.step !in s.skipped && s.recvCount < U32_MAX
    ensures Bounded(s, plan.step, TakeKey(t))
  {
    FewStored(s.skipped, t.skipped, s.recvCount, plan.step);
  }

  lemma SpendIsBounded(s: State, step: u32)
    requires |s.skipped| <= MAX_SKIPPED_KEYS && step in s.skipped
    ensures Bounded(s, step, s.(skipped := s.skipped - {step}))
  {
    assert (s.skipped - {step}).Keys == s.skipped.Keys - {step};
  }

  lemma NothingIsBounded(s: State, step: u32)
    requires |s.skipped| <= MAX_SKIPPED_KEYS
    ensures Bounded(s, step, s)
  {
  }

  lemma ReceiveIsBounded(s: State, remote: Pub, step: u32, epochStart: Option<u32>, ct: Ciphertext, aad: Bytes)
    requires WellFormed(s) && |s.skipped| <= MAX_SKIPPED_KEYS
    ensures Bounded(s, step, Receive(s, remote, step, epochStart, ct, aad).state)
  {
    hide Bounded, Receive, Prepared, Prepare;
    ReceiveIsTransactional(s, remote, step, epochStart, ct, aad);
    var o := Receive(s, remote, step, epochStart, ct, aad);
    if o.result.Ok? {
      var route :| Via(s, route, remote, step, epochStart, ct, aad, o);
      match route
      case ByStoredKey => SpendIsBounded(s, step);
      case ByPlan(plan) =>
        PrepareSummary(s, plan);
        PlanIsBounded(s, plan, Prepare(s, plan).value);
    } else {
      NothingIsBounded(s, step);
    }
  }

  lemma FewStored(before: map<u32, Key>, after: map<u32, Key>, from: u32, until: u32)
    requires from <= until && forall n :: n in after ==> n in before || from <= n < until
    ensures |after| <= |before| + (until - from)
  {
    var passed := set n | n in after && n !in before;
    var kept := set n | n in after && n in before;
    StepsSize(from, until);
    SubsetSize(passed, Steps(from, until));
    SubsetSize(kept, before.Keys);
    assert after.Keys == kept + passed;
  }

  // ---------------------------------------------------------------- runs

  datatype Call =
    | Send(ephemeral: Secret)
    | Recv(remote: Pub, step: u32, epochStart: Option<u32>, ct: Ciphertext, aad: Bytes)

  ghost function After(s: State, call: Call): State {
    match call
    case Send(ephemeral) => AfterSend(s, ephemeral)
    case Recv(remote, step, epochStart, ct, aad) => Receive(s, remote, step, epochStart, ct, aad).state
  }

  ghost predicate Accepts(s: State, call: Call) {
    call.Recv? && Receive(s, call.remote, call.step, call.epochStart, call.ct, call.aad).result.Ok?
  }

  /** The steps that a run accepts, in order. */
  ghost function AcceptedSteps(s: State, calls: seq<Call>): seq<u32>
    decreases |calls|
  {
    if calls == [] then [] else
      (if Accepts(s, calls[0]) then [calls[0].step] else []) + AcceptedSteps(After(s, calls[0]), calls[1..])
  }

  /** The key of step `n` is gone for good: it was used or evicted. */
  ghost predicate Spent(s: State, n: u32) {
    n !in s.skipped && (n < s.recvCount || s.recvCount == U32_MAX)
  }

  /** One call keeps the invariant, never lets the counter go back, spends the step it accepts and
      refuses every step that is already spent. Saturation of the counter is included. */
  lemma CallKeeps(s: State, call: Call)
    requires WellFormed(s)
    ensures WellFormed(After(s, call)) && s.recvCount <= After(s, call).recvCount
    ensures Accepts(s, call) ==> Spent(After(s, call), call.step)
    ensures forall n :: Spent(s, n) ==> Spent(After(s, call), n) && !(Accepts(s, call) && call.step == n)
  {
    if call.Recv? {
      ReceiveIsTransactional(s, call.remote, call.step, call.epochStart, call.ct, call.aad);
      var o := Receive(s, call.remote, call.step, call.epochStart, call.ct, call.aad);
      if o.result.Ok? {
        var route :| Via(s, route, call.remote, call.step, call.epochStart, call.ct, call.aad, o);
        if route.ByPlan? {
          PrepareSummary(s, route.plan);
        }
      }
    }
  }

  lemma {:induction false} SpentStepsStayRefused(s: State, n: u32, calls: seq<Call>)
    requires WellFormed(s) && Spent(s, n)
    ensures n !in AcceptedSteps(s, calls)
    decreases |calls|
  {
    if calls == [] {
    } else {
      CallKeeps(s, calls[0]);
      SpentStepsStayRefused(After(s, calls[0]), n, calls[1..]);
    }
  }

  /** Over any run, whatever frames arrive, no step is accepted twice. */
  lemma {:induction false} EachStepAcceptedAtMostOnce(s: State, calls: seq<Call>)
    requires WellFormed(s)
    ensures Distinct(AcceptedSteps(s, calls))
    decreases |calls|
  {
    if calls == [] {
    } else {
      var t := After(s, calls[0]);
      CallKeeps(s, calls[0]);
      EachStepAcceptedAtMostOnce(t, calls[1..]);
      if Accepts(s, calls[0]) {
        SpentStepsStayRefused(t, calls[0].step, calls[1..]);
        DistinctCons(calls[0].step, AcceptedSteps(t, calls[1..]));
      } else {
        assert AcceptedSteps(s, calls) == AcceptedSteps(t, calls[1..]);
      }
    }
  }

  ghost function Final(s: State, calls: seq<Call>): State
    decreases |calls|
  {
    if calls == [] then s else Final(After(s, calls[0]), calls[1..])
  }

  predicate RemoteIsContributory(s: State) {
    s.remote.Some? ==> WasContributory(s.remote.value)
  }

  /** No run, whatever frames arrive, makes a peer adopt a key of low order. */
  lemma {:induction false} NoLowOrderKeyIsAdopted(s: State, calls: seq<Call>)
    requires WellFormed(s) && RemoteIsContributory(s)
    ensures RemoteIsContributory(Final(s, calls))
    decreases |calls|
  {
    if calls == [] {
    } else {
      var call := calls[0];
      CallKeeps(s, call);
      if call.Recv? {
        ReceiveIsTransactional(s, call.remote, call.step, call.epochStart, call.ct, call.aad);
        var o := Receive(s, call.remote, call.step, call.epochStart, call.ct, call.aad);
        if o.result.Ok? {
          var route :| Via(s, route, call.remote, call.step, call.epochStart, call.ct, call.aad, o);
          if route.ByPlan? {
            PrepareSummary(s, route.plan);
          }
        }
      }
      NoLowOrderKeyIsAdopted(After(s, call), calls[1..]);
    }
  }
}
