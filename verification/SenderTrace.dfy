/** What one peer sends over a whole run, whatever it receives in between
    (`ratchet_send`, `epoch_start` and `dh_ratchet_send` in `src/rust/ratchet.rs`). */
module SenderTrace {
  import opened Crypto
  import opened Ratchet
  import opened AtMostOnce

  /** What a send puts on the wire, with `epoch_start` read right after it, and the key it used. */
  datatype Record = Record(step: u32, epochStart: u32, dh: Pub, key: Key)

  function RecordOf(s: State, ephemeral: Secret): Record {
    var t := AfterSend(s, ephemeral);
    Record(s.sendCount, EpochStart(t), t.public, SendKey(s, ephemeral))
  }

  ghost function Records(s: State, calls: seq<Call>): seq<Record>
    decreases |calls|
  {
    if calls == [] then [] else
      (if calls[0].Send? then [RecordOf(s, calls[0].ephemeral)] else []) + Records(After(s, calls[0]), calls[1..])
  }

  function Sends(calls: seq<Call>): nat {
    if calls == [] then 0 else (if calls[0].Send? then 1 else 0) + Sends(calls[1..])
  }

  /** Every ephemeral key that the random source yields is new. */
  ghost predicate AllFresh(calls: seq<Call>, used: set<Pub>)
    decreases |calls|
  {
    calls == [] ||
    (match calls[0]
     case Send(e) => e.point !in used && AllFresh(calls[1..], used + {e.point})
     case Recv(_, _, _, _, _) => AllFresh(calls[1..], used))
  }

  /** The rank of a chain: the depth of the root it comes from, then its position. */
  function Depth(base: Key): nat {
    if base.DhChain? then RootDepth(base.root) else 0
  }

  predicate Before(a: Key, b: Key) {
    || Depth(Base(a)) < Depth(Base(b))
    || (Depth(Base(a)) == Depth(Base(b)) && Position(a) < Position(b))
  }

  predicate NotAfter(a: Key, b: Key) {
    a == b || Before(a, b)
  }

  ghost predicate SenderOk(s: State, used: set<Pub>) {
    && s.public == s.secret.point && s.public in used
    && s.sendsSinceDh <= s.sendCount
    && Depth(Base(s.chainSend)) <= RootDepth(s.root)
    && (Base(s.chainSend).DhChain? ==> s.remote.Some? && 1 <= s.sendsSinceDh <= DH_SEND_EVERY)
  }

  /** The current key came from a rotation. */
  predicate Rotated(s: State) {
    Base(s.chainSend).DhChain?
  }

  /** How a later record relates to the state before it. */
  ghost predicate Follows(s: State, r: Record, used: set<Pub>) {
    && s.sendCount <= r.step && r.epochStart <= r.step
    && r.key.MsgKey? && NotAfter(s.chainSend, r.key.chain)
    && (if r.dh == s.public then r.epochStart == EpochStart(s) else r.dh !in used && s.sendCount <= r.epochStart)
    && (Rotated(s) || r.dh != s.public ==> r.step - r.epochStart < DH_SEND_EVERY)
    && (Rotated(s) ==> (r.epochStart - EpochStart(s)) % DH_SEND_EVERY == 0)
  }

  lemma ReceiveKeepsSender(s: State, call: Call, used: set<Pub>)
    requires SenderOk(s, used) && WellFormed(s) && call.Recv?
    ensures var t := After(s, call);
            SenderOk(t, used) && WellFormed(t) && EpochStart(t) == EpochStart(s)
            && (t.public, t.chainSend, t.sendCount) == (s.public, s.chainSend, s.sendCount)
  {
    CallKeeps(s, call);
    ReceiveIsTransactional(s, call.remote, call.step, call.epochStart, call.ct, call.aad);
    var o := Receive(s, call.remote, call.step, call.epochStart, call.ct, call.aad);
    if o.result.Ok? {
      var route :| Via(s, route, call.remote, call.step, call.epochStart, call.ct, call.aad, o);
      if route.ByPlan? {
        PrepareSummary(s, route.plan);
        PrepareDeepens(s, route.plan);
      }
    }
  }

  lemma PrepareDeepens(s: State, plan: Plan)
    requires Prepare(s, plan).Ok?
    ensures RootDepth(s.root) <= RootDepth(Prepare(s, plan).value.root)
  {
    match plan
    case SameChain(_, step) => SkipMoves(s, step);
    case NewChain(remote, first, step) =>
      SkipMoves(s, first);
      SkipMoves(DhRecv(Skip(s, first).value, remote), step);
  }

  lemma SendKeepsSender(s: State, e: Secret, used: set<Pub>)
    requires SenderOk(s, used) && s.sendCount < U32_MAX && e.point !in used
    ensures var t := AfterSend(s, e);
            && SenderOk(t, used + {e.point}) && t.sendCount == s.sendCount + 1
            && Before(RecordOf(s, e).key.chain, t.chainSend)
            && Follows(s, RecordOf(s, e), used)
            && RecordOf(s, e).dh == t.public && RecordOf(s, e).epochStart == EpochStart(t)
            && (t.public == s.public ==> EpochStart(t) == EpochStart(s) && Rotated(t) == Rotated(s))
            && (t.public != s.public ==> t.public == e.point && EpochStart(t) == s.sendCount && Rotated(t))
            && NotAfter(s.chainSend, t.chainSend)
  {
    var b := BeforeSend(s, e);
    BaseAndPosition(b.chainSend, 1);
    assert Advance(b.chainSend, 1) == NextChain(Advance(b.chainSend, 0));
  }

  lemma NotAfterTransitive(a: Key, b: Key, c: Key)
    requires NotAfter(a, b) && NotAfter(b, c)
    ensures NotAfter(a, c)
  {
  }

  /** Every record of a run from `s` follows `s`. */
  lemma {:induction false} RecordsFollow(s: State, calls: seq<Call>, used: set<Pub>)
    requires SenderOk(s, used) && WellFormed(s) && AllFresh(calls, used) && s.sendCount + Sends(calls) <= U32_MAX
    ensures forall r :: r in Records(s, calls) ==> Follows(s, r, used)
    decreases |calls|
  {
    hide Follows, SenderOk, WellFormed, RecordOf, AfterSend, Receive;
    if calls == [] {
    } else {
      var t := After(s, calls[0]);
      CallKeeps(s, calls[0]);
      if calls[0].Send? {
        var e := calls[0].ephemeral;
        SendAndFollow(s, e, used);
        RecordsFollow(t, calls[1..], used + {e.point});
        forall r | r in Records(t, calls[1..])
          ensures Follows(s, r, used)
        {
          FollowsTransitive(s, t, e, r, used);
        }
      } else {
        ReceiveKeepsSender(s, calls[0], used);
        RecordsFollow(t, calls[1..], used);
        forall r | r in Records(t, calls[1..])
          ensures Follows(s, r, used)
        {
          FollowsAlike(s, calls[0], r, used);
        }
      }
    }
  }

  lemma SendAndFollow(s: State, e: Secret, used: set<Pub>)
    requires SenderOk(s, used) && s.sendCount < U32_MAX && e.point !in used
    ensures var t := AfterSend(s, e);
            SenderOk(t, used + {e.point}) && t.sendCount == s.sendCount + 1 && Follows(s, RecordOf(s, e), used)
  {
    hide Follows, SenderOk, RecordOf;
    SendKeepsSender(s, e, used);
  }

  /** A receive changes nothing that later records are compared with. */
  lemma FollowsAlike(s: State, call: Call, r: Record, used: set<Pub>)
    requires SenderOk(s, used) && WellFormed(s) && call.Recv? && Follows(After(s, call), r, used)
    ensures Follows(s, r, used)
  {
    hide SenderOk, WellFormed, Receive;
    ReceiveKeepsSender(s, call, used);
  }

  lemma FollowsTransitive(s: State, t: State, e: Secret, r: Record, used: set<Pub>)
    requires SenderOk(s, used) && s.sendCount < U32_MAX && e.point !in used
    requires t == AfterSend(s, e) && Follows(t, r, used + {e.point})
    ensures Follows(s, r, used)
  {
    SendKeepsSender(s, e, used);
    NotAfterTransitive(s.chainSend, t.chainSend, r.key.chain);
  }

  /** Two records of one run, the first sent before the second. */
  ghost predicate Ordered(a: Record, b: Record) {
    && a.step < b.step
    && a.key != b.key
    && (a.dh == b.dh <==> b.epochStart <= a.step)
    && (a.dh == b.dh <==> a.epochStart == b.epochStart)
    && (a.dh != b.dh ==> b.step - b.epochStart < DH_SEND_EVERY)
  }

  lemma HeadOrdered(s: State, e: Secret, r: Record, used: set<Pub>)
    requires SenderOk(s, used) && s.sendCount < U32_MAX && e.point !in used
    requires Follows(AfterSend(s, e), r, used + {e.point})
    ensures Ordered(RecordOf(s, e), r)
  {
    SendKeepsSender(s, e, used);
  }

  ghost predicate Trace(rs: seq<Record>, first: nat) {
    && (forall i :: 0 <= i < |rs| ==> rs[i].step == first + i && rs[i].epochStart <= rs[i].step)
    && (forall i, j :: 0 <= i < j < |rs| ==> Ordered(rs[i], rs[j]))
  }

  lemma TraceCons(r: Record, rest: seq<Record>, first: nat)
    requires Trace(rest, first + 1) && r.epochStart <= r.step == first && forall q :: q in rest ==> Ordered(r, q)
    ensures Trace([r] + rest, first)
  {
    var rs := [r] + rest;
    forall i, j | 0 <= i < j < |rs|
      ensures Ordered(rs[i], rs[j])
    {
      assert rs[j] == rest[j - 1];
    }
  }

  /** In a trace `epoch_start` is the first step under the key in the header: it moves to the present
      step with every new key and stays while the key does. */
  lemma EpochStartIsFirstStep(rs: seq<Record>, first: nat, i: nat)
    requires Trace(rs, first) && 1 <= i < |rs|
    ensures rs[i].epochStart == if rs[i].dh == rs[i - 1].dh then rs[i - 1].epochStart else rs[i].step
  {
    assert Ordered(rs[i - 1], rs[i]);
  }

  /** Every bootstrap is a start of such runs; its first epoch begins at step 0. */
  lemma BootstrapIsSender(ephemeral: Secret, shared: Key, local: Pub, remote: Pub, salt: Bytes)
    ensures var s := InitDirectional(Fresh(ephemeral), shared, local, remote, salt);
            SenderOk(s, {ephemeral.point}) && WellFormed(s) && s.sendCount == 0 && EpochStart(s) == 0
  {
    hide Leq;
  }

  /** Over any run below counter saturation with fresh ephemeral keys: the steps sent are consecutive;
      `epoch_start` is the first step under the key in the header; all message keys differ. */
  lemma {:induction false} SendsOverARun(s: State, calls: seq<Call>, used: set<Pub>)
    requires SenderOk(s, used) && WellFormed(s) && AllFresh(calls, used) && s.sendCount + Sends(calls) <= U32_MAX
    ensures Trace(Records(s, calls), s.sendCount)
    decreases |calls|
  {
    if calls == [] {
    } else {
      var t := After(s, calls[0]);
      var rest := Records(t, calls[1..]);
      if calls[0].Send? {
        var e := calls[0].ephemeral;
        SendKeepsSender(s, e, used);
        CallKeeps(s, calls[0]);
        SendsOverARun(t, calls[1..], used + {e.point});
        RecordsFollow(t, calls[1..], used + {e.point});
        forall r | r in rest
          ensures Ordered(RecordOf(s, e), r)
        {
          HeadOrdered(s, e, r, used);
        }
        TraceCons(RecordOf(s, e), rest, s.sendCount);
      } else {
        ReceiveKeepsSender(s, calls[0], used);
        SendsOverARun(t, calls[1..], used);
        assert Records(s, calls) == rest;
      }
    }
  }

  lemma InCadence(s: State, r: Record, used: set<Pub>)
    requires Follows(s, r, used) && Rotated(s)
    ensures (r.epochStart - EpochStart(s)) % DH_SEND_EVERY == 0 && r.epochStart <= r.step < r.epochStart + DH_SEND_EVERY
  {
  }

  /** Once the key has rotated, all later epochs start a multiple of DH_SEND_EVERY steps after it and
      none is longer: with consecutive steps, every rotated epoch has exactly DH_SEND_EVERY frames. */
  lemma Cadence(s: State, calls: seq<Call>, used: set<Pub>)
    requires SenderOk(s, used) && WellFormed(s) && AllFresh(calls, used) && s.sendCount + Sends(calls) <= U32_MAX
    requires Rotated(s)
    ensures forall r :: r in Records(s, calls) ==>
              (r.epochStart - EpochStart(s)) % DH_SEND_EVERY == 0 && r.epochStart <= r.step < r.epochStart + DH_SEND_EVERY
  {
    hide Follows, Rotated, Records, SenderOk, AllFresh, WellFormed, EpochStart;
    RecordsFollow(s, calls, used);
    forall r | r in Records(s, calls)
      ensures (r.epochStart - EpochStart(s)) % DH_SEND_EVERY == 0 && r.epochStart <= r.step < r.epochStart + DH_SEND_EVERY
    {
      InCadence(s, r, used);
    }
  }
}
