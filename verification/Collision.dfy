/** A run on which agreement fails: both peers rotate at the same time (`src/rust/ratchet.rs`). */
module Collision {
  import opened Crypto
  import opened Ratchet
  import opened Agreement
  import opened AgreementSend
  import opened AgreementAnswer
  import opened AgreementRuns
  import opened AgreementTheorem
  import opened AgreementLimits

  /** Both peers know each other's key, are caught up and will rotate with their next send. */
  ghost predicate BothDue(w: World) {
    && Inv(w) && CaughtUp(w.ab) && CaughtUp(w.ba)
    && Rotates(w.a) && Rotates(w.b) && w.a.sendCount < U32_MAX && w.b.sendCount < U32_MAX
    && w.b.sendCount - w.a.recvCount <= MAX_SKIP && w.a.sendCount - w.b.recvCount <= MAX_SKIP
    && w.a.remote.Some? && w.b.remote.Some?
  }

  /** If `a` rotates, and `b` rotates before that frame reaches it, the frame of `b` does not open. */
  lemma SimultaneousRotationsBreak(w: World, ea: Secret, eb: Secret, pa: Bytes, pb: Bytes)
    requires BothDue(w) && New(w, ea.point) && New(w, eb.point) && ea.point != eb.point
    ensures Inv(SendStep(w, ea, [], pa))
    ensures Open(SendStep(w, ea, [], pa).a, SendFrame(w.b, eb, [], pb)).result.Err?
  {
    hide Log, Inbox, OneHistory, KeysApart, Open, SendFrame, AfterSend, Lineage;
    Basics(w);
    SendKeepsInv(w, ea, [], pa);
    var v := Flip(SendStep(w, ea, [], pa));
    InvFlips(SendStep(w, ea, [], pa));
    AfterCollision(w, ea, eb, pa);
    RotationOpensIff(v, eb, [], pb);
  }

  lemma AfterCollision(w: World, ea: Secret, eb: Secret, pa: Bytes)
    requires BothDue(w) && New(w, ea.point) && New(w, eb.point) && ea.point != eb.point
    ensures var v := Flip(SendStep(w, ea, [], pa)); AboutToRotate(v, eb, []) && !CaughtUp(v.ba) && v.a == w.b
  {
    hide Log, Inbox, OneHistory, KeysApart, Lineage;
  }

  // ---------------------------------------------------------------- such a world is reached

  ghost predicate Reachable(w: World, v: World) {
    exists run :: Admissible(w, run) && Run(w, run) == v
  }

  lemma {:induction false} RunAppend(w: World, r: seq<Action>, act: Action)
    requires Admissible(w, r)
    requires var v := View(Run(w, r), act.flip); |v.ab.epochs| > 0 && Possible(v, act.event)
    ensures Admissible(w, r + [act])
    ensures Run(w, r + [act]) == View(Do(View(Run(w, r), act.flip), act.event), act.flip)
    decreases |r|
  {
    if r == [] {
      assert r + [act] == [act];
    } else {
      assert (r + [act])[1..] == r[1..] + [act];
      RunAppend(View(Do(View(w, r[0].flip), r[0].event), r[0].flip), r[1..], act);
    }
  }

  lemma ReachStep(w: World, v: World, act: Action)
    requires Reachable(w, v)
    requires var x := View(v, act.flip); |x.ab.epochs| > 0 && Possible(x, act.event)
    ensures Reachable(w, View(Do(View(v, act.flip), act.event), act.flip))
  {
    hide Possible, Do;
    var run :| Admissible(w, run) && Run(w, run) == v;
    RunAppend(w, run, act);
  }

  /** What sending leaves alone while the sender does not know the other's key. */
  ghost predicate OnlySent(x: World, y: World, k: nat) {
    && (y.b, y.ba) == (x.b, x.ba) && (y.ab.epochs, y.ab.seen, y.ab.got) == (x.ab.epochs, x.ab.seen, x.ab.got)
    && y.a.remote.None? && (y.a.recvCount, y.a.skipped) == (x.a.recvCount, x.a.skipped)
    && |y.ab.sent| == |x.ab.sent| + k && y.a.sendCount == x.a.sendCount + k
  }

  lemma PlainSend(x: World)
    requires |x.ab.epochs| > 0 && x.a.remote.None? && x.a.sendCount < U32_MAX
    ensures MaySend(x, Secret([]), []) && OnlySent(x, SendStep(x, Secret([]), [], []), 1)
  {
  }

  lemma OnlySentMore(x: World, y: World, z: World, k: nat, m: nat)
    requires OnlySent(x, y, k) && OnlySent(y, z, m)
    ensures OnlySent(x, z, k + m)
  {
  }

  /** A peer that does not know the other's key yet sends `k` frames without rotating. */
  lemma {:induction false} PlainSends(w: World, v: World, flip: bool, k: nat) returns (u: World)
    requires Reachable(w, v) && Inv(v)
    requires var x := View(v, flip); x.a.remote.None? && x.a.sendCount + k <= U32_MAX
    ensures Reachable(w, u) && Inv(u) && OnlySent(View(v, flip), View(u, flip), k)
    decreases k
  {
    hide Inv, Reachable, OnlySent, SendFrame, AfterSend;
    u := v;
    var x := View(v, flip);
    if k == 0 {
      NothingSent(x);
    } else {
      var act := Action(flip, Send(Secret([]), [], []));
      InvFlips(v);
      Basics(x);
      PlainSend(x);
      ReachStep(w, v, act);
      SendKeepsInv(x, Secret([]), [], []);
      var next := SendStep(x, Secret([]), [], []);
      InvFlips(next);
      OnlySentBasics(x, next, 1);
      u := PlainSends(w, View(next, flip), flip, k - 1);
      OnlySentMore(x, next, View(u, flip), 1, k - 1);
    }
  }

  lemma NothingSent(x: World)
    requires x.a.remote.None?
    ensures OnlySent(x, x, 0)
  {
  }

  lemma OnlySentBasics(x: World, y: World, k: nat)
    requires OnlySent(x, y, k)
    ensures y.a.remote.None? && y.a.sendCount == x.a.sendCount + k
  {
  }

  /** Neither peer has sent or received anything. */
  ghost predicate Quiet(w: World) {
    && |w.ab.epochs| == |w.ba.epochs| == 1 && w.ab.sent == w.ba.sent == []
    && w.a.remote.None? && w.b.remote.None? && w.a.sendCount == w.b.sendCount == 0
    && w.a.recvCount == w.b.recvCount == 0 && w.a.skipped == w.b.skipped == map[]
  }

  /** Five frames each way, of which only the last arrives, lead from a quiet start to such a world
      without breaking the schedule. */
  lemma FiveEachWay(start: World) returns (w: World)
    requires Inv(start) && Quiet(start)
    ensures Reachable(start, w) && BothDue(w) && w.a.sendCount == w.b.sendCount == 5
            && (w.ab.epochs, w.ba.epochs) == (start.ab.epochs, start.ba.epochs)
  {
    hide Log, Inbox, OneHistory, KeysApart, Lineage;
    assert Admissible(start, []) && Run(start, []) == start;
    hide Admissible, Run, Inv, Reachable;
    var v := PlainSends(start, start, false, 5);
    var u := PlainSends(start, v, true, 5);
    w := LastArrives(start, u, false);
    w := LastArrives(start, w, true);
    InvFlips(w);
    FiveSentAndLearnt(w);
    FiveSentAndLearnt(Flip(w));
  }

  lemma BothDueIsReachable(ea: Secret, sa: Secret, eb: Secret, sb: Secret, salt: Bytes) returns (w: World)
    requires sa.point != sb.point && GoodPub(ea.point) && GoodPub(eb.point) && ea.point != eb.point
    ensures var start := Start(Booted(ea, sa, sb.point, salt), Booted(eb, sb, sa.point, salt));
            Reachable(start, w) && BothDue(w) && w.a.sendCount == w.b.sendCount == 5
            && (w.ab.epochs, w.ba.epochs) == (start.ab.epochs, start.ba.epochs)
  {
    hide Leq, Inv, BothDue, Reachable;
    BootstrapStartsAgreement(ea, sa, eb, sb, salt);
    w := FiveEachWay(Start(Booted(ea, sa, sb.point, salt), Booted(eb, sb, sa.point, salt)));
  }

  lemma FifthOpens(x: World)
    requires Inv(x) && |x.ab.epochs| == 1 && |x.ab.sent| == 5 && x.b.recvCount == 0 && x.b.skipped == map[]
    ensures var y := DeliverStep(x, 4);
            && y.a == x.a && y.ba == x.ba && (y.ab.epochs, y.ab.sent) == (x.ab.epochs, x.ab.sent)
            && y.b.sendCount == x.b.sendCount && y.b.remote.Some? && y.b.recvCount == 5
  {
    hide OneHistory, KeysApart, Lineage, Open, Advance, SkipTo;
    assert SentOk(x.ab.epochs, 4, x.ab.sent[4]);
    assert 4 !in x.ab.got;
    HonestAnswer(x, 4);
  }

  /** The fifth frame of a peer arrives first. */
  lemma LastArrives(w: World, v: World, flip: bool) returns (u: World)
    requires Reachable(w, v) && Inv(v)
    requires var x := View(v, flip); |x.ab.epochs| == 1 && |x.ab.sent| == 5 && x.b.recvCount == 0 && x.b.skipped == map[]
    ensures Reachable(w, u) && Inv(u)
    ensures var x, y := View(v, flip), View(u, flip);
            && y.a == x.a && y.ba == x.ba && (y.ab.epochs, y.ab.sent) == (x.ab.epochs, x.ab.sent)
            && y.b.sendCount == x.b.sendCount && y.b.remote.Some? && y.b.recvCount == 5
  {
    hide Inv, Admissible, Run, DeliverStep;
    var x := View(v, flip);
    InvFlips(v);
    ReachStep(w, v, Action(flip, Deliver(4)));
    FifthOpens(x);
    DeliverKeepsInv(x, 4);
    var next := DeliverStep(x, 4);
    InvFlips(next);
    u := View(next, flip);
  }

  lemma FiveSentAndLearnt(w: World)
    requires Inv(w) && |w.ab.epochs| == 1 && |w.ab.sent| == 5 && w.a.remote.Some?
    ensures Rotates(w.a) && w.a.sendCount == 5 && CaughtUp(w.ab)
  {
  }
}
