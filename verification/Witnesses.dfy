/** Admissible runs that lead to the failures: an epoch of which nothing arrives, and a peer restored
    from a version 1 blob in the middle of an epoch. */
module Witnesses {
  import opened Crypto
  import opened Ratchet
  import opened Agreement
  import opened AgreementSend
  import opened AgreementAnswer
  import opened AgreementTheorem
  import opened Collision
  import opened VersionOne

  /** `a` has begun a new epoch and `b` does not know. */
  ghost predicate Ahead(w: World, epochs: nat) {
    && Inv(w) && w.a.remote.Some? && w.a.sendsSinceDh <= DH_SEND_EVERY && w.a.sendCount <= 20
    && |w.ab.epochs| == w.ab.seen + 1 + epochs && |w.ab.epochs| > 0 && CaughtUp(w.ba)
  }

  lemma Rotate(start: World, w: World, e: Secret, epochs: nat) returns (u: World)
    requires Reachable(start, w) && Ahead(w, epochs) && w.a.sendsSinceDh == DH_SEND_EVERY && New(w, e.point) && w.a.sendCount < 20
    ensures Reachable(start, u) && Ahead(u, epochs + 1) && u.b == w.b && u.ba == w.ba
    ensures u.a.sendsSinceDh == 1 && u.a.sendCount == w.a.sendCount + 1
    ensures |u.ab.epochs| == |w.ab.epochs| + 1 && u.ab.epochs[..|w.ab.epochs|] == w.ab.epochs && Last(u.ab.epochs).dh == e.point
    ensures |u.ab.sent| > 0 && u.ab.sent[|u.ab.sent| - 1].epoch == |u.ab.epochs| - 1
  {
    hide Inv, Reachable, SendFrame;
    ReachStep(start, w, Action(false, Send(e, [], [])));
    SendKeepsInv(w, e, [], []);
    u := SendStep(w, e, [], []);
  }

  lemma {:induction false} SendMore(start: World, w: World, k: nat, epochs: nat) returns (u: World)
    requires Reachable(start, w) && Ahead(w, epochs) && w.a.sendsSinceDh + k <= DH_SEND_EVERY && w.a.sendCount + k <= 20
    ensures Reachable(start, u) && Ahead(u, epochs) && u.b == w.b && u.ba == w.ba && u.ab.epochs == w.ab.epochs
    ensures u.a.sendsSinceDh == w.a.sendsSinceDh + k && u.a.sendCount == w.a.sendCount + k
    decreases k
  {
    hide Inv, Reachable, SendFrame;
    if k == 0 {
      u := w;
    } else {
      ReachStep(start, w, Action(false, Send(Secret([]), [], [])));
      SendKeepsInv(w, Secret([]), [], []);
      u := SendMore(start, SendStep(w, Secret([]), [], []), k - 1, epochs);
    }
  }

  lemma BothDueIsAhead(w: World)
    requires BothDue(w) && |w.ab.epochs| == 1 && w.a.sendCount == 5
    ensures Ahead(w, 0) && w.a.sendsSinceDh == DH_SEND_EVERY
  {
    hide Inbox, OneHistory, KeysApart, Lineage;
  }

  lemma NewAtStart(start: World, w: World, e: Secret, ea: Secret, eb: Secret)
    requires (w.ab.epochs, w.ba.epochs) == (start.ab.epochs, start.ba.epochs) && |w.ab.epochs| == |w.ba.epochs| == 1
    requires start.ab.epochs[0].dh == ea.point && start.ba.epochs[0].dh == eb.point
    requires GoodPub(e.point) && e.point != ea.point && e.point != eb.point
    ensures New(w, e.point)
  {
  }

  /** From every bootstrap an admissible run leads to a peer that has begun an epoch the other has not
      heard of: five frames each way, of which the fifth arrives, and one more from the first peer. */
  lemma OneAheadIsReachable(ea: Secret, sa: Secret, eb: Secret, sb: Secret, salt: Bytes, e1: Secret) returns (u: World)
    requires sa.point != sb.point && GoodPub(ea.point) && GoodPub(eb.point) && ea.point != eb.point
    requires GoodPub(e1.point) && e1.point != ea.point && e1.point != eb.point
    ensures Reachable(Start(Booted(ea, sa, sb.point, salt), Booted(eb, sb, sa.point, salt)), u)
    ensures Ahead(u, 1) && u.a.sendsSinceDh == 1 && u.a.sendCount == 6 && u.b.remote.Some?
    ensures |u.ab.epochs| == 2 && u.ab.epochs[0].dh == ea.point && u.ab.epochs[1].dh == e1.point
    ensures |u.ba.epochs| == 1 && u.ba.epochs[0].dh == eb.point
  {
    hide Inv, Reachable, Leq;
    var start := Start(Booted(ea, sa, sb.point, salt), Booted(eb, sb, sa.point, salt));
    var w := BothDueIsReachable(ea, sa, eb, sb, salt);
    NewAtStart(start, w, e1, ea, eb);
    BothDueIsAhead(w);
    u := Rotate(start, w, e1, 0);
    assert u.ab.epochs[0] == u.ab.epochs[..1][0];
  }

  /** And from there on to a frame of the second epoch after the receiver's: four more frames, and a
      second rotation, of which nothing arrives. The frame is refused, and the hypotheses of
      `Fork.MissedEpochIsForEver` hold. */
  lemma MissedEpochIsReachable(ea: Secret, sa: Secret, eb: Secret, sb: Secret, salt: Bytes, e1: Secret, e2: Secret) returns (u: World)
    requires sa.point != sb.point && GoodPub(ea.point) && GoodPub(eb.point) && ea.point != eb.point
    requires GoodPub(e1.point) && e1.point != ea.point && e1.point != eb.point
    requires GoodPub(e2.point) && e2.point != ea.point && e2.point != eb.point && e2.point != e1.point
    ensures Reachable(Start(Booted(ea, sa, sb.point, salt), Booted(eb, sb, sa.point, salt)), u)
    ensures Inv(u) && !CaughtUp(u.ab) && u.ab.seen + 1 < |u.ab.epochs| && |u.ab.sent| > 0
    ensures !EpochInTurn(u, |u.ab.sent| - 1) && Answer(u, |u.ab.sent| - 1).result.Err?
  {
    hide Inv, Reachable, Booted, Start, Answer, New, EpochInTurn;
    var v := OneAheadIsReachable(ea, sa, eb, sb, salt, e1);
    u := SecondRotation(Start(Booted(ea, sa, sb.point, salt), Booted(eb, sb, sa.point, salt)), v, ea, eb, e1, e2);
    TwoAheadRefused(u);
  }

  lemma SecondRotation(start: World, w: World, ea: Secret, eb: Secret, e1: Secret, e2: Secret) returns (u: World)
    requires Reachable(start, w) && Ahead(w, 1) && w.a.sendsSinceDh == 1 && w.a.sendCount == 6
    requires |w.ab.epochs| == 2 && w.ab.epochs[0].dh == ea.point && w.ab.epochs[1].dh == e1.point
    requires |w.ba.epochs| == 1 && w.ba.epochs[0].dh == eb.point
    requires GoodPub(e2.point) && e2.point != ea.point && e2.point != eb.point && e2.point != e1.point
    ensures Reachable(start, u) && Ahead(u, 2) && |u.ab.sent| > 0 && u.ab.sent[|u.ab.sent| - 1].epoch == |u.ab.epochs| - 1
  {
    hide Inv, Reachable;
    var v := SendMore(start, w, 4, 1);
    assert New(v, e2.point);
    u := Rotate(start, v, e2, 1);
  }

  lemma TwoAheadRefused(w: World)
    requires Ahead(w, 2) && |w.ab.sent| > 0 && w.ab.sent[|w.ab.sent| - 1].epoch == |w.ab.epochs| - 1
    ensures Inv(w) && !CaughtUp(w.ab) && w.ab.seen + 1 < |w.ab.epochs|
    ensures !EpochInTurn(w, |w.ab.sent| - 1) && Answer(w, |w.ab.sent| - 1).result.Err?
  {
    hide Inv, Answer, GapFits;
    LastIsNew(w);
    NewFrameOpensIff(w, |w.ab.sent| - 1);
  }

  lemma LastIsNew(w: World)
    requires Inv(w) && |w.ab.sent| > 0 && w.ab.sent[|w.ab.sent| - 1].epoch > w.ab.seen
    ensures w.b.recvCount <= |w.ab.sent| - 1
  {
    hide OneHistory, KeysApart, Lineage;
  }

  /** At the first of these worlds the peer that is ahead, restored from a version 1 blob, is not
      understood: no frame that it sends in the rest of the epoch opens by its header. */
  lemma RestoredFailureIsReachable(ea: Secret, sa: Secret, eb: Secret, sb: Secret, salt: Bytes, e1: Secret) returns (u: World)
    requires sa.point != sb.point && GoodPub(ea.point) && GoodPub(eb.point) && ea.point != eb.point
    requires GoodPub(e1.point) && e1.point != ea.point && e1.point != eb.point
    ensures Reachable(Start(Booted(ea, sa, sb.point, salt), Booted(eb, sb, sa.point, salt)), u) && Inv(u)
    ensures forall k: nat, plaintext: Bytes :: k < DH_SEND_EVERY ==>
              Open(u.b, SendFrame(Restored(u.a, k), Secret([]), [], plaintext)).result.Err?
  {
    hide Inv, Reachable, Leq, Booted, Open, SendFrame, Restored;
    u := OneAheadIsReachable(ea, sa, eb, sb, salt, e1);
    forall k: nat, plaintext: Bytes | k < DH_SEND_EVERY
      ensures Open(u.b, SendFrame(Restored(u.a, k), Secret([]), [], plaintext)).result.Err?
    {
      RestoredFrameOpensIff(u, k, plaintext);
    }
  }
}
