/** Sending keeps the invariant of the two-peer world. */
module AgreementSend {
  import opened Crypto
  import opened Wire
  import opened Ratchet
  import opened Agreement

  lemma SendKeepsEpochs(s: State, e: Secret, c: Chan)
    requires Log(s, c)
    ensures var epochs := EpochsAfterSend(s, e, c.epochs);
            && EpochsOk(epochs) && c.epochs <= epochs
            && |epochs| == |c.epochs| + (if Rotates(s) then 1 else 0)
  {
    if Rotates(s) && |c.epochs| > 1 {
      assert s.sendsSinceDh == DH_SEND_EVERY;
    }
  }

  lemma SendKeepsSender(s: State, e: Secret, c: Chan, sent: seq<Sent>)
    requires Log(s, c) && s.sendCount < U32_MAX && |sent| == |c.sent| + 1
    ensures EpochsAfterSend(s, e, c.epochs) != []
    ensures SenderAt(AfterSend(s, e), c.(epochs := EpochsAfterSend(s, e, c.epochs), sent := sent))
  {
  }

  lemma SendFrameOk(s: State, e: Secret, c: Chan, hint: Bytes, plaintext: Bytes)
    requires Log(s, c) && s.sendCount < U32_MAX && |hint| <= MAX_HINT
    ensures var epochs := EpochsAfterSend(s, e, c.epochs);
            |epochs| > 0 && SentOk(epochs, s.sendCount, Sent(SendFrame(s, e, hint, plaintext), plaintext, |epochs| - 1))
  {
    SendKeepsSender(s, e, c, c.sent + [Sent(SendFrame(s, e, hint, plaintext), plaintext, 0)]);
  }

  lemma OldFramesStayOk(s: State, e: Secret, c: Chan, n: nat)
    requires Log(s, c) && n < |c.sent|
    ensures SentOk(EpochsAfterSend(s, e, c.epochs), n, c.sent[n])
  {
    SendKeepsEpochs(s, e, c);
    var x := c.sent[n];
    assert SentOk(c.epochs, n, x);
    assert EpochsAfterSend(s, e, c.epochs)[x.epoch] == c.epochs[x.epoch];
  }

  lemma SendKeepsLog(w: World, e: Secret, hint: Bytes, plaintext: Bytes)
    requires Log(w.a, w.ab) && MaySend(w, e, hint)
    ensures Log(SendStep(w, e, hint, plaintext).a, SendStep(w, e, hint, plaintext).ab)
  {
    var w' := SendStep(w, e, hint, plaintext);
    SendKeepsEpochs(w.a, e, w.ab);
    SendKeepsSender(w.a, e, w.ab, w'.ab.sent);
    SendFrameOk(w.a, e, w.ab, hint, plaintext);
    forall n | 0 <= n < |w'.ab.sent|
      ensures SentOk(w'.ab.epochs, n, w'.ab.sent[n])
    {
      if n < |w.ab.sent| {
        OldFramesStayOk(w.a, e, w.ab, n);
      }
    }
  }

  lemma StoreGrows(r: State, c: Chan, d: Chan)
    requires StoredKeys(r, c) && c.sent <= d.sent && d.got == c.got
    ensures StoredKeys(r, d)
  {
    forall n | n in r.skipped
      ensures n < |d.sent| && d.sent[n].frame.ct.Sealed? && r.skipped[n] == d.sent[n].frame.ct.key
    {
      assert d.sent[n] == c.sent[n];
    }
  }

  lemma InboxGrows(r: State, c: Chan, d: Chan)
    requires Inbox(r, c) && c.epochs <= d.epochs && c.sent <= d.sent && (d.seen, d.got) == (c.seen, c.got)
    requires |d.epochs| > |c.epochs| ==> d.epochs[|c.epochs|].first >= |c.sent|
    ensures Inbox(r, d)
  {
    hide StoredKeys, Advance;
    StoreGrows(r, c, d);
    assert d.epochs[d.seen] == c.epochs[c.seen];
    assert d.seen + 1 < |c.epochs| ==> d.epochs[d.seen + 1] == c.epochs[c.seen + 1];
    if r.recvCount > 0 {
      assert d.sent[r.recvCount - 1] == c.sent[r.recvCount - 1];
    }
  }

  lemma SendTouchesSending(s: State, e: Secret)
    ensures var t := AfterSend(s, e);
            (t.remote, t.chainRecv, t.recvCount, t.skipped) == (s.remote, s.chainRecv, s.recvCount, s.skipped)
  {
  }

  lemma SameStored(s: State, t: State, c: Chan)
    requires StoredKeys(s, c) && (t.recvCount, t.skipped) == (s.recvCount, s.skipped)
    ensures StoredKeys(t, c)
  {
  }

  lemma SendLeavesReceiving(s: State, e: Secret, c: Chan)
    requires Inbox(s, c)
    ensures Inbox(AfterSend(s, e), c)
  {
    hide AfterSend, StoredKeys, Advance;
    SendTouchesSending(s, e);
    SameStored(s, AfterSend(s, e), c);
  }

  lemma SendKeepsInboxes(w: World, e: Secret, hint: Bytes, plaintext: Bytes)
    requires Log(w.a, w.ab) && Inbox(w.b, w.ab) && Inbox(w.a, w.ba)
    ensures var w' := SendStep(w, e, hint, plaintext); Inbox(w'.b, w'.ab) && Inbox(w'.a, w'.ba)
  {
    var w' := SendStep(w, e, hint, plaintext);
    SendKeepsEpochs(w.a, e, w.ab);
    assert Inbox(w'.b, w'.ab) by {
      InboxGrows(w.b, w.ab, w'.ab);
    }
    SendLeavesReceiving(w.a, e, w.ba);
  }

  /** A rotation of the sender appends one step to the history that the receiver has to follow. */
  lemma PendingGrows(s: State, r: State, c: Chan, e: Secret, d: Chan)
    requires |c.epochs| > 0 && c.seen < |c.epochs| && Pending(s, r, c) && (CaughtUp(c) ==> s.root == r.root)
    requires Rotates(s) && s.remote == Some(r.public) && r.public == r.secret.point
    requires d.epochs == EpochsAfterSend(s, e, c.epochs) && d.seen == c.seen
    ensures Pending(AfterSend(s, e), r, d) && !CaughtUp(d)
  {
    forall q | d.seen < q < |d.epochs|
      ensures OpenedInTurn(r.root, r.secret.point, d, q)
    {
      if q == |c.epochs| {
        assert d.epochs[q - 1] == Last(c.epochs);
        assert d.epochs[q].root == StepRoot(s.root, Dh({e.point, r.secret.point}));
      } else {
        assert OpenedInTurn(r.root, r.secret.point, c, q);
        assert d.epochs[q] == c.epochs[q] && d.epochs[q - 1] == c.epochs[q - 1];
      }
    }
    assert Last(d.epochs).root == DhSend(s, e).root;
  }

  lemma PendingStays(s: State, r: State, c: Chan, s': State, r': State, d: Chan)
    requires |c.epochs| > 0 && Pending(s, r, c) && (d.epochs, d.seen) == (c.epochs, c.seen)
    requires (s'.root, s'.remote, r'.root, r'.secret, r'.public) == (s.root, s.remote, r.root, r.secret, r.public)
    ensures Pending(s', r', d)
  {
    forall q | d.seen < q < |d.epochs|
      ensures OpenedInTurn(r'.root, r'.secret.point, d, q)
    {
      assert OpenedInTurn(r.root, r.secret.point, c, q);
    }
  }

  lemma SendKeepsHistory(w: World, e: Secret, hint: Bytes, plaintext: Bytes)
    requires |w.ab.epochs| > 0 && |w.ba.epochs| > 0 && OneHistory(w) && w.ab.seen < |w.ab.epochs|
    requires Rotates(w.a) ==> CaughtUp(w.ba) && w.a.remote == Some(w.b.public) && w.b.public == w.b.secret.point
    ensures OneHistory(SendStep(w, e, hint, plaintext))
  {
    var w' := SendStep(w, e, hint, plaintext);
    if Rotates(w.a) {
      PendingGrows(w.a, w.b, w.ab, e, w'.ab);
      assert Pending(w'.b, w'.a, w'.ba);
    } else {
      PendingStays(w.a, w.b, w.ab, w'.a, w'.b, w'.ab);
      PendingStays(w.b, w.a, w.ba, w'.b, w'.a, w'.ba);
    }
  }

  lemma SendKeepsPubs(c: seq<Epoch>, d: seq<Epoch>, x: Epoch)
    requires PubsDiffer(c, d) && PubsDiffer(d, c) && GoodPub(x.dh)
    requires forall q :: 0 <= q < |c| ==> c[q].dh != x.dh
    requires forall q :: 0 <= q < |d| ==> d[q].dh != x.dh
    ensures PubsDiffer(c + [x], d) && PubsDiffer(d, c + [x])
  {
  }

  lemma SendKeepsDepths(c: seq<Epoch>, d: seq<Epoch>, x: Epoch)
    requires c != [] && d != [] && Deepening(c) && DepthsDiffer(c, d) && DepthsDiffer(d, c)
    requires x.root.StepRoot? && x.chain.DhChain? && x.chain.root == x.root
    requires forall q :: 0 <= q < |c| ==> RootDepth(c[q].root) < RootDepth(x.root)
    requires forall q :: 0 <= q < |d| ==> RootDepth(d[q].root) < RootDepth(x.root)
    ensures Deepening(c + [x]) && DepthsDiffer(c + [x], d) && DepthsDiffer(d, c + [x])
  {
  }

  lemma SendStaysAbove(w: World, e: Secret, hint: Bytes, plaintext: Bytes)
    requires |w.ab.epochs| > 0 && w.ab.seen < |w.ab.epochs| && Above(w.a, w.ab, w.ba) && Above(w.b, w.ba, w.ab)
    ensures var w' := SendStep(w, e, hint, plaintext); Above(w'.a, w'.ab, w'.ba) && Above(w'.b, w'.ba, w'.ab)
  {
    var w' := SendStep(w, e, hint, plaintext);
    forall q | 0 <= q < |w'.ab.epochs|
      ensures RootDepth(w'.ab.epochs[q].root) <= RootDepth(w'.a.root)
    {
      if q < |w.ab.epochs| {
        assert w'.ab.epochs[q] == w.ab.epochs[q];
      }
    }
    forall q | 0 <= q <= w'.ab.seen && q < |w'.ab.epochs|
      ensures RootDepth(w'.ab.epochs[q].root) <= RootDepth(w'.b.root)
    {
      assert w'.ab.epochs[q] == w.ab.epochs[q];
    }
  }

  lemma SendKeepsKeysApart(w: World, e: Secret, hint: Bytes, plaintext: Bytes)
    requires |w.ab.epochs| > 0 && |w.ba.epochs| > 0 && w.ab.seen < |w.ab.epochs| && KeysApart(w)
    requires Rotates(w.a) ==> CaughtUp(w.ba) && New(w, e.point)
    ensures KeysApart(SendStep(w, e, hint, plaintext))
  {
    var w' := SendStep(w, e, hint, plaintext);
    SendStaysAbove(w, e, hint, plaintext);
    if Rotates(w.a) {
      var x := Last(w'.ab.epochs);
      assert w'.ab.epochs == w.ab.epochs + [x];
      assert RootDepth(x.root) == RootDepth(w.a.root) + 1;
      SendKeepsPubs(w.ab.epochs, w.ba.epochs, x);
      SendKeepsDepths(w.ab.epochs, w.ba.epochs, x);
    }
  }

  lemma ShapesGrow(c: seq<Epoch>, d: seq<Epoch>, x: Epoch)
    requires c != [] && Shapes(c, d) && Shapes(d, c)
    requires x.root.StepRoot? && x.chain == DhChain(x.root, x.root.shared) && MixesBoth(x, d)
    ensures Shapes(c + [x], d) && Shapes(d, c + [x])
  {
    forall q | 1 <= q < |d|
      ensures MixesBoth(d[q], c + [x])
    {
      assert MixesBoth(d[q], c);
      var p :| 0 <= p < |c| && d[q].root.shared == Dh({d[q].dh, c[p].dh});
      assert (c + [x])[p] == c[p];
    }
  }

  lemma SendDescends(w: World, e: Secret, hint: Bytes, plaintext: Bytes)
    requires |w.ab.epochs| > 0 && w.ab.seen < |w.ab.epochs| && Descends(w.a, w.ab, w.ba) && Descends(w.b, w.ba, w.ab)
    ensures var w' := SendStep(w, e, hint, plaintext); Descends(w'.a, w'.ab, w'.ba) && Descends(w'.b, w'.ba, w'.ab)
  {
    var w' := SendStep(w, e, hint, plaintext);
    forall q | 0 <= q < |w'.ab.epochs|
      ensures LeadsTo(w'.ab.epochs[q].root, w'.a.root)
    {
      if q < |w.ab.epochs| {
        assert w'.ab.epochs[q] == w.ab.epochs[q];
      }
    }
    forall q | 0 <= q <= w'.ab.seen && q < |w'.ab.epochs|
      ensures LeadsTo(w'.ab.epochs[q].root, w'.b.root)
    {
      assert w'.ab.epochs[q] == w.ab.epochs[q];
    }
  }

  lemma SendKeepsLineage(w: World, e: Secret, hint: Bytes, plaintext: Bytes)
    requires |w.ab.epochs| > 0 && |w.ba.epochs| > 0 && w.ab.seen < |w.ab.epochs| && Lineage(w)
    requires Rotates(w.a) ==> w.a.remote == Some(Last(w.ba.epochs).dh)
    ensures Lineage(SendStep(w, e, hint, plaintext))
  {
    hide Descends, Shapes, MixesBoth;
    SendDescends(w, e, hint, plaintext);
    if Rotates(w.a) {
      NewEpochShape(w, e, hint, plaintext);
    }
  }

  lemma NewEpochShape(w: World, e: Secret, hint: Bytes, plaintext: Bytes)
    requires |w.ab.epochs| > 0 && |w.ba.epochs| > 0 && Shapes(w.ab.epochs, w.ba.epochs) && Shapes(w.ba.epochs, w.ab.epochs)
    requires Rotates(w.a) && w.a.remote == Some(Last(w.ba.epochs).dh)
    ensures var c := SendStep(w, e, hint, plaintext).ab.epochs; Shapes(c, w.ba.epochs) && Shapes(w.ba.epochs, c)
  {
    hide Shapes;
    var x := Last(SendStep(w, e, hint, plaintext).ab.epochs);
    var p := |w.ba.epochs| - 1;
    assert x.root.shared == Dh({x.dh, w.ba.epochs[p].dh});
    ShapesGrow(w.ab.epochs, w.ba.epochs, x);
  }

  lemma RotatesToNewest(w: World)
    requires Inv(w)
    ensures |w.ab.epochs| > 0 && |w.ba.epochs| > 0 && w.ab.seen < |w.ab.epochs| && w.b.public == w.b.secret.point
    ensures Rotates(w.a) && CaughtUp(w.ba) ==> w.a.remote == Some(w.b.public) && w.b.public == Last(w.ba.epochs).dh
  {
    hide OneHistory, KeysApart, Lineage, StoredKeys, EpochsOk, SentOk, Advance;
  }

  lemma SendKeepsInv(w: World, e: Secret, hint: Bytes, plaintext: Bytes)
    requires Inv(w) && MaySend(w, e, hint)
    ensures Inv(SendStep(w, e, hint, plaintext))
  {
    RotatesToNewest(w);
    hide Log, Inbox, OneHistory, KeysApart, Lineage;
    SendKeepsLog(w, e, hint, plaintext);
    SendKeepsInboxes(w, e, hint, plaintext);
    SendKeepsHistory(w, e, hint, plaintext);
    SendKeepsKeysApart(w, e, hint, plaintext);
    SendKeepsLineage(w, e, hint, plaintext);
  }
}
