/** Runs of the two-peer world: every delivery keeps the invariant. */
module AgreementRuns {
  import opened Crypto
  import opened Ratchet
  import opened Agreement
  import opened AgreementSend
  import opened AgreementDeliver
  import opened AgreementAnswer

  /** The sending side of a receiver, and its place in the history, before and after a frame of the
      epoch it is in. */
  ghost predicate OnlyReceived(r: State, t: State) {
    && (t.secret, t.public, t.root, t.chainSend, t.sendCount, t.sendsSinceDh)
       == (r.secret, r.public, r.root, r.chainSend, r.sendCount, r.sendsSinceDh)
    && (r.remote.Some? ==> t.remote == r.remote)
  }

  lemma ReceivingKeepsLog(r: State, t: State, c: Chan)
    requires Log(r, c) && (t.secret, t.public, t.chainSend, t.sendCount, t.sendsSinceDh)
                       == (r.secret, r.public, r.chainSend, r.sendCount, r.sendsSinceDh)
    requires r.remote.Some? ==> t.remote.Some?
    ensures Log(t, c)
  {
  }

  lemma SameKeepsHistory(w: World, t: State, c: Chan)
    requires |w.ab.epochs| > 0 && |w.ba.epochs| > 0 && OneHistory(w) && OnlyReceived(w.b, t)
    requires (c.epochs, c.seen) == (w.ab.epochs, w.ab.seen)
    requires w.b.remote.None? ==> CaughtUp(w.ba)
    ensures OneHistory(w.(b := t, ab := c))
  {
    PendingStays(w.a, w.b, w.ab, w.a, t, c);
    forall q | w.ba.seen < q < |w.ba.epochs|
      ensures OpenedInTurn(w.a.root, w.a.secret.point, w.ba, q)
    {
    }
  }

  lemma NextKeepsHistory(w: World, t: State, c: Chan)
    requires |w.ab.epochs| > 0 && |w.ba.epochs| > 0 && OneHistory(w)
    requires w.ab.seen + 1 < |w.ab.epochs| && (c.epochs, c.seen) == (w.ab.epochs, w.ab.seen + 1)
    requires (t.secret, t.public, t.root) == (w.b.secret, w.b.public, w.ab.epochs[w.ab.seen + 1].root)
    ensures OneHistory(w.(b := t, ab := c))
  {
    forall q | c.seen < q < |c.epochs|
      ensures OpenedInTurn(t.root, t.secret.point, c, q)
    {
      assert OpenedInTurn(w.b.root, w.b.secret.point, w.ab, q);
    }
    assert Pending(w.a, t, c);
    assert Pending(t, w.a, w.ba);
  }

  lemma NextStaysAbove(w: World, t: State, c: Chan)
    requires KeysApart(w) && w.ab.seen + 1 < |w.ab.epochs| && (c.epochs, c.seen) == (w.ab.epochs, w.ab.seen + 1)
    requires OpenedInTurn(w.b.root, w.b.secret.point, w.ab, w.ab.seen + 1) && t.root == w.ab.epochs[w.ab.seen + 1].root
    ensures KeysApart(w.(b := t, ab := c))
  {
    hide PubsDiffer, DepthsDiffer, Lineage;
    assert RootDepth(t.root) == RootDepth(w.b.root) + 1;
  }

  lemma SameStaysApart(w: World, t: State, c: Chan)
    requires KeysApart(w) && (c.epochs, c.seen) == (w.ab.epochs, w.ab.seen) && t.root == w.b.root
    ensures KeysApart(w.(b := t, ab := c))
  {
  }

  lemma SameKeepsLineage(w: World, t: State, c: Chan)
    requires Lineage(w) && (c.epochs, c.seen) == (w.ab.epochs, w.ab.seen)
    requires (t.root, t.secret) == (w.b.root, w.b.secret) && (w.b.remote.Some? ==> t.remote == w.b.remote)
    ensures Lineage(w.(b := t, ab := c))
  {
    hide Shapes;
  }

  lemma NextDescends(r: State, own: Chan, c: Chan, t: State, d: Chan)
    requires Descends(r, own, c) && c.seen + 1 < |c.epochs| && (d.epochs, d.seen) == (c.epochs, c.seen + 1)
    requires OpenedInTurn(r.root, r.secret.point, c, c.seen + 1)
    requires (t.root, t.secret, t.remote) == (c.epochs[c.seen + 1].root, r.secret, Some(c.epochs[c.seen + 1].dh))
    ensures Descends(t, own, d)
  {
    assert {r.secret.point, c.epochs[c.seen + 1].dh} == {c.epochs[c.seen + 1].dh, r.secret.point};
  }

  lemma NextKeepsLineage(w: World, t: State, c: Chan)
    requires Lineage(w) && w.ab.seen + 1 < |w.ab.epochs| && (c.epochs, c.seen) == (w.ab.epochs, w.ab.seen + 1)
    requires OpenedInTurn(w.b.root, w.b.secret.point, w.ab, w.ab.seen + 1)
    requires (t.root, t.secret, t.remote) == (w.ab.epochs[w.ab.seen + 1].root, w.b.secret, Some(w.ab.epochs[w.ab.seen + 1].dh))
    ensures Lineage(w.(b := t, ab := c))
  {
    hide Shapes;
    NextDescends(w.b, w.ba, w.ab, t, c);
    hide Descends;
    OtherDescends(w.a, w.ab, c, w.ba);
  }

  lemma OtherDescends(s: State, own: Chan, own': Chan, other: Chan)
    requires Descends(s, own, other) && own'.epochs == own.epochs
    ensures Descends(s, own', other)
  {
  }

  lemma GotKeepsLog(s: State, c: Chan, n: nat)
    requires Log(s, c) && n < |c.sent|
    ensures Log(s, GotOne(c, n))
  {
  }

  lemma LateKeepsInv(w: World, n: nat)
    requires Inv(w) && n in w.b.skipped && n < |w.ab.sent|
    ensures Inv(w.(b := w.b.(skipped := w.b.skipped - {n}), ab := GotOne(w.ab, n)))
  {
    hide Log, Inbox, OneHistory, KeysApart, AllSentOk, Lineage;
    var t, c := w.b.(skipped := w.b.skipped - {n}), GotOne(w.ab, n);
    Basics(w);
    InPlace(w.b, w.ab);
    LateEpoch(w.b, w.ab, n);
    InboxAfterLate(w.b, w.ab, n);
    ReceivingKeepsLog(w.b, t, w.ba);
    GotKeepsLog(w.a, w.ab, n);
    SameKeepsHistory(w, t, c);
    SameStaysApart(w, t, c);
    SameKeepsLineage(w, t, c);
  }

  lemma SameKeepsInv(w: World, n: nat)
    requires Inv(w) && HeaderPasses(w.b, w.ab, n) && w.b.recvCount <= n && w.ab.sent[n].epoch == w.ab.seen
    requires w.b.remote.Some? ==> w.b.remote.value == w.ab.epochs[w.ab.seen].dh
    ensures Inv(w.(b := AfterSame(w.b, w.ab, n), ab := GotOne(w.ab, n)))
  {
    hide Log, Inbox, OneHistory, KeysApart, AllSentOk, Advance, SkipTo, Lineage;
    var t, c := AfterSame(w.b, w.ab, n), GotOne(w.ab, n);
    Basics(w);
    InboxAfterSame(w.b, w.ab, n);
    ReceivingKeepsLog(w.b, t, w.ba);
    GotKeepsLog(w.a, w.ab, n);
    SameKeepsHistory(w, t, c);
    SameStaysApart(w, t, c);
    SameKeepsLineage(w, t, c);
  }

  lemma NextKeepsInv(w: World, n: nat)
    requires Inv(w) && HeaderPasses(w.b, w.ab, n) && w.ab.sent[n].epoch == w.ab.seen + 1 && w.b.remote.Some?
    requires w.b.recvCount <= w.ab.epochs[w.ab.seen + 1].first <= n
    requires OpenedInTurn(w.b.root, w.b.secret.point, w.ab, w.ab.seen + 1)
    ensures Inv(w.(b := AfterNext(w.b, w.ab, n), ab := GotOne(w.ab, n)))
  {
    hide Log, Inbox, OneHistory, KeysApart, AllSentOk, Advance, SkipTo, AtBoundary, Lineage;
    var t, c := AfterNext(w.b, w.ab, n), GotOne(w.ab, n);
    Basics(w);
    InboxAfterNext(w.b, w.ab, n);
    ReceivingKeepsLog(w.b, t, w.ba);
    GotKeepsLog(w.a, w.ab, n);
    NextKeepsHistory(w, t, c);
    NextStaysAbove(w, t, c);
    NextKeepsLineage(w, t, c);
  }

  /** Any frame of the other peer may arrive at any time: the invariant holds afterwards. */
  lemma DeliverKeepsInv(w: World, n: nat)
    requires Inv(w) && n < |w.ab.sent|
    ensures Inv(DeliverStep(w, n))
  {
    hide Open, AfterSame, AfterNext, HeaderPasses, Log, OneHistory, KeysApart, StoredKeys, Lineage;
    HonestAnswer(w, n);
    match CaseOf(w, n)
    case Refused => assert DeliverStep(w, n) == w;
    case Late => LateKeepsInv(w, n);
    case Same => SameKeepsInv(w, n);
    case Next =>
      NextAnswer(w, n);
      NextKeepsInv(w, n);
  }
}
