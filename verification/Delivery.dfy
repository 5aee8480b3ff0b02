/** The order of delivery does not matter, and neither does the way the epoch boundary is found. */
module Delivery {
  import opened Crypto
  import opened Ratchet
  import opened Agreement
  import opened AgreementDeliver
  import opened AgreementAnswer
  import opened AgreementRuns
  import opened AgreementKeys

  // ---------------------------------------------------------------- deliveries in any order

  ghost predicate AllSent(w: World, ns: seq<nat>) {
    forall i :: 0 <= i < |ns| ==> ns[i] < |w.ab.sent|
  }

  /** Frames of `a` reach `b` in this order; any of them may be refused. */
  ghost function DeliverAll(w: World, ns: seq<nat>): World
    requires AllSent(w, ns)
    decreases |ns|
  {
    if ns == [] then w
    else
      LogStays(w, ns);
      DeliverAll(DeliverStep(w, ns[0]), ns[1..])
  }

  lemma LogStays(w: World, ns: seq<nat>)
    requires AllSent(w, ns) && ns != []
    ensures ns[0] < |w.ab.sent| && DeliverStep(w, ns[0]).ab.sent == w.ab.sent && AllSent(DeliverStep(w, ns[0]), ns[1..])
  {
    assert forall i :: 0 <= i < |ns[1..]| ==> ns[1..][i] == ns[i + 1];
  }

  /** What deliveries alone can lead to from `w`. */
  ghost predicate Reached(w: World, v: World) {
    && v.a == w.a && v.ba == w.ba && (v.ab.epochs, v.ab.sent) == (w.ab.epochs, w.ab.sent)
    && w.ab.seen <= v.ab.seen < |w.ab.epochs|
    && (v.b.secret, v.b.public, v.b.chainSend, v.b.sendCount, v.b.sendsSinceDh)
       == (w.b.secret, w.b.public, w.b.chainSend, w.b.sendCount, w.b.sendsSinceDh)
    && v.b.root == (if v.ab.seen == w.ab.seen then w.b.root else w.ab.epochs[v.ab.seen].root)
  }

  lemma LateIsOfSeenEpoch(w: World, n: nat)
    requires Inv(w) && n < w.b.recvCount
    ensures n < |w.ab.sent| && w.ab.sent[n].epoch <= w.ab.seen
  {
    LateEpoch(w.b, w.ab, n);
  }

  lemma DeliverReaches(w: World, n: nat)
    requires Inv(w) && n < |w.ab.sent|
    ensures Reached(w, DeliverStep(w, n))
    ensures DeliverStep(w, n).ab.got == if Openable(w, n) then w.ab.got + {n} else w.ab.got
  {
    hide Inv, Open, Openable, HeaderPasses, Advance, SkipTo, AtBoundary;
    Basics(w);
    HonestAnswer(w, n);
    match CaseOf(w, n)
    case Refused =>
    case Late => LateIsOfSeenEpoch(w, n);
    case Same =>
    case Next => NextAnswer(w, n);
  }

  lemma ReachedTransitive(w: World, v: World, u: World)
    requires Reached(w, v) && Reached(v, u)
    ensures Reached(w, u)
  {
  }

  lemma {:induction false} DeliveriesReach(w: World, v: World, ns: seq<nat>)
    requires Inv(v) && Reached(w, v) && AllSent(v, ns)
    ensures var u := DeliverAll(v, ns); Inv(u) && Reached(w, u)
    decreases |ns|
  {
    hide Inv, Reached, DeliverStep, AllSent;
    if ns == [] {
    } else {
      LogStays(v, ns);
      var next := DeliverStep(v, ns[0]);
      DeliverKeepsInv(v, ns[0]);
      DeliverReaches(v, ns[0]);
      ReachedTransitive(w, v, next);
      DeliveriesReach(w, next, ns[1..]);
    }
  }

  lemma DeliveriesFrom(w: World, ns: seq<nat>)
    requires Inv(w) && AllSent(w, ns)
    ensures var u := DeliverAll(w, ns); Inv(u) && Reached(w, u)
  {
    hide DeliverAll, AllSent, Log, Inbox, OneHistory, KeysApart, Lineage;
    Basics(w);
    DeliveriesReach(w, w, ns);
  }

  // ---------------------------------------------------------------- confluence

  /** No key has been evicted: every step passed and not accepted has its key. */
  ghost predicate AllStored(w: World) {
    forall n: u32 :: n < w.b.recvCount && n !in w.ab.got ==> n in w.b.skipped
  }

  /** The receiver's counter, epoch, chain and stored keys are a function of what it has accepted. */
  lemma ReceiverIsDetermined(w: World, u: World, v: World)
    requires Inv(u) && Inv(v) && Reached(w, u) && Reached(w, v) && u.ab.got == v.ab.got
    ensures u.b.recvCount == v.b.recvCount && u.ab == v.ab
    ensures u.b == v.b.(skipped := u.b.skipped)
  {
    hide Log, OneHistory, KeysApart, Lineage, Advance, StoredKeys;
    InPlace(u.b, u.ab);
    InPlace(v.b, v.ab);
    assert u.b.recvCount == v.b.recvCount;
    assert u.ab.seen == v.ab.seen;
  }

  lemma StoredAreDetermined(u: World, v: World)
    requires StoredKeys(u.b, u.ab) && StoredKeys(v.b, v.ab) && u.ab == v.ab && u.b.recvCount == v.b.recvCount
    requires AllStored(u) && AllStored(v)
    ensures u.b.skipped == v.b.skipped
  {
    assert forall n :: n in u.b.skipped <==> n in v.b.skipped;
  }

  lemma StoredIsAll(u: World, v: World)
    requires AllStored(u) && u.b == v.b && u.ab == v.ab
    ensures AllStored(v)
  {
  }

  /** Confluence: let two orders of delivery, with any repetitions and refusals, lead to the same set of
      accepted frames, the first of them without evicting a key. Then they leave the same world if and
      only if the second evicts none either. */
  lemma DeliveryIsConfluent(w: World, ns: seq<nat>, ms: seq<nat>)
    requires Inv(w) && AllSent(w, ns) && AllSent(w, ms) && DeliverAll(w, ns).ab.got == DeliverAll(w, ms).ab.got
    requires AllStored(DeliverAll(w, ns))
    ensures DeliverAll(w, ns) == DeliverAll(w, ms) <==> AllStored(DeliverAll(w, ms))
  {
    hide Inv, AllSent, Reached, DeliverAll, AllStored, StoredKeys;
    var u, v := DeliverAll(w, ns), DeliverAll(w, ms);
    DeliveriesFrom(w, ns);
    DeliveriesFrom(w, ms);
    ReceiverIsDetermined(w, u, v);
    SameSender(w, u, v);
    StoredOfWorld(u);
    StoredOfWorld(v);
    if AllStored(v) {
      StoredAreDetermined(u, v);
    } else if u == v {
      StoredIsAll(u, v);
    }
  }

  lemma SameSender(w: World, u: World, v: World)
    requires Reached(w, u) && Reached(w, v)
    ensures u.a == v.a && u.ba == v.ba
  {
  }

  lemma StoredOfWorld(w: World)
    requires Inv(w)
    ensures StoredKeys(w.b, w.ab)
  {
  }

  // ---------------------------------------------------------------- when nothing is evicted or refused

  /** The store has room for the keys of the gap. */
  predicate Room(w: World, n: nat) {
    n >= w.b.recvCount ==> |w.b.skipped| + (n - w.b.recvCount) <= MAX_SKIPPED_KEYS
  }

  /** Every frame is openable at its turn, or was accepted before, and there is room for its gap. */
  ghost predicate InOrder(w: World, ns: seq<nat>)
    decreases |ns|
  {
    ns == [] || (
      && ns[0] < |w.ab.sent| && (ns[0] in w.ab.got || Openable(w, ns[0])) && Room(w, ns[0])
      && InOrder(DeliverStep(w, ns[0]), ns[1..]))
  }

  ghost function Arrived(ns: seq<nat>): set<nat> {
    set n | n in ns
  }

  lemma ArrivedStep(ns: seq<nat>)
    ensures Arrived(ns) == if ns == [] then {} else {ns[0]} + Arrived(ns[1..])
  {
    if ns != [] {
      assert ns == [ns[0]] + ns[1..];
    }
  }

  lemma RoomSame(r: State, n: u32)
    requires r.recvCount <= n && n - r.recvCount <= MAX_SKIP && |r.skipped| + (n - r.recvCount) <= MAX_SKIPPED_KEYS
    ensures forall m :: m in SkipTo(r, n).skipped <==> m in r.skipped || r.recvCount <= m < n
    ensures |SkipTo(r, n).skipped| <= |r.skipped| + (n - r.recvCount)
  {
    hide SkipTo, KeysFrom;
    SkipClosed(r, n);
    KeysFromDomain(r.chainRecv, r.recvCount, n);
  }

  lemma RoomNext(r: State, e: Epoch, n: u32)
    requires r.recvCount <= e.first <= n && e.first - r.recvCount <= MAX_SKIP && n - e.first <= MAX_SKIP
    requires |r.skipped| + (n - r.recvCount) <= MAX_SKIPPED_KEYS
    ensures forall m :: m in SkipTo(AtBoundary(r, e), n).skipped <==> m in r.skipped || r.recvCount <= m < n
  {
    hide SkipTo;
    RoomSame(r, e.first);
    RoomSame(AtBoundary(r, e), n);
  }

  lemma RoomKeepsAll(w: World, n: nat)
    requires Inv(w) && AllStored(w) && n < |w.ab.sent| && Room(w, n)
    ensures AllStored(DeliverStep(w, n))
  {
    hide Inv, Open, HeaderPasses, Advance, SkipTo, AtBoundary, EpochInTurn;
    Basics(w);
    HonestAnswer(w, n);
    match CaseOf(w, n)
    case Refused =>
    case Late =>
    case Same => RoomSame(w.b, n);
    case Next =>
      NextAnswer(w, n);
      NextIsShort(w, n);
      RoomNext(w.b, w.ab.epochs[w.ab.seen + 1], n);
  }

  lemma NextIsShort(w: World, n: nat)
    requires Inv(w) && n < |w.ab.sent| && w.ab.sent[n].epoch == w.ab.seen + 1
    ensures w.ab.seen + 1 < |w.ab.epochs| && n - w.ab.epochs[w.ab.seen + 1].first < DH_SEND_EVERY
    ensures w.ab.sent[n].frame.epochStart == w.ab.epochs[w.ab.seen + 1].first
  {
    hide OneHistory, KeysApart, Lineage, Inbox, Advance;
    assert SentOk(w.ab.epochs, n, w.ab.sent[n]);
    RotatedEpochIsShort(w.a, w.ab, n);
  }

  lemma {:induction false} InOrderIsSent(w: World, ns: seq<nat>)
    requires InOrder(w, ns)
    ensures AllSent(w, ns)
    decreases |ns|
  {
    if ns == [] {
    } else {
      InOrderIsSent(DeliverStep(w, ns[0]), ns[1..]);
      forall i | 0 <= i < |ns|
        ensures ns[i] < |w.ab.sent|
      {
        assert i > 0 ==> ns[i] == ns[1..][i - 1];
      }
    }
  }

  /** Deliveries in order accept everything that arrives and evict nothing. */
  lemma {:induction false} InOrderAccepts(w: World, ns: seq<nat>)
    requires Inv(w) && AllStored(w) && InOrder(w, ns)
    ensures AllSent(w, ns) && AllStored(DeliverAll(w, ns)) && DeliverAll(w, ns).ab.got == w.ab.got + Arrived(ns)
    decreases |ns|
  {
    hide Inv, Openable, Room, AllStored, Arrived, DeliverStep, AllSent;
    InOrderIsSent(w, ns);
    ArrivedStep(ns);
    if ns == [] {
      assert w.ab.got + Arrived(ns) == w.ab.got;
    } else {
      var next := DeliverStep(w, ns[0]);
      DeliverKeepsInv(w, ns[0]);
      DeliverReaches(w, ns[0]);
      RoomKeepsAll(w, ns[0]);
      LogStays(w, ns);
      InOrderAccepts(next, ns[1..]);
      assert next.ab.got == w.ab.got + {ns[0]};
      assert w.ab.got + Arrived(ns) == next.ab.got + Arrived(ns[1..]);
    }
  }

  /** So all orders in which every frame opens at its turn and no key is evicted lead to the same world,
      once the same frames have arrived. */
  lemma OrdersAgree(w: World, ns: seq<nat>, ms: seq<nat>)
    requires Inv(w) && AllStored(w) && InOrder(w, ns) && InOrder(w, ms) && Arrived(ns) == Arrived(ms)
    ensures AllSent(w, ns) && AllSent(w, ms) && DeliverAll(w, ns) == DeliverAll(w, ms)
  {
    hide Inv, AllStored, InOrder, DeliverAll;
    InOrderAccepts(w, ns);
    InOrderAccepts(w, ms);
    DeliveryIsConfluent(w, ns, ms);
  }

  /** In that world the counter is one past the highest step that ever arrived, and the stored keys are
      those of exactly the steps below it that did not. */
  lemma DeliveryLeavesExactly(w: World, ns: seq<nat>)
    requires Inv(w) && AllStored(w) && InOrder(w, ns)
    ensures AllSent(w, ns)
    ensures var r, all := DeliverAll(w, ns).b, w.ab.got + Arrived(ns);
            && (forall n :: n in all ==> n < r.recvCount)
            && (r.recvCount > 0 ==> r.recvCount - 1 in all)
            && (forall n :: n in r.skipped <==> 0 <= n < r.recvCount && n !in all)
            && (forall n :: n in r.skipped ==> n < |w.ab.sent| && w.ab.sent[n].frame.ct.Sealed?
                                               && r.skipped[n] == KeyOf(w.ab, n))
  {
    hide InOrder, DeliverAll, AllSent, Log, OneHistory, KeysApart, Lineage;
    InOrderAccepts(w, ns);
    DeliveriesFrom(w, ns);
  }

  // ---------------------------------------------------------------- the search for the boundary

  /** `try_recv_decrypt_at`: the same frame without its `epoch_start`. */
  ghost function OpenBySearch(s: State, f: Frame): Outcome {
    Receive(s, f.dh, f.step, None, f.ct, AadOf(f))
  }

  /** Starting the new chain `k` steps before the frame gives the key at position `k` of it. */
  lemma GuessPosition(s: State, remote: Pub, n: u32, k: nat)
    requires k <= n && s.recvCount <= n - k && Prepare(s, NewChain(remote, n - k, n)).Ok?
    ensures var t := Prepare(s, NewChain(remote, n - k, n)).value; Position(t.chainRecv) == k
  {
    hide SkipTo, Advance;
    SkipMoves(s, n - k);
    var t := DhRecv(Skip(s, n - k).value, remote);
    SkipMoves(t, n);
    BaseAndPosition(t.chainRecv, k);
  }

  /** Only the right distance gives the key that sealed the frame. */
  lemma WrongGuessFails(s: State, remote: Pub, n: u32, k: nat, e: Epoch, aad: Bytes, plaintext: Bytes)
    requires k <= n && s.recvCount <= n - k && e.first <= n && k != n - e.first && e.chain.DhChain?
    ensures Commit(s, NewChain(remote, n - k, n), Sealed(KeyIn(e, n), aad, plaintext), aad).result.Err?
    ensures Commit(s, NewChain(remote, n - k, n), Sealed(KeyIn(e, n), aad, plaintext), aad).state == s
  {
    hide Prepare, Advance;
    if Prepare(s, NewChain(remote, n - k, n)).Ok? {
      GuessPosition(s, remote, n, k);
      KeyBase(e, n);
    }
  }

  /** The search from distance `k` on answers as the one plan that uses the true boundary, when that lies
      ahead and within DH_SEND_EVERY steps of the frame; otherwise it fails without effect. */
  lemma {:induction false} SearchFindsBoundary(s: State, remote: Pub, n: u32, e: Epoch, aad: Bytes, plaintext: Bytes, k: nat, last: Error)
    requires s.recvCount <= e.first <= n && e.chain.DhChain? && k <= DH_SEND_EVERY
    ensures var ct := Sealed(KeyIn(e, n), aad, plaintext);
            var found := Search(s, remote, n, ct, aad, k, last);
            var direct := Commit(s, NewChain(remote, e.first, n), ct, aad);
            if k <= n - e.first < DH_SEND_EVERY && direct.result.Ok? then found == direct else found.result.Err? && found.state == s
    decreases DH_SEND_EVERY - k
  {
    hide Commit, KeyIn, Advance;
    if k < DH_SEND_EVERY && k <= n && s.recvCount <= n - k {
      var ct := Sealed(KeyIn(e, n), aad, plaintext);
      var attempt := Commit(s, NewChain(remote, n - k, n), ct, aad);
      if k != n - e.first {
        WrongGuessFails(s, remote, n, k, e, aad, plaintext);
      }
      if attempt.result.Err? {
        SearchFindsBoundary(s, remote, n, e, aad, plaintext, k + 1, attempt.result.error);
      }
    }
  }

  lemma FailedCommit(s: State, plan: Plan, ct: Ciphertext, aad: Bytes)
    requires Commit(s, plan, ct, aad).result.Err?
    ensures Commit(s, plan, ct, aad).state == s
  {
  }

  lemma SearchOnNewKey(w: World, n: nat)
    requires Inv(w) && w.b.recvCount <= n < |w.ab.sent| && w.ab.sent[n].epoch > w.ab.seen && w.b.remote.Some?
    ensures var f, e := w.ab.sent[n].frame, w.ab.epochs[w.ab.sent[n].epoch];
            && HeaderPasses(w.b, w.ab, n)
            && w.b.recvCount <= e.first <= n < e.first + DH_SEND_EVERY && e.chain.DhChain?
            && f.ct == Sealed(KeyIn(e, n), AadOf(f), w.ab.sent[n].plaintext)
            && Open(w.b, f) == Commit(w.b, NewChain(e.dh, e.first, n), f.ct, AadOf(f))
            && OpenBySearch(w.b, f) == Search(w.b, e.dh, n, f.ct, AadOf(f), 0, NotOpened(NotAuthentic))
  {
    hide Advance, AadOf, Commit, Search, OneHistory, Above, Open, KeyIn, StoredKeys, PubsDiffer, DepthsDiffer, Lineage;
    AnswerIsPlan(w, n);
    InBounds(w.b, w.ab, n);
    RotatedEpochIsShort(w.a, w.ab, n);
    SearchedPlan(w.b, w.ab, n);
    NewKeyIsNew(w, n);
    assert w.ab.epochs[w.ab.sent[n].epoch].chain.DhChain?;
  }

  lemma NewKeyIsNew(w: World, n: nat)
    requires Inv(w) && n < |w.ab.sent| && w.ab.sent[n].epoch > w.ab.seen && w.b.remote.Some?
    ensures w.ab.sent[n].epoch < |w.ab.epochs| && w.b.remote != Some(w.ab.epochs[w.ab.sent[n].epoch].dh)
    ensures n !in w.b.skipped
  {
    hide Advance, AadOf, OneHistory, Above, DepthsDiffer, Deepening, SenderAt, Lineage;
    assert SentOk(w.ab.epochs, n, w.ab.sent[n]);
    if n < w.b.recvCount {
      LateIsOfSeenEpoch(w, n);
    }
  }

  lemma SearchedPlan(r: State, c: Chan, n: nat)
    requires HeaderPasses(r, c, n) && r.recvCount <= n && n < U32_MAX
    ensures var f := c.sent[n].frame;
            n !in r.skipped && r.remote.Some? && r.remote != Some(f.dh) ==>
              OpenBySearch(r, f) == Search(r, f.dh, n, f.ct, AadOf(f), 0, NotOpened(NotAuthentic))
  {
    hide Search, Commit;
  }

  /** Unless a new key is adopted, `epoch_start` plays no part. */
  lemma SameWithoutEpoch(r: State, c: Chan, n: nat)
    requires HeaderPasses(r, c, n)
    requires n < r.recvCount || r.remote.None? || r.remote == Some(c.sent[n].frame.dh)
    ensures Open(r, c.sent[n].frame) == OpenBySearch(r, c.sent[n].frame)
  {
    hide Commit, AadOf, KeyIn;
  }

  lemma CurrentKey(w: World, n: nat)
    requires Inv(w) && n < |w.ab.sent| && w.ab.sent[n].epoch == w.ab.seen && w.b.remote.Some?
    ensures w.b.remote == Some(w.ab.sent[n].frame.dh)
  {
    hide Advance, AadOf, OneHistory, KeysApart, Lineage, StoredKeys, SenderAt;
    assert SentOk(w.ab.epochs, n, w.ab.sent[n]);
  }

  /** Receiving a frame without its `epoch_start` opens it exactly when receiving it with
      `epoch_start` does, and leaves the same state. */
  lemma SearchRefinesHeader(w: World, n: nat)
    requires Inv(w) && n < |w.ab.sent|
    ensures var f := w.ab.sent[n].frame;
            && Open(w.b, f).state == OpenBySearch(w.b, f).state
            && (Open(w.b, f).result.Ok? <==> OpenBySearch(w.b, f).result.Ok?)
            && (Open(w.b, f).result.Ok? ==> Open(w.b, f) == OpenBySearch(w.b, f))
  {
    hide Advance, AadOf, Commit, Search, KeyIn, Log, OneHistory, KeysApart, Lineage, StoredKeys, Open, OpenBySearch, HeaderPasses;
    var f, q := w.ab.sent[n].frame, w.ab.sent[n].epoch;
    HonestHeaderPasses(w, n);
    Basics(w);
    if n < w.b.recvCount || w.b.remote.None? {
      SameWithoutEpoch(w.b, w.ab, n);
    } else {
      CurrentEpoch(w.b, w.ab, n);
      if q == w.ab.seen {
        CurrentKey(w, n);
        SameWithoutEpoch(w.b, w.ab, n);
      } else {
        var e := w.ab.epochs[q];
        SearchOnNewKey(w, n);
        SearchFindsBoundary(w.b, e.dh, n, e, AadOf(f), w.ab.sent[n].plaintext, 0, NotOpened(NotAuthentic));
        if Open(w.b, f).result.Err? {
          FailedCommit(w.b, NewChain(e.dh, e.first, n), f.ct, AadOf(f));
        }
      }
    }
  }
}
