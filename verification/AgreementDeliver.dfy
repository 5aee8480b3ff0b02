/** Delivering an honest frame: what the receiver answers, and the invariant afterwards. */
module AgreementDeliver {
  import opened Crypto
  import opened Ratchet
  import opened Agreement

  /** A step belongs to the one epoch whose bounds enclose it. */
  lemma EpochIs(epochs: seq<Epoch>, n: nat, x: Sent, q: nat)
    requires EpochsOk(epochs) && SentOk(epochs, n, x)
    requires q < |epochs| && epochs[q].first <= n && (q + 1 < |epochs| ==> n < epochs[q + 1].first)
    ensures x.epoch == q
  {
  }

  /** What the receive path checks before it touches a chain. */
  ghost predicate HeaderPasses(r: State, c: Chan, n: nat) {
    && n < |c.sent| && SentOk(c.epochs, n, c.sent[n]) && |c.sent| <= U32_MAX
    && c.epochs[c.sent[n].epoch].dh != r.public && WasContributory(c.epochs[c.sent[n].epoch].dh)
  }

  lemma HonestHeaderPasses(w: World, n: nat)
    requires Inv(w) && n < |w.ab.sent|
    ensures HeaderPasses(w.b, w.ab, n)
  {
    hide Inbox, OneHistory, Deepening, DepthsDiffer, Above, Advance, AadOf, Lineage;
    assert SentOk(w.ab.epochs, n, w.ab.sent[n]);
    assert w.b.public == Last(w.ba.epochs).dh;
  }

  /** A frame accepted before is refused, and nothing changes. */
  lemma DuplicateRefused(r: State, c: Chan, n: nat)
    requires HeaderPasses(r, c, n) && Inbox(r, c) && n in c.got
    ensures Open(r, c.sent[n].frame).result.Err? && Open(r, c.sent[n].frame).state == r
  {
  }

  /** A frame behind the counter opens if and only if its key is still stored: it was not accepted
      before and its key was not evicted. Otherwise nothing changes. */
  lemma LateOpensIff(r: State, c: Chan, n: nat)
    requires HeaderPasses(r, c, n) && Inbox(r, c) && n < r.recvCount
    ensures var o := Open(r, c.sent[n].frame);
            if n in r.skipped then o == Outcome(r.(skipped := r.skipped - {n}), Ok(Opened(c.sent[n].plaintext, n)))
            else o.result.Err? && o.state == r
  {
  }

  /** The state after a frame of the current epoch. */
  ghost function AfterSame(r: State, c: Chan, n: nat): State
    requires HeaderPasses(r, c, n) && r.recvCount <= n
  {
    var e := c.epochs[c.sent[n].epoch];
    Receiving(r, r.root, Some(e.dh), Advance(e.chain, n + 1 - e.first), n + 1, SkipTo(r, n).skipped)
  }

  /** A receive that comes down to one plan, in terms of the state the plan prepares. */
  lemma OpensByPlan(r: State, f: Frame, plan: Plan, t: State, plaintext: Bytes)
    requires Open(r, f) == Commit(r, plan, f.ct, AadOf(f)) && Prepare(r, plan) == Ok(t)
    requires f.ct == Sealed(MsgKey(t.chainRecv), AadOf(f), plaintext)
    ensures Open(r, f) == Outcome(TakeKey(t), Ok(Opened(plaintext, t.recvCount)))
  {
  }

  lemma TakeFrom(r: State, root: Key, remote: Option<Pub>, chain: Key, n: u32, skipped: map<u32, Key>)
    requires n < U32_MAX
    ensures TakeKey(Receiving(r, root, remote, chain, n, skipped))
         == Receiving(r, root, remote, NextChain(chain), n + 1, skipped)
  {
  }

  lemma SameChainPlan(r: State, remote: Pub, n: u32, chain: Key, skipped: map<u32, Key>)
    requires Skip(r, n) == Ok(Receiving(r, r.root, r.remote, chain, n, skipped))
    requires r.remote.Some? ==> r.remote.value == remote
    ensures Prepare(r, SameChain(remote, n)) == Ok(Receiving(r, r.root, Some(remote), chain, n, skipped))
  {
  }

  lemma PrepareSame(r: State, remote: Pub, n: u32)
    requires r.recvCount <= n && n - r.recvCount <= MAX_SKIP
    requires r.remote.Some? ==> r.remote.value == remote
    ensures Prepare(r, SameChain(remote, n))
         == Ok(Receiving(r, r.root, Some(remote), Advance(r.chainRecv, n - r.recvCount), n, SkipTo(r, n).skipped))
  {
    SkipMoves(r, n);
    SameChainPlan(r, remote, n, Advance(r.chainRecv, n - r.recvCount), SkipTo(r, n).skipped);
  }

  /** Which plan the receive path chooses for an honest frame that is not late. */
  lemma HonestPlan(r: State, c: Chan, n: nat)
    requires HeaderPasses(r, c, n) && Inbox(r, c) && r.recvCount <= n
    requires r.remote.Some? && c.sent[n].epoch != c.seen ==>
               c.epochs[c.sent[n].epoch].dh != c.epochs[c.seen].dh && r.recvCount <= c.epochs[c.sent[n].epoch].first
    ensures var f := c.sent[n].frame;
            var plan := if r.remote.None? || c.sent[n].epoch == c.seen then SameChain(f.dh, f.step)
                        else NewChain(f.dh, f.epochStart, f.step);
            Open(r, f) == Commit(r, plan, f.ct, AadOf(f))
  {
    hide Commit;
  }

  /** The receive of a frame under a new key, whoever sent it. */
  lemma NewKeyPlan(r: State, f: Frame)
    requires f.step !in r.skipped && r.recvCount < U32_MAX && f.dh != r.public && WasContributory(f.dh)
    requires r.recvCount <= f.epochStart <= f.step && r.remote.Some? && r.remote != Some(f.dh)
    ensures Open(r, f) == Commit(r, NewChain(f.dh, f.epochStart, f.step), f.ct, AadOf(f))
  {
    hide Commit, AadOf;
  }

  /** The receive of a frame ahead of the counter under the key that is known, or under the first. */
  lemma KnownKeyPlan(r: State, f: Frame)
    requires f.step !in r.skipped && r.recvCount < U32_MAX && f.dh != r.public && WasContributory(f.dh)
    requires r.recvCount <= f.step && f.epochStart <= f.step && (r.remote.Some? ==> r.remote == Some(f.dh))
    ensures Open(r, f) == Commit(r, SameChain(f.dh, f.step), f.ct, AadOf(f))
  {
    hide Commit, AadOf;
  }

  lemma SameEpochOpens(r: State, c: Chan, n: nat)
    requires HeaderPasses(r, c, n) && Inbox(r, c) && r.recvCount <= n && c.sent[n].epoch == c.seen
    requires n - r.recvCount <= MAX_SKIP
    ensures Open(r, c.sent[n].frame) == Outcome(AfterSame(r, c, n), Ok(Opened(c.sent[n].plaintext, n)))
  {
    hide SkipTo, Skip, Prepare, Commit, Open, StoredKeys, TakeKey;
    var f, e := c.sent[n].frame, c.epochs[c.seen];
    var plan, chain, skipped := SameChain(f.dh, f.step), Advance(r.chainRecv, n - r.recvCount), SkipTo(r, n).skipped;
    HonestPlan(r, c, n);
    AdvanceSum(e.chain, r.recvCount - e.first, n - r.recvCount);
    PrepareSame(r, f.dh, n);
    OpensByPlan(r, f, plan, Receiving(r, r.root, Some(f.dh), chain, n, skipped), c.sent[n].plaintext);
    TakeFrom(r, r.root, Some(f.dh), chain, n, skipped);
  }

  /** The receiver at the boundary to epoch `e`, on its new chain. */
  ghost function AtBoundary(r: State, e: Epoch): (t: State)
    requires r.recvCount <= e.first <= U32_MAX
    ensures t.recvCount == e.first
  {
    Receiving(r, e.root, Some(e.dh), e.chain, e.first, SkipTo(r, e.first).skipped)
  }

  /** The state after the first frame of the next epoch. */
  ghost function AfterNext(r: State, c: Chan, n: nat): State
    requires HeaderPasses(r, c, n) && r.recvCount <= c.epochs[c.sent[n].epoch].first <= n
  {
    var e := c.epochs[c.sent[n].epoch];
    Receiving(r, e.root, Some(e.dh), Advance(e.chain, n + 1 - e.first), n + 1, SkipTo(AtBoundary(r, e), n).skipped)
  }

  lemma NewChainPlan(r: State, e: Epoch, n: u32, t: State, chain: Key, skipped: map<u32, Key>)
    requires r.recvCount <= e.first <= n && OpenedFrom(e, r.root, r.secret.point)
    requires Skip(r, e.first) == Ok(t) && (t.secret, t.root) == (r.secret, r.root)
    requires Skip(Receiving(t, e.root, Some(e.dh), e.chain, t.recvCount, t.skipped), n)
          == Ok(Receiving(r, e.root, Some(e.dh), chain, n, skipped))
    ensures Prepare(r, NewChain(e.dh, e.first, n)) == Ok(Receiving(r, e.root, Some(e.dh), chain, n, skipped))
  {
    assert {r.secret.point, e.dh} == {e.dh, r.secret.point};
    assert DhRecv(t, e.dh) == Receiving(t, e.root, Some(e.dh), e.chain, t.recvCount, t.skipped);
  }

  lemma PrepareNext(r: State, e: Epoch, n: u32)
    requires r.recvCount <= e.first <= n && OpenedFrom(e, r.root, r.secret.point)
    requires e.first - r.recvCount <= MAX_SKIP && n - e.first <= MAX_SKIP
    ensures Prepare(r, NewChain(e.dh, e.first, n))
         == Ok(Receiving(r, e.root, Some(e.dh), Advance(e.chain, n - e.first), n, SkipTo(AtBoundary(r, e), n).skipped))
  {
    hide SkipTo, Prepare, Advance, OpenedFrom;
    SkipMoves(r, e.first);
    SkipMoves(AtBoundary(r, e), n);
    NewChainPlan(r, e, n, SkipTo(r, e.first), Advance(e.chain, n - e.first), SkipTo(AtBoundary(r, e), n).skipped);
  }

  lemma NextEpochOpens(r: State, c: Chan, n: nat)
    requires HeaderPasses(r, c, n) && Inbox(r, c) && r.recvCount <= n && c.sent[n].epoch == c.seen + 1 && r.remote.Some?
    requires c.epochs[c.seen + 1].dh != c.epochs[c.seen].dh
    requires OpenedFrom(c.epochs[c.seen + 1], r.root, r.secret.point)
    requires c.epochs[c.seen + 1].first - r.recvCount <= MAX_SKIP && n - c.epochs[c.seen + 1].first <= MAX_SKIP
    ensures Open(r, c.sent[n].frame) == Outcome(AfterNext(r, c, n), Ok(Opened(c.sent[n].plaintext, n)))
  {
    hide SkipTo, AtBoundary, Skip, Prepare, Commit, Open, StoredKeys, TakeKey;
    var f, e := c.sent[n].frame, c.epochs[c.seen + 1];
    var plan, chain, skipped := NewChain(f.dh, e.first, f.step), Advance(e.chain, n - e.first), SkipTo(AtBoundary(r, e), n).skipped;
    HonestPlan(r, c, n);
    PrepareNext(r, e, n);
    OpensByPlan(r, f, plan, Receiving(r, e.root, Some(e.dh), chain, n, skipped), c.sent[n].plaintext);
    TakeFrom(r, e.root, Some(e.dh), chain, n, skipped);
  }

  // ---------------------------------------------------------------- the inbox afterwards

  lemma PassedKey(c: Chan, chain: Key, q: nat, from: nat, m: nat)
    requires AllSentOk(c)
    requires q < |c.epochs| && c.epochs[q].first <= from <= m < |c.sent|
    requires q + 1 < |c.epochs| ==> m < c.epochs[q + 1].first
    requires chain == Advance(c.epochs[q].chain, from - c.epochs[q].first)
    ensures c.sent[m].frame.ct.Sealed? && MsgKey(Advance(chain, m - from)) == c.sent[m].frame.ct.key
  {
    hide Advance, AadOf;
    assert SentOk(c.epochs, m, c.sent[m]);
    EpochIs(c.epochs, m, c.sent[m], q);
    AdvanceSum(c.epochs[q].chain, from - c.epochs[q].first, m - from);
  }

  /** Passed keys belong to the frames they were sent for. */
  lemma PassedKeys(c: Chan, chain: Key, q: nat, from: nat, until: nat)
    requires AllSentOk(c)
    requires q < |c.epochs| && c.epochs[q].first <= from <= until <= |c.sent| <= U32_MAX
    requires q + 1 < |c.epochs| ==> until <= c.epochs[q + 1].first
    requires chain == Advance(c.epochs[q].chain, from - c.epochs[q].first)
    ensures forall m :: from <= m < until ==>
              c.sent[m].frame.ct.Sealed? && KeysFrom(chain, from, until)[m] == c.sent[m].frame.ct.key
  {
    hide Advance, AllSentOk;
    forall m | from <= m < until
      ensures c.sent[m].frame.ct.Sealed? && KeysFrom(chain, from, until)[m] == c.sent[m].frame.ct.key
    {
      PassedKey(c, chain, q, from, m);
    }
  }

  function GotOne(c: Chan, n: nat): Chan
    requires n < |c.sent|
  {
    c.(seen := if c.sent[n].epoch > c.seen then c.sent[n].epoch else c.seen, got := c.got + {n})
  }

  lemma StoredAfterLate(r: State, c: Chan, n: nat)
    requires StoredKeys(r, c) && n in r.skipped
    ensures StoredKeys(r.(skipped := r.skipped - {n}), GotOne(c, n))
  {
    assert (r.skipped - {n}).Keys == r.skipped.Keys - {n};
  }

  lemma InboxAfterLate(r: State, c: Chan, n: nat)
    requires Inbox(r, c) && n in r.skipped && c.sent[n].epoch <= c.seen
    ensures Inbox(r.(skipped := r.skipped - {n}), GotOne(c, n))
  {
    hide Advance, StoredKeys;
    InPlace(r, c);
    assert n in r.skipped;
    StoredAfterLate(r, c, n);
  }

  ghost predicate AllSentOk(c: Chan) {
    EpochsOk(c.epochs) && (forall m :: 0 <= m < |c.sent| ==> SentOk(c.epochs, m, c.sent[m]))
  }

  lemma InBounds(r: State, c: Chan, n: nat)
    requires HeaderPasses(r, c, n)
    ensures var q := c.sent[n].epoch;
            q < |c.epochs| && c.epochs[q].first <= n < |c.sent| <= U32_MAX && (q + 1 < |c.epochs| ==> n < c.epochs[q + 1].first)
  {
  }

  lemma InPlace(r: State, c: Chan)
    requires Inbox(r, c)
    ensures c.seen < |c.epochs| && c.epochs[c.seen].first <= r.recvCount <= |c.sent|
    ensures c.seen + 1 < |c.epochs| ==> r.recvCount <= c.epochs[c.seen + 1].first
    ensures r.chainRecv == Advance(c.epochs[c.seen].chain, r.recvCount - c.epochs[c.seen].first)
    ensures StoredKeys(r, c) && |r.skipped| <= MAX_SKIPPED_KEYS
    ensures (forall n :: n in r.skipped ==> n < r.recvCount) && (forall n :: n in c.got ==> n < r.recvCount)
  {
  }

  /** `all` has the keys stored before, and the right one for every step passed up to `n`. */
  ghost predicate HasPassed(r: State, c: Chan, n: nat, all: map<u32, Key>) {
    && (forall m :: m in all <==> m in r.skipped || r.recvCount <= m < n)
    && (forall m :: m in r.skipped ==> all[m] == r.skipped[m])
    && (forall m: u32 :: r.recvCount <= m < n ==> m < |c.sent| && c.sent[m].frame.ct.Sealed? && all[m] == c.sent[m].frame.ct.key)
  }

  lemma LostAreLower(r: State, c: Chan, n: nat, kept: map<u32, Key>, all: map<u32, Key>, x: u32, y: u32)
    requires StoredKeys(r, c) && HasPassed(r, c, n, all) && KeepsHighest(kept, all)
    requires x < n && x !in c.got && x !in kept && y in kept
    ensures x < y
  {
    assert y in all;
    if x !in all {
      assert x < r.recvCount;
    }
  }

  /** The stored keys after frame `n`, when the highest of the keys there are have been kept. */
  lemma StoredAfter(r: State, c: Chan, n: nat, t: State, all: map<u32, Key>)
    requires StoredKeys(r, c) && r.recvCount <= n < |c.sent| <= U32_MAX && t.recvCount == n + 1
    requires forall m :: m in c.got ==> m < r.recvCount
    requires HasPassed(r, c, n, all) && KeepsHighest(t.skipped, all) && |t.skipped| <= MAX_SKIPPED_KEYS
    ensures StoredKeys(t, GotOne(c, n))
  {
    hide HasPassed, KeepsHighest, StoredKeys;
    LostStayLower(r, c, n, t.skipped, all);
    KeptAreRight(r, c, n, t.skipped, all);
    StoredTogether(t, c, n);
  }

  lemma StoredTogether(t: State, c: Chan, n: nat)
    requires n < |c.sent| && t.recvCount == n + 1 && |t.skipped| <= MAX_SKIPPED_KEYS
    requires forall x: u32, y: u32 :: x < n && x !in c.got && x !in t.skipped && y in t.skipped ==> x < y
    requires forall m :: m in t.skipped ==> m < n && m !in c.got
    requires forall m :: m in t.skipped ==> c.sent[m].frame.ct.Sealed? && t.skipped[m] == c.sent[m].frame.ct.key
    ensures StoredKeys(t, GotOne(c, n))
  {
  }

  lemma LostStayLower(r: State, c: Chan, n: nat, kept: map<u32, Key>, all: map<u32, Key>)
    requires StoredKeys(r, c) && HasPassed(r, c, n, all) && KeepsHighest(kept, all)
    ensures forall x: u32, y: u32 :: x < n && x !in c.got && x !in kept && y in kept ==> x < y
  {
    hide StoredKeys, HasPassed, KeepsHighest;
    forall x: u32, y: u32 | x < n && x !in c.got && x !in kept && y in kept
      ensures x < y
    {
      LostAreLower(r, c, n, kept, all, x, y);
    }
  }

  lemma KeptAreRight(r: State, c: Chan, n: nat, kept: map<u32, Key>, all: map<u32, Key>)
    requires StoredKeys(r, c) && HasPassed(r, c, n, all) && KeepsHighest(kept, all) && r.recvCount <= n < |c.sent|
    requires forall m :: m in c.got ==> m < r.recvCount
    ensures forall m :: m in kept ==> m < n && m !in c.got
    ensures forall m :: m in kept ==> c.sent[m].frame.ct.Sealed? && kept[m] == c.sent[m].frame.ct.key
  {
  }

  lemma KeysFromDomain(chain: Key, first: u32, until: u32)
    ensures forall n :: n in KeysFrom(chain, first, until) <==> first <= n < until
  {
  }

  /** What two stretches of passed keys add to the stored ones. */
  lemma PassedBoth(r: State, c: Chan, n: nat, a: map<u32, Key>, mid: u32, b: map<u32, Key>)
    requires (forall m :: m in r.skipped ==> m < r.recvCount) && r.recvCount <= mid <= n <= |c.sent| <= U32_MAX
    requires forall m :: m in a <==> r.recvCount <= m < mid
    requires forall m :: m in b <==> mid <= m < n
    requires forall m: u32 :: r.recvCount <= m < mid ==> c.sent[m].frame.ct.Sealed? && a[m] == c.sent[m].frame.ct.key
    requires forall m: u32 :: mid <= m < n ==> c.sent[m].frame.ct.Sealed? && b[m] == c.sent[m].frame.ct.key
    ensures HasPassed(r, c, n, r.skipped + a + b)
  {
  }

  lemma PassedOne(r: State, c: Chan, n: nat, a: map<u32, Key>)
    requires (forall m :: m in r.skipped ==> m < r.recvCount) && r.recvCount <= n <= |c.sent| <= U32_MAX
    requires forall m :: m in a <==> r.recvCount <= m < n
    requires forall m: u32 :: r.recvCount <= m < n ==> c.sent[m].frame.ct.Sealed? && a[m] == c.sent[m].frame.ct.key
    ensures HasPassed(r, c, n, r.skipped + a)
  {
  }

  lemma PassedSame(r: State, c: Chan, n: nat)
    requires AllSentOk(c) && HeaderPasses(r, c, n) && Inbox(r, c) && r.recvCount <= n && c.sent[n].epoch == c.seen
    ensures HasPassed(r, c, n, AllKeys(r, n))
  {
    hide Advance, SentOk, KeysFrom, HasPassed, EpochsOk, AllSentOk, Inbox, StoredKeys, HeaderPasses;
    InPlace(r, c);
    InBounds(r, c, n);
    var a := KeysFrom(r.chainRecv, r.recvCount, n);
    PassedKeys(c, r.chainRecv, c.seen, r.recvCount, n);
    KeysFromDomain(r.chainRecv, r.recvCount, n);
    PassedOne(r, c, n, a);
  }

  lemma StoredAfterSame(r: State, c: Chan, n: nat)
    requires AllSentOk(c) && HeaderPasses(r, c, n) && Inbox(r, c) && r.recvCount <= n && c.sent[n].epoch == c.seen
    ensures StoredKeys(AfterSame(r, c, n), GotOne(c, n))
  {
    hide Advance, SentOk, KeepsHighest, SkipTo, AllKeys, HasPassed, StoredKeys, Inbox, AllSentOk;
    InPlace(r, c);
    PassedSame(r, c, n);
    SkipKeeps(r, n);
    SkipBounded(r, n);
    StoredAfter(r, c, n, AfterSame(r, c, n), AllKeys(r, n));
  }

  lemma InboxAfterSame(r: State, c: Chan, n: nat)
    requires AllSentOk(c) && HeaderPasses(r, c, n) && Inbox(r, c) && r.recvCount <= n && c.sent[n].epoch == c.seen
    ensures Inbox(AfterSame(r, c, n), GotOne(c, n))
  {
    hide Advance, SkipTo, StoredKeys;
    StoredAfterSame(r, c, n);
  }

  /** Skipping up to a boundary and on from it keeps the highest of all keys passed on either side. */
  lemma SkipAcross(r: State, e: Epoch, n: u32)
    requires (forall m :: m in r.skipped ==> m < r.recvCount) && r.recvCount <= e.first <= n && |r.skipped| <= MAX_SKIPPED_KEYS
    ensures KeepsHighest(SkipTo(AtBoundary(r, e), n).skipped, AllKeys(r, e.first) + KeysFrom(e.chain, e.first, n))
    ensures |SkipTo(AtBoundary(r, e), n).skipped| <= MAX_SKIPPED_KEYS
  {
    hide SkipTo, KeysFrom, KeepsHighest;
    KeysFromDomain(r.chainRecv, r.recvCount, e.first);
    KeysFromDomain(e.chain, e.first, n);
    SkipKeeps(r, e.first);
    SkipBounded(r, e.first);
    KeptAreSome(SkipTo(r, e.first).skipped, AllKeys(r, e.first));
    SkipKeeps(AtBoundary(r, e), n);
    SkipBounded(AtBoundary(r, e), n);
    KeepsHighestTransitive(AllKeys(r, e.first), SkipTo(r, e.first).skipped, SkipTo(AtBoundary(r, e), n).skipped,
                           KeysFrom(e.chain, e.first, n), e.first);
  }

  lemma KeptAreSome(kept: map<u32, Key>, all: map<u32, Key>)
    requires KeepsHighest(kept, all)
    ensures forall n :: n in kept ==> n in all
  {
  }

  lemma PassedAcross(r: State, c: Chan, n: nat)
    requires AllSentOk(c) && HeaderPasses(r, c, n) && Inbox(r, c) && r.recvCount <= n && c.sent[n].epoch == c.seen + 1
    ensures var e := c.epochs[c.seen + 1];
            r.recvCount <= e.first <= n && HasPassed(r, c, n, AllKeys(r, e.first) + KeysFrom(e.chain, e.first, n))
  {
    hide Advance, SentOk, KeysFrom, HasPassed, EpochsOk, AllSentOk, Inbox, StoredKeys, HeaderPasses;
    InPlace(r, c);
    InBounds(r, c, n);
    var e := c.epochs[c.seen + 1];
    var a, b := KeysFrom(r.chainRecv, r.recvCount, e.first), KeysFrom(e.chain, e.first, n);
    AdvanceNone(e.chain);
    PassedKeys(c, r.chainRecv, c.seen, r.recvCount, e.first);
    PassedKeys(c, e.chain, c.seen + 1, e.first, n);
    KeysFromDomain(r.chainRecv, r.recvCount, e.first);
    KeysFromDomain(e.chain, e.first, n);
    PassedBoth(r, c, n, a, e.first, b);
  }

  lemma AdvanceNone(chain: Key)
    ensures Advance(chain, 0) == chain
  {
  }

  lemma StoredAfterNext(r: State, c: Chan, n: nat)
    requires AllSentOk(c) && HeaderPasses(r, c, n) && Inbox(r, c) && r.recvCount <= n && c.sent[n].epoch == c.seen + 1
    ensures r.recvCount <= c.epochs[c.seen + 1].first <= n && StoredKeys(AfterNext(r, c, n), GotOne(c, n))
  {
    hide Advance, AllKeys, KeysFrom, SkipTo, AtBoundary, StoredKeys, HasPassed, KeepsHighest, Inbox, SentOk, AllSentOk;
    InPlace(r, c);
    InBounds(r, c, n);
    PassedAcross(r, c, n);
    var e := c.epochs[c.seen + 1];
    SkipAcross(r, e, n);
    StoredAfter(r, c, n, AfterNext(r, c, n), AllKeys(r, e.first) + KeysFrom(e.chain, e.first, n));
  }

  lemma InboxAfterNext(r: State, c: Chan, n: nat)
    requires AllSentOk(c) && HeaderPasses(r, c, n) && Inbox(r, c) && r.recvCount <= n && c.sent[n].epoch == c.seen + 1
    ensures Inbox(AfterNext(r, c, n), GotOne(c, n))
  {
    hide Advance, SkipTo, AtBoundary, StoredKeys;
    StoredAfterNext(r, c, n);
  }
}
