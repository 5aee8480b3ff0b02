/** Two ratchets over a channel that loses, reorders, duplicates and forges frames
    (`src/rust/ratchet.rs`): the world, its steps, and the invariant. */
module Agreement {
  import opened Crypto
  import opened Wire
  import opened Ratchet

  /** The frames that a peer sends under one Diffie-Hellman key: the chain they come from, the
      first step, and the peer's root when the epoch began. */
  datatype Epoch = Epoch(dh: Pub, first: nat, chain: Key, root: Key)

  datatype Frame = Frame(hint: Bytes, step: u32, epochStart: u32, dh: Pub, ct: Ciphertext)

  datatype Sent = Sent(frame: Frame, plaintext: Bytes, epoch: nat)

  /** One direction: everything sent so far, the newest epoch of which the receiver has processed
      a frame, and the steps it has accepted. */
  datatype Chan = Chan(epochs: seq<Epoch>, sent: seq<Sent>, seen: nat, got: set<nat>)

  datatype World = World(a: State, b: State, ab: Chan, ba: Chan)

  function Flip(w: World): World {
    World(w.b, w.a, w.ba, w.ab)
  }

  // ---------------------------------------------------------------- steps

  function AadOf(f: Frame): Bytes {
    BuildWireAadV3(f.hint, f.step, f.epochStart, f.dh)
  }

  /** The frame that `send_text` builds. */
  function SendFrame(s: State, ephemeral: Secret, hint: Bytes, plaintext: Bytes): Frame {
    var t := AfterSend(s, ephemeral);
    var aad := BuildWireAadV3(hint, s.sendCount, EpochStart(t), t.public);
    Frame(hint, s.sendCount, EpochStart(t), t.public, Sealed(SendKey(s, ephemeral), aad, plaintext))
  }

  function EpochsAfterSend(s: State, ephemeral: Secret, epochs: seq<Epoch>): seq<Epoch> {
    if Rotates(s) then
      var t := DhSend(s, ephemeral);
      epochs + [Epoch(t.public, s.sendCount, t.chainSend, t.root)]
    else epochs
  }

  /** Peer `a` sends. */
  function SendStep(w: World, ephemeral: Secret, hint: Bytes, plaintext: Bytes): World
    requires |w.ab.epochs| > 0
  {
    var epochs := EpochsAfterSend(w.a, ephemeral, w.ab.epochs);
    var sent := Sent(SendFrame(w.a, ephemeral, hint, plaintext), plaintext, |epochs| - 1);
    w.(a := AfterSend(w.a, ephemeral), ab := w.ab.(epochs := epochs, sent := w.ab.sent + [sent]))
  }

  ghost function Open(s: State, f: Frame): Outcome {
    ReceiveEpoch(s, f.dh, f.step, f.epochStart, f.ct, AadOf(f))
  }

  /** Frame `n` of peer `a` reaches peer `b`. */
  ghost function DeliverStep(w: World, n: nat): World
    requires n < |w.ab.sent|
  {
    var x := w.ab.sent[n];
    var o := Open(w.b, x.frame);
    w.(b := o.state,
       ab := if o.result.Err? then w.ab
             else w.ab.(seen := if x.epoch > w.ab.seen then x.epoch else w.ab.seen, got := w.ab.got + {n}))
  }

  /** Any other frame reaches peer `b`. */
  ghost function InjectStep(w: World, f: Frame): World {
    w.(b := Open(w.b, f).state)
  }

  // ---------------------------------------------------------------- the invariant

  function Last(epochs: seq<Epoch>): Epoch
    requires epochs != []
  {
    epochs[|epochs| - 1]
  }

  /** Frame `n` was sent in its epoch, under the key at its place in the epoch's chain. */
  ghost predicate SentOk(epochs: seq<Epoch>, n: nat, x: Sent) {
    && x.epoch < |epochs| && epochs[x.epoch].first <= n <= U32_MAX
    && (x.epoch + 1 < |epochs| ==> n < epochs[x.epoch + 1].first)
    && |x.frame.hint| <= MAX_HINT
    && x.frame.step == n && x.frame.epochStart == epochs[x.epoch].first && x.frame.dh == epochs[x.epoch].dh
    && x.frame.ct == Sealed(KeyIn(epochs[x.epoch], n), AadOf(x.frame), x.plaintext)
  }

  function KeyIn(e: Epoch, n: nat): Key
    requires e.first <= n
  {
    MsgKey(Advance(e.chain, n - e.first))
  }

  ghost predicate EpochsOk(epochs: seq<Epoch>) {
    && |epochs| > 0 && epochs[0].first == 0
    && (forall q, p :: 0 <= q < p < |epochs| ==> epochs[q].first < epochs[p].first)
    && (forall q :: 1 <= q < |epochs| - 1 ==> epochs[q].first + DH_SEND_EVERY == epochs[q + 1].first)
  }

  /** The sender stands at the end of its newest epoch. */
  ghost predicate SenderAt(s: State, c: Chan)
    requires |c.epochs| > 0
  {
    var e := Last(c.epochs);
    && |c.sent| == s.sendCount && e.first <= s.sendCount
    && s.public == s.secret.point == e.dh
    && s.chainSend == Advance(e.chain, s.sendCount - e.first)
    && s.sendsSinceDh == s.sendCount - e.first
    && (|c.epochs| > 1 ==> s.remote.Some? && 1 <= s.sendsSinceDh <= DH_SEND_EVERY)
  }

  ghost predicate Log(s: State, c: Chan) {
    && EpochsOk(c.epochs) && SenderAt(s, c)
    && (forall n :: 0 <= n < |c.sent| ==> SentOk(c.epochs, n, c.sent[n]))
  }

  /** The receiver stands in epoch `seen`; it has stored keys of steps that it has passed and not
      accepted. */
  ghost predicate Inbox(r: State, c: Chan) {
    && c.seen < |c.epochs| && c.epochs[c.seen].first <= r.recvCount <= |c.sent|
    && (c.seen + 1 < |c.epochs| ==> r.recvCount <= c.epochs[c.seen + 1].first)
    && r.chainRecv == Advance(c.epochs[c.seen].chain, r.recvCount - c.epochs[c.seen].first)
    && (if r.remote.None? then c.seen == 0 && r.recvCount == 0
        else r.recvCount > 0 && r.remote.value == c.epochs[c.seen].dh)
    && (forall n :: n in c.got ==> n < r.recvCount)
    && (r.recvCount > 0 ==> r.recvCount - 1 in c.got && c.sent[r.recvCount - 1].epoch == c.seen)
    && StoredKeys(r, c)
  }

  /** Each stored key is that of a step passed and not accepted. Such a step has no stored key only if
      it was evicted, and then it is lower than all steps that have one. */
  ghost predicate StoredKeys(r: State, c: Chan) {
    && |r.skipped| <= MAX_SKIPPED_KEYS
    && (forall n :: n in r.skipped ==> n < r.recvCount && n !in c.got)
    && (forall n :: n in r.skipped ==> n < |c.sent| && c.sent[n].frame.ct.Sealed?
                                       && r.skipped[n] == c.sent[n].frame.ct.key)
    && (forall x: u32, y: u32 :: x < r.recvCount && x !in c.got && x !in r.skipped && y in r.skipped ==> x < y)
  }

  /** Epoch `q` was opened from root `prev` by a step with the receiver's key. */
  predicate OpenedFrom(e: Epoch, prev: Key, peer: Pub) {
    var shared := Dh({e.dh, peer});
    e.root == StepRoot(prev, shared) && e.chain == DhChain(e.root, shared)
  }

  predicate OpenedInTurn(root: Key, peer: Pub, c: Chan, q: nat)
    requires c.seen < q < |c.epochs|
  {
    OpenedFrom(c.epochs[q], if q == c.seen + 1 then root else c.epochs[q - 1].root, peer)
  }

  /** The root history that the receiver has yet to follow begins at its own root. */
  ghost predicate Pending(s: State, r: State, c: Chan)
    requires |c.epochs| > 0
  {
    && (forall q :: c.seen < q < |c.epochs| ==> OpenedInTurn(r.root, r.secret.point, c, q))
    && (!CaughtUp(c) ==> s.root == Last(c.epochs).root && s.remote == Some(r.public))
  }

  /** The receiver has processed a frame of the sender's newest epoch. */
  predicate CaughtUp(c: Chan) {
    c.seen == |c.epochs| - 1
  }

  /** Both roots lie on one linear history: at most one peer is behind the other. */
  ghost predicate OneHistory(w: World)
    requires |w.ab.epochs| > 0 && |w.ba.epochs| > 0
  {
    && Pending(w.a, w.b, w.ab) && Pending(w.b, w.a, w.ba)
    && (CaughtUp(w.ab) || CaughtUp(w.ba))
    && (CaughtUp(w.ab) && CaughtUp(w.ba) ==> w.a.root == w.b.root)
  }

  predicate GoodPub(p: Pub) {
    |p| == 32 && WasContributory(p)
  }

  ghost predicate PubsDiffer(c: seq<Epoch>, d: seq<Epoch>) {
    && (forall q :: 0 <= q < |c| ==> GoodPub(c[q].dh))
    && (forall q, p :: 0 <= q < p < |c| ==> c[q].dh != c[p].dh)
    && (forall q, p :: 0 <= q < |c| && 0 <= p < |d| ==> c[q].dh != d[p].dh)
  }

  /** Every epoch after the first comes from a deeper root than those before it. */
  ghost predicate Deepening(c: seq<Epoch>) {
    && (forall q :: 1 <= q < |c| ==> c[q].root.StepRoot? && c[q].chain.DhChain? && c[q].chain.root == c[q].root)
    && (forall q, p :: 0 <= q < p < |c| ==> RootDepth(c[q].root) < RootDepth(c[p].root))
    && (|c| > 0 ==> c[0].chain.LowToHigh? || c[0].chain.HighToLow?)
  }

  ghost predicate DepthsDiffer(c: seq<Epoch>, d: seq<Epoch>) {
    && (forall q, p :: 1 <= q < |c| && 1 <= p < |d| ==> RootDepth(c[q].root) != RootDepth(d[p].root))
    && (|c| > 0 && |d| > 0 ==> c[0].chain != d[0].chain)
  }

  /** A peer's root is at least as deep as its own epochs and those it has processed. */
  ghost predicate Above(s: State, own: Chan, other: Chan) {
    && (forall q :: 0 <= q < |own.epochs| ==> RootDepth(own.epochs[q].root) <= RootDepth(s.root))
    && (forall q :: 0 <= q <= other.seen && q < |other.epochs| ==> RootDepth(other.epochs[q].root) <= RootDepth(s.root))
  }

  ghost predicate KeysApart(w: World) {
    && PubsDiffer(w.ab.epochs, w.ba.epochs) && PubsDiffer(w.ba.epochs, w.ab.epochs)
    && Deepening(w.ab.epochs) && Deepening(w.ba.epochs)
    && DepthsDiffer(w.ab.epochs, w.ba.epochs) && DepthsDiffer(w.ba.epochs, w.ab.epochs)
    && Above(w.a, w.ab, w.ba) && Above(w.b, w.ba, w.ab)
  }

  /** A rotated epoch begins at a root into which a key of either peer was mixed, and its chain follows
      from that root and that secret. The first epoch begins at the initial root. */
  ghost predicate Shapes(c: seq<Epoch>, d: seq<Epoch>) {
    && (|c| > 0 ==> c[0].root.InitialRoot? && c[0].chain in {LowToHigh(c[0].root), HighToLow(c[0].root)})
    && (forall q :: 1 <= q < |c| ==> c[q].root.StepRoot? && c[q].chain == DhChain(c[q].root, c[q].root.shared))
    && (forall q :: 1 <= q < |c| ==> MixesBoth(c[q], d))
  }

  ghost predicate MixesBoth(e: Epoch, d: seq<Epoch>) {
    e.root.StepRoot? && exists p :: 0 <= p < |d| && e.root.shared == Dh({e.dh, d[p].dh})
  }

  /** A peer's root comes from its own epochs and from those it has processed, and was made with its
      present keys. */
  ghost predicate Descends(s: State, own: Chan, other: Chan) {
    && (s.root.StepRoot? ==> s.remote.Some? && s.root.shared == Dh({s.secret.point, s.remote.value}))
    && (forall q :: 0 <= q < |own.epochs| ==> LeadsTo(own.epochs[q].root, s.root))
    && (forall q :: 0 <= q <= other.seen && q < |other.epochs| ==> LeadsTo(other.epochs[q].root, s.root))
  }

  /** All session keys derive from the initial root of the session, along one line of roots. */
  ghost predicate Lineage(w: World) {
    && Origin(w.a.root) == Origin(w.b.root)
    && (forall q :: 0 <= q < |w.ab.epochs| ==> Origin(w.ab.epochs[q].chain) == Origin(w.a.root))
    && (forall q :: 0 <= q < |w.ba.epochs| ==> Origin(w.ba.epochs[q].chain) == Origin(w.a.root))
    && Shapes(w.ab.epochs, w.ba.epochs) && Shapes(w.ba.epochs, w.ab.epochs)
    && Descends(w.a, w.ab, w.ba) && Descends(w.b, w.ba, w.ab)
  }

  ghost predicate Inv(w: World) {
    && Log(w.a, w.ab) && Log(w.b, w.ba)
    && Inbox(w.b, w.ab) && Inbox(w.a, w.ba)
    && OneHistory(w)
    && KeysApart(w)
    && Lineage(w)
  }

  lemma InvFlips(w: World)
    ensures Inv(w) == Inv(Flip(w))
  {
    hide Log, Inbox, Pending, PubsDiffer, Deepening, DepthsDiffer, Above, Origin, Shapes, Descends;
  }

  // ---------------------------------------------------------------- the schedule

  predicate New(w: World, p: Pub) {
    && GoodPub(p)
    && (forall q :: 0 <= q < |w.ab.epochs| ==> w.ab.epochs[q].dh != p)
    && (forall q :: 0 <= q < |w.ba.epochs| ==> w.ba.epochs[q].dh != p)
  }

  /** A peer rotates only after it has processed a frame of the other's newest epoch. */
  predicate MaySend(w: World, ephemeral: Secret, hint: Bytes) {
    && w.a.sendCount < U32_MAX && |hint| <= MAX_HINT
    && (Rotates(w.a) ==> CaughtUp(w.ba) && New(w, ephemeral.point))
  }

  // ---------------------------------------------------------------- what can open

  /** The epoch of the frame is the receiver's or the next one: none in between was missed completely. */
  predicate EpochInTurn(w: World, n: nat)
    requires n < |w.ab.sent|
  {
    var e := w.ab.sent[n].epoch;
    e <= w.ab.seen || (e == w.ab.seen + 1 && w.b.remote.Some?)
  }

  /** The gap up to the frame, or up to the epoch boundary that it lies beyond. */
  predicate GapFits(w: World, n: nat)
    requires n < |w.ab.sent|
  {
    var x := w.ab.sent[n];
    (if x.epoch <= w.ab.seen then n else x.frame.epochStart) - w.b.recvCount <= MAX_SKIP
  }

  /** Frame `n` has not been accepted, and the receiver holds its key or can still reach it. */
  predicate Openable(w: World, n: nat)
    requires n < |w.ab.sent|
  {
    && n !in w.ab.got
    && (if n < w.b.recvCount then n in w.b.skipped else EpochInTurn(w, n) && GapFits(w, n))
  }

  /** Anything an attacker without the session keys can put together: any header, and a ciphertext
      that is garbage, or sealed under a key that does not come from this session, or taken from an
      honest frame of either direction. */
  predicate MayInject(w: World, f: Frame) {
    && |f.hint| <= MAX_HINT && |f.dh| == 32
    && (f.ct.Sealed? ==> || Origin(f.ct.key) != Origin(w.b.root)
                         || (exists n :: 0 <= n < |w.ab.sent| && f.ct == w.ab.sent[n].frame.ct)
                         || (exists n :: 0 <= n < |w.ba.sent| && f.ct == w.ba.sent[n].frame.ct))
    && (forall n :: 0 <= n < |w.ab.sent| ==> f != w.ab.sent[n].frame)
  }
}
