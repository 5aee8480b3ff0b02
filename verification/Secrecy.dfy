/** What an observer can compute who has got hold of keys: forward secrecy and its limits, and when
    secrecy comes back (`src/rust/ratchet.rs`). The observer knows all public keys and all salts. */
module Secrecy {
  import opened Crypto
  import opened Ratchet
  import opened AtMostOnce
  import opened SenderTrace
  import opened Agreement
  import opened AgreementSend
  import opened AgreementDeliver
  import opened AgreementKeys
  import opened AgreementAnswer
  import opened AgreementRuns
  import opened AgreementTheorem
  import opened Fork

  datatype Knowledge = Knowledge(keys: set<Key>, secrets: set<Pub>)

  /** The key can be computed: it is known, or all that it was derived from can be computed. A shared
      secret takes the secret of one end. */
  ghost predicate Derivable(key: Key, know: Knowledge) {
    key in know.keys ||
    match key
    case Unset => true
    case Dh(ends) => exists p :: p in ends && p in know.secrets
    case InitialRoot(_, shared, _, _) => Derivable(shared, know)
    case LowToHigh(root) => Derivable(root, know)
    case HighToLow(root) => Derivable(root, know)
    case StepRoot(root, shared) => Derivable(root, know) && Derivable(shared, know)
    case DhChain(root, shared) => Derivable(root, know) && Derivable(shared, know)
    case NextChain(chain) => Derivable(chain, know)
    case MsgKey(chain) => Derivable(chain, know)
    case HelloKey(dh, _, _) => Derivable(dh, know)
  }

  /** Everything secret in the state of a ratchet. */
  ghost function HeldBy(s: State): Knowledge {
    Knowledge({s.root, s.chainSend, s.chainRecv} + s.skipped.Values, {s.secret.point})
  }

  // ---------------------------------------------------------------- chains

  /** Nothing that is known lies on the chain up to position `i`. */
  ghost predicate ChainUnknown(chain: Key, i: nat, know: Knowledge) {
    forall j :: 0 <= j <= i ==> Advance(chain, j) !in know.keys
  }

  lemma {:induction false} ChainDerivableIff(chain: Key, i: nat, know: Knowledge)
    requires ChainUnknown(chain, i, know)
    ensures Derivable(Advance(chain, i), know) <==> Derivable(chain, know)
  {
    if i == 0 {
    } else {
      ChainDerivableIff(chain, i - 1, know);
    }
  }

  /** A message key on such a chain can be computed exactly when the start of the chain can. */
  lemma MessageDerivableIff(e: Epoch, n: nat, know: Knowledge)
    requires e.first <= n && KeyIn(e, n) !in know.keys && ChainUnknown(e.chain, n - e.first, know)
    ensures Derivable(KeyIn(e, n), know) <==> Derivable(e.chain, know)
  {
    hide Advance;
    ChainDerivableIff(e.chain, n - e.first, know);
  }

  // ---------------------------------------------------------------- what a state holds

  /** The chains a state holds are those of two epochs, past the positions used; its stored keys are
      message keys. */
  ghost predicate HoldsChains(s: State, own: Epoch, at: nat, other: Epoch, pos: nat) {
    && s.chainSend == Advance(own.chain, at) && s.chainRecv == Advance(other.chain, pos)
    && (forall n :: n in s.skipped ==> s.skipped[n].MsgKey?)
  }

  predicate IsChainStart(key: Key) {
    key.LowToHigh? || key.HighToLow? || key.DhChain?
  }

  lemma OnChain(chain: Key, i: nat)
    requires IsChainStart(chain)
    ensures Base(Advance(chain, i)) == chain && Position(Advance(chain, i)) == i
    ensures IsChainStart(Advance(chain, i)) || Advance(chain, i).NextChain?
  {
    BaseAndPosition(chain, i);
  }

  /** The state does not hold the chain at any position up to `i`: it has moved past it, or holds the
      chain of another epoch. */
  lemma StateChainUnknown(s: State, own: Epoch, at: nat, other: Epoch, pos: nat, chain: Key, i: nat)
    requires HoldsChains(s, own, at, other, pos) && IsChainStart(chain) && IsChainStart(own.chain) && IsChainStart(other.chain)
    requires s.root.InitialRoot? || s.root.StepRoot?
    requires (own.chain == chain ==> i < at) && (other.chain == chain ==> i < pos)
    ensures ChainUnknown(chain, i, HeldBy(s))
  {
    forall j | 0 <= j <= i
      ensures Advance(chain, j) !in HeldBy(s).keys
    {
      hide Advance;
      OnChain(chain, j);
      OnChain(own.chain, at);
      OnChain(other.chain, pos);
    }
  }

  // ---------------------------------------------------------------- roots

  /** Of the initial root, the roots up to `top` are unknown but for `top` itself. */
  ghost predicate OnlyTop(initial: Key, top: Key, know: Knowledge) {
    && initial.InitialRoot? && initial.shared.Dh? && initial.shared !in know.keys
    && (forall p :: p in initial.shared.ends ==> p !in know.secrets)
    && (forall k :: k in know.keys && (k.InitialRoot? || k.StepRoot?) ==> k == top)
  }

  /** An earlier root cannot be computed from a later one. */
  lemma {:induction false} EarlierRootUnderivable(initial: Key, root: Key, top: Key, know: Knowledge)
    requires OnlyTop(initial, top, know) && LeadsTo(initial, root) && RootDepth(root) < RootDepth(top)
    ensures !Derivable(root, know)
  {
    if root == initial {
      assert initial !in know.keys;
    } else {
      EarlierRootUnderivable(initial, root.root, top, know);
    }
  }

  /** The start of an epoch's chain can be computed exactly when the epoch began at the root held now. */
  lemma ChainStartDerivableIff(initial: Key, e: Epoch, s: State)
    requires OnlyTop(initial, s.root, HeldBy(s)) && LeadsTo(initial, e.root) && LeadsTo(e.root, s.root)
    requires e.chain !in HeldBy(s).keys
    requires if e.root.InitialRoot? then e.chain in {LowToHigh(e.root), HighToLow(e.root)}
             else e.root.StepRoot? && e.chain == DhChain(e.root, e.root.shared)
    requires s.root.StepRoot? ==> s.remote.Some? && s.root.shared == Dh({s.secret.point, s.remote.value})
    ensures Derivable(e.chain, HeldBy(s)) <==> e.root == s.root
  {
    var know := HeldBy(s);
    if e.root == s.root {
      assert s.root in know.keys;
      if s.root.StepRoot? {
        assert s.secret.point in s.root.shared.ends;
      }
    } else {
      LeadsDeeper(e.root, s.root);
      EarlierRootUnderivable(initial, e.root, s.root, know);
    }
  }

  // ---------------------------------------------------------------- forward secrecy

  /** The static keys of the bootstrap are not among the keys of the ratchet. */
  ghost predicate StaticsApart(w: World, s: State) {
    && |w.ab.epochs| > 0 && w.ab.epochs[0].root.InitialRoot? && w.ab.epochs[0].root.shared.Dh?
    && s.secret.point !in w.ab.epochs[0].root.shared.ends
  }

  lemma RootsOf(w: World)
    requires Inv(w)
    ensures |w.ab.epochs| > 0 && |w.ba.epochs| > 0 && w.ab.seen < |w.ab.epochs|
    ensures w.ab.epochs[0].root == w.ba.epochs[0].root && w.ab.epochs[0].root.InitialRoot?
    ensures LeadsTo(w.ab.epochs[0].root, w.b.root) && (w.b.root.InitialRoot? || w.b.root.StepRoot?)
    ensures w.b.root.StepRoot? ==> w.b.remote.Some? && w.b.root.shared == Dh({w.b.secret.point, w.b.remote.value})
  {
    hide SenderAt, SentOk, Inbox, OneHistory, KeysApart, MixesBoth, Origin;
    Basics(w);
    LeadsInLine(w.ab.epochs[0].root, w.ba.epochs[0].root, w.b.root);
  }

  lemma EpochShape(w: World, own: bool, q: nat)
    requires Inv(w) && (if own then q < |w.ba.epochs| else q <= w.ab.seen < |w.ab.epochs|)
    ensures var e := if own then w.ba.epochs[q] else w.ab.epochs[q];
            && LeadsTo(e.root, w.b.root) && LeadsTo(w.ab.epochs[0].root, e.root) && IsChainStart(e.chain)
            && (if e.root.InitialRoot? then e.chain in {LowToHigh(e.root), HighToLow(e.root)}
                else e.root.StepRoot? && e.chain == DhChain(e.root, e.root.shared))
  {
    hide Log, Inbox, OneHistory, KeysApart, MixesBoth, Origin;
    RootsOf(w);
    var e := if own then w.ba.epochs[q] else w.ab.epochs[q];
    LeadsInLine(w.ab.epochs[0].root, e.root, w.b.root);
  }

  lemma StateHolds(w: World)
    requires Inv(w)
    ensures |w.ba.epochs| > 0 && w.ab.seen < |w.ab.epochs|
    ensures var own, other := Last(w.ba.epochs), w.ab.epochs[w.ab.seen];
            && own.first <= w.b.sendCount == |w.ba.sent| && other.first <= w.b.recvCount
            && HoldsChains(w.b, own, w.b.sendCount - own.first, other, w.b.recvCount - other.first)
  {
    hide OneHistory, KeysApart, Lineage, EpochsOk, Advance;
    forall n | n in w.b.skipped
      ensures w.b.skipped[n].MsgKey?
    {
      assert SentOk(w.ab.epochs, n, w.ab.sent[n]);
    }
  }

  /** The state holds none of the roots but its own, and none of the static secrets. */
  lemma StateIsOnlyTop(w: World)
    requires Inv(w) && StaticsApart(w, w.b)
    ensures OnlyTop(w.ab.epochs[0].root, w.b.root, HeldBy(w.b))
  {
    hide Inv, Advance, IsChainStart;
    RootsOf(w);
    StateHolds(w);
    EpochShape(w, true, |w.ba.epochs| - 1);
    EpochShape(w, false, w.ab.seen);
    var own, other := Last(w.ba.epochs), w.ab.epochs[w.ab.seen];
    OnChain(own.chain, w.b.sendCount - own.first);
    OnChain(other.chain, w.b.recvCount - other.first);
    hide LeadsTo;
    KindsHeld(w.b);
  }

  lemma KindsHeld(s: State)
    requires forall n :: n in s.skipped ==> s.skipped[n].MsgKey?
    ensures forall k :: k in HeldBy(s).keys ==> k == s.root || k == s.chainSend || k == s.chainRecv || k.MsgKey?
  {
  }

  lemma SpentKeyNotHeld(w: World, n: nat)
    requires Inv(w) && n in w.ab.got
    ensures n < |w.ab.sent| && w.ab.sent[n].frame.ct.Sealed? && KeyOf(w.ab, n) !in w.b.skipped.Values
  {
    hide Log, OneHistory, KeysApart, Lineage, Advance;
    NoKeySealsTwoFrames(w);
    forall m | m in w.b.skipped
      ensures w.b.skipped[m] != KeyOf(w.ab, n)
    {
      assert m != n && w.b.skipped[m] == KeyOf(w.ab, m);
    }
  }

  lemma OwnKeyNotHeld(w: World, n: nat)
    requires Inv(w) && n < |w.ba.sent|
    ensures w.ba.sent[n].frame.ct.Sealed? && KeyOf(w.ba, n) !in w.b.skipped.Values
  {
    hide Log, OneHistory, KeysApart, Lineage, Advance;
    NoKeySealsTwoFrames(w);
    forall m | m in w.b.skipped
      ensures w.b.skipped[m] != KeyOf(w.ba, n)
    {
      assert w.b.skipped[m] == KeyOf(w.ab, m);
    }
  }

  lemma ChainsDiffer(w: World, q: nat, p: nat)
    requires Inv(w) && q < |w.ab.epochs| && p < |w.ba.epochs|
    ensures w.ab.epochs[q].chain != w.ba.epochs[p].chain
    ensures forall r :: 0 <= r < |w.ab.epochs| && r != q ==> w.ab.epochs[r].chain != w.ab.epochs[q].chain
    ensures forall r :: 0 <= r < |w.ba.epochs| && r != p ==> w.ba.epochs[r].chain != w.ba.epochs[p].chain
  {
    hide Log, Inbox, OneHistory, PubsDiffer, Above, Lineage;
  }

  lemma AcceptedAt(w: World, n: nat)
    requires Inv(w) && n in w.ab.got
    ensures n < w.b.recvCount && n < |w.ab.sent| && w.ab.sent[n].epoch <= w.ab.seen < |w.ab.epochs|
    ensures var e := w.ab.epochs[w.ab.sent[n].epoch];
            e.first <= n && w.ab.sent[n].frame.ct.Sealed? && KeyOf(w.ab, n) == KeyIn(e, n)
  {
    hide Advance, AadOf, OneHistory, KeysApart, Lineage, SenderAt, EpochsOk, KeyIn;
    Basics(w);
    InPlace(w.b, w.ab);
    LateEpoch(w.b, w.ab, n);
    assert SentOk(w.ab.epochs, n, w.ab.sent[n]);
  }

  /** What the receiver's state gives away of a frame it has accepted: its key can be computed if and only
      if the receiver's root has not moved since the frame's epoch began. The state keeps that root, and
      what was mixed into it, and the chain of the epoch follows from both. */
  lemma ForwardSecrecyIff(w: World, n: nat)
    requires Inv(w) && StaticsApart(w, w.b) && n in w.ab.got
    ensures n < |w.ab.sent| && w.ab.sent[n].frame.ct.Sealed? && w.ab.sent[n].epoch < |w.ab.epochs|
    ensures Derivable(KeyOf(w.ab, n), HeldBy(w.b)) <==> w.ab.epochs[w.ab.sent[n].epoch].root == w.b.root
  {
    hide Inv, Derivable, HeldBy, OnlyTop, LeadsTo, KeyIn, Advance, IsChainStart, ChainUnknown;
    AcceptedAt(w, n);
    SpentKeyNotHeld(w, n);
    StateHolds(w);
    RootsOf(w);
    var q := w.ab.sent[n].epoch;
    var e, own, other := w.ab.epochs[q], Last(w.ba.epochs), w.ab.epochs[w.ab.seen];
    EpochShape(w, false, q);
    EpochShape(w, false, w.ab.seen);
    EpochShape(w, true, |w.ba.epochs| - 1);
    ChainsDiffer(w, q, |w.ba.epochs| - 1);
    StateChainUnknown(w.b, own, w.b.sendCount - own.first, other, w.b.recvCount - other.first, e.chain, n - e.first);
    StateIsOnlyTop(w);
    OnChain(own.chain, w.b.sendCount - own.first);
    OnChain(other.chain, w.b.recvCount - other.first);
    SpentIffRoot(w.b, w.ab.epochs[0].root, e, n);
  }

  lemma SentAt(w: World, n: nat)
    requires Inv(w) && n < |w.ba.sent|
    ensures w.ba.sent[n].epoch < |w.ba.epochs| && n < w.b.sendCount
    ensures var e := w.ba.epochs[w.ba.sent[n].epoch];
            e.first <= n && w.ba.sent[n].frame.ct.Sealed? && KeyOf(w.ba, n) == KeyIn(e, n)
  {
    hide Advance, AadOf, OneHistory, KeysApart, Lineage, EpochsOk, KeyIn, Inbox;
    assert SentOk(w.ba.epochs, n, w.ba.sent[n]);
  }

  /** The same for a frame that the peer has sent itself. */
  lemma OwnForwardSecrecyIff(w: World, n: nat)
    requires Inv(w) && StaticsApart(w, w.b) && n < |w.ba.sent|
    ensures w.ba.sent[n].frame.ct.Sealed? && w.ba.sent[n].epoch < |w.ba.epochs|
    ensures Derivable(KeyOf(w.ba, n), HeldBy(w.b)) <==> w.ba.epochs[w.ba.sent[n].epoch].root == w.b.root
  {
    hide Inv, Derivable, HeldBy, OnlyTop, LeadsTo, KeyIn, Advance, IsChainStart, ChainUnknown;
    SentAt(w, n);
    OwnKeyNotHeld(w, n);
    StateHolds(w);
    RootsOf(w);
    var q := w.ba.sent[n].epoch;
    var e, own, other := w.ba.epochs[q], Last(w.ba.epochs), w.ab.epochs[w.ab.seen];
    EpochShape(w, true, q);
    EpochShape(w, false, w.ab.seen);
    EpochShape(w, true, |w.ba.epochs| - 1);
    ChainsDiffer(w, w.ab.seen, q);
    StateChainUnknown(w.b, own, w.b.sendCount - own.first, other, w.b.recvCount - other.first, e.chain, n - e.first);
    StateIsOnlyTop(w);
    OnChain(own.chain, w.b.sendCount - own.first);
    OnChain(other.chain, w.b.recvCount - other.first);
    SpentIffRoot(w.b, w.ab.epochs[0].root, e, n);
  }

  lemma SpentIffRoot(s: State, initial: Key, e: Epoch, n: nat)
    requires e.first <= n && OnlyTop(initial, s.root, HeldBy(s)) && LeadsTo(initial, e.root) && LeadsTo(e.root, s.root)
    requires IsChainStart(e.chain) && ChainUnknown(e.chain, n - e.first, HeldBy(s)) && (s.root.InitialRoot? || s.root.StepRoot?)
    requires KeyIn(e, n) !in s.skipped.Values && (s.chainSend.NextChain? || IsChainStart(s.chainSend))
    requires s.chainRecv.NextChain? || IsChainStart(s.chainRecv)
    requires if e.root.InitialRoot? then e.chain in {LowToHigh(e.root), HighToLow(e.root)}
             else e.root.StepRoot? && e.chain == DhChain(e.root, e.root.shared)
    requires s.root.StepRoot? ==> s.remote.Some? && s.root.shared == Dh({s.secret.point, s.remote.value})
    ensures Derivable(KeyIn(e, n), HeldBy(s)) <==> e.root == s.root
  {
    hide Derivable, OnlyTop, LeadsTo, Advance;
    assert KeyIn(e, n) !in HeldBy(s).keys;
    assert e.chain !in HeldBy(s).keys by {
      ChainStartUnknown(e.chain, n - e.first, HeldBy(s));
    }
    MessageDerivableIff(e, n, HeldBy(s));
    ChainStartDerivableIff(initial, e, s);
  }

  lemma ChainStartUnknown(chain: Key, i: nat, know: Knowledge)
    requires ChainUnknown(chain, i, know)
    ensures chain !in know.keys
  {
    assert Advance(chain, 0) !in know.keys;
  }

  /** The first message of every session: its key can be computed from the receiver's state right after it
      was received, and until the next Diffie-Hellman step. */
  lemma FirstKeyIsNotForwardSecret(ea: Secret, sa: Secret, eb: Secret, sb: Secret, salt: Bytes, plaintext: Bytes)
    requires sa.point != sb.point && GoodPub(ea.point) && GoodPub(eb.point) && ea.point != eb.point
    requires eb.point != sa.point && eb.point != sb.point
    ensures var w := SendStep(Start(Booted(ea, sa, sb.point, salt), Booted(eb, sb, sa.point, salt)), ea, [], plaintext);
            && |w.ab.sent| == 1 && w.ab.sent[0].frame.ct.Sealed?
            && 0 in DeliverStep(w, 0).ab.got && Derivable(KeyOf(w.ab, 0), HeldBy(DeliverStep(w, 0).b))
  {
    hide Inv, Leq, Derivable, Open, AfterSame, AfterNext, EffectiveSalt, HeldBy;
    var a, b := Booted(ea, sa, sb.point, salt), Booted(eb, sb, sa.point, salt);
    var start := Start(a, b);
    BootstrapStartsAgreement(ea, sa, eb, sb, salt);
    var w := SendStep(start, ea, [], plaintext);
    SendKeepsInv(start, ea, [], plaintext);
    HonestAnswer(w, 0);
    DeliverKeepsInv(w, 0);
    FirstRootStays(w);
    BootstrapMirrors(ea, sa, eb, sb, salt);
    ForwardSecrecyIff(DeliverStep(w, 0), 0);
  }

  lemma FirstRootStays(w: World)
    requires Inv(w) && |w.ab.sent| == 1 && w.b.recvCount == 0 && |w.ab.epochs| == 1
    requires Openable(w, 0)
    ensures var v := DeliverStep(w, 0); 0 in v.ab.got && v.b.root == w.b.root && v.b.secret == w.b.secret && v.ab.epochs == w.ab.epochs
  {
    hide Inv, Open, SkipTo;
    HonestAnswer(w, 0);
    hide Openable;
    Basics(w);
  }

  // ---------------------------------------------------------------- secrecy restored

  /** The key comes from root `x`. */
  predicate ComesFrom(x: Key, key: Key) {
    key == x ||
    match key
    case LowToHigh(root) => ComesFrom(x, root)
    case HighToLow(root) => ComesFrom(x, root)
    case StepRoot(root, _) => ComesFrom(x, root)
    case DhChain(root, _) => ComesFrom(x, root)
    case NextChain(chain) => ComesFrom(x, chain)
    case MsgKey(chain) => ComesFrom(x, chain)
    case _ => false
  }

  lemma {:induction false} RootComesFrom(x: Key, root: Key)
    requires (x.StepRoot? || x.InitialRoot?) && (root.InitialRoot? || root.StepRoot?)
    ensures LeadsTo(x, root) ==> ComesFrom(x, root)
    decreases root
  {
    if root == x {
    } else if root.StepRoot? && LeadsTo(x, root.root) {
      LeadsToRoot(x, root.root);
      RootComesFrom(x, root.root);
    }
  }

  lemma LeadsToRoot(x: Key, y: Key)
    requires (x.StepRoot? || x.InitialRoot?) && LeadsTo(x, y)
    ensures y.StepRoot? || y.InitialRoot?
  {
  }

  lemma {:induction false} ChainComesFrom(x: Key, chain: Key)
    requires x.StepRoot? && ChainUnder(x, chain)
    ensures ComesFrom(x, chain)
    decreases chain
  {
    if chain.NextChain? {
      ChainComesFrom(x, chain.chain);
    } else {
      LeadsToRoot(x, chain.root);
      RootComesFrom(x, chain.root);
    }
  }

  /** If root `x` cannot be computed and nothing known comes from it, nothing that comes from it can be. */
  lemma {:induction false} NothingFromUnknown(x: Key, key: Key, know: Knowledge)
    requires x.StepRoot? && !Derivable(x, know) && ComesFrom(x, key) && forall k :: k in know.keys ==> !ComesFrom(x, k)
    ensures !Derivable(key, know)
    decreases key
  {
    if key == x {
    } else {
      match key
      case LowToHigh(root) => NothingFromUnknown(x, root, know);
      case HighToLow(root) => NothingFromUnknown(x, root, know);
      case StepRoot(root, _) => NothingFromUnknown(x, root, know);
      case DhChain(root, _) => NothingFromUnknown(x, root, know);
      case NextChain(chain) => NothingFromUnknown(x, chain, know);
      case MsgKey(chain) => NothingFromUnknown(x, chain, know);
    }
  }

  /** The next root after one that is known can be computed if and only if the secret of one of the two keys
      mixed in is known. */
  lemma NextRootDerivableIff(root: Key, ends: set<Pub>, know: Knowledge)
    requires root in know.keys && StepRoot(root, Dh(ends)) !in know.keys && Dh(ends) !in know.keys
    ensures Derivable(StepRoot(root, Dh(ends)), know) <==> exists p :: p in ends && p in know.secrets
  {
  }

  /** How many roots lie behind a key. */
  function SpineDepth(key: Key): nat {
    match key
    case LowToHigh(root) => SpineDepth(root)
    case HighToLow(root) => SpineDepth(root)
    case StepRoot(root, _) => 1 + SpineDepth(root)
    case DhChain(root, _) => SpineDepth(root)
    case NextChain(chain) => SpineDepth(chain)
    case MsgKey(chain) => SpineDepth(chain)
    case _ => 0
  }

  lemma {:induction false} ComesFromDeeper(x: Key, key: Key)
    requires ComesFrom(x, key)
    ensures SpineDepth(x) <= SpineDepth(key)
    decreases key
  {
    if key == x {
    } else {
      match key
      case LowToHigh(root) => ComesFromDeeper(x, root);
      case HighToLow(root) => ComesFromDeeper(x, root);
      case StepRoot(root, _) => ComesFromDeeper(x, root);
      case DhChain(root, _) => ComesFromDeeper(x, root);
      case NextChain(chain) => ComesFromDeeper(x, chain);
      case MsgKey(chain) => ComesFromDeeper(x, chain);
    }
  }

  lemma {:induction false} SpineGrows(x: Key, y: Key)
    requires LeadsTo(x, y)
    ensures SpineDepth(x) <= SpineDepth(y)
  {
    if x == y {
    } else {
      SpineGrows(x, y.root);
    }
  }

  lemma {:induction false} SpineOfAdvance(chain: Key, i: nat)
    ensures SpineDepth(Advance(chain, i)) == SpineDepth(chain)
  {
    if i == 0 {
    } else {
      SpineOfAdvance(chain, i - 1);
    }
  }

  lemma EpochSpine(w: World, own: bool, q: nat, i: nat)
    requires Inv(w) && (if own then q < |w.ba.epochs| else q <= w.ab.seen < |w.ab.epochs|)
    ensures var e := if own then w.ba.epochs[q] else w.ab.epochs[q];
            SpineDepth(Advance(e.chain, i)) <= SpineDepth(w.b.root)
  {
    hide Inv, Advance, LeadsTo, IsChainStart;
    EpochShape(w, own, q);
    var e := if own then w.ba.epochs[q] else w.ab.epochs[q];
    SpineGrows(e.root, w.b.root);
    SpineOfAdvance(e.chain, i);
  }

  /** Nothing that a state holds lies behind more roots than its root. */
  lemma HeldIsShallow(w: World, key: Key)
    requires Inv(w) && key in HeldBy(w.b).keys
    ensures SpineDepth(key) <= SpineDepth(w.b.root) && !key.Dh?
  {
    hide Inv, Advance, IsChainStart, LeadsTo, KeyIn;
    StateHolds(w);
    RootsOf(w);
    var own, other := Last(w.ba.epochs), w.ab.epochs[w.ab.seen];
    EpochSpine(w, true, |w.ba.epochs| - 1, w.b.sendCount - own.first);
    EpochSpine(w, false, w.ab.seen, w.b.recvCount - other.first);
    EpochShape(w, true, |w.ba.epochs| - 1);
    EpochShape(w, false, w.ab.seen);
    OnChain(own.chain, w.b.sendCount - own.first);
    OnChain(other.chain, w.b.recvCount - other.first);
    if key in w.b.skipped.Values {
      var n :| n in w.b.skipped && w.b.skipped[n] == key;
      StoredSpine(w, n);
    } else {
      ChainStartsAreNotDh();
    }
  }

  lemma ChainStartsAreNotDh()
    ensures forall k :: IsChainStart(k) ==> !k.Dh?
  {
  }

  lemma StoredSpine(w: World, n: u32)
    requires Inv(w) && n in w.b.skipped
    ensures SpineDepth(w.b.skipped[n]) <= SpineDepth(w.b.root) && w.b.skipped[n].MsgKey?
  {
    hide Inv, Advance;
    StoredKeyIs(w, n);
    var e := w.ab.epochs[w.ab.sent[n].epoch];
    EpochSpine(w, false, w.ab.sent[n].epoch, n - e.first);
  }

  /** The peer that is about to rotate knows nothing of its next root but what it will mix in. */
  lemma NextRootUnknown(w: World, e: Secret, hint: Bytes)
    requires Inv(w) && MaySend(w, e, hint) && Rotates(w.a)
    ensures var x := DhSend(w.a, e).root;
            && x == StepRoot(w.a.root, Dh({e.point, w.b.public})) && !Derivable(x, HeldBy(w.a))
            && forall k :: k in HeldBy(w.a).keys ==> !ComesFrom(x, k)
  {
    hide Inv, Derivable, ComesFrom, MaySend;
    var v := Flip(w);
    InvFlips(w);
    RotatorKnows(w, e, hint);
    var x := DhSend(w.a, e).root;
    forall k | k in HeldBy(w.a).keys
      ensures !ComesFrom(x, k) && !k.Dh?
    {
      HeldIsShallow(v, k);
      if ComesFrom(x, k) {
        ComesFromDeeper(x, k);
      }
    }
    assert x !in HeldBy(w.a).keys by {
      if x in HeldBy(w.a).keys {
        HeldIsShallow(v, x);
      }
    }
    NextRootDerivableIff(w.a.root, {e.point, w.b.public}, HeldBy(w.a));
  }

  lemma RotatorKnows(w: World, e: Secret, hint: Bytes)
    requires Inv(w) && MaySend(w, e, hint) && Rotates(w.a)
    ensures w.a.remote == Some(w.b.public) && w.a.secret.point != e.point && w.a.secret.point != w.b.public
  {
    hide OneHistory, Deepening, DepthsDiffer, Above, Lineage, StoredKeys, SentOk, EpochsOk, Advance;
    RotatesToNewest(w);
    assert w.a.public == Last(w.ab.epochs).dh;
  }

  lemma UnderComesFrom(x: Key, key: Key)
    requires x.StepRoot? && Under(x, key)
    ensures ComesFrom(x, key)
  {
    ChainComesFrom(x, key.chain);
  }

  /** A rotation restores secrecy for the peer that rotates: whoever had its whole state before can compute
      no key of what it sends from then on, over any run. */
  lemma RotationRestoresSecrecy(w: World, e: Secret, hint: Bytes, calls: seq<Call>, r: Record)
    requires Inv(w) && MaySend(w, e, hint) && Rotates(w.a)
    requires r == RecordOf(w.a, e) || r in Records(AfterSend(w.a, e), calls)
    ensures !Derivable(r.key, HeldBy(w.a))
  {
    hide Inv, MaySend, Records, Derivable, ComesFrom, HeldBy, AfterSend, SendKey, LeadsTo;
    var x := DhSend(w.a, e).root;
    NextRootUnknown(w, e, hint);
    InvFlips(w);
    ReceiverHasOneOrigin(Flip(w));
    SendStaysWellFormed(w.a, e);
    RotatedIsBeyond(w.a, e);
    SendsBeyond(AfterSend(w.a, e), x, calls);
    UnderComesFrom(x, r.key);
    NothingFromUnknown(x, r.key, HeldBy(w.a));
  }

  lemma RotatedIsBeyond(s: State, e: Secret)
    requires Rotates(s)
    ensures Beyond(AfterSend(s, e), DhSend(s, e).root) && Under(DhSend(s, e).root, SendKey(s, e))
  {
  }

  // ---------------------------------------------------------------- secrecy not restored

  lemma {:induction false} PendingRootDerivable(w: World, q: nat)
    requires Inv(w) && w.ab.seen < q < |w.ab.epochs|
    ensures Derivable(w.ab.epochs[q].root, HeldBy(w.b)) && Derivable(w.ab.epochs[q].chain, HeldBy(w.b))
    decreases q
  {
    hide Log, Inbox, KeysApart, Lineage;
    assert OpenedInTurn(w.b.root, w.b.secret.point, w.ab, q);
    assert w.b.secret.point in {w.ab.epochs[q].dh, w.b.secret.point};
    if q == w.ab.seen + 1 {
      assert w.b.root in HeldBy(w.b).keys;
    } else {
      PendingRootDerivable(w, q - 1);
    }
  }

  lemma {:induction false} ChainDerivable(chain: Key, i: nat, know: Knowledge)
    requires Derivable(chain, know)
    ensures Derivable(Advance(chain, i), know)
  {
    if i == 0 {
    } else {
      ChainDerivable(chain, i - 1, know);
    }
  }

  /** It restores nothing for the other peer: whoever has the state of a peer can compute the keys of every
      epoch that is opened with its key, however often the sender rotates. */
  lemma RotationDoesNotHealPeer(w: World, n: nat)
    requires Inv(w) && n < |w.ab.sent| && w.ab.sent[n].epoch > w.ab.seen
    ensures w.ab.sent[n].frame.ct.Sealed? && Derivable(KeyOf(w.ab, n), HeldBy(w.b))
  {
    hide Inbox, OneHistory, KeysApart, Lineage, EpochsOk, SenderAt, Derivable, HeldBy, AadOf, Advance;
    Basics(w);
    assert SentOk(w.ab.epochs, n, w.ab.sent[n]);
    var e := w.ab.epochs[w.ab.sent[n].epoch];
    PendingRootDerivable(w, w.ab.sent[n].epoch);
    ChainDerivable(e.chain, n - e.first, HeldBy(w.b));
    assert Derivable(KeyIn(e, n), HeldBy(w.b)) by {
      MessageFromChain(Advance(e.chain, n - e.first), HeldBy(w.b));
    }
  }

  lemma MessageFromChain(chain: Key, know: Knowledge)
    requires Derivable(chain, know)
    ensures Derivable(MsgKey(chain), know)
  {
  }

  // ---------------------------------------------------------------- static secrets

  /** A static secret alone gives away exactly the messages of the first epoch, in either direction: the
      bootstrap mixes in no ephemeral key. */
  lemma StaticSecretOpensIff(w: World, n: nat, static_: Pub)
    requires Inv(w) && n < |w.ab.sent| && |w.ab.epochs| > 0 && |w.ba.epochs| > 0
    requires w.ab.epochs[0].root.InitialRoot? && w.ab.epochs[0].root.shared.Dh? && static_ in w.ab.epochs[0].root.shared.ends
    requires forall q :: 0 <= q < |w.ab.epochs| ==> w.ab.epochs[q].dh != static_
    requires forall q :: 0 <= q < |w.ba.epochs| ==> w.ba.epochs[q].dh != static_
    ensures w.ab.sent[n].frame.ct.Sealed?
    ensures Derivable(KeyOf(w.ab, n), Knowledge({}, {static_})) <==> w.ab.sent[n].epoch == 0
  {
    hide Inbox, OneHistory, KeysApart, EpochsOk, SenderAt, AadOf, Advance, Derivable, LeadsTo, Origin, MixesBoth;
    assert SentOk(w.ab.epochs, n, w.ab.sent[n]);
    var q := w.ab.sent[n].epoch;
    var e := w.ab.epochs[q];
    MessageDerivableIff(e, n, Knowledge({}, {static_}));
    if q == 0 {
      FirstChainFromStatic(e, static_);
    } else {
      assert MixesBoth(e, w.ba.epochs);
      RotatedChainHides(e, w.ba.epochs, static_);
    }
  }

  lemma FirstChainFromStatic(e: Epoch, static_: Pub)
    requires e.root.InitialRoot? && e.root.shared.Dh? && static_ in e.root.shared.ends
    requires e.chain in {LowToHigh(e.root), HighToLow(e.root)}
    ensures Derivable(e.chain, Knowledge({}, {static_}))
  {
  }

  lemma RotatedChainHides(e: Epoch, d: seq<Epoch>, static_: Pub)
    requires MixesBoth(e, d) && e.chain == DhChain(e.root, e.root.shared) && e.dh != static_
    requires forall q :: 0 <= q < |d| ==> d[q].dh != static_
    ensures !Derivable(e.chain, Knowledge({}, {static_}))
  {
  }
}
