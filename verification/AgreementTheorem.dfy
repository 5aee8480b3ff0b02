/** Two-party agreement over every admissible run, and the start states it applies to. */
module AgreementTheorem {
  import opened Crypto
  import opened Ratchet
  import opened Agreement
  import opened AgreementSend
  import opened AgreementAnswer
  import opened AgreementRuns
  import opened AgreementKeys

  /** One event, told for peer `a` sending to peer `b`. */
  datatype Event =
    | Send(ephemeral: Secret, hint: Bytes, plaintext: Bytes)
    | Deliver(n: nat)
    | Inject(frame: Frame)

  /** `flip` swaps the roles of the peers. A frame that is lost is one that is never delivered. */
  datatype Action = Action(flip: bool, event: Event)

  function View(w: World, flip: bool): World {
    if flip then Flip(w) else w
  }

  predicate Possible(w: World, event: Event) {
    match event
    case Send(e, hint, _) => MaySend(w, e, hint)
    case Deliver(n) => n < |w.ab.sent|
    case Inject(f) => MayInject(w, f)
  }

  ghost function Do(w: World, event: Event): World
    requires |w.ab.epochs| > 0 && Possible(w, event)
  {
    match event
    case Send(e, hint, plaintext) => SendStep(w, e, hint, plaintext)
    case Deliver(n) => DeliverStep(w, n)
    case Inject(f) => InjectStep(w, f)
  }

  /** A frame of the other peer opens to the plaintext that was sent if and only if it is openable;
      everything else that arrives is refused and changes nothing. */
  ghost predicate Answered(w: World, event: Event)
    requires |w.ab.epochs| > 0 && Possible(w, event)
  {
    match event
    case Send(_, _, _) => true
    case Deliver(n) =>
      var o := Answer(w, n);
      if Openable(w, n) then o.result.Ok? && o.result.value.plaintext == w.ab.sent[n].plaintext && o.result.value.step == n
      else o.result.Err? && o.state == w.b
    case Inject(f) => Open(w.b, f).result.Err? && Open(w.b, f).state == w.b
  }

  lemma EventKeepsInv(w: World, event: Event)
    requires Inv(w) && Possible(w, event)
    ensures |w.ab.epochs| > 0 && Answered(w, event) && Inv(Do(w, event))
  {
    hide Inv, Open, MaySend, Openable, MayInject, AfterOpening;
    Basics(w);
    match event
    case Send(e, hint, plaintext) => SendKeepsInv(w, e, hint, plaintext);
    case Deliver(n) =>
      DeliverKeepsInv(w, n);
      HonestAnswer(w, n);
    case Inject(f) => InjectedRefused(w, f);
  }

  /** Every action of the run is possible when its turn comes. */
  ghost predicate Admissible(w: World, run: seq<Action>)
    decreases |run|
  {
    run == [] || (
      var v := View(w, run[0].flip);
      |v.ab.epochs| > 0 && Possible(v, run[0].event)
      && Admissible(View(Do(v, run[0].event), run[0].flip), run[1..]))
  }

  ghost function Run(w: World, run: seq<Action>): World
    requires Admissible(w, run)
    decreases |run|
  {
    if run == [] then w
    else Run(View(Do(View(w, run[0].flip), run[0].event), run[0].flip), run[1..])
  }

  ghost predicate AllAnswered(w: World, run: seq<Action>)
    requires Admissible(w, run)
    decreases |run|
  {
    run == [] || (
      var v := View(w, run[0].flip);
      Answered(v, run[0].event) && AllAnswered(View(Do(v, run[0].event), run[0].flip), run[1..]))
  }

  /** Two-party agreement. The channel may lose, reorder, repeat, withhold and forge frames as it likes;
      the peers rotate only when they have caught up. Then every arrival of an honest frame is answered
      as `Openable` says, with the plaintext sent, and every other frame is refused. */
  lemma {:induction false} TwoPartyAgreement(w: World, run: seq<Action>)
    requires Inv(w) && Admissible(w, run)
    ensures AllAnswered(w, run) && Inv(Run(w, run))
    decreases |run|
  {
    hide Inv, Possible, Do, Answered;
    if run == [] {
    } else {
      var v := View(w, run[0].flip);
      InvFlips(w);
      EventKeepsInv(v, run[0].event);
      var next := Do(v, run[0].event);
      InvFlips(next);
      TwoPartyAgreement(View(next, run[0].flip), run[1..]);
    }
  }

  // ---------------------------------------------------------------- bootstrap

  /** The state right after a bootstrap (contact link, or invite with its salt). */
  function Booted(ephemeral: Secret, identity: Secret, peer: Pub, salt: Bytes): State {
    InitDirectional(Fresh(ephemeral), DiffieHellman(identity, peer), identity.point, peer, salt)
  }

  function FirstChan(s: State): Chan {
    Chan([Epoch(s.public, 0, s.chainSend, s.root)], [], 0, {})
  }

  function Start(a: State, b: State): World {
    World(a, b, FirstChan(a), FirstChan(b))
  }

  /** The two peers of a bootstrap are mirror images of each other: one root, and each sends on the
      chain that the other receives on. */
  lemma BootstrapMirrors(ea: Secret, sa: Secret, eb: Secret, sb: Secret, salt: Bytes)
    requires sa.point != sb.point
    ensures var a, b := Booted(ea, sa, sb.point, salt), Booted(eb, sb, sa.point, salt);
            && a.root == b.root && a.chainSend == b.chainRecv && b.chainSend == a.chainRecv
            && a.chainSend != b.chainSend
  {
    LeqTotal(sa.point, sb.point);
    assert {sa.point, sb.point} == {sb.point, sa.point};
  }

  /** A new ratchet of the session with initial root `root`. */
  predicate Unused(s: State, root: Key) {
    && s.root == root && root.InitialRoot? && s.chainSend in {LowToHigh(root), HighToLow(root)}
    && s.remote.None? && s.sendCount == s.recvCount == s.sendsSinceDh == 0 && s.skipped == map[]
    && s.public == s.secret.point && GoodPub(s.public)
  }

  lemma UnusedStarts(a: State, b: State, root: Key)
    requires Unused(a, root) && Unused(b, root) && a.public != b.public
    requires a.chainSend == b.chainRecv && b.chainSend == a.chainRecv && a.chainSend != b.chainSend
    ensures Inv(Start(a, b))
  {
    hide Log, Inbox, OneHistory, KeysApart, Lineage;
    assert Log(a, FirstChan(a)) && Log(b, FirstChan(b)) by {
      UnusedLog(a, root);
      UnusedLog(b, root);
    }
    UnusedInbox(b, FirstChan(a), root);
    UnusedInbox(a, FirstChan(b), root);
    UnusedKeys(a, b, root);
  }

  lemma UnusedLog(s: State, root: Key)
    requires Unused(s, root)
    ensures Log(s, FirstChan(s))
  {
  }

  lemma UnusedInbox(r: State, c: Chan, root: Key)
    requires Unused(r, root) && |c.epochs| == 1 && c.epochs[0].first == 0 && r.chainRecv == c.epochs[0].chain
    requires c.sent == [] && c.seen == 0 && c.got == {}
    ensures Inbox(r, c)
  {
  }

  lemma UnusedKeys(a: State, b: State, root: Key)
    requires Unused(a, root) && Unused(b, root) && a.public != b.public && a.chainSend != b.chainSend
    ensures OneHistory(Start(a, b)) && KeysApart(Start(a, b)) && Lineage(Start(a, b))
  {
    hide KeysApart, Lineage;
    UnusedApart(a, b, root);
    UnusedLineage(a, b, root);
  }

  lemma UnusedApart(a: State, b: State, root: Key)
    requires Unused(a, root) && Unused(b, root) && a.public != b.public && a.chainSend != b.chainSend
    ensures KeysApart(Start(a, b))
  {
    hide Origin;
  }

  lemma UnusedLineage(a: State, b: State, root: Key)
    requires Unused(a, root) && Unused(b, root)
    ensures Lineage(Start(a, b))
  {
  }

  lemma BootedUnused(ephemeral: Secret, identity: Secret, peer: Pub, salt: Bytes)
    requires GoodPub(ephemeral.point)
    ensures var s := Booted(ephemeral, identity, peer, salt); Unused(s, s.root)
  {
    hide Leq;
  }

  /** Hence a bootstrap between distinct static keys starts admissible runs. */
  lemma BootstrapStartsAgreement(ea: Secret, sa: Secret, eb: Secret, sb: Secret, salt: Bytes)
    requires sa.point != sb.point && GoodPub(ea.point) && GoodPub(eb.point) && ea.point != eb.point
    ensures Inv(Start(Booted(ea, sa, sb.point, salt), Booted(eb, sb, sa.point, salt)))
  {
    hide Inv, Unused, Leq, Start;
    var a, b := Booted(ea, sa, sb.point, salt), Booted(eb, sb, sa.point, salt);
    BootstrapMirrors(ea, sa, eb, sb, salt);
    BootedUnused(ea, sa, sb.point, salt);
    BootedUnused(eb, sb, sa.point, salt);
    UnusedStarts(a, b, a.root);
  }

  /** Both together: from a bootstrap between distinct static keys, for all keys, salts and runs. So what
      is proved of worlds in the invariant holds of every world that such a run reaches. */
  lemma AgreementFromBootstrap(ea: Secret, sa: Secret, eb: Secret, sb: Secret, salt: Bytes, run: seq<Action>)
    requires sa.point != sb.point && GoodPub(ea.point) && GoodPub(eb.point) && ea.point != eb.point
    requires Admissible(Start(Booted(ea, sa, sb.point, salt), Booted(eb, sb, sa.point, salt)), run)
    ensures var start := Start(Booted(ea, sa, sb.point, salt), Booted(eb, sb, sa.point, salt));
            AllAnswered(start, run) && Inv(Run(start, run))
  {
    hide Inv, Booted;
    BootstrapStartsAgreement(ea, sa, eb, sb, salt);
    TwoPartyAgreement(Start(Booted(ea, sa, sb.point, salt), Booted(eb, sb, sa.point, salt)), run);
  }
}
