/** Several sessions side by side: when two of them share keys, and which contact a frame is delivered
    from (`init_directional_with_salt` in `src/rust/ratchet.rs`, `try_decrypt_incoming` in
    `src/bin/hashchat_tui.rs`). */
module Sessions {
  import opened Crypto
  import opened Padding
  import opened Ratchet
  import opened RatchetBlob
  import opened AtMostOnce
  import opened Agreement
  import opened AgreementKeys
  import opened AgreementAnswer
  import opened AgreementTheorem
  import opened TrialDecrypt

  // ---------------------------------------------------------------- roots of sessions

  lemma EndsInOrder(a: Pub, b: Pub, c: Pub, d: Pub)
    requires {a, b} == {c, d}
    ensures (if Leq(a, b) then a else b) == (if Leq(c, d) then c else d)
    ensures (if Leq(a, b) then b else a) == (if Leq(c, d) then d else c)
  {
    hide Leq;
    LeqTotal(a, b);
    assert a in {c, d} && b in {c, d} && c in {a, b} && d in {a, b};
  }

  /** Two salts do the same: they are equal, or both are none at all. */
  predicate SameSalt(salt: Bytes, salt': Bytes) {
    salt == salt' || (AllZero(salt) && AllZero(salt'))
  }

  /** Two bootstraps begin with the same root if and only if they are between the same static keys, on
      either side, and their salts do the same. */
  lemma SameSessionIff(e: Secret, s: Secret, peer: Pub, salt: Bytes, e': Secret, s': Secret, peer': Pub, salt': Bytes)
    ensures Booted(e, s, peer, salt).root == Booted(e', s', peer', salt').root
       <==> {s.point, peer} == {s'.point, peer'} && SameSalt(salt, salt')
  {
    hide Leq, EffectiveSalt, AllZero;
    NoSaltIff(salt);
    NoSaltIff(salt');
    if {s.point, peer} == {s'.point, peer'} {
      EndsInOrder(s.point, peer, s'.point, peer');
    }
  }

  /** Salts are 32 bytes in the program: between the same static keys every two different ones give
      different roots. */
  lemma SaltsSeparate(e: Secret, e': Secret, s: Secret, peer: Pub, salt: Bytes, salt': Bytes)
    requires |salt| == |salt'| == 32
    ensures Booted(e, s, peer, salt).root == Booted(e', s, peer, salt').root <==> salt == salt'
  {
    hide Booted;
    SameSessionIff(e, s, peer, salt, e', s, peer, salt');
    if AllZero(salt) && AllZero(salt') {
      assert salt == salt';
    }
  }

  /** A contact that is removed and added again: the new session uses the message keys of the old one
      again, step by step, if and only if the salts do the same. Two bootstraps without a salt always
      do, whatever the ephemeral keys. */
  lemma KeysRepeatIff(e: Secret, e': Secret, s: Secret, peer: Pub, salt: Bytes, salt': Bytes, k: nat)
    ensures MsgKey(Advance(Booted(e, s, peer, salt).chainSend, k)) == MsgKey(Advance(Booted(e', s, peer, salt').chainSend, k))
       <==> SameSalt(salt, salt')
  {
    hide Leq, EffectiveSalt, Advance, SameSalt;
    var a, b := Booted(e, s, peer, salt), Booted(e', s, peer, salt');
    SameSessionIff(e, s, peer, salt, e', s, peer, salt');
    OriginOfAdvance(a.chainSend, k);
    OriginOfAdvance(b.chainSend, k);
  }

  // ---------------------------------------------------------------- what a bootstrap sets

  /** The order on keys is that of their first differing byte. */
  lemma {:induction false} LeqIff(a: Bytes, b: Bytes)
    requires |a| == |b|
    ensures Leq(a, b) <==> a == b || exists i :: 0 <= i < |a| && a[..i] == b[..i] && a[i] < b[i]
  {
    if a == [] {
    } else if a[0] != b[0] {
      assert a[..0] == b[..0];
      forall i | 0 < i < |a|
        ensures a[..i] != b[..i]
      {
        assert a[..i][0] == a[0] && b[..i][0] == b[0];
      }
    } else {
      var c, d := a[1..], b[1..];
      LeqIff(c, d);
      assert a == [a[0]] + c && b == [b[0]] + d;
      if i :| 0 <= i < |c| && c[..i] == d[..i] && c[i] < d[i] {
        assert a[..i + 1] == [a[0]] + c[..i] && b[..i + 1] == [b[0]] + d[..i];
      }
      if i :| 0 <= i < |a| && a[..i] == b[..i] && a[i] < b[i] {
        assert c[..i - 1] == a[..i][1..] && d[..i - 1] == b[..i][1..];
      }
    }
  }

  /** The whole state after a bootstrap. The root comes from the shared secret of the static keys, these
      keys in ascending order, and the salt unless it is all zeros; the peer with the lower static key
      sends on the low-to-high chain and receives on the other. */
  lemma BootedIs(e: Secret, s: Secret, peer: Pub, salt: Bytes)
    ensures var t := Booted(e, s, peer, salt);
            && t.root.InitialRoot? && t.root.shared == Dh({s.point, peer}) && t.root.salt == (if AllZero(salt) then None else Some(salt))
            && {t.root.lo, t.root.hi} == {s.point, peer} && Leq(t.root.lo, t.root.hi)
            && (t.root.lo == s.point ==> t.chainSend == LowToHigh(t.root) && t.chainRecv == HighToLow(t.root))
            && (t.root.lo != s.point ==> t.chainSend == HighToLow(t.root) && t.chainRecv == LowToHigh(t.root))
            && (t.secret, t.public, t.remote) == (e, e.point, None)
            && (t.sendCount, t.recvCount, t.sendsSinceDh, t.skipped) == (0, 0, 0, map[])
  {
    hide Leq, EffectiveSalt, AllZero;
    NoSaltIff(salt);
    LeqTotal(s.point, peer);
  }

  // ---------------------------------------------------------------- sessions with different roots

  lemma SentKeyOrigin(w: World, n: nat)
    requires Inv(w) && n < |w.ab.sent|
    ensures w.ab.sent[n].frame.ct.Sealed? && Origin(KeyOf(w.ab, n)) == Origin(w.b.root)
  {
    hide Advance, AadOf, OneHistory, KeysApart, SenderAt, Inbox, KeyIn, Origin, EpochsOk, Shapes, Descends;
    assert SentOk(w.ab.epochs, n, w.ab.sent[n]);
    EpochKeyOrigin(w.ab.epochs[w.ab.sent[n].epoch], n);
  }

  /** Sessions with different initial roots never share a key, and no frame of one opens in the other. */
  lemma SessionsAreApart(w: World, v: World, m: nat)
    requires Inv(w) && Inv(v) && Origin(w.b.root) != Origin(v.b.root) && m < |v.ab.sent|
    ensures Open(w.b, v.ab.sent[m].frame).result.Err? && Open(w.b, v.ab.sent[m].frame).state == w.b
    ensures v.ab.sent[m].frame.ct.Sealed?
    ensures forall n :: 0 <= n < |w.ab.sent| ==> w.ab.sent[n].frame.ct.Sealed? && KeyOf(w.ab, n) != KeyOf(v.ab, m)
  {
    hide Inv, Open, Origin, ReceivesFrom, WellFormed;
    SentKeyOrigin(v, m);
    ReceiverHasOneOrigin(w);
    OpensOnlyFromOrigin(w.b, v.ab.sent[m].frame, Origin(w.b.root));
    forall n | 0 <= n < |w.ab.sent|
      ensures w.ab.sent[n].frame.ct.Sealed? && KeyOf(w.ab, n) != KeyOf(v.ab, m)
    {
      SentKeyOrigin(w, n);
    }
  }

  // ---------------------------------------------------------------- trial decryption among sessions

  /** What is stored for a contact receives with keys of one session only. */
  ghost predicate StoredFrom(c: Contact, ratchets: seq<Slot>, origin: Key) {
    Lookup(ratchets, c.id).Some? ==>
      Deserialize(Lookup(ratchets, c.id).value).Some? && ReceivesFrom(Deserialize(Lookup(ratchets, c.id).value).value, origin)
  }

  lemma CandidateOrigin(s: State, f: Frame, origin: Key)
    requires ReceivesFrom(s, origin) && CandidateKey(s, f).Some?
    ensures Origin(CandidateKey(s, f).value) == origin
  {
    hide Prepare;
    if f.step !in s.skipped {
      PlanOrigin(s, if s.remote.None? || s.remote == Some(f.dh) then SameChain(f.dh, f.step) else NewChain(f.dh, f.epochStart, f.step), origin);
    }
  }

  lemma KeyForOrigin(c: Contact, ratchets: seq<Slot>, blocked: set<Id>, f: Frame, origin: Key)
    requires StoredFrom(c, ratchets, origin) && KeyFor(c, ratchets, blocked, f).Some?
    ensures Origin(KeyFor(c, ratchets, blocked, f).value) == origin
  {
    hide CandidateKey, ReceivesFrom, Deserialize;
    CandidateOrigin(Deserialize(Lookup(ratchets, c.id).value).value, f, origin);
  }

  ghost predicate AllFrom(contacts: seq<Contact>, ratchets: seq<Slot>, origins: seq<Key>) {
    && |origins| == |contacts|
    && (forall i :: 0 <= i < |contacts| ==> StoredFrom(contacts[i], ratchets, origins[i]))
    && (forall i, j :: 0 <= i < j < |origins| ==> origins[i] != origins[j])
  }

  /** When the contacts' sessions have different roots, no two contacts try the same key. */
  lemma DifferentSessionsDiffer(contacts: seq<Contact>, ratchets: seq<Slot>, origins: seq<Key>, blocked: set<Id>, f: Frame)
    requires AllFrom(contacts, ratchets, origins)
    ensures AllParse(contacts, ratchets) && CandidatesDiffer(contacts, ratchets, blocked, f)
  {
    hide KeyFor, ReceivesFrom, Deserialize, Lookup;
    forall i, j | 0 <= i < j < |contacts| && KeyFor(contacts[i], ratchets, blocked, f).Some?
      ensures KeyFor(contacts[i], ratchets, blocked, f) != KeyFor(contacts[j], ratchets, blocked, f)
    {
      KeyForOrigin(contacts[i], ratchets, blocked, f, origins[i]);
      if KeyFor(contacts[j], ratchets, blocked, f).Some? {
        KeyForOrigin(contacts[j], ratchets, blocked, f, origins[j]);
      }
    }
  }

  /** So every order of the contacts gives the same answer to a frame without a 32-byte hint. */
  lemma OrderDoesNotMatterAmongSessions(contacts: seq<Contact>, p: seq<nat>, q: seq<nat>, ratchets: seq<Slot>, origins: seq<Key>,
                                        blocked: set<Id>, f: Frame)
    requires Permutation(p, |contacts|) && Permutation(q, |contacts|) && |f.hint| != 32 && AllFrom(contacts, ratchets, origins)
    ensures InRange(p, |contacts|) && InRange(q, |contacts|)
    ensures TryInOrder(contacts, p, ratchets, blocked, f) == TryInOrder(contacts, q, ratchets, blocked, f)
  {
    hide AllFrom, AllParse, CandidatesDiffer;
    DifferentSessionsDiffer(contacts, ratchets, origins, blocked, f);
    OrderDoesNotMatter(contacts, p, q, ratchets, blocked, f);
  }

  lemma OthersPass(w: World, n: nat, c: Contact, ratchets: seq<Slot>, blocked: set<Id>, origin: Key)
    requires Inv(w) && n < |w.ab.sent| && |w.ab.sent[n].frame.hint| != 32
    requires StoredFrom(c, ratchets, origin) && origin != Origin(w.b.root)
    ensures TryContact(c, ratchets, blocked, w.ab.sent[n].frame).None?
  {
    hide Inv, TryContact, KeyFor, ReceivesFrom, Deserialize, Lookup, Origin;
    var f := w.ab.sent[n].frame;
    if TryContact(c, ratchets, blocked, f).Some? {
      EndsByItsKey(c, ratchets, blocked, f);
      KeyForOrigin(c, ratchets, blocked, f, origin);
      SentKeyOrigin(w, n);
    }
  }

  lemma OwnAnswer(w: World, n: nat, c: Contact, ratchets: seq<Slot>, blocked: set<Id>, blob: Blob, message: Bytes)
    requires Inv(w) && n < |w.ab.sent| && c.id !in blocked && Lookup(ratchets, c.id) == Some(blob) && Deserialize(blob) == Some(w.b)
    requires |message| <= MAX_PADDED_DATA && w.ab.sent[n].plaintext == Padded(message)
    ensures var t := TryContact(c, ratchets, blocked, w.ab.sent[n].frame);
            if Openable(w, n) then t.Some? && t.value.Delivered? && t.value.contact == c && t.value.message == message else t.None?
  {
    hide Inv, Openable, Open, Unpad, Padded, AfterOpening, Serialize, Deserialize, CaseOf;
    HonestAnswer(w, n);
    UnpadPadded(message);
  }

  /** A frame of one session is delivered from that session's contact if and only if it is openable, and
      matches nobody otherwise, whatever sessions with other roots are stored and in whatever order the
      contacts are tried. */
  lemma DeliveredFromItsContact(w: World, n: nat, contacts: seq<Contact>, i: nat, order: seq<nat>, ratchets: seq<Slot>,
                                origins: seq<Key>, blocked: set<Id>, blob: Blob, message: Bytes)
    requires Inv(w) && n < |w.ab.sent| && |w.ab.sent[n].frame.hint| != 32
    requires |message| <= MAX_PADDED_DATA && w.ab.sent[n].plaintext == Padded(message)
    requires InRange(order, |contacts|) && i in order && AllFrom(contacts, ratchets, origins) && origins[i] == Origin(w.b.root)
    requires contacts[i].id !in blocked && Lookup(ratchets, contacts[i].id) == Some(blob) && Deserialize(blob) == Some(w.b)
    ensures var t := TryInOrder(contacts, order, ratchets, blocked, w.ab.sent[n].frame);
            if Openable(w, n) then t.Delivered? && t.contact == contacts[i] && t.message == message
            else t == Trial.Refused(NoMatchingRatchet)
  {
    hide Inv, Openable, TryContact, TryInOrder, Deserialize, Lookup, Origin, StoredFrom, Padded;
    var f := w.ab.sent[n].frame;
    OwnAnswer(w, n, contacts[i], ratchets, blocked, blob, message);
    forall j | 0 <= j < |contacts| && j != i
      ensures TryContact(contacts[j], ratchets, blocked, f).None?
    {
      OthersPass(w, n, contacts[j], ratchets, blocked, origins[j]);
    }
    if Openable(w, n) {
      TrialIsDecidedBy(contacts, order, ratchets, blocked, f, i);
    } else {
      TrialFindsNone(contacts, order, ratchets, blocked, f);
    }
  }
}
