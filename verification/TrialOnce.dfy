/** Whether a frame that was tried once opens again (`try_decrypt_incoming` in
    `src/bin/hashchat_tui.rs`). */
module TrialOnce {
  import opened Crypto
  import opened Padding
  import opened Ratchet
  import opened RatchetBlob
  import opened AtMostOnce
  import opened Agreement
  import opened AgreementAnswer
  import opened AgreementSend
  import opened AgreementTheorem
  import opened TrialDecrypt

  /** The stored ratchets after a trial, as `TryDecryptIncoming` leaves them. */
  function Kept(ratchets: seq<Slot>, t: Trial): seq<Slot> {
    if t.Delivered? then SetRatchet(ratchets, t.contact.id, t.blob) else ratchets
  }

  lemma PreparedSize(s: State, plan: Plan)
    requires |s.skipped| <= U32_MAX && Prepare(s, plan).Ok?
    ensures |Prepare(s, plan).value.skipped| <= U32_MAX
  {
    hide SkipTo;
    match plan
    case SameChain(_, step) => SkipBounded(s, step);
    case NewChain(remote, first, step) =>
      SkipBounded(s, first);
      SkipBounded(DhRecv(Skip(s, first).value, remote), step);
  }

  lemma OpenedSize(s: State, f: Frame)
    requires WellFormed(s) && |s.skipped| <= U32_MAX
    ensures |Open(s, f).state.skipped| <= U32_MAX
  {
    hide AadOf, Receive, Prepare;
    ReceiveIsTransactional(s, f.dh, f.step, Some(f.epochStart), f.ct, AadOf(f));
    var o := Open(s, f);
    if o.result.Ok? {
      var route :| Via(s, route, f.dh, f.step, Some(f.epochStart), f.ct, AadOf(f), o);
      match route
      case ByStoredKey => RemoveShrinks(s.skipped, f.step);
      case ByPlan(plan) => PreparedSize(s, plan);
    }
  }

  /** A ratchet that has opened a frame does not open it again. */
  lemma OpensOnce(s: State, f: Frame)
    requires WellFormed(s) && Open(s, f).result.Ok?
    ensures Open(Open(s, f).state, f).result.Err?
  {
    hide AadOf, Receive;
    var call := Recv(f.dh, f.step, Some(f.epochStart), f.ct, AadOf(f));
    CallKeeps(s, call);
    CallKeeps(After(s, call), call);
  }

  /** Let the stored ratchet of a contact that is not blocked open a frame. Once the trial has ended with
      that contact, its stored ratchet opens the frame again if and only if the plaintext was badly padded:
      the new ratchet is not stored in that case. */
  lemma OpensAgainIff(c: Contact, ratchets: seq<Slot>, blocked: set<Id>, f: Frame, blob: Blob, s: State)
    requires c.id !in blocked && Lookup(ratchets, c.id) == Some(blob) && Deserialize(blob) == Some(s)
    requires WellFormed(s) && Open(s, f).result.Ok?
    ensures TryContact(c, ratchets, blocked, f).Some?
    ensures var now := Lookup(Kept(ratchets, TryContact(c, ratchets, blocked, f).value), c.id);
            && now.Some? && Deserialize(now.value).Some?
            && (Open(Deserialize(now.value).value, f).result.Ok? <==> Unpad(Open(s, f).result.value.plaintext).Err?)
  {
    hide Open, Unpad, Deserialize, Serialize;
    var o := Open(s, f);
    if Unpad(o.result.value.plaintext).Ok? {
      DeserializedSize(blob);
      OpenedSize(s, f);
      DeserializeSerialize(o.state, []);
      assert Serialize(o.state) + [] == Serialize(o.state);
      LookupAfterSet(ratchets, c.id, Serialize(o.state), c.id);
      OpensOnce(s, f);
    }
  }

  lemma FirstFrameOpens(a: State, b: State, e: Secret, plaintext: Bytes)
    requires Inv(Start(a, b)) && a.remote.None? && a.sendCount == 0 && b.recvCount == 0 && b.skipped == map[]
    ensures var f := SendFrame(a, e, [], plaintext);
            Open(b, f).result.Ok? && Open(b, f).result.value.plaintext == plaintext
  {
    hide Open, Inv, AfterOpening;
    var w := Start(a, b);
    SendKeepsInv(w, e, [], plaintext);
    HonestAnswer(SendStep(w, e, [], plaintext), 0);
  }

  /** Such a frame: the peer seals an empty plaintext as the first frame of a session. It is refused for
      its padding, and opens as often as it arrives. */
  lemma BadPaddingOpensAgain(ea: Secret, sa: Secret, eb: Secret, sb: Secret, salt: Bytes, c: Contact)
    requires sa.point != sb.point && GoodPub(ea.point) && GoodPub(eb.point) && ea.point != eb.point
    ensures var s := Booted(eb, sb, sa.point, salt);
            var f := SendFrame(Booted(ea, sa, sb.point, salt), ea, [], []);
            var ratchets := [Slot(c.id, Serialize(s))];
            && TryInOrder([c], [0], ratchets, {}, f) == Trial.Refused(BadPadding)
            && Kept(ratchets, Trial.Refused(BadPadding)) == ratchets && Open(s, f).result.Ok?
  {
    hide Inv, Open, Leq, SendFrame, Serialize, Deserialize;
    var a, b := Booted(ea, sa, sb.point, salt), Booted(eb, sb, sa.point, salt);
    BootstrapStartsAgreement(ea, sa, eb, sb, salt);
    FirstFrameOpens(a, b, ea, []);
    DeserializeSerialize(b, []);
    assert Serialize(b) + [] == Serialize(b);
  }
}
