/** One message from the keyboard of one peer to the screen of the other
    (`send_text`, `try_decrypt_incoming` in `src/bin/hashchat_tui.rs`). */
module MessagePath {
  import opened Crypto
  import opened Wire
  import opened Padding
  import opened Ratchet
  import opened Agreement
  import opened AgreementSend
  import opened AgreementDeliver
  import opened AgreementAnswer
  import opened AgreementTheorem

  const MAX_PLAINTEXT_SEND_BYTES: nat := 8 * 1024
  const MAX_HS_INBOUND_FRAME: nat := 16 * 1024
  const MAX_FRAMED_V3_BYTES: nat := 1 + 1 + 32 + 4 + 4 + 32 + 4 + 8448 + AEAD_OVERHEAD

  /** The bytes of a frame whose ciphertext is written as `blob`. */
  function OnTheWire(f: Frame, blob: Bytes): Bytes {
    EncodeV3(f.hint, f.step, f.epochStart, f.dh, blob)
  }

  /** What the receiver makes of a parsed frame; `ct` is what the ciphertext bytes stand for. */
  function Parsed(x: FrameV3, ct: Ciphertext): Frame {
    Frame(x.hint, x.step, x.epochStart, x.senderDh, ct)
  }

  /** The length on the wire depends on the size class and the hint length only, and fits the
      transport. */
  lemma WireLength(f: Frame, data: Bytes, blob: Bytes)
    requires |f.hint| <= MAX_HINT && |f.dh| == 32 && |data| <= MAX_PADDED_DATA && |blob| == |Padded(data)| + AEAD_OVERHEAD
    ensures |OnTheWire(f, blob)| == 46 + |f.hint| + ClassFor(|data|).value + AEAD_OVERHEAD
    ensures |OnTheWire(f, blob)| <= MAX_FRAMED_V3_BYTES <= MAX_HS_INBOUND_FRAME
  {
  }

  /** What `b` makes of the bytes of frame `n` of `a`: they parse into the header that was sealed, the
      frame opens, and the plaintext unpads to the message. */
  ghost predicate ReadsAs(w: World, n: nat, blob: Bytes, message: Bytes)
    requires n < |w.ab.sent|
  {
    var f := w.ab.sent[n].frame;
    var bytes := OnTheWire(f, blob);
    && |bytes| <= MAX_HS_INBOUND_FRAME
    && DecodeV3(bytes).Ok? && DecodeV3(bytes).value.ciphertext == blob && Parsed(DecodeV3(bytes).value, f.ct) == f
    && Open(w.b, f).result.Ok? && Unpad(Open(w.b, f).result.value.plaintext) == Ok(message)
  }

  lemma OpenableOpens(w: World, n: nat)
    requires n < |w.ab.sent| && Inv(w) && Openable(w, n)
    ensures Open(w.b, w.ab.sent[n].frame).result.Ok?
    ensures Open(w.b, w.ab.sent[n].frame).result.value.plaintext == w.ab.sent[n].plaintext
  {
    hide Inv, Open, Openable, AfterOpening, HeaderPasses, CaseOf;
    HonestAnswer(w, n);
  }

  /** Any frame that is openable yields the message that was padded into it. */
  lemma OpenableFrameIsRead(w: World, n: nat, message: Bytes, blob: Bytes)
    requires n < |w.ab.sent| && |message| <= MAX_PLAINTEXT_SEND_BYTES && |blob| == |Padded(message)| + AEAD_OVERHEAD
    requires w.ab.sent[n].plaintext == Padded(message) && Inv(w) && Openable(w, n)
    ensures ReadsAs(w, n, blob, message)
  {
    hide Inv, Open, Openable, Unpad, DecodeV3, Padded, ClassFor, EncodeV3;
    var f := w.ab.sent[n].frame;
    OpenableOpens(w, n);
    SentIsEncodable(w, n);
    WireLength(f, message, blob);
    DecodesToHeader(f, blob);
    UnpadPadded(message);
  }

  lemma EventKeepsLogs(w: World, event: Event)
    requires |w.ab.epochs| > 0 && Possible(w, event)
    ensures w.ab.sent <= Do(w, event).ab.sent && w.ba.sent <= Do(w, event).ba.sent
  {
    hide Open, SendFrame, AfterSend;
  }

  /** What was sent stays sent. */
  lemma {:induction false} RunKeepsLogs(w: World, run: seq<Action>)
    requires Admissible(w, run)
    ensures w.ab.sent <= Run(w, run).ab.sent && w.ba.sent <= Run(w, run).ba.sent
    decreases |run|
  {
    hide Do, Possible;
    if run == [] {
    } else {
      var v := View(w, run[0].flip);
      EventKeepsLogs(v, run[0].event);
      RunKeepsLogs(View(Do(v, run[0].event), run[0].flip), run[1..]);
    }
  }

  lemma SentLast(w: World, e: Secret, hint: Bytes, plaintext: Bytes)
    requires |w.ab.epochs| > 0
    ensures var v := SendStep(w, e, hint, plaintext);
            |v.ab.sent| == |w.ab.sent| + 1 && v.ab.sent[|w.ab.sent|].plaintext == plaintext
  {
  }

  /** `a` pads, seals and frames a message of up to MAX_PLAINTEXT_SEND_BYTES; anything admissible
      happens; whenever the frame then reaches `b` and is openable, `b` reads the message. */
  lemma MessageArrives(w: World, e: Secret, hint: Bytes, message: Bytes, v: World, run: seq<Action>, blob: Bytes)
    requires |message| <= MAX_PLAINTEXT_SEND_BYTES && |blob| == |Padded(message)| + AEAD_OVERHEAD
    requires |w.ab.epochs| > 0 && v == SendStep(w, e, hint, Padded(message))
    requires Inv(w) && MaySend(w, e, hint) && Admissible(v, run)
    ensures |w.ab.sent| < |Run(v, run).ab.sent|
    ensures Openable(Run(v, run), |w.ab.sent|) ==> ReadsAs(Run(v, run), |w.ab.sent|, blob, message)
  {
    hide Inv, MaySend, Admissible, Run, Openable, ReadsAs, SendStep, Padded, ClassFor;
    var u, n := Run(v, run), |w.ab.sent|;
    SendKeepsInv(w, e, hint, Padded(message));
    SentLast(w, e, hint, Padded(message));
    TwoPartyAgreement(v, run);
    RunKeepsLogs(v, run);
    assert u.ab.sent[n] == v.ab.sent[n];
    if Openable(u, n) {
      OpenableFrameIsRead(u, n, message, blob);
    }
  }

  lemma DecodesToHeader(f: Frame, blob: Bytes)
    requires |f.hint| <= MAX_HINT && |f.dh| == 32 && f.epochStart <= f.step && |blob| < 0x1_0000_0000
    ensures DecodeV3(OnTheWire(f, blob)) == Ok(FrameV3(f.hint, f.step, f.epochStart, f.dh, blob))
  {
    hide EncodeV3, DecodeV3;
    DecodeEncode(FrameV3(f.hint, f.step, f.epochStart, f.dh, blob));
  }

  lemma SentIsEncodable(w: World, n: nat)
    requires Inv(w) && n < |w.ab.sent|
    ensures var f := w.ab.sent[n].frame; |f.hint| <= MAX_HINT && |f.dh| == 32 && f.epochStart <= f.step
  {
    hide Inbox, OneHistory, Deepening, DepthsDiffer, Above, Lineage;
    assert SentOk(w.ab.epochs, n, w.ab.sent[n]);
  }
}
