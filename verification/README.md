# HashChat: the ratchet, its frames, queues and records

A model of the messaging core of HashChat, with proofs about whole runs of it.

- **Ratchet.** A Double Ratchet variant with one root shared by both directions, a send-side
  Diffie-Hellman step every `DH_SEND_EVERY` sends, skipped keys with eviction, and receiving on a
  scratch copy. `Ratchet.dfy` says what each operation computes; the class in `DoubleRatchet.dfy`
  does it in place and is proved against that. `AtMostOnce.dfy` and `SenderTrace.dfy` treat one
  peer facing arbitrary frames; the `Agreement*.dfy` files treat two peers over a channel that
  loses, reorders, duplicates and forges frames; `Delivery.dfy` shows that order does not matter
  and that the search for an epoch boundary refines the header field; `Retention.dfy` says when no
  skipped key is lost; `Collision.dfy`, `Fork.dfy` and `VersionOne.dfy` follow the runs on which
  agreement ends, and `Witnesses.dfy` gives such runs. `Secrecy.dfy` says which keys a captured state
  gives away, `Refusals.dfy` for which reason a frame is refused.
- **Frames.** `Wire.dfy`, `Padding.dfy`, `RatchetBlob.dfy`, with the place of every field in
  `Layouts.dfy`, and `MessagePath.dfy` for the way of one message from end to end.
- **Program state around it.** Trial decryption (`TrialDecrypt.dfy`, `TrialOrder.dfy`, `TrialOnce.dfy`)
  and several sessions side by side (`Sessions.dfy`), the outgoing queue (`OutboundQueue.dfy`,
  `QueueProgress.dfy`), one-time invites (`Invites.dfy`, `InviteAnswers.dfy`), the transcript with its
  decoy screen (`Text.dfy`, `SafeText.dfy`, `MessageBook.dfy`, `BookOperations.dfy`,
  `TranscriptCodec.dfy`), connection slots (`Slots.dfy`) and the random send delay (`Jitter.dfy`).

Methods are proved against functions on values. What such a function computes is stated once more
without it, by field, by error and by outcome, in `Refusals.dfy`, `Layouts.dfy`, `TrialOrder.dfy`,
`QueueProgress.dfy`, `InviteAnswers.dfy`, `SafeText.dfy`, `BookOperations.dfy` and `Sessions.dfy`
(`BootedIs`): a function that skipped a step or took another branch would not satisfy these.

Cryptography is symbolic (`Crypto.dfy`): HKDF (section 2 of RFC 5869) is a free constructor for each
label, X25519 (section 6.1 of RFC 7748) is an unordered pair of public keys, and AES-256-GCM opens
only under the same key and associated data. Clocks, random values and the fate of each network
attempt are parameters.

Agreement needs one thing of the schedule: a peer rotates only when it has processed a frame of the
other's newest epoch (`Agreement.MaySend`). The channel is free; which frames open is stated exactly
(`Agreement.Openable`). Where the code keeps less than its documentation suggests, the exact condition
is proved:

- Two peers that rotate at the same time accept nothing that the other sends from then on
  (`AgreementLimits.RotationOpensIff`, `Fork.CollisionIsForEver`), and ordinary use leads there
  (`Collision.BothDueIsReachable`).
- The test at `src/rust/ratchet.rs:1299` is named after the loss of a whole epoch, but what it loses
  is the end of one and the beginning of the next. While no frame of a rotated epoch has arrived, no
  frame of a later one is accepted (`AgreementAnswer.NewFrameOpensIff`, `Fork.MissedEpochIsForEver`);
  such a run is `Witnesses.MissedEpochIsReachable`.
- A version 1 blob restored in the middle of an epoch makes its owner announce the wrong start of that
  epoch: its frames open only at a receiver that is already in it (`VersionOne.RestoredFrameOpensIff`,
  `VersionOne.RestoredSearchOpensIff`, `Witnesses.RestoredFailureIsReachable`).
- `THREATMODEL.md:31` promises forward secrecy of the chains between two Diffie-Hellman steps. The state
  keeps the root and the Diffie-Hellman secret from which the present chains follow, so the keys of
  accepted and sent frames are out of reach only once the root has moved (`Secrecy.ForwardSecrecyIff`,
  `Secrecy.FirstKeyIsNotForwardSecret`). A rotation restores secrecy for the peer that rotates and not
  for the other (`Secrecy.RotationRestoresSecrecy`, `Secrecy.RotationDoesNotHealPeer`).
- A contact that is added again without a salt repeats all keys of the first epoch
  (`Sessions.KeysRepeatIff`).
- In the Extreme posture frames are lost by locking while some are pending, and by a send while 64 are
  waiting in memory: the limit is checked on the disk, where the queue is always empty
  (`OutboundQueue.EventConservesIff`, `OutboundQueue.FullExtremeSendIsLost`).
- After a load of bytes that contain the largest id, ids start again at 1 and may collide
  (`TranscriptCodec.FreshIdIff`, `TranscriptCodec.NextAddCollidesIff`).
- A frame that opens but is badly padded is reported and its ratchet is not stored, so it opens again
  (`TrialOnce.OpensAgainIff`, `TrialOnce.BadPaddingOpensAgain`).

`dafny verify dfyconfig.toml` checks the whole project.

## Model

| member | source | states |
|---|---|---|
| AgreementTheorem.TwoPartyAgreement | src/rust/ratchet.rs:503-577 | Two-party agreement: from any world in the invariant, over every run in which the peers rotate only when caught up, whatever the channel loses, reorders, repeats, withholds or forges: every honest frame that arrives opens to the plaintext and step it was sent with exactly when it is openable (not accepted before; if late, its key is still stored; if new, its epoch is in turn and the gap at most MAX_SKIP), every other frame is refused without effect, and the invariant holds at the end |
| AgreementTheorem.AgreementFromBootstrap | src/rust/contact_link.rs:263-277 | The same for all static keys that differ, all ephemeral keys, all salts and all runs, starting right after the bootstrap of both peers; so whatever is proved of worlds in the invariant holds of every world that such a run reaches |
| AgreementTheorem.BootstrapMirrors | src/rust/ratchet.rs:186-275 | Two bootstraps with each other's static keys give the same root, and the send chain of each peer is the receive chain of the other; the two chains differ |
| AgreementTheorem.BootstrapStartsAgreement | src/rust/ratchet.rs:186-275 | The pair of bootstrapped ratchets satisfies the invariant of the agreement theorem |
| AgreementTheorem.EventKeepsInv | src/rust/ratchet.rs:348-577 | One send, one arrival of any honest frame or one forged frame keeps the invariant, and is answered as agreement demands |
| AgreementSend.SendKeepsInv | src/rust/ratchet.rs:308-369 | A send keeps both peers on one linear root history, when a rotation is made only by a peer that has caught up |
| AgreementAnswer.HonestAnswer | src/rust/ratchet.rs:503-551 | The answer to every honest frame at any time and the whole state it leaves: it opens if and only if it is openable; late, its key is spent; new, in the same or the next epoch, the receiver moves up to it and keeps the highest of all keys passed; otherwise nothing changes |
| AgreementRuns.DeliverKeepsInv | src/rust/ratchet.rs:503-551 | Any arrival of any honest frame keeps the invariant: one root history, receive chain and counter in step with the sender's epoch, and each stored key the right one of a step passed and not accepted, with only the lowest ever evicted |
| AgreementDeliver.DuplicateRefused | src/rust/ratchet.rs:503-520 | A frame accepted before is refused and changes nothing |
| AgreementDeliver.LateOpensIff | src/rust/ratchet.rs:445-455 | A frame behind the counter opens if and only if its key is still stored, that is, it was neither accepted nor evicted; only that key is removed, and otherwise nothing changes |
| AgreementDeliver.SameEpochOpens | src/rust/ratchet.rs:531-540 | A frame at most MAX_SKIP ahead in the current epoch opens, whatever was lost before it and however full the store is, and leaves the state given |
| AgreementDeliver.NextEpochOpens | src/rust/ratchet.rs:543-551 | A frame of the next epoch opens across the boundary although the end of the old epoch and the beginning of the new one were lost, however full the store is |
| AgreementKeys.NoKeySealsTwoFrames | src/rust/ratchet.rs:293-369 | In every reachable world no message key seals two frames, in one direction or across both |
| AgreementKeys.ReflectedRefused | src/rust/ratchet.rs:520-529 | A peer's own frame of any epoch, old or new, sent back to it does not open |
| AgreementKeys.InjectedRefused | src/rust/ratchet.rs:503-577 | Any frame whose ciphertext is garbage, or sealed under any key that does not derive from this session's initial root (whatever Diffie-Hellman key its header names), or taken from an honest frame of either direction and put under another header (a single altered field suffices), is refused and leaves the receiver as it was |
| AgreementKeys.OpensOnlyFromOrigin | src/rust/ratchet.rs:293-337 | A peer accepts a frame only if it is sealed, with the associated data of its own header, under a key that derives from the peer's initial root, also after mixing in a Diffie-Hellman key of the attacker |
| Secrecy.ForwardSecrecyIff | THREATMODEL.md:31 | Forward secrecy and its exact limit, in every world of the invariant: from the whole state of a receiver the key of a frame that it has accepted can be computed if and only if its root has not moved since the epoch of that frame began; so the documented secrecy between two Diffie-Hellman steps does not hold |
| Secrecy.OwnForwardSecrecyIff | THREATMODEL.md:31 | The same for the frames that a peer has sent itself |
| Secrecy.FirstKeyIsNotForwardSecret | src/rust/ratchet.rs:2 | A concrete failure in every session: right after the first message was received its key can be computed from the state of the receiver |
| Secrecy.RotationRestoresSecrecy | src/rust/ratchet.rs:311-324 | Future secrecy of the peer that rotates: whoever held its whole state before the rotation can compute no message key that it uses from then on, over any run with any frames received in between |
| Secrecy.RotationDoesNotHealPeer | src/rust/ratchet.rs:326-337 | It restores nothing for the other peer: from that peer's state the keys of all epochs that it has yet to follow can be computed, however often the sender rotates |
| Secrecy.StaticSecretOpensIff | src/rust/ratchet.rs:231-275 | One static secret alone gives away the message keys of the first epoch of the sender, and of no other |
| Sessions.SameSessionIff | src/rust/ratchet.rs:225-275 | Two bootstraps begin with the same root if and only if they are between the same two static keys and their salts are equal or both all zeros |
| Sessions.SaltsSeparate | src/rust/ratchet.rs:225-252 | Between the same static keys any two different 32-byte salts give different roots |
| Sessions.BootedIs | src/rust/ratchet.rs:231-275 | The whole state after a bootstrap, field by field: the root comes from the shared secret, both static keys in ascending order and the salt unless it is all zeros; the peer with the lower key sends on the low-to-high chain and receives on the other; counters at zero, no remote key |
| Sessions.LeqIff | src/rust/ratchet.rs:238-242 | The order of static keys is decided by their first differing byte |
| Sessions.KeysRepeatIff | src/rust/ratchet.rs:225-230 | A contact that is added again uses the message keys of the old session again, step by step, if and only if the salts are equal or both all zeros; so without a salt they always repeat, whatever the ephemeral keys |
| Sessions.SessionsAreApart | src/rust/ratchet.rs:225-275 | Sessions with different initial roots share no message key, and no frame of one opens in the other |
| AgreementAnswer.NewFrameOpensIff | src/rust/ratchet.rs:543-551 | Exact condition: a frame beyond the counter opens if and only if its epoch is the current or the next one (the next only once a first frame was received) and the gap is at most MAX_SKIP; so a rotated epoch of which no frame arrives cannot be passed over |
| AgreementLimits.RotationOpensIff | src/rust/ratchet.rs:308-324 | Exact condition: the first frame of a rotation opens at a peer that has missed nothing if and only if the peer that rotated had processed a frame of the other's newest epoch |
| AgreementLimits.LeaderIsDeeper | src/rust/ratchet.rs:326-337 | A peer whose newest epoch the other has not seen stands on a strictly deeper root |
| Collision.SimultaneousRotationsBreak | src/rust/ratchet.rs:308-337 | When both peers rotate before either hears of it, the rotated frame of one does not open at the other |
| Fork.CollisionIsForEver | src/rust/ratchet.rs:308-337 | After such a collision no frame that one peer sends from then on is ever accepted by the other, over all runs of either peer with any frames in them |
| Fork.ForkNeverHeals | src/rust/ratchet.rs:293-337 | Roots on different histories stay on different histories over every run, whatever is sent and received |
| Fork.ForkedRefuses | src/rust/ratchet.rs:503-577 | A peer whose root lies on another history than a given root accepts no frame sealed at that root or later, at the end of any run |
| Fork.MissedEpochIsForEver | src/rust/ratchet.rs:543-551 | As long as no frame of the next epoch arrives, no frame of a later epoch is accepted either, sent already or still to be sent, over all runs of either peer with fresh ephemeral keys |
| Collision.BothDueIsReachable | src/rust/ratchet.rs:348-369 | Such a moment is reached by an admissible run from every bootstrap: five frames each way, of which only the fifth arrives |
| Witnesses.MissedEpochIsReachable | src/rust/ratchet.rs:543-551 | An admissible run from every bootstrap leads to a frame of the second epoch after the receiver's, which is refused, and to the hypotheses of `Fork.MissedEpochIsForEver` |
| Delivery.DeliveryIsConfluent | src/rust/ratchet.rs:385-455 | Let two orders of delivery, with any repetitions and refusals, lead to the same set of accepted frames, the first without evicting a key: they leave the same world if and only if the second evicts none either |
| Delivery.OrdersAgree | src/rust/ratchet.rs:385-455 | All orders in which every frame opens at its turn and the store has room lead to the same world once the same frames have arrived |
| Delivery.DeliveryLeavesExactly | src/rust/ratchet.rs:385-455 | In that world the counter is one past the highest step that arrived and the stored keys are the right keys of exactly the steps below it that did not |
| Retention.NothingIsEvicted | src/rust/ratchet.rs:121-131 | Over every admissible run during which never more than MAX_SKIPPED_KEYS frames are missing at a peer, no key is evicted: every frame passed and not accepted has its key stored |
| Retention.LateFramesOpen | src/rust/ratchet.rs:445-455 | Then a late frame opens if and only if it has not been accepted |
| Delivery.SearchFindsBoundary | src/rust/ratchet.rs:555-577 | The search over the distance to the epoch boundary, from any distance on, answers and commits exactly as the single attempt at the true boundary does if that lies ahead and within DH_SEND_EVERY steps of the frame, and fails without effect otherwise |
| Delivery.WrongGuessFails | src/rust/ratchet.rs:555-577 | An attempt at any other distance yields a different key: it does not open and changes nothing |
| Delivery.SearchRefinesHeader | src/rust/ratchet.rs:531-577 | For every honest frame, receiving by search succeeds exactly when receiving with `epoch_start` does, and leaves the same state |
| AtMostOnce.ReceiveIsTransactional | src/rust/ratchet.rs:421-577 | For any frame, forged or not: Err leaves the whole state unchanged; Ok is the one plan that the header calls for, run on the live state (or one stored key spent), and reports the step of the header; every attempt of the search included |
| AtMostOnce.FailureLeavesTheState | src/rust/ratchet.rs:421-577 | A receive that fails leaves the whole state unchanged |
| AtMostOnce.ReceiveIsBounded | src/rust/ratchet.rs:404-417 | One receive moves the counter by at most 2 * MAX_SKIP + 1, stores at most 2 * MAX_SKIP keys, only for steps it passes, never exceeds MAX_SKIPPED_KEYS, and what it evicts is below everything it keeps |
| AtMostOnce.CallKeeps | src/rust/ratchet.rs:348-577 | Every call keeps stored steps below the counter, never moves the counter back, and refuses spent and evicted steps, also when the counter has saturated |
| AtMostOnce.SpentStepsStayRefused | src/rust/ratchet.rs:503-577 | A step whose key was used or evicted is not accepted by any later call of any run |
| AtMostOnce.EachStepAcceptedAtMostOnce | src/rust/ratchet.rs:503-577 | Over every run of sends and receives with arbitrary frames, no step is accepted twice |
| AtMostOnce.NoLowOrderKeyIsAdopted | src/rust/ratchet.rs:520-529 | Over every run with arbitrary frames, the remote key a peer holds is never one of low order |
| Refusals.RefusedIff | src/rust/ratchet.rs:503-551 | Every refusal of a frame in any state, each error if and only if its reason is the first that applies: start after step, counter exhausted, own key reflected, new key of low order, step or boundary behind the counter, gap too large; whatever passes is refused only if the ciphertext does not open |
| Refusals.RefusedBeforeSearchIff | src/rust/ratchet.rs:503-560 | The same for a frame without `epoch_start`, up to the search |
| Refusals.SearchFailsAsItsLast | src/rust/ratchet.rs:555-577 | A search that fails answers as its last attempt did, at the largest distance tried |
| Refusals.SendIs | src/rust/ratchet.rs:348-369 | A send in any state: the next key of the chain, or after five sends with a remote key the first one of a new chain under the new secret and a root that mixes both keys; counters that stop at their limit; the receiving side untouched |
| SenderTrace.SendsOverARun | src/rust/ratchet.rs:287-369 | Over every run below saturation of the send counter, whatever is received in between: steps are consecutive, `epoch_start` read after a send is at most the step and changes exactly with the key in the header, and all message keys differ |
| SenderTrace.EpochStartIsFirstStep | src/rust/ratchet.rs:285-289 | In such a trace `epoch_start` is the present step with every new key and stays the same while the key does: it is the first step under the key |
| SenderTrace.BootstrapIsSender | src/rust/ratchet.rs:231-275 | Every bootstrap is a start of such runs, with its first epoch at step 0 |
| SenderTrace.RecordsFollow | src/rust/ratchet.rs:348-369 | How every later frame relates to the state before the run: its key is later in the order of derivations, its header key is the present one or a new one |
| SenderTrace.Cadence | src/rust/ratchet.rs:348-351 | Once a key has rotated, every epoch starts a multiple of DH_SEND_EVERY steps after it and has at most DH_SEND_EVERY frames |
| Ratchet.EvictFacts | src/rust/ratchet.rs:121-131 | Eviction removes the lowest steps only, only above the cap, and down to the cap |
| Ratchet.SkipKeeps | src/rust/ratchet.rs:404-417 | Of the keys stored before and those passed over, skipping keeps all or exactly the highest |
| Ratchet.SkipEvictsAboveCapOnly | src/rust/ratchet.rs:121-131 | Skipping evicts only when the keys stored and passed are more than MAX_SKIPPED_KEYS, and then keeps exactly that many |
| Ratchet.SkipClosed | src/rust/ratchet.rs:404-417 | Skipping in closed form while nothing is evicted: the chain advanced by the gap, and one key for each step passed |
| RatchetObject.DoubleRatchet.constructor | src/rust/ratchet.rs:85-98 | A new ratchet: no keys, no remote, counters at zero |
| RatchetObject.DoubleRatchet.InitDirectionalWithSalt | src/rust/ratchet.rs:231-275 | The whole state after the directional bootstrap, as the specification gives it |
| RatchetObject.DoubleRatchet.DhRatchetSend | src/rust/ratchet.rs:311-324 | The send-side Diffie-Hellman step, and nothing without a remote key |
| RatchetObject.DoubleRatchet.RatchetSend | src/rust/ratchet.rs:348-369 | The state after a send, the key and the step, with the rotation when it is due and saturating counters |
| RatchetObject.DoubleRatchet.StoreSkippedKey | src/rust/ratchet.rs:121-131 | The loop stores a key and evicts the lowest steps until the cap is met |
| RatchetObject.DoubleRatchet.NextRecvKey | src/rust/ratchet.rs:385-401 | The next receive key and its step; chain and counter move on |
| RatchetObject.DoubleRatchet.SkipRecvUntil | src/rust/ratchet.rs:404-417 | The loop reaches the specified state; stale and too-far targets are refused unchanged |
| RatchetObject.DoubleRatchet.DhRatchetRecv | src/rust/ratchet.rs:329-337 | The receive-side Diffie-Hellman step |
| RatchetObject.DoubleRatchet.CommitIfOpens | src/rust/ratchet.rs:421-441 | The work is done on a copy made through the blob; the object changes only if the frame opens, and then as if the plan had run on it directly |
| RatchetObject.DoubleRatchet.OpenSkippedKey | src/rust/ratchet.rs:445-455 | A stored key is spent only if it opens the frame |
| RatchetObject.DoubleRatchet.RecvInner | src/rust/ratchet.rs:503-577 | The receive path, with all its refusals in order and the search loop, refines the specification `Receive` |
| RatchetObject.DoubleRatchet.TryRecvDecryptEpoch | src/rust/ratchet.rs:489-501 | As `RecvInner`, after refusing an `epoch_start` beyond the step |
| RatchetObject.DoubleRatchet.ToBytes | src/rust/ratchet.rs:669-699 | The blob of the state, skipped keys in ascending order |
| RatchetObject.DoubleRatchet.FromBytes | src/rust/ratchet.rs:702-822 | The state a blob stands for, of either version, or an error, for every blob |
| RatchetBlob.DeserializeSerialize | src/rust/ratchet.rs:669-822 | `from_bytes` undoes `to_bytes` for every state, whatever the number of skipped keys |
| RatchetBlob.VersionOneResetsTheCadence | src/rust/ratchet.rs:702-822 | From a version 1 blob the whole state comes back, whatever the number of skipped keys, but for the count of sends since the rotation, which is zero |
| Layouts.BlobLayout | src/rust/ratchet.rs:669-699 | Where each field of the blob stands, and the size of the whole |
| Layouts.SkippedAscend | src/rust/ratchet.rs:692-697 | The skipped keys are written in ascending order of their steps |
| Layouts.TruncatedBlobRefused | src/rust/ratchet.rs:702-822 | A blob that is cut off anywhere is refused |
| Layouts.OtherVersionsRefused | src/rust/ratchet.rs:703-705 | Only versions 1 and 2 are read |
| Layouts.RemoteFlagIs | src/rust/ratchet.rs:722-734 | A blob yields a remote key exactly when the flag before it is 1 |
| VersionOne.RestoredFrameOpensIff | src/rust/ratchet.rs:770-782 | Exact condition, in every world of the invariant: a frame that the restored peer sends in the rest of its epoch opens by its header if and only if the receiver is already in that epoch and the gap is at most MAX_SKIP; a receiver in any earlier epoch opens none, although nothing was lost |
| VersionOne.RestoredSearchOpensIff | src/rust/ratchet.rs:555-577 | Exact condition for the search without the header: as above for a receiver in the epoch; one in the epoch before opens the frame if and only if the gap to the boundary is at most MAX_SKIP and the frame is among the first DH_SEND_EVERY of the epoch; any other opens none |
| Witnesses.RestoredFailureIsReachable | src/rust/ratchet.rs:770-782 | An admissible run from every bootstrap leads to a world in which no frame that the restored peer sends in the rest of its epoch opens by its header |
| Wire.AadV3Injective | src/rust/ratchet.rs:593-607 | Two v3 headers with hints of up to 32 bytes have the same associated data only if they are equal in every field |
| Wire.AadV2Injective | src/rust/ratchet.rs:581-590 | The same for the builder without `epoch_start`, version included |
| Wire.UnframeV3 | src/rust/wire.rs:144-183 | The cursor-driven parser answers as the specification does, for every byte string and with each error in order |
| Wire.DecodeEncode | src/rust/wire.rs:122-183 | `unframe_v3` undoes `frame_v3` |
| Wire.EncodeDecode | src/rust/wire.rs:122-183 | A byte string that `unframe_v3` accepts is what `frame_v3` writes for the parsed fields |
| Wire.AcceptsExactlyTheImage | src/rust/wire.rs:122-183 | `unframe_v3` accepts exactly the image of `frame_v3` |
| Layouts.FrameLayout | src/rust/wire.rs:121-140 | Each field of a v3 frame at its place, the hint cut to 32 bytes |
| Layouts.AadLayout | src/rust/ratchet.rs:592-607 | Each field of the v3 associated data at its place |
| Layouts.OldAadLayout | src/rust/ratchet.rs:580-590 | The same for the v2 associated data |
| Layouts.BigEndian | src/rust/ratchet.rs:587 | Numbers are written highest byte first |
| Layouts.FrameRefusedIff | src/rust/wire.rs:144-183 | Each error of `unframe_v3` if and only if its reason is the first that applies |
| Padding.ClassFor | src/rust/padding.rs:22-27 | The smallest size class that holds the data and its prefix; none exactly above the largest |
| Padding.Pad | src/rust/padding.rs:30-36 | The buffer filled in place holds length, data and zeros; longer data is refused |
| Padding.UnpadPadded | src/rust/padding.rs:30-57 | Unpadding undoes padding |
| Padding.PaddedUnpad | src/rust/padding.rs:40-57 | Only what padding writes is unpadded: each message has one padded form |
| Layouts.PaddedLayout | src/rust/padding.rs:30-36 | Length in two bytes, message, zeros, up to one of the five sizes |
| Layouts.PaddingRefusedIff | src/rust/padding.rs:40-57 | Each error of `unpad` if and only if its reason is the first that applies |
| MessagePath.WireLength | src/rust/wire.rs:108-119 | The length on the wire is a function of size class and hint length only, and fits MAX_FRAMED_V3_BYTES and the transport |
| MessagePath.OpenableFrameIsRead | src/bin/hashchat_tui.rs:2508-2598 | In every world of the invariant, any frame that is openable is parsed into the header it was sealed with, opened under the rebuilt associated data and unpadded to the message that was padded into it |
| MessagePath.MessageArrives | src/bin/hashchat_tui.rs:3032-3064 | For every message of up to MAX_PLAINTEXT_SEND_BYTES that is padded, sealed and framed: after any admissible run, whenever its frame reaches the other peer and is openable, it is read as that message |
| TrialDecrypt.OrderIsSortedPermutation | src/bin/hashchat_tui.rs:362-393 | `inbound_contact_order` is a permutation of the contacts, sorted by band and by index within a band |
| TrialDecrypt.SortedPermutationIsUnique | src/bin/hashchat_tui.rs:371-391 | There is only one such permutation, so the sort can return no other |
| TrialOrder.OrderIs | src/bin/hashchat_tui.rs:362-393 | Every contact is tried once, and of any two first the one with the key of a 32-byte hint; without a hint the active one, then the verified ones; otherwise in the order of the list |
| TrialOrder.TryContactIs | src/bin/hashchat_tui.rs:2535-2582 | How the trial of one contact ends, each outcome if and only if its reason holds |
| TrialOrder.NamedDecides | src/bin/hashchat_tui.rs:2533-2582 | A frame whose hint names a contact is decided by that contact if it decides at all, and is refused as blocked if that contact is blocked, whoever else could open it |
| TrialOrder.BlockedPlaysNoPart | src/bin/hashchat_tui.rs:2537-2547 | The ratchet of a blocked contact does not influence any answer |
| TrialDecrypt.App.TryDecryptIncoming | src/bin/hashchat_tui.rs:2533-2582 | The loop answers as the first contact in order that does not pass; only the ratchet of the contact of a delivered message is replaced, so bad padding stores nothing |
| TrialDecrypt.App.TryOne | src/bin/hashchat_tui.rs:2535-2582 | One round of the loop: blocked, no ratchet, unreadable ratchet, not opened, badly padded or delivered |
| TrialDecrypt.LookupAfterSet | src/rust/session_persist.rs:335-343 | Storing a ratchet changes what is found for that contact and for no other |
| TrialDecrypt.AtMostOneRatchetAdvances | src/bin/hashchat_tui.rs:2508-2598 | In whatever order contacts are tried, one frame changes the ratchet of at most the contact it is delivered from, and never that of a blocked one |
| TrialDecrypt.OrderDoesNotMatter | src/bin/hashchat_tui.rs:2536-2598 | For a frame without a 32-byte hint every two orders give the same answer, when all stored ratchets can be read and no two contacts would try the same key |
| Sessions.DifferentSessionsDiffer | src/bin/hashchat_tui.rs:2536-2598 | Stored ratchets of sessions with pairwise different initial roots never try the same key |
| Sessions.OrderDoesNotMatterAmongSessions | src/bin/hashchat_tui.rs:2536-2598 | So among such sessions every two orders of the contacts give the same answer to a frame without a 32-byte hint |
| Sessions.DeliveredFromItsContact | src/bin/hashchat_tui.rs:2536-2598 | A padded frame of one session without a 32-byte hint is delivered, with its message, from that session's contact if and only if it is openable, and matches nobody otherwise, whatever sessions with other roots are stored and in whatever order the contacts are tried |
| TrialOnce.OpensOnce | src/rust/ratchet.rs:503-551 | A ratchet that has opened a frame does not open it again |
| TrialOnce.OpensAgainIff | src/bin/hashchat_tui.rs:2562-2582 | Exact condition: after a trial that ended with a contact, its stored ratchet opens the same frame again if and only if the plaintext was badly padded |
| TrialOnce.BadPaddingOpensAgain | src/bin/hashchat_tui.rs:2562-2570 | A concrete case in every session: the first frame seals an empty plaintext; it is refused for its padding, nothing is stored, and it opens as often as it arrives |
| OutboundQueue.RunConservesIff | src/bin/hashchat_tui.rs:2284-2454 | Over every interleaving of sends, flushes, retries and lock and unlock, in every posture and with every fate of every attempt: committed frames are exactly those pending and those handed to Tor if and only if no event of the run was a losing one; and then disk and memory agree and the cap is kept |
| OutboundQueue.EventConservesIff | src/rust/session_persist.rs:443-466 | The losing events, exactly: in the Extreme posture, a lock while frames are pending, and a send that is committed while the queue in memory is full, unless its frame goes out at once and is not already queued |
| OutboundQueue.RunIsSound | src/bin/hashchat_tui.rs:2284-2454 | In every other posture no event loses a frame, so every run conserves them |
| OutboundQueue.FullExtremeSendIsLost | src/bin/hashchat_tui.rs:3069-3110 | A concrete loss without any lock: 64 different frames wait in the Extreme posture, and the next send that is held for its delay is committed and is nowhere |
| OutboundQueue.PendingOrHandedOnce | src/bin/hashchat_tui.rs:2284-2454 | When committed frames are distinct, each is either still pending, once, or was handed to Tor exactly once |
| OutboundQueue.HandedOnlyInTime | src/bin/hashchat_tui.rs:2284-2454 | A frame reaches Tor only by a send that is not to be held, by a flush once its delay has run out while it is still pending, or by a retry when it is not waiting for its delay; by flush and retry never while Tor is closed |
| QueueProgress.SendDoes | src/bin/hashchat_tui.rs:3069-3163 | Every outcome of a send, field by field: refused when the disk is full, recorded with its delay, pending, or handed over at once with one copy less pending |
| QueueProgress.RetrySends | src/bin/hashchat_tui.rs:2376-2454 | With Tor open, every pending frame that no delay holds goes where its attempt puts it: those taken are handed over in order, those that fail are pending again in order, behind the held ones; the disk is written if any was tried |
| QueueProgress.ClosedRetryWaits | src/bin/hashchat_tui.rs:2376-2390 | With Tor closed a retry changes nothing |
| QueueProgress.RetryDrains | src/bin/hashchat_tui.rs:2284-2454 | After any run outside the Extreme posture, one retry with Tor open, when no delay is running and all attempts succeed, leaves nothing pending, and everything ever committed has been handed to Tor |
| QueueProgress.FlushSends | src/bin/hashchat_tui.rs:2293-2372 | Delays that have run out are forgotten; with Tor open every frame is handed over as often as an attempt at it succeeds while it is pending, different ones in order; the disk is written exactly if something went out; with Tor closed nothing goes out |
| QueueProgress.DelayIsKept | src/bin/hashchat_tui.rs:2284-2454 | A frame that is held for its delay is not handed to Tor before, over any run in which the program is not locked and the frame is not sent again |
| QueueProgress.LockForgetsTheDelay | src/bin/hashchat_tui.rs:1334-1342 | A lock ends the delay: a concrete run in which a retry after it sends the frame early |
| OutboundQueue.RelockConservesIff | src/rust/session_persist.rs:779-805 | Locking and unlocking loses no frame if and only if the posture is not Extreme or nothing is pending |
| OutboundQueue.QueueAllFits | src/bin/hashchat_tui.rs:2407-2448 | Re-queuing within the cap drops nothing and keeps the order |
| OutboundQueue.App.QueuePendingFrame | src/rust/session_persist.rs:443-450 | Appends below the cap, refuses at it |
| OutboundQueue.App.AckPendingFrame | src/rust/session_persist.rs:454-466 | Removes the first exact match and nothing else |
| OutboundQueue.App.SendText | src/bin/hashchat_tui.rs:3069-3163 | Commit to disk, mirror in memory, then hold for jitter, queue or hand over; refused when the queue on disk is full |
| OutboundQueue.App.FlushHeldSends | src/bin/hashchat_tui.rs:2293-2372 | Due frames still pending are tried once each; the queue is saved if Tor took any |
| OutboundQueue.App.RetryPending | src/bin/hashchat_tui.rs:2376-2454 | Frames that are held back stay, the others are tried once each, failures are queued again |
| OutboundQueue.App.LockAndUnlock | src/bin/hashchat_tui.rs:1334-1370 | Held frames are forgotten, pending frames are what the disk has |
| Invites.PendingInvites.PurgeExpired | src/rust/invite.rs:405-407 | Exactly the unexpired invites stay |
| Invites.PendingInvites.Issue | src/rust/invite.rs:411-433 | Lifetime check, purge, cap, then the new invite with a saturating deadline |
| Invites.PendingInvites.Revoke | src/rust/invite.rs:436-438 | Removes one invite and says whether it was open |
| Invites.PendingInvites.Redeem | src/rust/invite.rs:442-451 | The invite is removed even when it has expired; the salt comes out only in time |
| Invites.PendingInvites.Accept | src/rust/invite.rs:457-474 | The invite is spent before the link is checked |
| Invites.PendingInvites.AcceptReply | src/rust/invite.rs:480-505 | The invite is spent, then the tag is checked, then the link |
| Invites.PendingInvites.OpenHello | src/rust/invite.rs:511-561 | Ledger and answer in every case: a hello that opens under no invite removes only expired ones; one that opens removes exactly the invite it opens under besides those, whatever it carries |
| Invites.OpensUnderOneAtMost | src/rust/invite.rs:334-346 | A frame opens under one invite at most, so the order of the loop does not matter |
| Invites.EventKeepsSound | src/rust/invite.rs:405-561 | Every event keeps at most 64 open invites, releases only the salt of an open invite, which is gone afterwards, and reopens none |
| Invites.ReleasedInTime | src/rust/invite.rs:411-451 | A salt comes out only before its deadline; only an issue adds an invite, with its own salt and a deadline at most 7 days ahead |
| InviteAnswers.IssueOpens | src/rust/invite.rs:411-433 | Every outcome of an issue: which refusal comes first, and the new invite with its salt and deadline, all others as they were after the purge |
| InviteAnswers.RedeemIff | src/rust/invite.rs:442-451 | The salt comes out if and only if the invite is open and has not expired, and the invite is gone in any case; each error has its reason |
| InviteAnswers.AcceptIff | src/rust/invite.rs:457-474 | A ratchet if and only if the invite is live, the link verifies and its key is not of low order; the invite is gone in any case |
| InviteAnswers.ReplyAcceptedIff | src/rust/invite.rs:480-505 | The same for a reply, and only with the tag made with the salt of that invite for this id and this link; any other tag is refused as such and spends the invite |
| InviteAnswers.HelloAcceptedIff | src/rust/invite.rs:511-561 | A hello frame that is sealed for a live invite spends it whatever it carries, and yields a ratchet if and only if it carries a reply to that invite with the right tag and a good link |
| InviteAnswers.OtherHelloRefused | src/rust/invite.rs:511-540 | Any other hello frame is refused, with each reason, and spends no live invite |
| InviteAnswers.RedeemerIff | src/rust/invite.rs:244-372 | The redeemer gets its ratchet and its hello frame if and only if the inviter's key is not of low order; the frame is sealed for the invite and carries the tagged reply |
| InviteAnswers.SessionsSpendInvites | src/rust/invite.rs:405-561 | Over every run with fresh ids no more ratchets come out than salts are released, each of which is released once |
| Invites.GoneStaysGone | src/rust/invite.rs:405-561 | An invite that is no longer open stays gone over every run with fresh ids, and its salt is never released again |
| Invites.EachSaltReleasedOnce | src/rust/invite.rs:405-561 | Over every run with fresh ids each salt is released at most once and at most 64 invites are open |
| Invites.ReplyStartsAgreement | src/rust/invite.rs:244-330 | The ratchet bootstrapped from an invite and the one made by accepting the reply to it satisfy the invariant of the agreement theorem |
| Invites.HelloOpensItsInvite | src/rust/invite.rs:349-372 | A hello frame made from an open invite opens under it and no other, carries the reply and releases exactly that salt |
| Invites.HelloStartsAgreement | src/rust/invite.rs:511-561 | The ratchet that `open_hello` answers with to such a frame and the one bootstrapped from the invite satisfy the invariant of the agreement theorem |
| Invites.ToBytes | src/rust/invite.rs:565-573 | The entries in ascending order of their ids |
| Invites.FromBytesBack | src/rust/invite.rs:565-595 | The stored ledger is read back as the same ledger |
| InviteAnswers.FromBytesIff | src/rust/invite.rs:577-595 | `from_bytes` accepts exactly rows of at most 64 entries with different ids, and reads from each its id, salt and deadline |
| InviteAnswers.LedgerAscends | src/rust/invite.rs:565-573 | The ledger is written in ascending order of the ids |
| Text.SanitizeForTerminal | src/rust/term_sanitize.rs:28-60 | Every code point is kept or replaced, and the result is safe |
| SafeText.SanitizedIs | src/rust/term_sanitize.rs:30-45 | By code point: tab, line feed and carriage return become a space; control characters, bidirectional controls, separators and annotation anchors become U+FFFD; every other one stays |
| SafeText.SanitizedIsHarmless | src/rust/term_sanitize.rs:52-60 | None of these is left, and text without them is not touched |
| SafeText.CleanedIsHarmless | src/rust/message_book.rs:100-113 | Nor does the cap bring one back: stored text is harmless and the beginning of the sanitized text |
| Text.CleanText | src/rust/message_book.rs:100-113 | Stepping back from the cap to a character boundary yields the longest prefix of whole characters of the sanitized text that fits the cap |
| Text.CleanTextIdempotent | src/rust/message_book.rs:100-113 | The result is safe and within the cap, and cleaning it again changes nothing |
| Text.FromUtf8Back | src/rust/message_book.rs:315-316 | Decoding undoes the encoding of every text |
| SafeText.AcceptsExactlyUtf8 | src/rust/message_book.rs:315-316 | Exactly the encodings of texts are accepted as UTF-8: no overlong form, no surrogate |
| SafeText.Utf8Examples | src/rust/message_book.rs:315-316 | The widths and the examples of RFC 3629 |
| MessageBook.Transcript.Add | src/rust/message_book.rs:158-178 | The new entry with its id and deadline; the oldest entries go above the cap; ids wrap past zero |
| BookOperations.AddStores | src/rust/message_book.rs:158-178 | The entry that an add appends, field by field: id, direction, time, delivery, saturating deadline and text, which is kept as it is if it is clean; the earlier entries but the oldest above 2000 |
| MessageBook.Transcript.SetDelivery | src/rust/message_book.rs:181-189 | The first own entry with the id changes its state |
| BookOperations.DeliveryChangesOne | src/rust/message_book.rs:181-189 | Only the first own entry with the id changes, and only in its delivery |
| MessageBook.Transcript.Delete | src/rust/message_book.rs:192-200 | The first entry with the id is removed |
| BookOperations.DeleteRemovesOne | src/rust/message_book.rs:192-200 | Only the first entry with the id is gone |
| MessageBook.Transcript.Clear | src/rust/message_book.rs:204-207 | Visible and parked entries are dropped |
| BookOperations.ClearLeavesNothing | src/rust/message_book.rs:204-207 | After a clear neither an unpark nor an export has anything of what was there |
| MessageBook.Transcript.Park | src/rust/message_book.rs:213-219 | The first park keeps the entries; a later one keeps what is parked |
| MessageBook.Transcript.Unpark | src/rust/message_book.rs:223-232 | The parked entries come back, if any |
| BookOperations.UnparkUndoesPark | src/rust/message_book.rs:213-232 | An unpark undoes a park, also after a second park |
| MessageBook.Transcript.PurgeExpired | src/rust/message_book.rs:240-248 | Exactly the unexpired entries stay, visible and parked, and the number dropped is returned |
| BookOperations.PurgeDropsExpired | src/rust/message_book.rs:240-248 | Exactly the entries whose deadline has not come stay, in order, visible and parked |
| MessageBook.Transcript.Export | src/rust/message_book.rs:258-277 | The bytes of the parked transcript while there is one, else of the visible one; of none when ephemeral |
| MessageBook.Transcript.Load | src/rust/message_book.rs:284-338 | The book after the bytes, or the book unchanged and the error |
| BookOperations.LoadReplaces | src/rust/message_book.rs:333-338 | Refused bytes change nothing; otherwise entries, next id and the parked transcript are replaced |
| BookOperations.LoadsExactlyTheEncodings | src/rust/message_book.rs:284-334 | `load` accepts exactly the encodings, within the limit on the size, of at most 2000 entries of which none has the id of an earlier one that has not expired; what it loads are these entries, without the expired ones and with clean text |
| BookOperations.HeaderRefused | src/rust/message_book.rs:284-296 | Which headers are too large and which are malformed |
| BookOperations.EntryTooLargeIff | src/rust/message_book.rs:297-318 | An entry is too large exactly when all before its text is well-formed and the length of the text is over the limit |
| BookOperations.EntryLayout | src/rust/message_book.rs:264-275 | Each field of an entry at its place, with the codes of the delivery states |
| MessageBook.ReadBook | src/rust/message_book.rs:284-334 | The reading loop answers as the specification does, for every byte string |
| TranscriptCodec.EventKeepsBook | src/rust/message_book.rs:158-338 | Every operation, a load of arbitrary bytes included, keeps ids distinct and below the next one, text clean, no deadline 0 and the cap, as long as the id counter does not wrap |
| TranscriptCodec.ExportFits | src/rust/message_book.rs:258-277 | The export of every such book is at most MAX_ENCODED_BYTES |
| TranscriptCodec.LoadExport | src/rust/message_book.rs:258-338 | Loading the export gives exactly the persisted entries that have not expired, in order, and the highest id of all of them |
| TranscriptCodec.EphemeralExportsNothing | src/rust/message_book.rs:258-265 | The export of an ephemeral book loads as an empty one |
| TranscriptCodec.FreshIdIff | src/rust/message_book.rs:284-338 | Exact condition: after a load the next id is above every id in the bytes, those of expired entries included, if and only if none of them is the largest 64-bit number |
| TranscriptCodec.NextAddCollidesIff | src/rust/message_book.rs:158-178 | After a load the next message gets an id that is already there if and only if the bytes contain the largest id and an entry with id 1 was kept |
| TranscriptCodec.WrappedIdCollides | src/rust/message_book.rs:336 | A concrete collision: the ids 1 and 2^64 - 1 are loaded and a message is added |
| TranscriptCodec.ExportReloadsFresh | src/rust/message_book.rs:258-338 | After loading the export of a well-formed book the next id is above every persisted one |
| TranscriptCodec.RunKeepsBook | src/rust/message_book.rs:158-338 | Every run of operations without wrap-around keeps a well-formed book well-formed |
| TranscriptCodec.ReachableBookRoundTrips | src/rust/message_book.rs:258-338 | Every book that a new one becomes over such a run has an export that fits and that loads as exactly what was persisted and has not expired |
| TranscriptCodec.DecoyRun | src/rust/message_book.rs:213-248 | Nothing done on the decoy screen but a purge touches what is parked |
| TranscriptCodec.DecoyIsolation | src/rust/message_book.rs:213-277 | From a park to its unpark, whatever happens on the decoy screen, an export encodes the primary transcript without what expired and the unpark restores exactly that |
| Slots.StepKeepsCount | src/rust/hidden_service.rs:242-260 | Each atomic step keeps the counter equal to the number of slots in use and at most `max`; the decrement does not wrap |
| Slots.LiveCountsSlots | src/rust/hidden_service.rs:242-293 | The same over every interleaving of any number of threads, spurious failures included |
| Slots.RefusedOnlyWhenFull | src/rust/hidden_service.rs:249-260 | A thread is refused only if all slots were in use at some moment since it entered or last saw a free one |
| Slots.FreeSlotIsTaken | src/rust/hidden_service.rs:249-260 | A thread that finds a slot free and is not disturbed gets it |
| Slots.DropFreesTheSlot | src/rust/hidden_service.rs:242-247 | A dropped slot can be had again |
| Slots.StepsAreOwn | src/rust/hidden_service.rs:242-293 | No step of another thread gives, takes or refuses a slot |
| Jitter.DelayFromSource | src/rust/send_jitter.rs:52-69 | The loop returns what the specification `Pick` says, for every source |
| Jitter.DelayInRange | src/rust/send_jitter.rs:52-69 | The delay is at most the maximum |
| Jitter.DelaysOfASetting | src/rust/send_jitter.rs:52-69 | The delays that a setting can give are exactly those from 0 to as many seconds, or to 120 if it is higher |
| Jitter.NoDrawGivesTheMaximum | src/rust/send_jitter.rs:57-69 | A source that fails, or 64 rejected draws, give the longest delay |
| Jitter.EachDelayHasEquallyManySources | src/rust/send_jitter.rs:57-67 | Each delay in milliseconds from 0 to the maximum has the same number of accepted 32-bit sources |
| Jitter.FirstAcceptedDrawDecides | src/rust/send_jitter.rs:59-67 | The delay is that of the first draw that is not rejected |
| Jitter.RejectedHasNoDelay | src/rust/send_jitter.rs:58-67 | A draw is rejected exactly when it is the source of no delay |

## Left out

- AgreementTheorem.TwoPartyAgreement: needs the rotations in turn; `AgreementLimits` and `Fork` say what happens otherwise. Runs start at a bootstrap or in any state of the invariant, which excludes states read from version 1 blobs (`VersionOne`). Send counters stay below saturation.
- AgreementKeys.InjectedRefused: the attacker has no key of the session; it may use any header, any bytes, any key of its own and any honest ciphertext.
- AtMostOnce.EachStepAcceptedAtMostOnce: runs contain sends and receives only, not `restore_state` or a skipped key stored or wiped from outside.
- Delivery.SearchRefinesHeader: compares the two receive paths on the same sealed frame; the associated data of v2 frames, which has no `epoch_start`, is treated in `Wire` only.
- RatchetObject.DoubleRatchet.FromBytes: as `RatchetBlob.DeserializeSerialize`, a blob cannot end inside a 32-byte field.
- RatchetBlob.DeserializeSerialize: secrets, public keys and derived keys are one cell each instead of 32 bytes; all other fields are bytes.
- OutboundQueue.RunConservesIff: saves succeed, no contact is deleted in between, and the posture does not change during the run.
- OutboundQueue.App.SendText: begins at the durable commit; the choice of contact and the size check before it are not modelled.
- Secrecy.ForwardSecrecyIff: the observer reads the state at one moment and knows all public keys and salts; the static secrets are not among what it holds (`Secrecy.StaticSecretOpensIff` is about these). Computation is by the derivations of the model only.
- TrialDecrypt.App.TryDecryptIncoming: begins with the parsed frame and ends with the unpadded bytes; the display text, the mute flag and the save that follows are not modelled.
- Invites.PendingInvites.Issue: formatting and signing of the link is one flag that says whether it succeeded; a failing random source is not modelled.
- TranscriptCodec.EventKeepsBook: stops where the 64-bit id counter would wrap around.
- Slots.LiveCountsSlots: threads are interleaved atomic steps, not methods; termination of the retry loop under endless spurious failures is not claimed.
- Real cryptography, nonces and the wiping of memory. The low-order X25519 points are represented by the all-zero key.
- `init_symmetric`, `init_from_shared`, `ratchet_recv`, `restore_state` and the v2 frame codec: earlier forms of what is modelled.
- Text formats and signatures of contact links, invites and replies: a link is its verified contents or one that does not verify, and a reply is its three parts.
- Sending a hello frame through the outgoing queue, changes of posture, contacts deleted while frames are pending.
- Sockets, SOCKS, the Tor control port, accept and read loops, files, drawing and commands.
