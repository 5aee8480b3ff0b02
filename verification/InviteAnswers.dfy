/** What the invite ledger answers and when (`src/rust/invite.rs`): who gets a ratchet out of an invite,
    and for which reason anyone else is refused. */
module InviteAnswers {
  import opened Crypto
  import opened Wire
  import opened Ratchet
  import AgreementTheorem
  import opened Invites

  /** The invite is open and has not expired. */
  predicate Live(open: Ledger, id: InviteId, now: u64) {
    id in open && now < open[id].expires
  }

  predicate LowOrder(p: Pub) {
    |p| == 32 && forall i :: 0 <= i < |p| ==> p[i] == 0
  }

  lemma LowOrderIff(p: Pub)
    ensures WasContributory(p) <==> !LowOrder(p)
  {
    if LowOrder(p) {
      assert p == Zeros(32);
    }
  }

  // ---------------------------------------------------------------- issuing, redeeming and purging

  lemma PurgeIs(open: Ledger, now: u64)
    ensures forall id :: id in Purged(open, now) <==> Live(open, id, now)
    ensures forall id :: id in Purged(open, now) ==> Purged(open, now)[id] == open[id]
  {
  }

  /** `issue`: a bad lifetime is refused before anything happens; then the expired invites go, and with
      fewer than 64 left the new one is open, under its id, with its salt, for its lifetime. */
  lemma IssueOpens(open: Ledger, now: u64, ttl: u64, id: InviteId, salt: Bytes, linkOk: bool)
    ensures var (next, r), kept := Issued(open, now, ttl, id, salt, linkOk), Purged(open, now);
            if ttl == 0 || ttl > 604800 then next == open && r == Err(BadTtl)
            else if |kept| >= 64 then next == kept && r == Err(TooManyPending)
            else if !linkOk then next == kept && r == Err(BadFormat)
            else
              && r == Ok(id) && id in next && next[id].salt == salt
              && next[id].expires == (if now + ttl <= U64_MAX then now + ttl else U64_MAX)
              && forall other :: other != id ==> (other in next <==> other in kept) && (other in next ==> next[other] == kept[other])
  {
    hide Purged;
  }

  lemma RedeemIff(open: Ledger, id: InviteId, now: u64)
    ensures var (next, r) := Redeemed(open, id, now);
            && next == open - {id} && (r.Ok? <==> Live(open, id, now)) && (r.Ok? ==> r.value == open[id].salt)
            && (r == Err(UnknownOrUsed) <==> id !in open) && (r == Err(Expired) <==> id in open && now >= open[id].expires)
  {
    if id !in open {
      assert open - {id} == open;
    }
  }

  // ---------------------------------------------------------------- accepting

  /** The ratchet that an invite starts with a peer. */
  function Started(open: Ledger, local: Secret, id: InviteId, peer: Pub, ephemeral: Secret): State
    requires id in open
  {
    AgreementTheorem.Booted(ephemeral, local, peer, open[id].salt)
  }

  /** `accept`: the invite is gone in any case. There is a ratchet if and only if the invite was live and
      the link verified and carried a key that is not of low order. */
  lemma AcceptIff(open: Ledger, local: Secret, id: InviteId, link: Link, now: u64, ephemeral: Secret)
    ensures var (next, r) := Accepted(open, local, id, link, now, ephemeral);
            && next == open - {id}
            && (r.Ok? <==> Live(open, id, now) && link.Signed? && !LowOrder(link.x25519))
            && (r.Ok? ==> r.value == Started(open, local, id, link.x25519, ephemeral))
            && (r == Err(BadSignature) <==> Live(open, id, now) && link.Unverifiable?)
            && (r == Err(DhFailed) <==> Live(open, id, now) && link.Signed? && LowOrder(link.x25519))
            && (r == Err(UnknownOrUsed) <==> id !in open) && (r == Err(Expired) <==> id in open && now >= open[id].expires)
  {
    hide AgreementTheorem.Booted, LowOrder, WasContributory, Redeemed;
    RedeemIff(open, id, now);
    if link.Signed? {
      LowOrderIff(link.x25519);
    }
  }

  /** The tag proves that its maker had the salt of the invite. */
  predicate Tagged(open: Ledger, r: Reply)
    requires r.id in open
  {
    r.tag.Mac? && r.tag.salt == open[r.id].salt && r.tag.id == r.id && r.tag.link == r.link
  }

  /** `accept_reply`: as `accept`, and only for a reply whose tag was made with the salt of the invite for
      this id and this link. Any other tag is refused, and the invite is gone. */
  lemma ReplyAcceptedIff(open: Ledger, local: Secret, reply: Option<Reply>, now: u64, ephemeral: Secret)
    ensures reply.None? ==> AcceptedReply(open, local, reply, now, ephemeral) == (open, Err(BadFormat))
    ensures reply.Some? ==>
              var r, (next, answer) := reply.value, AcceptedReply(open, local, reply, now, ephemeral);
              var live := Live(open, r.id, now);
              && next == open - {r.id}
              && (answer.Ok? <==> live && Tagged(open, r) && r.link.Signed? && !LowOrder(r.link.x25519))
              && (answer.Ok? ==> answer.value == Started(open, local, r.id, r.link.x25519, ephemeral))
              && (answer == Err(BadReplyTag) <==> live && !Tagged(open, r))
              && (answer == Err(BadSignature) <==> live && Tagged(open, r) && r.link.Unverifiable?)
              && (answer == Err(DhFailed) <==> live && Tagged(open, r) && r.link.Signed? && LowOrder(r.link.x25519))
              && (answer == Err(UnknownOrUsed) <==> r.id !in open)
              && (answer == Err(Expired) <==> r.id in open && now >= open[r.id].expires)
  {
    hide AgreementTheorem.Booted, LowOrder, WasContributory, Redeemed;
    if reply.Some? {
      RedeemIff(open, reply.value.id, now);
      if reply.value.link.Signed? {
        LowOrderIff(reply.value.link.x25519);
      }
    }
  }

  // ---------------------------------------------------------------- hello frames

  /** The frame is sealed for the invite: its key comes from the shared secret, the salt and the id, and
      its associated data are those of the header. */
  predicate SealedFor(open: Ledger, local: Secret, f: HelloFrame, id: InviteId)
    requires id in open
  {
    && f.hint == [] && f.step == 0 && f.epochStart == 0 && f.ct.HelloSeal?
    && f.ct.key == HelloKey(Dh({local.point, f.senderDh}), open[id].salt, id)
    && f.ct.aad == BuildWireAadV3([], 0, 0, f.senderDh)
  }

  predicate OpensLive(open: Ledger, local: Secret, f: HelloFrame, now: u64, id: InviteId) {
    Live(open, id, now) && !LowOrder(f.senderDh) && SealedFor(open, local, f, id)
  }

  lemma OpensLiveIff(open: Ledger, local: Secret, f: HelloFrame, now: u64, id: InviteId)
    ensures OpensUnder(open, local, f, now, id) <==> OpensLive(open, local, f, now, id)
  {
    hide BuildWireAadV3, WasContributory, LowOrder;
    LowOrderIff(f.senderDh);
    PurgeIs(open, now);
  }

  /** A reply for the invite that it came under, with its tag. */
  predicate RightReply(open: Ledger, f: HelloFrame, id: InviteId)
    requires id in open
  {
    f.ct.HelloSeal? && f.ct.body.Carries? && f.ct.body.reply.id == id && Tagged(open, f.ct.body.reply)
  }

  /** `open_hello` under the invite that the frame is sealed for: the invite is gone, whatever the frame
      carries. There is a ratchet if and only if it carries a reply to that invite, with the right tag and
      a link that verifies and whose key is not of low order. */
  lemma HelloAcceptedIff(open: Ledger, local: Secret, f: HelloFrame, now: u64, ephemeral: Secret, id: InviteId)
    requires OpensLive(open, local, f, now, id)
    ensures var (next, r) := HelloAnswered(open, local, f, now, ephemeral);
            && next == Purged(open, now) - {id}
            && (r.Ok? <==> RightReply(open, f, id) && f.ct.body.reply.link.Signed? && !LowOrder(f.ct.body.reply.link.x25519))
            && (r.Ok? ==> r.value == Started(open, local, id, f.ct.body.reply.link.x25519, ephemeral))
            && (r == Err(BadFormat) <==> f.ct.body.Unreadable?)
            && (r == Err(BadReplyTag) <==> !f.ct.body.Unreadable? && !RightReply(open, f, id))
  {
    hide AcceptedReply, LowOrder, Started, SealedFor, Purged, OpensUnder;
    OpensLiveIff(open, local, f, now, id);
    PurgeIs(open, now);
    OnlyOne(open, local, f, now, id);
    var kept := Purged(open, now);
    assert kept != map[];
    FrameIsHello(open, local, f, now, id);
    if f.ct.body.Carries? && f.ct.body.reply.id == id {
      AnswerUnder(open, local, f, now, ephemeral, id, f.ct.body.reply);
      ReplyAcceptedIff(kept, local, Some(f.ct.body.reply), now, ephemeral);
      SameStart(kept, open, local, id, ephemeral);
    }
  }

  lemma SameStart(kept: Ledger, open: Ledger, local: Secret, id: InviteId, ephemeral: Secret)
    requires id in kept && id in open && kept[id] == open[id]
    ensures forall peer :: Started(kept, local, id, peer, ephemeral) == Started(open, local, id, peer, ephemeral)
  {
  }

  lemma OnlyOne(open: Ledger, local: Secret, f: HelloFrame, now: u64, id: InviteId)
    requires OpensUnder(open, local, f, now, id)
    ensures forall other :: OpensUnder(open, local, f, now, other) ==> other == id
  {
    hide OpensUnder;
    forall other | OpensUnder(open, local, f, now, other)
      ensures other == id
    {
      OpensUnderOneAtMost(open, local, f, now, id, other);
    }
  }

  lemma FrameIsHello(open: Ledger, local: Secret, f: HelloFrame, now: u64, id: InviteId)
    requires OpensUnder(open, local, f, now, id)
    ensures LooksLikeHello(f) && WasContributory(f.senderDh) && f.ct.HelloSeal?
  {
  }

  /** Any other frame gets no ratchet. One that is not made like a hello frame changes nothing; all others
      remove the expired invites, and no live one. */
  lemma OtherHelloRefused(open: Ledger, local: Secret, f: HelloFrame, now: u64, ephemeral: Secret)
    requires forall id :: !OpensLive(open, local, f, now, id)
    ensures HelloAnswered(open, local, f, now, ephemeral)
         == if f.hint != [] || f.step != 0 || f.epochStart != 0 then (open, Err(BadFormat))
            else (Purged(open, now), Err(if (exists id :: Live(open, id, now)) && LowOrder(f.senderDh) then DhFailed else UnknownOrUsed))
  {
    hide OpensUnder, OpensLive, Purged, AcceptedReply, LowOrder, Live;
    PurgeIs(open, now);
    LowOrderIff(f.senderDh);
    forall id
      ensures !OpensUnder(open, local, f, now, id)
    {
      OpensLiveIff(open, local, f, now, id);
    }
    if id :| Live(open, id, now) {
      assert id in Purged(open, now);
    } else {
      assert Purged(open, now).Keys == {};
    }
  }

  // ---------------------------------------------------------------- the redeemer

  /** The redeemer gets its ratchet, and its hello frame, if and only if the inviter's key is not of low
      order. The frame is sealed for the invite under the fresh key, and carries the tagged reply. */
  lemma RedeemerIff(inv: Invite, link: Link, local: Secret, ephemeral: Secret)
    ensures var t, f := BootstrapFromInvite(local, inv, ephemeral), InviteHelloFrame(inv, link, ephemeral);
            && (t.Ok? <==> !LowOrder(inv.x25519)) && (f.Ok? <==> !LowOrder(inv.x25519))
            && (t.Ok? ==> t.value == AgreementTheorem.Booted(ephemeral, local, inv.x25519, inv.salt))
            && (f.Ok? ==>
                  && f.value.senderDh == ephemeral.point && f.value.ct.HelloSeal?
                  && f.value.ct.key == HelloKey(Dh({ephemeral.point, inv.x25519}), inv.salt, inv.id)
                  && f.value.ct.body == Carries(Reply(inv.id, Mac(inv.salt, inv.id, link), link)))
            && (LowOrder(inv.x25519) ==> t == Err(DhFailed) && f == Err(DhFailed))
  {
    hide AgreementTheorem.Booted, BuildWireAadV3, LowOrder, WasContributory;
    LowOrderIff(inv.x25519);
  }

  // ---------------------------------------------------------------- sessions over a run

  /** Whether the event ends with a new ratchet. */
  ghost predicate Starts(open: Ledger, ev: Event) {
    match ev
    case Accept(local, id, link, now, ephemeral) => Accepted(open, local, id, link, now, ephemeral).1.Ok?
    case AcceptReply(local, reply, now, ephemeral) => AcceptedReply(open, local, reply, now, ephemeral).1.Ok?
    case OpenHello(local, f, now, ephemeral) => HelloAnswered(open, local, f, now, ephemeral).1.Ok?
    case _ => false
  }

  ghost function SessionCount(open: Ledger, run: seq<Event>): nat
    decreases |run|
  {
    if run == [] then 0 else (if Starts(open, run[0]) then 1 else 0) + SessionCount(After(open, run[0]).0, run[1..])
  }

  lemma HelloReleasesIt(open: Ledger, local: Secret, f: HelloFrame, now: u64, ephemeral: Secret)
    requires HelloAnswered(open, local, f, now, ephemeral).1.Ok?
    ensures HelloReleases(open, local, f, now).Some?
  {
    hide OpensUnder, OpensLive, LowOrder, Started, Tagged;
    if id :| OpensUnder(open, local, f, now, id) {
      OpensLiveIff(open, local, f, now, id);
      HelloAcceptedIff(open, local, f, now, ephemeral, id);
      OnlyOne(open, local, f, now, id);
      LiveStays(open, local, f, now, id);
    } else {
      forall id
        ensures !OpensLive(open, local, f, now, id)
      {
        OpensLiveIff(open, local, f, now, id);
      }
      OtherHelloRefused(open, local, f, now, ephemeral);
    }
  }

  lemma LiveStays(open: Ledger, local: Secret, f: HelloFrame, now: u64, id: InviteId)
    requires OpensUnder(open, local, f, now, id)
    ensures Release(Purged(open, now), id, now).1 == Some(id)
  {
  }

  /** A new ratchet always spends the salt of an invite. */
  lemma StartReleases(open: Ledger, ev: Event)
    requires Starts(open, ev)
    ensures After(open, ev).1.Some?
  {
    hide HelloAnswered, HelloReleases, FromLink;
    match ev
    case OpenHello(local, f, now, ephemeral) => HelloReleasesIt(open, local, f, now, ephemeral);
    case _ =>
  }

  /** So over every run with fresh ids there are no more new ratchets than invites, each of which gives one
      at most. */
  lemma {:induction false} SessionsSpendInvites(open: Ledger, issued: set<InviteId>, run: seq<Event>)
    requires Sound(open, issued) && FreshRun(issued, run)
    ensures SessionCount(open, run) <= |Released(open, run)|
    decreases |run|
  {
    hide After, Starts, FreshId;
    if run == [] {
    } else {
      EventKeepsSound(open, issued, run[0]);
      SessionsSpendInvites(After(open, run[0]).0, IssuedBy(issued, run[0]), run[1..]);
      if Starts(open, run[0]) {
        StartReleases(open, run[0]);
      }
    }
  }

  // ---------------------------------------------------------------- the stored ledger

  /** The ids stand in ascending order. */
  ghost predicate Ascending(raw: Bytes, n: nat)
    requires |raw| == 56 * n
  {
    forall i, j :: 0 <= i < j < n ==> Leq(IdAt(raw, i), IdAt(raw, j))
  }

  ghost predicate AllFrom(raw: Bytes, n: nat, open: Ledger)
    requires |raw| == 56 * n
  {
    forall i :: 0 <= i < n ==> IdAt(raw, i) in open
  }

  lemma AscendingCons(raw: Bytes, n: nat, open: Ledger, id: InviteId)
    requires |raw| == 56 * n && n > 0 && IsFirst(open, id) && IdAt(raw, 0) == id
    requires AllFrom(raw[56..], n - 1, open - {id}) && Ascending(raw[56..], n - 1)
    ensures Ascending(raw, n) && AllFrom(raw, n, open)
  {
    hide IdAt, Leq;
    NextEntry(raw, n);
    forall i | 0 <= i < n
      ensures IdAt(raw, i) in open
    {
      if i > 0 {
        assert IdAt(raw[56..], i - 1) == IdAt(raw, i) && IdAt(raw[56..], i - 1) in open - {id};
      }
    }
    forall i, j | 0 <= i < j < n
      ensures Leq(IdAt(raw, i), IdAt(raw, j))
    {
      assert IdAt(raw[56..], j - 1) == IdAt(raw, j);
      if i > 0 {
        assert IdAt(raw[56..], i - 1) == IdAt(raw, i);
      } else {
        assert IdAt(raw, j) in open;
      }
    }
  }

  /** `to_bytes` writes the invites in ascending order of their ids. */
  lemma {:induction false} LedgerAscends(open: Ledger)
    requires Sized(open)
    ensures |LedgerBytes(open)| == 56 * |open| && Ascending(LedgerBytes(open), |open|) && AllFrom(LedgerBytes(open), |open|, open)
    decreases |open|
  {
    hide EntryBytes, Sized, Ascending, AllFrom, IsFirst;
    LedgerSize(open);
    if open == map[] {
      NothingAscends();
    } else {
      var id, raw := First(open), LedgerBytes(open);
      TakeOne(open, id);
      SizedRest(open, id);
      LedgerAscends(open - {id});
      StartsWithId(id, open[id], LedgerBytes(open - {id}));
      assert raw[56..] == LedgerBytes(open - {id});
      AscendingCons(raw, |open|, open, id);
    }
  }

  lemma NothingAscends()
    ensures Ascending([], 0) && AllFrom([], 0, map[])
  {
  }

  lemma StartsWithId(id: InviteId, e: Pending, rest: Bytes)
    requires |id| == 16 && |EntryBytes(id, e)| == 56
    ensures |EntryBytes(id, e) + rest| >= 56 && IdAt(EntryBytes(id, e) + rest, 0) == id
  {
  }

  function IdAt(raw: Bytes, k: nat): InviteId
    requires 56 * k + 56 <= |raw|
  {
    raw[56 * k..56 * k + 16]
  }

  function PendingAt(raw: Bytes, k: nat): Pending
    requires 56 * k + 56 <= |raw|
  {
    Pending(raw[56 * k + 16..56 * k + 48], FromBe64(raw[56 * k + 48..56 * k + 56]))
  }

  /** The ids of the `n` entries are different from one another and from those found. */
  ghost predicate IdsDiffer(raw: Bytes, n: nat, found: Ledger)
    requires |raw| == 56 * n
  {
    && (forall i, j :: 0 <= i < j < n ==> IdAt(raw, i) != IdAt(raw, j))
    && (forall i :: 0 <= i < n ==> IdAt(raw, i) !in found)
  }

  lemma NextEntry(raw: Bytes, n: nat)
    requires |raw| == 56 * n && n > 0
    ensures forall k :: 0 <= k < n - 1 ==> IdAt(raw[56..], k) == IdAt(raw, k + 1) && PendingAt(raw[56..], k) == PendingAt(raw, k + 1)
  {
    hide FromBe64;
    var tail := raw[56..];
    forall k | 0 <= k < n - 1
      ensures IdAt(tail, k) == IdAt(raw, k + 1) && PendingAt(tail, k) == PendingAt(raw, k + 1)
    {
      assert tail[56 * k..56 * k + 16] == raw[56 * (k + 1)..56 * (k + 1) + 16];
      assert tail[56 * k + 16..56 * k + 48] == raw[56 * (k + 1) + 16..56 * (k + 1) + 48];
      assert tail[56 * k + 48..56 * k + 56] == raw[56 * (k + 1) + 48..56 * (k + 1) + 56];
    }
  }

  lemma IdsDifferCons(raw: Bytes, n: nat, found: Ledger, e: Pending)
    requires |raw| == 56 * n && n > 0
    ensures IdsDiffer(raw, n, found) <==> IdAt(raw, 0) !in found && IdsDiffer(raw[56..], n - 1, found[IdAt(raw, 0) := e])
  {
    hide IdAt;
    NextEntry(raw, n);
    var tail, more := raw[56..], found[IdAt(raw, 0) := e];
    if IdAt(raw, 0) !in found && IdsDiffer(tail, n - 1, more) {
      forall i, j | 0 <= i < j < n
        ensures IdAt(raw, i) != IdAt(raw, j)
      {
        assert IdAt(tail, j - 1) == IdAt(raw, j) && IdAt(tail, j - 1) !in more;
        if i > 0 {
          assert IdAt(tail, i - 1) == IdAt(raw, i);
        }
      }
      forall i | 0 <= i < n
        ensures IdAt(raw, i) !in found
      {
        if i > 0 {
          assert IdAt(tail, i - 1) == IdAt(raw, i) && IdAt(tail, i - 1) !in more;
        }
      }
    }
  }

  /** What is read: everything found before, and each of the `n` entries under its id. */
  ghost predicate HasEntries(open: Ledger, raw: Bytes, n: nat, found: Ledger)
    requires |raw| == 56 * n
  {
    && |open| == |found| + n
    && (forall id :: id in found ==> id in open && open[id] == found[id])
    && (forall k :: 0 <= k < n ==> IdAt(raw, k) in open && open[IdAt(raw, k)] == PendingAt(raw, k))
  }

  lemma OneMore(found: Ledger, id: InviteId, e: Pending)
    requires id !in found
    ensures |found[id := e]| == |found| + 1
  {
    assert found[id := e].Keys == found.Keys + {id};
  }

  lemma HasEntriesCons(open: Ledger, raw: Bytes, n: nat, found: Ledger)
    requires |raw| == 56 * n && n > 0 && IdAt(raw, 0) !in found
    requires HasEntries(open, raw[56..], n - 1, found[IdAt(raw, 0) := PendingAt(raw, 0)])
    ensures HasEntries(open, raw, n, found)
  {
    hide IdAt, PendingAt;
    NextEntry(raw, n);
    var id, e := IdAt(raw, 0), PendingAt(raw, 0);
    OneMore(found, id, e);
    assert id in found[id := e];
    forall k | 0 <= k < n
      ensures IdAt(raw, k) in open && open[IdAt(raw, k)] == PendingAt(raw, k)
    {
      if k > 0 {
        assert IdAt(raw[56..], k - 1) == IdAt(raw, k) && PendingAt(raw[56..], k - 1) == PendingAt(raw, k);
      }
    }
  }

  lemma {:induction false} ReadLedgerIff(raw: Bytes, n: nat, found: Ledger)
    requires |raw| == 56 * n
    ensures var r := ReadLedger(raw, found);
            (r.Some? <==> IdsDiffer(raw, n, found)) && (r.Some? ==> HasEntries(r.value, raw, n, found))
    decreases n
  {
    hide IdsDiffer, HasEntries, FromBe64;
    if n == 0 {
      NoEntries(found);
    } else {
      var id, e := IdAt(raw, 0), PendingAt(raw, 0);
      assert raw[0..16] == raw[..16];
      IdsDifferCons(raw, n, found, e);
      if id !in found {
        ReadLedgerIff(raw[56..], n - 1, found[id := e]);
        if ReadLedger(raw, found).Some? {
          HasEntriesCons(ReadLedger(raw, found).value, raw, n, found);
        }
      }
    }
  }

  lemma NoEntries(found: Ledger)
    ensures IdsDiffer([], 0, found) && HasEntries(found, [], 0, found)
  {
  }

  /** `from_bytes` accepts exactly the rows of at most 64 entries of 56 bytes with different ids. Each has
      its id, its salt and its deadline, in this order, and the ledger has these entries and no others. */
  lemma FromBytesIff(raw: Bytes, n: nat)
    requires |raw| == 56 * n
    ensures FromBytes(raw).Some? <==> n <= 64 && IdsDiffer(raw, n, map[])
    ensures FromBytes(raw).Some? ==> HasEntries(FromBytes(raw).value, raw, n, map[])
  {
    hide ReadLedger, IdsDiffer, HasEntries;
    ReadLedgerIff(raw, n, map[]);
    assert |raw| % 56 == 0 && |raw| / 56 == n;
  }

  lemma OddSizeRefused(raw: Bytes)
    requires |raw| % 56 != 0
    ensures FromBytes(raw).None?
  {
  }
}
