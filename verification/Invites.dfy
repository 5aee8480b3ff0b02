/** One-time invites (`src/rust/invite.rs`): the ledger of open invites, and the sessions they start.
    A signed contact link is its verified contents, or a link that does not verify. */
module Invites {
  import opened Collections
  import opened Crypto
  import opened Wire
  import opened Ratchet
  import opened Agreement
  import opened AgreementTheorem

  const MAX_PENDING_INVITES: nat := 64
  const MAX_INVITE_TTL_SECS: u64 := 7 * 24 * 3600

  type InviteId = Bytes

  datatype Pending = Pending(salt: Bytes, expires: u64)

  type Ledger = map<InviteId, Pending>

  datatype Link = Signed(x25519: Pub) | Unverifiable

  /** The reply tag is a MAC under the invite salt: only the same salt, id and link give it. */
  datatype Tag = Mac(salt: Bytes, id: InviteId, link: Link) | Other(bytes: Bytes)

  datatype Reply = Reply(id: InviteId, tag: Tag, link: Link)

  /** The padded text inside a hello frame: not padding or not UTF-8, not a reply, or a reply. */
  datatype Body = Unreadable | NotAReply | Carries(reply: Reply)

  datatype HelloSeal = HelloSeal(key: Key, aad: Bytes, body: Body) | Noise

  datatype HelloFrame = HelloFrame(hint: Bytes, step: u32, epochStart: u32, senderDh: Pub, ct: HelloSeal)

  /** What a parsed invite hands the redeemer. */
  datatype Invite = Invite(x25519: Pub, id: InviteId, salt: Bytes)

  datatype InviteError = BadFormat | BadSignature | Expired | UnknownOrUsed | BadReplyTag | TooManyPending | BadTtl | DhFailed

  // ---------------------------------------------------------------- pure parts

  /** `salted_ratchet`; `ephemeral` is the secret of the new ratchet. */
  function SaltedRatchet(local: Secret, peer: Pub, salt: Bytes, ephemeral: Secret): Result<State, InviteError> {
    if WasContributory(peer) then Ok(Booted(ephemeral, local, peer, salt)) else Err(DhFailed)
  }

  function BootstrapFromInvite(local: Secret, inv: Invite, ephemeral: Secret): Result<State, InviteError> {
    SaltedRatchet(local, inv.x25519, inv.salt, ephemeral)
  }

  function FormatInviteReply(inv: Invite, link: Link): Reply {
    Reply(inv.id, Mac(inv.salt, inv.id, link), link)
  }

  function HelloAad(dh: Pub): Bytes {
    BuildWireAadV3([], 0, 0, dh)
  }

  /** `invite_hello_frame`; `eph` is the fresh key of the frame. */
  function InviteHelloFrame(inv: Invite, link: Link, eph: Secret): Result<HelloFrame, InviteError> {
    if !WasContributory(inv.x25519) then Err(DhFailed)
    else
      var key := HelloKey(DiffieHellman(eph, inv.x25519), inv.salt, inv.id);
      Ok(HelloFrame([], 0, 0, eph.point, HelloSeal(key, HelloAad(eph.point), Carries(FormatInviteReply(inv, link)))))
  }

  predicate LooksLikeHello(f: HelloFrame) {
    f.hint == [] && f.step == 0 && f.epochStart == 0
  }

  predicate Opens(local: Secret, f: HelloFrame, id: InviteId, salt: Bytes) {
    f.ct.HelloSeal? && f.ct.aad == HelloAad(f.senderDh) && f.ct.key == HelloKey(DiffieHellman(local, f.senderDh), salt, id)
  }

  // ---------------------------------------------------------------- the ledger on values

  function Purged(open: Ledger, now: u64): Ledger {
    map id | id in open && now < open[id].expires :: open[id]
  }

  /** `issue` with the id and salt that the random source yields; `linkOk` says whether the link
      could be formatted and signed. */
  function Issued(open: Ledger, now: u64, ttl: u64, id: InviteId, salt: Bytes, linkOk: bool): (Ledger, Result<InviteId, InviteError>) {
    if ttl == 0 || ttl > MAX_INVITE_TTL_SECS then (open, Err(BadTtl))
    else
      var kept := Purged(open, now);
      if |kept| >= MAX_PENDING_INVITES then (kept, Err(TooManyPending))
      else if !linkOk then (kept, Err(BadFormat))
      else (kept[id := Pending(salt, SaturatingAdd(now, ttl))], Ok(id))
  }

  function Redeemed(open: Ledger, id: InviteId, now: u64): (Ledger, Result<Bytes, InviteError>) {
    if id !in open then (open, Err(UnknownOrUsed))
    else if now >= open[id].expires then (open - {id}, Err(Expired))
    else (open - {id}, Ok(open[id].salt))
  }

  /** The part of `accept` after the salt is out. */
  function FromLink(local: Secret, link: Link, salt: Bytes, ephemeral: Secret): Result<State, InviteError> {
    match link
    case Unverifiable => Err(BadSignature)
    case Signed(peer) => SaltedRatchet(local, peer, salt, ephemeral)
  }

  function Accepted(open: Ledger, local: Secret, id: InviteId, link: Link, now: u64, ephemeral: Secret): (Ledger, Result<State, InviteError>) {
    var (rest, salt) := Redeemed(open, id, now);
    match salt
    case Err(e) => (rest, Err(e))
    case Ok(s) => (rest, FromLink(local, link, s, ephemeral))
  }

  /** `accept_reply`; None is a text that does not split into a reply. */
  function AcceptedReply(open: Ledger, local: Secret, reply: Option<Reply>, now: u64, ephemeral: Secret): (Ledger, Result<State, InviteError>) {
    match reply
    case None => (open, Err(BadFormat))
    case Some(r) =>
      var (rest, salt) := Redeemed(open, r.id, now);
      match salt
      case Err(e) => (rest, Err(e))
      case Ok(s) => (rest, if r.tag == Mac(s, r.id, r.link) then FromLink(local, r.link, s, ephemeral) else Err(BadReplyTag))
  }

  /** The invite that a hello frame opens under, if any. */
  ghost predicate OpensUnder(open: Ledger, local: Secret, f: HelloFrame, now: u64, id: InviteId) {
    LooksLikeHello(f) && WasContributory(f.senderDh) && id in Purged(open, now) && Opens(local, f, id, open[id].salt)
  }

  lemma OpensUnderOneAtMost(open: Ledger, local: Secret, f: HelloFrame, now: u64, id: InviteId, other: InviteId)
    requires OpensUnder(open, local, f, now, id) && OpensUnder(open, local, f, now, other)
    ensures id == other
  {
  }

  /** `open_hello`: the ledger after it, and its answer. */
  ghost function HelloAnswered(open: Ledger, local: Secret, f: HelloFrame, now: u64, ephemeral: Secret): (Ledger, Result<State, InviteError>) {
    var kept := Purged(open, now);
    if !LooksLikeHello(f) then (open, Err(BadFormat))
    else if kept == map[] then (kept, Err(UnknownOrUsed))
    else if !WasContributory(f.senderDh) then (kept, Err(DhFailed))
    else if id :| OpensUnder(open, local, f, now, id) then
      match f.ct.body
      case Unreadable => (kept - {id}, Err(BadFormat))
      case NotAReply => (kept - {id}, Err(BadReplyTag))
      case Carries(reply) =>
        if reply.id == id then AcceptedReply(kept, local, Some(reply), now, ephemeral) else (kept - {id}, Err(BadReplyTag))
    else (kept, Err(UnknownOrUsed))
  }

  // ---------------------------------------------------------------- the program

  class PendingInvites {
    var open: Ledger

    constructor ()
      ensures open == map[]
    {
      open := map[];
    }

    method PurgeExpired(now: u64)
      modifies this
      ensures open == Purged(old(open), now)
    {
      open := map id | id in open && now < open[id].expires :: open[id];
    }

    method Issue(now: u64, ttl: u64, id: InviteId, salt: Bytes, linkOk: bool) returns (r: Result<InviteId, InviteError>)
      modifies this
      ensures (open, r) == Issued(old(open), now, ttl, id, salt, linkOk)
    {
      if ttl == 0 || ttl > MAX_INVITE_TTL_SECS {
        return Err(BadTtl);
      }
      PurgeExpired(now);
      if |open| >= MAX_PENDING_INVITES {
        return Err(TooManyPending);
      }
      if !linkOk {
        return Err(BadFormat);
      }
      open := open[id := Pending(salt, SaturatingAdd(now, ttl))];
      return Ok(id);
    }

    method Revoke(id: InviteId) returns (was: bool)
      modifies this
      ensures open == old(open) - {id} && was == (id in old(open))
    {
      was := id in open;
      open := open - {id};
    }

    method Redeem(id: InviteId, now: u64) returns (r: Result<Bytes, InviteError>)
      modifies this
      ensures (open, r) == Redeemed(old(open), id, now)
    {
      if id !in open {
        return Err(UnknownOrUsed);
      }
      var entry := open[id];
      open := open - {id};
      if now >= entry.expires {
        return Err(Expired);
      }
      return Ok(entry.salt);
    }

    method Accept(local: Secret, id: InviteId, link: Link, now: u64, ephemeral: Secret) returns (r: Result<State, InviteError>)
      modifies this
      ensures (open, r) == Accepted(old(open), local, id, link, now, ephemeral)
    {
      var salt := Redeem(id, now);
      if salt.Err? {
        return Err(salt.error);
      }
      return FromLink(local, link, salt.value, ephemeral);
    }

    method AcceptReply(local: Secret, reply: Option<Reply>, now: u64, ephemeral: Secret) returns (r: Result<State, InviteError>)
      modifies this
      ensures (open, r) == AcceptedReply(old(open), local, reply, now, ephemeral)
    {
      if reply.None? {
        return Err(BadFormat);
      }
      var salt := Redeem(reply.value.id, now);
      if salt.Err? {
        return Err(salt.error);
      }
      if reply.value.tag != Mac(salt.value, reply.value.id, reply.value.link) {
        return Err(BadReplyTag);
      }
      return FromLink(local, reply.value.link, salt.value, ephemeral);
    }

    /** A frame that opens under no open invite removes only expired ones; one that opens removes
        exactly the invite that it opens under, whatever it carries. */
    method OpenHello(local: Secret, f: HelloFrame, now: u64, ephemeral: Secret) returns (r: Result<State, InviteError>)
      modifies this
      ensures (open, r) == HelloAnswered(old(open), local, f, now, ephemeral)
      ensures !LooksLikeHello(f) ==> open == old(open) && r == Err(BadFormat)
      ensures LooksLikeHello(f) && (forall id :: id in Purged(old(open), now) ==> !Opens(local, f, id, old(open)[id].salt)) ==>
                open == Purged(old(open), now) && r.Err?
      ensures forall id :: LooksLikeHello(f) && WasContributory(f.senderDh) && id in Purged(old(open), now)
                           && Opens(local, f, id, old(open)[id].salt) ==>
                open == Purged(old(open), now) - {id}
                && r == (match f.ct.body
                         case Unreadable => Err(BadFormat)
                         case NotAReply => Err(BadReplyTag)
                         case Carries(reply) =>
                           if reply.id != id then Err(BadReplyTag)
                           else AcceptedReply(Purged(old(open), now), local, Some(reply), now, ephemeral).1)
    {
      if !LooksLikeHello(f) {
        return Err(BadFormat);
      }
      PurgeExpired(now);
      ghost var kept := open;
      if open == map[] {
        return Err(UnknownOrUsed);
      }
      if !WasContributory(f.senderDh) {
        return Err(DhFailed);
      }
      var found: Option<InviteId> := None;
      var ids := open.Keys;
      while ids != {} && found.None?
        invariant open == kept
        invariant ids <= open.Keys
        invariant found.None? ==> forall id :: id in open && id !in ids ==> !Opens(local, f, id, open[id].salt)
        invariant found.Some? ==> found.value in open && Opens(local, f, found.value, open[found.value].salt)
        decreases ids, found.None?
      {
        var id :| id in ids;
        if Opens(local, f, id, open[id].salt) {
          found := Some(id);
        }
        ids := ids - {id};
      }
      if found.None? {
        return Err(UnknownOrUsed);
      }
      var id := found.value;
      assert OpensUnder(old(open), local, f, now, id);
      forall other | OpensUnder(old(open), local, f, now, other)
        ensures other == id
      {
        OpensUnderOneAtMost(old(open), local, f, now, id, other);
      }
      match f.ct.body {
        case Unreadable =>
          var _ := Revoke(id);
          return Err(BadFormat);
        case NotAReply =>
          var _ := Revoke(id);
          return Err(BadReplyTag);
        case Carries(reply) =>
          if reply.id != id {
            var _ := Revoke(id);
            return Err(BadReplyTag);
          }
          r := AcceptReply(local, Some(reply), now, ephemeral);
      }
    }
  }

  // ---------------------------------------------------------------- runs of the ledger

  datatype Event =
    | Issue(now: u64, ttl: u64, id: InviteId, salt: Bytes, linkOk: bool)
    | Redeem(id: InviteId, now: u64)
    | Accept(local: Secret, id: InviteId, link: Link, now: u64, ephemeral: Secret)
    | AcceptReply(local: Secret, reply: Option<Reply>, now: u64, ephemeral: Secret)
    | OpenHello(local: Secret, frame: HelloFrame, now: u64, ephemeral: Secret)
    | Revoke(id: InviteId)
    | Purge(now: u64)

  /** The ledger after an event, and the id whose salt the event releases, if any. */
  ghost function After(open: Ledger, ev: Event): (Ledger, Option<InviteId>) {
    match ev
    case Issue(now, ttl, id, salt, linkOk) => (Issued(open, now, ttl, id, salt, linkOk).0, None)
    case Redeem(id, now) => Release(open, id, now)
    case Accept(local, id, link, now, ephemeral) => (Accepted(open, local, id, link, now, ephemeral).0, Release(open, id, now).1)
    case AcceptReply(local, reply, now, ephemeral) =>
      (AcceptedReply(open, local, reply, now, ephemeral).0, if reply.None? then None else Release(open, reply.value.id, now).1)
    case OpenHello(local, f, now, ephemeral) =>
      (HelloAnswered(open, local, f, now, ephemeral).0, HelloReleases(open, local, f, now))
    case Revoke(id) => (open - {id}, None)
    case Purge(now) => (Purged(open, now), None)
  }

  /** The id whose salt `open_hello` releases, if any: the frame opens under it and carries a reply to it. */
  ghost function HelloReleases(open: Ledger, local: Secret, f: HelloFrame, now: u64): Option<InviteId> {
    if id :| OpensUnder(open, local, f, now, id) then
      if f.ct.body.Carries? && f.ct.body.reply.id == id then Release(Purged(open, now), id, now).1 else None
    else None
  }

  ghost function Release(open: Ledger, id: InviteId, now: u64): (Ledger, Option<InviteId>) {
    var (rest, salt) := Redeemed(open, id, now);
    (rest, if salt.Ok? then Some(id) else None)
  }

  /** At most MAX_PENDING_INVITES are open, and only invites that were issued. */
  ghost predicate Sound(open: Ledger, issued: set<InviteId>) {
    open.Keys <= issued && |open| <= MAX_PENDING_INVITES
  }

  function IssuedBy(issued: set<InviteId>, ev: Event): set<InviteId> {
    if ev.Issue? then issued + {ev.id} else issued
  }

  /** The random source does not repeat an id. */
  predicate FreshId(issued: set<InviteId>, ev: Event) {
    ev.Issue? ==> ev.id !in issued
  }

  lemma PurgeShrinks(open: Ledger, now: u64)
    ensures Purged(open, now).Keys <= open.Keys && |Purged(open, now)| <= |open|
    ensures forall id :: id in Purged(open, now) ==> Purged(open, now)[id] == open[id]
  {
    SubsetSize(Purged(open, now).Keys, open.Keys);
  }

  lemma RemoveSize(open: Ledger, id: InviteId)
    ensures (open - {id}).Keys == open.Keys - {id} && |open - {id}| <= |open|
  {
    SubsetSize((open - {id}).Keys, open.Keys);
  }

  /** The ledger stays sound; a salt that is released was open before and is gone after; no issued
      invite is reopened. */
  ghost predicate Keeps(open: Ledger, issued: set<InviteId>, next: Ledger, issued': set<InviteId>, out: Option<InviteId>) {
    && Sound(next, issued')
    && (out.Some? ==> out.value in open && out.value !in next)
    && (forall id :: id in issued && id !in open ==> id !in next)
  }

  lemma ReleaseKeeps(open: Ledger, issued: set<InviteId>, id: InviteId, now: u64)
    requires Sound(open, issued)
    ensures var (next, out) := Release(open, id, now); Keeps(open, issued, next, issued, out)
    ensures Keeps(open, issued, open - {id}, issued, None)
  {
    RemoveSize(open, id);
  }

  lemma PurgeKeeps(open: Ledger, issued: set<InviteId>, now: u64)
    requires Sound(open, issued)
    ensures Keeps(open, issued, Purged(open, now), issued, None)
  {
    PurgeShrinks(open, now);
  }

  lemma IssueKeeps(open: Ledger, issued: set<InviteId>, now: u64, ttl: u64, id: InviteId, salt: Bytes, linkOk: bool)
    requires Sound(open, issued) && id !in issued
    ensures Keeps(open, issued, Issued(open, now, ttl, id, salt, linkOk).0, issued + {id}, None)
  {
    PurgeShrinks(open, now);
    assert |Purged(open, now)[id := Pending(salt, SaturatingAdd(now, ttl))]| <= |Purged(open, now)| + 1;
  }

  lemma HelloKeeps(open: Ledger, issued: set<InviteId>, ev: Event)
    requires Sound(open, issued) && ev.OpenHello?
    ensures var (next, out) := After(open, ev); Keeps(open, issued, next, issued, out)
  {
    hide Purged, Opens;
    var kept := Purged(open, ev.now);
    PurgeKeeps(open, issued, ev.now);
    if id :| OpensUnder(open, ev.local, ev.frame, ev.now, id) {
      forall other | OpensUnder(open, ev.local, ev.frame, ev.now, other)
        ensures other == id
      {
        OpensUnderOneAtMost(open, ev.local, ev.frame, ev.now, id, other);
      }
      ReleaseKeeps(kept, issued, id, ev.now);
    }
  }

  lemma AcceptSpends(open: Ledger, local: Secret, id: InviteId, link: Link, now: u64, ephemeral: Secret)
    ensures Accepted(open, local, id, link, now, ephemeral).0 == Release(open, id, now).0
  {
    hide FromLink;
  }

  lemma ReplySpends(open: Ledger, local: Secret, r: Reply, now: u64, ephemeral: Secret)
    ensures AcceptedReply(open, local, Some(r), now, ephemeral).0 == Release(open, r.id, now).0
  {
    hide FromLink;
  }

  lemma EventKeepsSound(open: Ledger, issued: set<InviteId>, ev: Event)
    requires Sound(open, issued) && FreshId(issued, ev)
    ensures var (next, out) := After(open, ev); Keeps(open, issued, next, IssuedBy(issued, ev), out)
  {
    hide Keeps, Purged, Release, OpensUnder, Issued;
    match ev
    case Issue(now, ttl, id, salt, linkOk) => IssueKeeps(open, issued, now, ttl, id, salt, linkOk);
    case Redeem(id, now) => ReleaseKeeps(open, issued, id, now);
    case Accept(local, id, link, now, ephemeral) =>
      AcceptSpends(open, local, id, link, now, ephemeral);
      ReleaseKeeps(open, issued, id, now);
    case AcceptReply(local, reply, now, ephemeral) =>
      if reply.Some? {
        ReplySpends(open, local, reply.value, now, ephemeral);
        ReleaseKeeps(open, issued, reply.value.id, now);
      } else {
        NothingKeeps(open, issued);
      }
    case OpenHello(_, _, _, _) => HelloKeeps(open, issued, ev);
    case Revoke(id) => ReleaseKeeps(open, issued, id, 0);
    case Purge(now) => PurgeKeeps(open, issued, now);
  }

  lemma NothingKeeps(open: Ledger, issued: set<InviteId>)
    requires Sound(open, issued)
    ensures Keeps(open, issued, open, issued, None)
  {
  }

  function TimeOf(ev: Event): u64 {
    match ev
    case Issue(now, _, _, _, _) => now
    case Redeem(_, now) => now
    case Accept(_, _, _, now, _) => now
    case AcceptReply(_, _, now, _) => now
    case OpenHello(_, _, now, _) => now
    case Revoke(_) => 0
    case Purge(now) => now
  }

  /** The released salt was open and in time, and nothing was added. */
  ghost predicate ReleasesOnly(open: Ledger, next: Ledger, out: Option<InviteId>, now: u64) {
    && (out.Some? ==> out.value in open && now < open[out.value].expires)
    && (forall id :: id in next ==> id in open && next[id] == open[id])
  }

  lemma HelloReleasesOnly(open: Ledger, ev: Event)
    requires ev.OpenHello?
    ensures ReleasesOnly(open, After(open, ev).0, After(open, ev).1, ev.now)
  {
    hide Opens;
  }

  /** A salt comes out only before its deadline, and the deadline is never more than the longest
      lifetime after the issue. */
  lemma ReleasedInTime(open: Ledger, ev: Event)
    ensures var (next, out) := After(open, ev);
            && (out.Some? ==> out.value in open && TimeOf(ev) < open[out.value].expires)
            && (forall id :: id in next && (id !in open || next[id] != open[id]) ==>
                  ev.Issue? && id == ev.id && next[id].salt == ev.salt
                  && ev.now <= next[id].expires <= ev.now as int + MAX_INVITE_TTL_SECS as int)
  {
    hide HelloAnswered, HelloReleases;
    if ev.OpenHello? {
      HelloReleasesOnly(open, ev);
    }
  }

  ghost predicate FreshRun(issued: set<InviteId>, run: seq<Event>)
    decreases |run|
  {
    run == [] || (FreshId(issued, run[0]) && FreshRun(IssuedBy(issued, run[0]), run[1..]))
  }

  /** The ids whose salts a run releases, in order. */
  ghost function Released(open: Ledger, run: seq<Event>): seq<InviteId>
    decreases |run|
  {
    if run == [] then []
    else
      var (next, out) := After(open, run[0]);
      (if out.Some? then [out.value] else []) + Released(next, run[1..])
  }

  ghost function Final(open: Ledger, run: seq<Event>): Ledger
    decreases |run|
  {
    if run == [] then open else Final(After(open, run[0]).0, run[1..])
  }

  lemma {:induction false} FinalSnoc(open: Ledger, run: seq<Event>, ev: Event)
    ensures Final(open, run + [ev]) == After(Final(open, run), ev).0
    decreases |run|
  {
    hide After;
    if run == [] {
      assert [ev][1..] == [] && run + [ev] == [ev];
      assert Final(After(open, ev).0, []) == After(open, ev).0;
    } else {
      assert (run + [ev])[1..] == run[1..] + [ev];
      FinalSnoc(After(open, run[0]).0, run[1..], ev);
    }
  }

  lemma {:induction false} GoneStaysGone(open: Ledger, issued: set<InviteId>, id: InviteId, run: seq<Event>)
    requires Sound(open, issued) && FreshRun(issued, run) && id in issued && id !in open
    ensures id !in Released(open, run) && id !in Final(open, run)
    decreases |run|
  {
    hide After, FreshId;
    if run == [] {
    } else {
      EventKeepsSound(open, issued, run[0]);
      GoneStaysGone(After(open, run[0]).0, IssuedBy(issued, run[0]), id, run[1..]);
    }
  }

  /** Over every run with fresh ids each salt is released at most once, and never more than
      MAX_PENDING_INVITES invites are open. */
  lemma {:induction false} EachSaltReleasedOnce(open: Ledger, issued: set<InviteId>, run: seq<Event>)
    requires Sound(open, issued) && FreshRun(issued, run)
    ensures Distinct(Released(open, run)) && |Final(open, run)| <= MAX_PENDING_INVITES
    decreases |run|
  {
    hide After, FreshId;
    if run == [] {
    } else {
      var (next, out) := After(open, run[0]);
      EventKeepsSound(open, issued, run[0]);
      EachSaltReleasedOnce(next, IssuedBy(issued, run[0]), run[1..]);
      if out.Some? {
        GoneStaysGone(next, IssuedBy(issued, run[0]), out.value, run[1..]);
        DistinctCons(out.value, Released(next, run[1..]));
      } else {
        assert Released(open, run) == Released(next, run[1..]);
      }
    }
  }

  // ---------------------------------------------------------------- the sessions

  /** The redeemer bootstraps from the invite; the inviter accepts the reply that the redeemer made
      from it. The two ratchets are mirror images, so the agreement theorem applies to their runs. */
  lemma ReplyStartsAgreement(open: Ledger, inviter: Secret, redeemer: Secret, id: InviteId, now: u64, ei: Secret, er: Secret)
    requires id in open && now < open[id].expires
    requires inviter.point != redeemer.point && WasContributory(inviter.point) && WasContributory(redeemer.point)
    requires GoodPub(ei.point) && GoodPub(er.point) && ei.point != er.point
    ensures var inv := Invite(inviter.point, id, open[id].salt);
            var reply := FormatInviteReply(inv, Signed(redeemer.point));
            var mine, theirs := AcceptedReply(open, inviter, Some(reply), now, ei).1, BootstrapFromInvite(redeemer, inv, er);
            mine.Ok? && theirs.Ok? && Inv(Start(mine.value, theirs.value))
  {
    hide Inv, Booted, Start;
    BootstrapStartsAgreement(ei, inviter, er, redeemer, open[id].salt);
  }

  /** The hello frame opens under the invite it was made from and no other. */
  lemma HelloOpensItsInvite(open: Ledger, inviter: Secret, redeemer: Secret, id: InviteId, now: u64, eph: Secret)
    requires id in open && now < open[id].expires && WasContributory(inviter.point) && WasContributory(eph.point)
    ensures var inv := Invite(inviter.point, id, open[id].salt);
            var f := InviteHelloFrame(inv, Signed(redeemer.point), eph);
            && f.Ok? && f.value.ct.body == Carries(FormatInviteReply(inv, Signed(redeemer.point)))
            && LooksLikeHello(f.value) && f.value.senderDh == eph.point
            && OpensUnder(open, inviter, f.value, now, id)
            && After(open, OpenHello(inviter, f.value, now, eph)) == (Purged(open, now) - {id}, Some(id))
  {
    var inv := Invite(inviter.point, id, open[id].salt);
    var f := InviteHelloFrame(inv, Signed(redeemer.point), eph).value;
    assert {eph.point, inviter.point} == {inviter.point, eph.point};
    assert OpensUnder(open, inviter, f, now, id);
    forall other | OpensUnder(open, inviter, f, now, other)
      ensures other == id
    {
      OpensUnderOneAtMost(open, inviter, f, now, id, other);
    }
  }

  lemma AnswerUnder(open: Ledger, local: Secret, f: HelloFrame, now: u64, ephemeral: Secret, id: InviteId, reply: Reply)
    requires OpensUnder(open, local, f, now, id) && f.ct.body == Carries(reply) && reply.id == id
    ensures HelloAnswered(open, local, f, now, ephemeral) == AcceptedReply(Purged(open, now), local, Some(reply), now, ephemeral)
  {
    hide AcceptedReply;
    assert Purged(open, now) != map[];
    forall other | OpensUnder(open, local, f, now, other)
      ensures other == id
    {
      OpensUnderOneAtMost(open, local, f, now, id, other);
    }
  }

  /** So a session can begin through the hello frame as well: the ratchet that `open_hello` answers with
      and the one the redeemer bootstrapped are a start of the agreement theorem. */
  lemma HelloStartsAgreement(open: Ledger, inviter: Secret, redeemer: Secret, id: InviteId, now: u64, eph: Secret, ei: Secret, er: Secret)
    requires id in open && now < open[id].expires
    requires inviter.point != redeemer.point && WasContributory(inviter.point) && WasContributory(redeemer.point)
    requires GoodPub(ei.point) && GoodPub(er.point) && ei.point != er.point && WasContributory(eph.point)
    ensures var inv := Invite(inviter.point, id, open[id].salt);
            var f := InviteHelloFrame(inv, Signed(redeemer.point), eph);
            f.Ok? &&
            var mine, theirs := HelloAnswered(open, inviter, f.value, now, ei).1, BootstrapFromInvite(redeemer, inv, er);
            mine.Ok? && theirs.Ok? && Inv(Start(mine.value, theirs.value))
  {
    hide Inv, Booted, Start, HelloAnswered, After, OpensUnder, Opens, InviteHelloFrame, AcceptedReply;
    var inv := Invite(inviter.point, id, open[id].salt);
    HelloOpensItsInvite(open, inviter, redeemer, id, now, eph);
    var f := InviteHelloFrame(inv, Signed(redeemer.point), eph).value;
    AnswerUnder(open, inviter, f, now, ei, id, FormatInviteReply(inv, Signed(redeemer.point)));
    ReplyStartsAgreement(Purged(open, now), inviter, redeemer, id, now, ei, er);
  }

  // ---------------------------------------------------------------- the stored ledger

  const ENTRY_BYTES: nat := 56

  function EntryBytes(id: InviteId, e: Pending): Bytes {
    id + e.salt + Be64(e.expires)
  }

  /** Ids have 16 bytes and salts 32. */
  predicate Sized(open: Ledger) {
    forall id :: id in open ==> |id| == 16 && |open[id].salt| == 32
  }

  /** Read `raw` entry by entry; an id that occurs twice is refused. */
  function ReadLedger(raw: Bytes, found: Ledger): Option<Ledger>
    requires |raw| % ENTRY_BYTES == 0
    decreases |raw|
  {
    if raw == [] then Some(found)
    else
      var id, salt, expires := raw[..16], raw[16..48], FromBe64(raw[48..56]);
      if id in found then None else ReadLedger(raw[56..], found[id := Pending(salt, expires)])
  }

  /** `from_bytes`. */
  function FromBytes(raw: Bytes): Option<Ledger> {
    if |raw| % ENTRY_BYTES != 0 || |raw| / ENTRY_BYTES > MAX_PENDING_INVITES then None else ReadLedger(raw, map[])
  }

  lemma ReadOneEntry(id: InviteId, e: Pending, raw: Bytes, found: Ledger)
    requires |id| == 16 && |e.salt| == 32 && |raw| % ENTRY_BYTES == 0 && id !in found
    ensures |EntryBytes(id, e)| == ENTRY_BYTES && |EntryBytes(id, e) + raw| % ENTRY_BYTES == 0
    ensures ReadLedger(EntryBytes(id, e) + raw, found) == ReadLedger(raw, found[id := e])
  {
    var all := EntryBytes(id, e) + raw;
    assert all[..16] == id && all[16..48] == e.salt && all[48..56] == Be64(e.expires) && all[56..] == raw;
    Be64RoundTrip(e.expires);
  }

  ghost predicate IsFirst(open: Ledger, id: InviteId) {
    id in open && forall k :: k in open ==> Leq(id, k)
  }

  lemma {:induction false} FirstExists(open: Ledger)
    requires open != map[]
    ensures exists id :: IsFirst(open, id)
    decreases |open|
  {
    hide Leq;
    var x :| x in open;
    var rest := open - {x};
    LeqTotal(x, x);
    assert forall k :: k in open ==> k in rest || k == x;
    if rest == map[] {
      assert IsFirst(open, x);
    } else {
      FirstExists(rest);
      var y :| IsFirst(rest, y);
      LeqTotal(x, y);
      if Leq(x, y) {
        forall k | k in open
          ensures Leq(x, k)
        {
          if k != x {
            LeqTransitive(x, y, k);
          }
        }
        assert IsFirst(open, x);
      } else {
        assert IsFirst(open, y);
      }
    }
  }

  lemma FirstIsUnique(open: Ledger, a: InviteId, b: InviteId)
    requires IsFirst(open, a) && IsFirst(open, b)
    ensures a == b
  {
    LeqTotal(a, b);
  }

  ghost function First(open: Ledger): (id: InviteId)
    requires open != map[]
    ensures id in open && IsFirst(open, id)
  {
    FirstExists(open);
    var id :| IsFirst(open, id);
    id
  }

  /** The entries in ascending order of their ids, as a `BTreeMap` iterates. */
  ghost function LedgerBytes(open: Ledger): Bytes
    decreases |open|
  {
    if open == map[] then []
    else
      var id := First(open);
      TakeOne(open, id);
      EntryBytes(id, open[id]) + LedgerBytes(open - {id})
  }

  lemma TakeOne(rest: Ledger, id: InviteId)
    requires id in rest
    ensures |rest - {id}| == |rest| - 1 && (rest - {id})[id := rest[id]] == rest
  {
    assert (rest - {id}).Keys == rest.Keys - {id};
  }

  lemma PutFirst(found: Ledger, open: Ledger, id: InviteId)
    requires id in open && found.Keys !! open.Keys
    ensures found[id := open[id]] + (open - {id}) == found + open && found[id := open[id]].Keys !! (open - {id}).Keys
  {
  }

  lemma {:induction false} LedgerSize(open: Ledger)
    requires Sized(open)
    ensures |LedgerBytes(open)| == |open| * ENTRY_BYTES && |LedgerBytes(open)| % ENTRY_BYTES == 0
    decreases |open|
  {
    hide IsFirst, EntryBytes, Sized;
    if open == map[] {
    } else {
      var id := First(open);
      SizedRest(open, id);
      TakeOne(open, id);
      LedgerSize(open - {id});
      OneEntryMore(|open - {id}|);
    }
  }

  lemma OneEntryMore(n: nat)
    ensures ENTRY_BYTES + n * ENTRY_BYTES == (n + 1) * ENTRY_BYTES && (n + 1) * ENTRY_BYTES % ENTRY_BYTES == 0
  {
  }

  lemma {:induction false} ReadLedgerBack(open: Ledger, found: Ledger)
    requires Sized(open) && found.Keys !! open.Keys && |LedgerBytes(open)| % ENTRY_BYTES == 0
    ensures ReadLedger(LedgerBytes(open), found) == Some(found + open)
    decreases |open|
  {
    hide EntryBytes, IsFirst, Sized, ReadLedger;
    if open == map[] {
      assert found + open == found;
      ReadNothing(found);
    } else {
      var id := First(open);
      SizedRest(open, id);
      TakeOne(open, id);
      PutFirst(found, open, id);
      LedgerSize(open - {id});
      ReadLedgerBack(open - {id}, found[id := open[id]]);
      ReadOneEntry(id, open[id], LedgerBytes(open - {id}), found);
    }
  }

  lemma ReadNothing(found: Ledger)
    ensures ReadLedger([], found) == Some(found)
  {
  }

  lemma SizedRest(open: Ledger, id: InviteId)
    requires Sized(open) && id in open
    ensures Sized(open - {id}) && |id| == 16 && |open[id].salt| == 32 && |EntryBytes(id, open[id])| == ENTRY_BYTES
  {
  }

  /** `from_bytes` undoes `to_bytes` for every ledger. */
  lemma FromBytesBack(open: Ledger)
    requires Sized(open) && |open| <= MAX_PENDING_INVITES
    ensures FromBytes(LedgerBytes(open)) == Some(open)
  {
    hide LedgerBytes, ReadLedger;
    LedgerSize(open);
    ReadLedgerBack(open, map[]);
    assert map[] + open == open;
    assert |open| * ENTRY_BYTES / ENTRY_BYTES == |open|;
  }

  /** `to_bytes`. */
  method ToBytes(open: Ledger) returns (out: Bytes)
    ensures out == LedgerBytes(open)
  {
    hide EntryBytes, Leq;
    out := [];
    var rest := open;
    while rest != map[]
      invariant out + LedgerBytes(rest) == LedgerBytes(open)
      decreases |rest|
    {
      FirstExists(rest);
      var id :| id in rest && forall k :: k in rest ==> Leq(id, k);
      FirstIsUnique(rest, id, First(rest));
      TakeOne(rest, id);
      out := out + EntryBytes(id, rest[id]);
      rest := rest - {id};
    }
  }
}
