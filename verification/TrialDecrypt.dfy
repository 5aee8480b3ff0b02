/** Which contact an incoming frame belongs to: `inbound_contact_order` and
    `try_decrypt_incoming` in `src/bin/hashchat_tui.rs`. */
module TrialDecrypt {
  import opened Crypto
  import opened Wire
  import opened Padding
  import opened Ratchet
  import opened RatchetBlob
  import opened RatchetObject
  import opened Agreement

  type Id = Bytes

  datatype Contact = Contact(id: Id, x25519: Pub)

  datatype Slot = Slot(id: Id, blob: Blob)

  // ---------------------------------------------------------------- the order of trial

  /** The priority band that the sort key gives a contact. */
  function Band(c: Contact, hint: Bytes, active: Option<Id>, verified: seq<Id>): nat {
    if hint == [] then
      if active == Some(c.id) then 0 else if c.id in verified then 1 else 2
    else if |hint| == 32 then
      if c.x25519 == hint then 0 else 1
    else 0
  }

  function Bands(contacts: seq<Contact>, hint: Bytes, active: Option<Id>, verified: seq<Id>): (r: seq<nat>)
    ensures |r| == |contacts| && forall i :: 0 <= i < |r| ==> r[i] == Band(contacts[i], hint, active, verified) <= 2
  {
    seq(|contacts|, i requires 0 <= i < |contacts| => Band(contacts[i], hint, active, verified))
  }

  /** The indices below `n` of one band, ascending. */
  function InBand(bands: seq<nat>, band: nat, n: nat): (r: seq<nat>)
    requires n <= |bands|
    ensures forall k :: 0 <= k < |r| ==> r[k] < n && bands[r[k]] == band
    ensures forall i :: 0 <= i < n && bands[i] == band ==> i in r
    ensures forall j, k :: 0 <= j < k < |r| ==> r[j] < r[k]
  {
    if n == 0 then []
    else if bands[n - 1] == band then InBand(bands, band, n - 1) + [n - 1]
    else InBand(bands, band, n - 1)
  }

  /** `inbound_contact_order`: sorted by band, and by index within a band. */
  function InboundOrder(bands: seq<nat>): seq<nat> {
    InBand(bands, 0, |bands|) + InBand(bands, 1, |bands|) + InBand(bands, 2, |bands|)
  }

  /** The sort key `(band, index)`. */
  predicate Precedes(bands: seq<nat>, i: nat, j: nat)
    requires i < |bands| && j < |bands|
  {
    bands[i] < bands[j] || (bands[i] == bands[j] && i < j)
  }

  /** Each index below `n` once, and no other. */
  ghost predicate Permutation(order: seq<nat>, n: nat) {
    && (forall i :: i in order <==> 0 <= i < n)
    && (forall j, k :: 0 <= j < k < |order| ==> order[j] != order[k])
  }

  ghost predicate InRange(order: seq<nat>, n: nat) {
    forall k :: 0 <= k < |order| ==> order[k] < n
  }

  ghost predicate Sorted(bands: seq<nat>, order: seq<nat>) {
    && InRange(order, |bands|)
    && (forall j, k :: 0 <= j < k < |order| ==> Precedes(bands, order[j], order[k]))
  }

  lemma BandIsSorted(bands: seq<nat>, band: nat)
    ensures Sorted(bands, InBand(bands, band, |bands|))
  {
  }

  lemma SortedAppend(bands: seq<nat>, a: seq<nat>, b: seq<nat>)
    requires Sorted(bands, a) && Sorted(bands, b)
    requires forall j, k :: 0 <= j < |a| && 0 <= k < |b| ==> bands[a[j]] < bands[b[k]]
    ensures Sorted(bands, a + b)
  {
  }

  lemma OrderIsSortedPermutation(bands: seq<nat>)
    requires forall i :: 0 <= i < |bands| ==> bands[i] <= 2
    ensures Permutation(InboundOrder(bands), |bands|) && Sorted(bands, InboundOrder(bands))
  {
    var a, b, c := InBand(bands, 0, |bands|), InBand(bands, 1, |bands|), InBand(bands, 2, |bands|);
    BandIsSorted(bands, 0);
    BandIsSorted(bands, 1);
    BandIsSorted(bands, 2);
    SortedAppend(bands, a, b);
    SortedAppend(bands, a + b, c);
    assert forall i :: 0 <= i < |bands| ==> i in a || i in b || i in c;
    SortedIsPermutation(bands, a + b + c);
  }

  lemma SortedIsPermutation(bands: seq<nat>, order: seq<nat>)
    requires Sorted(bands, order) && forall i :: 0 <= i < |bands| ==> i in order
    ensures Permutation(order, |bands|)
  {
    forall j, k | 0 <= j < k < |order|
      ensures order[j] != order[k]
    {
      assert Precedes(bands, order[j], order[k]);
    }
  }

  lemma SameFirst(bands: seq<nat>, p: seq<nat>, q: seq<nat>)
    requires Sorted(bands, p) && Sorted(bands, q) && p != [] && forall i :: i in p <==> i in q
    ensures q != [] && p[0] == q[0]
  {
    assert p[0] in q && q[0] in p;
    var j :| 0 <= j < |q| && q[j] == p[0];
    var k :| 0 <= k < |p| && p[k] == q[0];
  }

  /** There is one permutation sorted by the key, so a sort can return no other. */
  lemma {:induction false} SortedPermutationIsUnique(bands: seq<nat>, p: seq<nat>, q: seq<nat>)
    requires Sorted(bands, p) && Sorted(bands, q) && forall i :: i in p <==> i in q
    ensures p == q
    decreases |p|
  {
    if p == [] {
      assert forall k :: 0 <= k < |q| ==> q[k] in p;
    } else {
      SameFirst(bands, p, q);
      TailMembers(bands, p);
      TailMembers(bands, q);
      SortedPermutationIsUnique(bands, p[1..], q[1..]);
      assert p == [p[0]] + p[1..] && q == [q[0]] + q[1..];
    }
  }

  lemma TailMembers(bands: seq<nat>, p: seq<nat>)
    requires p != [] && Sorted(bands, p)
    ensures Sorted(bands, p[1..])
    ensures forall i :: i in p[1..] <==> i in p && i != p[0]
  {
    forall i | i in p && i != p[0]
      ensures i in p[1..]
    {
      var k :| 0 <= k < |p| && p[k] == i;
      assert p[1..][k - 1] == i;
    }
    forall i | i in p[1..]
      ensures i in p && i != p[0]
    {
      var k :| 0 <= k < |p[1..]| && p[1..][k] == i;
      assert p[k + 1] == i && p[0] < |bands| && p[k + 1] < |bands| && Precedes(bands, p[0], p[k + 1]);
    }
  }

  // ---------------------------------------------------------------- trial decryption

  datatype Refusal = Blocked | RatchetRestore | BadPadding | NoMatchingRatchet

  /** Either the message with its contact and that contact's new ratchet, or why there is none. */
  datatype Trial = Delivered(contact: Contact, message: Bytes, step: u32, blob: Blob) | Refused(why: Refusal)

  function Lookup(ratchets: seq<Slot>, id: Id): Option<Blob> {
    if ratchets == [] then None
    else if ratchets[0].id == id then Some(ratchets[0].blob)
    else Lookup(ratchets[1..], id)
  }

  /** `set_ratchet_bytes`. */
  function SetRatchet(ratchets: seq<Slot>, id: Id, blob: Blob): seq<Slot> {
    if ratchets == [] then [Slot(id, blob)]
    else if ratchets[0].id == id then [Slot(id, blob)] + ratchets[1..]
    else [ratchets[0]] + SetRatchet(ratchets[1..], id, blob)
  }

  /** What one contact makes of the frame; None means that the next one is tried. */
  ghost function TryContact(c: Contact, ratchets: seq<Slot>, blocked: set<Id>, f: Frame): Option<Trial> {
    if c.id in blocked then
      if |f.hint| == 32 && c.x25519 == f.hint then Some(Refused(Blocked)) else None
    else match Lookup(ratchets, c.id)
      case None => None
      case Some(blob) =>
        match Deserialize(blob)
        case None => Some(Refused(RatchetRestore))
        case Some(s) =>
          var o := Open(s, f);
          match o.result
          case Err(_) => None
          case Ok(v) =>
            match Unpad(v.plaintext)
            case Err(_) => Some(Refused(BadPadding))
            case Ok(message) => Some(Delivered(c, message, v.step, Serialize(o.state)))
  }

  ghost function TryInOrder(contacts: seq<Contact>, order: seq<nat>, ratchets: seq<Slot>, blocked: set<Id>, f: Frame): Trial
    requires InRange(order, |contacts|)
  {
    if order == [] then Refused(NoMatchingRatchet)
    else match TryContact(contacts[order[0]], ratchets, blocked, f)
      case Some(t) => t
      case None => TryInOrder(contacts, order[1..], ratchets, blocked, f)
  }

  lemma TryStep(contacts: seq<Contact>, order: seq<nat>, k: nat, ratchets: seq<Slot>, blocked: set<Id>, f: Frame)
    requires k < |order| && InRange(order[k..], |contacts|)
    ensures order[k] < |contacts| && InRange(order[k + 1..], |contacts|)
    ensures TryInOrder(contacts, order[k..], ratchets, blocked, f)
         == (match TryContact(contacts[order[k]], ratchets, blocked, f)
             case Some(t) => t
             case None => TryInOrder(contacts, order[k + 1..], ratchets, blocked, f))
  {
    hide TryContact;
    assert order[k..][0] == order[k] && order[k..][1..] == order[k + 1..];
    InRangeTail(order[k..], |contacts|);
  }

  lemma InRangeTail(order: seq<nat>, n: nat)
    requires order != [] && InRange(order, n)
    ensures InRange(order[1..], n)
  {
  }

  lemma TryNone(contacts: seq<Contact>, order: seq<nat>, ratchets: seq<Slot>, blocked: set<Id>, f: Frame)
    ensures TryInOrder(contacts, order[|order|..], ratchets, blocked, f) == Refused(NoMatchingRatchet)
  {
  }

  class App {
    var contacts: seq<Contact>
    var verifiedIds: seq<Id>
    var blockedIds: set<Id>
    var ratchets: seq<Slot>
    var active: Option<Id>

    constructor (contacts: seq<Contact>, ratchets: seq<Slot>)
      ensures this.contacts == contacts && this.ratchets == ratchets && blockedIds == {} && verifiedIds == [] && active == None
    {
      this.contacts, this.ratchets := contacts, ratchets;
      verifiedIds, blockedIds, active := [], {}, None;
    }

    /** `f` is the parsed transport frame. Only the ratchet of the contact that the message is
        delivered from changes. */
    method TryDecryptIncoming(f: Frame) returns (t: Trial)
      modifies this`ratchets
      ensures var order := InboundOrder(Bands(contacts, f.hint, active, verifiedIds));
              InRange(order, |contacts|)
              && t == TryInOrder(contacts, order, old(ratchets), blockedIds, f)
      ensures ratchets == if t.Delivered? then SetRatchet(old(ratchets), t.contact.id, t.blob) else old(ratchets)
    {
      hide TryInOrder, TryContact, InboundOrder, SetRatchet;
      var bands := Bands(contacts, f.hint, active, verifiedIds);
      var order := InboundOrder(bands);
      OrderIsSortedPermutation(bands);
      assert order[0..] == order;
      var k := 0;
      while k < |order|
        invariant 0 <= k <= |order| && ratchets == old(ratchets)
        invariant InRange(order, |contacts|) && InRange(order[k..], |contacts|)
        invariant TryInOrder(contacts, order[k..], ratchets, blockedIds, f) == TryInOrder(contacts, order, ratchets, blockedIds, f)
      {
        TryStep(contacts, order, k, ratchets, blockedIds, f);
        t := TryOne(contacts[order[k]], f);
        if t != Refused(NoMatchingRatchet) {
          if t.Delivered? {
            ratchets := SetRatchet(ratchets, t.contact.id, t.blob);
          }
          return;
        }
        k := k + 1;
      }
      TryNone(contacts, order, ratchets, blockedIds, f);
      return Refused(NoMatchingRatchet);
    }

    /** One round of the loop; `NoMatchingRatchet` stands for `continue`. */
    method TryOne(c: Contact, f: Frame) returns (t: Trial)
      ensures match TryContact(c, ratchets, blockedIds, f)
              case Some(r) => t == r && r != Refused(NoMatchingRatchet)
              case None => t == Refused(NoMatchingRatchet)
    {
      if c.id in blockedIds {
        return Refused(if |f.hint| == 32 && c.x25519 == f.hint then Blocked else NoMatchingRatchet);
      }
      var rb := Lookup(ratchets, c.id);
      if rb.None? {
        return Refused(NoMatchingRatchet);
      }
      var restored := DoubleRatchet.FromBytes(rb.value);
      if restored.Err? {
        return Refused(RatchetRestore);
      }
      var r := restored.value;
      var aad := BuildWireAadV3(f.hint, f.step, f.epochStart, f.dh);
      var plain := r.TryRecvDecryptEpoch(f.dh, f.step, f.epochStart, f.ct, aad);
      if plain.Err? {
        return Refused(NoMatchingRatchet);
      }
      var message := Unpad(plain.value.plaintext);
      if message.Err? {
        return Refused(BadPadding);
      }
      var blob := r.ToBytes();
      return Delivered(c, message.value, plain.value.step, blob);
    }
  }

  // ---------------------------------------------------------------- who is advanced

  lemma {:induction false} LookupAfterSet(ratchets: seq<Slot>, id: Id, blob: Blob, other: Id)
    ensures Lookup(SetRatchet(ratchets, id, blob), other) == if other == id then Some(blob) else Lookup(ratchets, other)
  {
    if ratchets == [] {
    } else {
      if ratchets[0].id != id {
        LookupAfterSet(ratchets[1..], id, blob, other);
      }
      assert ([ratchets[0]] + SetRatchet(ratchets[1..], id, blob))[1..] == SetRatchet(ratchets[1..], id, blob);
      assert ([Slot(id, blob)] + ratchets[1..])[1..] == ratchets[1..];
    }
  }

  lemma {:induction false} DeliveredIsUnblocked(contacts: seq<Contact>, order: seq<nat>, ratchets: seq<Slot>, blocked: set<Id>, f: Frame)
    requires InRange(order, |contacts|)
    ensures var t := TryInOrder(contacts, order, ratchets, blocked, f);
            t.Delivered? ==> t.contact in contacts && t.contact.id !in blocked && Lookup(ratchets, t.contact.id).Some?
    decreases |order|
  {
    if order == [] {
    } else {
      assert contacts[order[0]] in contacts;
      DeliveredIsUnblocked(contacts, order[1..], ratchets, blocked, f);
    }
  }

  /** Whatever the order, a frame advances the ratchet of one contact at most, and never that of a
      blocked one. */
  lemma AtMostOneRatchetAdvances(contacts: seq<Contact>, order: seq<nat>, ratchets: seq<Slot>, blocked: set<Id>, f: Frame, id: Id)
    requires InRange(order, |contacts|)
    ensures var t := TryInOrder(contacts, order, ratchets, blocked, f);
            var after := if t.Delivered? then SetRatchet(ratchets, t.contact.id, t.blob) else ratchets;
            Lookup(after, id) != Lookup(ratchets, id) ==> t.Delivered? && t.contact.id == id && id !in blocked
  {
    var t := TryInOrder(contacts, order, ratchets, blocked, f);
    DeliveredIsUnblocked(contacts, order, ratchets, blocked, f);
    if t.Delivered? {
      LookupAfterSet(ratchets, t.contact.id, t.blob, id);
    }
  }

  // ---------------------------------------------------------------- the order does not matter

  /** The key with which a ratchet tries the frame. */
  ghost function CandidateKey(s: State, f: Frame): Option<Key> {
    if f.step in s.skipped then Some(s.skipped[f.step])
    else
      var plan := if s.remote.None? || s.remote == Some(f.dh) then SameChain(f.dh, f.step) else NewChain(f.dh, f.epochStart, f.step);
      match Prepare(s, plan)
      case Ok(t) => Some(MsgKey(t.chainRecv))
      case Err(_) => None
  }

  lemma OpensWithCandidate(s: State, f: Frame)
    requires Open(s, f).result.Ok?
    ensures f.ct.Sealed? && CandidateKey(s, f) == Some(f.ct.key)
  {
    hide Prepare, BuildWireAadV3;
  }

  ghost function KeyFor(c: Contact, ratchets: seq<Slot>, blocked: set<Id>, f: Frame): Option<Key> {
    if c.id in blocked || Lookup(ratchets, c.id).None? || Deserialize(Lookup(ratchets, c.id).value).None? then None
    else CandidateKey(Deserialize(Lookup(ratchets, c.id).value).value, f)
  }

  ghost predicate AllParse(contacts: seq<Contact>, ratchets: seq<Slot>) {
    forall i :: 0 <= i < |contacts| && Lookup(ratchets, contacts[i].id).Some? ==> Deserialize(Lookup(ratchets, contacts[i].id).value).Some?
  }

  ghost predicate CandidatesDiffer(contacts: seq<Contact>, ratchets: seq<Slot>, blocked: set<Id>, f: Frame) {
    forall i, j :: 0 <= i < j < |contacts| && KeyFor(contacts[i], ratchets, blocked, f).Some? ==>
      KeyFor(contacts[i], ratchets, blocked, f) != KeyFor(contacts[j], ratchets, blocked, f)
  }

  /** A contact that ends the trial of a sealed frame does so because its key opens the frame. */
  lemma EndsByItsKey(c: Contact, ratchets: seq<Slot>, blocked: set<Id>, f: Frame)
    requires |f.hint| != 32 && TryContact(c, ratchets, blocked, f).Some?
    requires Lookup(ratchets, c.id).Some? ==> Deserialize(Lookup(ratchets, c.id).value).Some?
    ensures f.ct.Sealed? && KeyFor(c, ratchets, blocked, f) == Some(f.ct.key)
  {
    hide Open, CandidateKey, Unpad, Deserialize;
    OpensWithCandidate(Deserialize(Lookup(ratchets, c.id).value).value, f);
  }

  lemma {:induction false} TrialIsDecidedBy(contacts: seq<Contact>, order: seq<nat>, ratchets: seq<Slot>, blocked: set<Id>, f: Frame, i: nat)
    requires InRange(order, |contacts|) && i in order
    requires TryContact(contacts[i], ratchets, blocked, f).Some?
    requires forall j :: 0 <= j < |contacts| && j != i ==> TryContact(contacts[j], ratchets, blocked, f).None?
    ensures Some(TryInOrder(contacts, order, ratchets, blocked, f)) == TryContact(contacts[i], ratchets, blocked, f)
    decreases |order|
  {
    hide TryContact;
    if order[0] == i {
    } else {
      TrialIsDecidedBy(contacts, order[1..], ratchets, blocked, f, i);
    }
  }

  lemma {:induction false} TrialFindsNone(contacts: seq<Contact>, order: seq<nat>, ratchets: seq<Slot>, blocked: set<Id>, f: Frame)
    requires InRange(order, |contacts|)
    requires forall j :: 0 <= j < |contacts| ==> TryContact(contacts[j], ratchets, blocked, f).None?
    ensures TryInOrder(contacts, order, ratchets, blocked, f) == Refused(NoMatchingRatchet)
    decreases |order|
  {
    hide TryContact;
    if order == [] {
    } else {
      TrialFindsNone(contacts, order[1..], ratchets, blocked, f);
    }
  }

  /** For a sealed frame every order of the contacts gives the same answer, once all stored ratchets
      can be read and no two contacts would try the same key. */
  lemma OrderDoesNotMatter(contacts: seq<Contact>, p: seq<nat>, q: seq<nat>, ratchets: seq<Slot>, blocked: set<Id>, f: Frame)
    requires Permutation(p, |contacts|) && Permutation(q, |contacts|) && |f.hint| != 32
    requires AllParse(contacts, ratchets) && CandidatesDiffer(contacts, ratchets, blocked, f)
    ensures InRange(p, |contacts|) && InRange(q, |contacts|)
    ensures TryInOrder(contacts, p, ratchets, blocked, f) == TryInOrder(contacts, q, ratchets, blocked, f)
  {
    hide TryContact, KeyFor, Lookup, Deserialize;
    assert InRange(p, |contacts|) && InRange(q, |contacts|) by {
      assert forall k :: 0 <= k < |p| ==> p[k] in p;
      assert forall k :: 0 <= k < |q| ==> q[k] in q;
    }
    if i :| 0 <= i < |contacts| && TryContact(contacts[i], ratchets, blocked, f).Some? {
      EndsByItsKey(contacts[i], ratchets, blocked, f);
      forall j | 0 <= j < |contacts| && j != i
        ensures TryContact(contacts[j], ratchets, blocked, f).None?
      {
        if TryContact(contacts[j], ratchets, blocked, f).Some? {
          EndsByItsKey(contacts[j], ratchets, blocked, f);
        }
      }
      TrialIsDecidedBy(contacts, p, ratchets, blocked, f, i);
      TrialIsDecidedBy(contacts, q, ratchets, blocked, f, i);
    } else {
      TrialFindsNone(contacts, p, ratchets, blocked, f);
      TrialFindsNone(contacts, q, ratchets, blocked, f);
    }
  }
}
