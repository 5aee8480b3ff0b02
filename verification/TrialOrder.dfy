/** In which order contacts are tried, and how the trial of one contact ends (`inbound_contact_order`,
    `try_decrypt_incoming` in `src/bin/hashchat_tui.rs`). */
module TrialOrder {
  import opened Crypto
  import opened Padding
  import opened RatchetBlob
  import opened Agreement
  import opened TrialDecrypt

  // ---------------------------------------------------------------- the order

  predicate IsActive(c: Contact, active: Option<Id>) {
    active.Some? && active.value == c.id
  }

  /** Contact `i` is tried before contact `j`. With a 32-byte hint those with that key come first; without
      a hint the active one comes first, then the verified ones; otherwise the order of the list counts. */
  predicate Before(contacts: seq<Contact>, hint: Bytes, active: Option<Id>, verified: seq<Id>, i: nat, j: nat)
    requires i < |contacts| && j < |contacts|
  {
    var c, d := contacts[i], contacts[j];
    if |hint| == 32 && (c.x25519 == hint) != (d.x25519 == hint) then c.x25519 == hint
    else if hint == [] && IsActive(c, active) != IsActive(d, active) then IsActive(c, active)
    else if hint == [] && !IsActive(c, active) && (c.id in verified) != (d.id in verified) then c.id in verified
    else i < j
  }

  lemma BandsOrder(contacts: seq<Contact>, hint: Bytes, active: Option<Id>, verified: seq<Id>, i: nat, j: nat)
    requires i < |contacts| && j < |contacts|
    ensures Precedes(Bands(contacts, hint, active, verified), i, j) <==> Before(contacts, hint, active, verified, i, j)
  {
  }

  /** Every contact is tried once, and of any two the one that comes before. */
  lemma OrderIs(contacts: seq<Contact>, hint: Bytes, active: Option<Id>, verified: seq<Id>)
    ensures var order := InboundOrder(Bands(contacts, hint, active, verified));
            && Permutation(order, |contacts|) && InRange(order, |contacts|)
            && forall a, b :: 0 <= a < b < |order| ==> Before(contacts, hint, active, verified, order[a], order[b])
  {
    hide InboundOrder, Before, Precedes;
    var bands := Bands(contacts, hint, active, verified);
    OrderIsSortedPermutation(bands);
    var order := InboundOrder(bands);
    forall a, b | 0 <= a < b < |order|
      ensures Before(contacts, hint, active, verified, order[a], order[b])
    {
      BandsOrder(contacts, hint, active, verified, order[a], order[b]);
    }
  }

  /** The first contact whose key the hint names. */
  predicate Named(contacts: seq<Contact>, hint: Bytes, i: nat) {
    |hint| == 32 && i < |contacts| && contacts[i].x25519 == hint && forall j :: 0 <= j < i ==> contacts[j].x25519 != hint
  }

  lemma NoneBeforeNamed(contacts: seq<Contact>, hint: Bytes, active: Option<Id>, verified: seq<Id>, i: nat, j: nat)
    requires Named(contacts, hint, i) && j < |contacts|
    ensures !Before(contacts, hint, active, verified, j, i)
  {
  }

  lemma NamedInRange(contacts: seq<Contact>, hint: Bytes, i: nat)
    requires Named(contacts, hint, i)
    ensures i < |contacts|
  {
  }

  lemma NamedIsFirst(contacts: seq<Contact>, hint: Bytes, active: Option<Id>, verified: seq<Id>, i: nat)
    requires Named(contacts, hint, i)
    ensures var order := InboundOrder(Bands(contacts, hint, active, verified)); order != [] && order[0] == i
  {
    hide InboundOrder, Before, Named;
    NamedInRange(contacts, hint, i);
    OrderIs(contacts, hint, active, verified);
    var order := InboundOrder(Bands(contacts, hint, active, verified));
    assert i in order;
    var k :| 0 <= k < |order| && order[k] == i;
    if k > 0 {
      NoneBeforeNamed(contacts, hint, active, verified, i, order[0]);
    }
  }

  // ---------------------------------------------------------------- one contact

  /** How the trial of a contact ends, in full: blocked and named; blocked or without a ratchet, and passed
      over; with a ratchet that cannot be read; with one that does not open the frame, and passed over; with
      bad padding; or with the message. */
  lemma TryContactIs(c: Contact, ratchets: seq<Slot>, blocked: set<Id>, f: Frame)
    ensures var t, stored := TryContact(c, ratchets, blocked, f), Lookup(ratchets, c.id);
            && (t == Some(Refused(Blocked)) <==> c.id in blocked && |f.hint| == 32 && c.x25519 == f.hint)
            && (c.id in blocked || stored.None? ==> t.None? || t == Some(Refused(Blocked)))
            && (c.id !in blocked && stored.Some? ==>
                  var s := Deserialize(stored.value);
                  && (t == Some(Refused(RatchetRestore)) <==> s.None?)
                  && (s.Some? ==>
                        var o := Open(s.value, f);
                        && (t.None? <==> o.result.Err?)
                        && (o.result.Ok? ==>
                              var m := Unpad(o.result.value.plaintext);
                              t == Some(if m.Err? then Refused(BadPadding) else Delivered(c, m.value, o.result.value.step, Serialize(o.state))))))
  {
    hide Open, Unpad, Deserialize, Serialize, Lookup;
  }

  // ---------------------------------------------------------------- the whole trial

  /** A frame whose hint names a contact is decided by that contact if it decides at all; if that contact is
      blocked the frame is refused as such, although another one could open it. */
  lemma NamedDecides(contacts: seq<Contact>, ratchets: seq<Slot>, blocked: set<Id>, active: Option<Id>, verified: seq<Id>, f: Frame, i: nat)
    requires Named(contacts, f.hint, i)
    ensures var order := InboundOrder(Bands(contacts, f.hint, active, verified));
            && InRange(order, |contacts|)
            && var t := TryInOrder(contacts, order, ratchets, blocked, f);
               && (contacts[i].id in blocked ==> t == Refused(Blocked))
               && (TryContact(contacts[i], ratchets, blocked, f).Some? ==> Some(t) == TryContact(contacts[i], ratchets, blocked, f))
  {
    hide InboundOrder, TryContact;
    OrderIs(contacts, f.hint, active, verified);
    NamedIsFirst(contacts, f.hint, active, verified, i);
    TryContactIs(contacts[i], ratchets, blocked, f);
  }

  /** The ratchet of a blocked contact plays no part: with any other the answer is the same. */
  lemma {:induction false} BlockedPlaysNoPart(contacts: seq<Contact>, order: seq<nat>, ratchets: seq<Slot>, blocked: set<Id>, f: Frame, id: Id, blob: Blob)
    requires InRange(order, |contacts|) && id in blocked
    ensures TryInOrder(contacts, order, SetRatchet(ratchets, id, blob), blocked, f) == TryInOrder(contacts, order, ratchets, blocked, f)
    decreases |order|
  {
    hide TryContact;
    if order == [] {
    } else {
      BlockedOne(contacts[order[0]], ratchets, blocked, f, id, blob);
      BlockedPlaysNoPart(contacts, order[1..], ratchets, blocked, f, id, blob);
    }
  }

  lemma BlockedOne(c: Contact, ratchets: seq<Slot>, blocked: set<Id>, f: Frame, id: Id, blob: Blob)
    requires id in blocked
    ensures TryContact(c, SetRatchet(ratchets, id, blob), blocked, f) == TryContact(c, ratchets, blocked, f)
  {
    hide Open, Unpad, Deserialize, Serialize, Lookup, SetRatchet;
    LookupAfterSet(ratchets, id, blob, c.id);
  }
}
