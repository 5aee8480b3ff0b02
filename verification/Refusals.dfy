/** For which reason a ratchet refuses a frame, and what a send does to it, whatever its state
    (`recv_inner`, `ratchet_send` in `src/rust/ratchet.rs`). */
module Refusals {
  import opened Crypto
  import opened Ratchet

  // ---------------------------------------------------------------- skipping

  lemma SkipIs(s: State, until: u32)
    ensures match Skip(s, until)
            case Err(e) => if until < s.recvCount then e == StaleOrReplayed else until - s.recvCount > 200 && e == TooManySkipped
            case Ok(t) => s.recvCount <= until <= s.recvCount + 200 && t.recvCount == until && (t.remote, t.secret) == (s.remote, s.secret)
  {
    hide SkipTo;
    if s.recvCount <= until {
      SkipMoves(s, until);
    }
  }

  /** The gap is too large: up to the step under the known key, or on either side of the boundary under
      a new one. */
  predicate TooFar(s: State, remote: Pub, step: u32, first: u32) {
    if s.remote.None? || s.remote == Some(remote) then step - s.recvCount > 200
    else first - s.recvCount > 200 || step - first > 200
  }

  lemma PrepareIs(s: State, remote: Pub, step: u32, first: u32)
    requires s.recvCount <= step && first <= step && (s.remote.Some? && s.remote != Some(remote) ==> s.recvCount <= first)
    ensures var plan := if s.remote.None? || s.remote == Some(remote) then SameChain(remote, step) else NewChain(remote, first, step);
            match Prepare(s, plan)
            case Err(e) => TooFar(s, remote, step, first) && e == TooManySkipped
            case Ok(t) => !TooFar(s, remote, step, first) && t.recvCount == step
  {
    hide Skip;
    if s.remote.None? || s.remote == Some(remote) {
      SkipIs(s, step);
    } else {
      SkipIs(s, first);
      if Skip(s, first).Ok? {
        SkipIs(DhRecv(Skip(s, first).value, remote), step);
      }
    }
  }

  // ---------------------------------------------------------------- the reasons

  predicate LowOrder(p: Pub) {
    |p| == 32 && AllZero(p)
  }

  lemma LowOrderIff(p: Pub)
    ensures WasContributory(p) <==> !LowOrder(p)
  {
    if LowOrder(p) {
      assert p == Zeros(32);
    }
  }

  /** The step has no stored key and the counter can still move. */
  predicate Fresh(s: State, step: u32) {
    step !in s.skipped && s.recvCount < U32_MAX
  }

  /** Neither the peer's own key come back, nor a new key of low order. */
  predicate KeyPasses(s: State, remote: Pub) {
    remote != s.public && (s.remote == Some(remote) || !LowOrder(remote))
  }

  /** The step, or under a new key the start of the epoch, lies behind the counter. */
  predicate Behind(s: State, remote: Pub, step: u32, first: u32) {
    step < s.recvCount || (s.remote.Some? && s.remote != Some(remote) && first < s.recvCount)
  }

  /** Every refusal of a frame with `epoch_start`, in full: each error if and only if its reason is the
      first that applies. A frame that passes all of them is refused only if the ciphertext does not open,
      as too short exactly when it has fewer than 28 bytes. */
  lemma RefusedIff(s: State, remote: Pub, step: u32, first: u32, ct: Ciphertext, aad: Bytes)
    ensures var r := ReceiveEpoch(s, remote, step, first, ct, aad).result;
            && (r == Err(EpochStartAfterStep) <==> first > step)
            && (r == Err(CounterExhausted) <==> first <= step && step !in s.skipped && s.recvCount == U32_MAX)
            && (r == Err(Reflected) <==> first <= step && Fresh(s, step) && remote == s.public)
            && (r == Err(InvalidSenderKey) <==>
                  first <= step && Fresh(s, step) && remote != s.public && s.remote != Some(remote) && LowOrder(remote))
            && (r == Err(StaleOrReplayed) <==>
                  first <= step && Fresh(s, step) && KeyPasses(s, remote) && Behind(s, remote, step, first))
            && (r == Err(TooManySkipped) <==>
                  first <= step && Fresh(s, step) && KeyPasses(s, remote) && !Behind(s, remote, step, first) && TooFar(s, remote, step, first))
            && (r.Ok? || r == Err(NotOpened(Short)) || r == Err(NotOpened(NotAuthentic)) <==>
                  first <= step && (step in s.skipped
                    || (Fresh(s, step) && KeyPasses(s, remote) && !Behind(s, remote, step, first) && !TooFar(s, remote, step, first))))
            && (r == Err(NotOpened(Short)) ==> ct.Garbage? && ct.length < 28)
            && (r == Err(NotOpened(NotAuthentic)) ==> ct.Sealed? || ct.length >= 28)
  {
    hide Prepare, LowOrder, WasContributory, TooFar;
    LowOrderIff(remote);
    if first <= step && s.recvCount <= step && !Behind(s, remote, step, first) {
      PrepareIs(s, remote, step, first);
    }
  }

  /** The distance is one that the search tries. */
  predicate Tried(s: State, step: u32, k: nat) {
    k < 5 && k <= step && s.recvCount <= step - k
  }

  /** Without `epoch_start` a search that fails answers as its last attempt did, that at the largest
      distance tried. */
  lemma {:induction false} SearchFailsAsItsLast(s: State, remote: Pub, step: u32, ct: Ciphertext, aad: Bytes, k: nat, last: Error)
    requires k <= 5 && Search(s, remote, step, ct, aad, k, last).result.Err?
    ensures var r := Search(s, remote, step, ct, aad, k, last).result;
            && (!Tried(s, step, k) ==> r == Err(last))
            && forall m :: k <= m && Tried(s, step, m) && !Tried(s, step, m + 1) ==> r == Commit(s, NewChain(remote, step - m, step), ct, aad).result
    decreases 5 - k
  {
    hide Commit;
    if Tried(s, step, k) {
      SearchFailsAsItsLast(s, remote, step, ct, aad, k + 1, Commit(s, NewChain(remote, step - k, step), ct, aad).result.error);
    }
  }

  /** Every refusal before a search. */
  lemma RefusedBeforeSearchIff(s: State, remote: Pub, step: u32, ct: Ciphertext, aad: Bytes)
    ensures var r := Receive(s, remote, step, None, ct, aad).result;
            && (step !in s.skipped && s.recvCount == U32_MAX ==> r == Err(CounterExhausted))
            && (Fresh(s, step) && remote == s.public ==> r == Err(Reflected))
            && (Fresh(s, step) && remote != s.public && s.remote != Some(remote) && LowOrder(remote) ==> r == Err(InvalidSenderKey))
            && (Fresh(s, step) && KeyPasses(s, remote) && step < s.recvCount ==> r == Err(StaleOrReplayed))
            && (Fresh(s, step) && KeyPasses(s, remote) && step >= s.recvCount && (s.remote.None? || s.remote == Some(remote)) ==>
                  (r == Err(TooManySkipped) <==> step - s.recvCount > 200))
            && (Fresh(s, step) && KeyPasses(s, remote) && step >= s.recvCount && s.remote.Some? && s.remote != Some(remote) ==>
                  r == Search(s, remote, step, ct, aad, 0, NotOpened(NotAuthentic)).result)
  {
    hide Prepare, LowOrder, WasContributory, Search;
    LowOrderIff(remote);
    if s.recvCount <= step && (s.remote.None? || s.remote == Some(remote)) {
      PrepareIs(s, remote, step, step);
    }
  }

  // ---------------------------------------------------------------- sending

  /** `ratchet_send`: the message key is the next one of the chain; with a remote key and five sends or
      more behind it, the chain is a new one, under the new secret and a root into which both keys are
      mixed. The counters stop at their limit; the receiving side is not touched. */
  lemma SendIs(s: State, e: Secret)
    ensures var t := AfterSend(s, e);
            && (t.remote, t.chainRecv, t.recvCount, t.skipped) == (s.remote, s.chainRecv, s.recvCount, s.skipped)
            && t.sendCount == (if s.sendCount == 0xFFFF_FFFF then s.sendCount else s.sendCount + 1)
            && SendKey(s, e).MsgKey? && t.chainSend == NextChain(SendKey(s, e).chain)
            && (if s.remote.Some? && s.sendsSinceDh >= 5 then
                  var shared := Dh({e.point, s.remote.value});
                  && (t.secret, t.public, t.root, t.sendsSinceDh) == (e, e.point, StepRoot(s.root, shared), 1)
                  && SendKey(s, e).chain == DhChain(t.root, shared)
                else
                  && (t.secret, t.public, t.root) == (s.secret, s.public, s.root) && SendKey(s, e).chain == s.chainSend
                  && t.sendsSinceDh == (if s.sendsSinceDh == 0xFFFF_FFFF then s.sendsSinceDh else s.sendsSinceDh + 1))
  {
  }
}
