/** The ratchet of one contact as a function on values (`src/rust/ratchet.rs`): what each
    operation of class `DoubleRatchet` computes. */
module Ratchet {
  import opened Collections
  import opened Crypto

  const DH_SEND_EVERY: nat := 5
  const MAX_SKIP: nat := 200
  const MAX_SKIPPED_KEYS: nat := 1000

  datatype State = State(
    secret: Secret,
    public: Pub,
    remote: Option<Pub>,
    root: Key,
    chainSend: Key,
    chainRecv: Key,
    sendCount: u32,
    recvCount: u32,
    sendsSinceDh: u32,
    skipped: map<u32, Key>)

  datatype Error =
    | StaleOrReplayed | TooManySkipped | NoSkippedKey | CounterExhausted | Reflected
    | InvalidSenderKey | EpochStartAfterStep | NotOpened(why: OpenError) | BadBlob

  datatype Opened = Opened(plaintext: Bytes, step: u32)

  /** The state after an operation, and its answer. */
  datatype Outcome = Outcome(state: State, result: Result<Opened, Error>)

  function SaturatingInc(n: u32): u32 {
    if n == U32_MAX then n else n + 1
  }

  // ---------------------------------------------------------------- bootstrap

  function Fresh(secret: Secret): State {
    State(secret, secret.point, None, Unset, Unset, Unset, 0, 0, 0, map[])
  }

  /** The all-zero salt stands for none, as in `init_directional`. */
  function EffectiveSalt(salt: Bytes): Option<Bytes> {
    if salt == Zeros(|salt|) then None else Some(salt)
  }

  predicate AllZero(b: Bytes) {
    forall i :: 0 <= i < |b| ==> b[i] == 0
  }

  lemma NoSaltIff(salt: Bytes)
    ensures EffectiveSalt(salt) == if AllZero(salt) then None else Some(salt)
  {
    if AllZero(salt) {
      assert salt == Zeros(|salt|);
    }
  }

  /** The peer with the lower static key sends on the chain from low to high. */
  function StartOn(s: State, root: Key, isLower: bool): State {
    State(s.secret, s.public, None, root,
          if isLower then LowToHigh(root) else HighToLow(root), if isLower then HighToLow(root) else LowToHigh(root),
          0, 0, 0, s.skipped)
  }

  function SessionRoot(shared: Key, local: Pub, remote: Pub, salt: Bytes): Key {
    InitialRoot(EffectiveSalt(salt), shared, if Leq(local, remote) then local else remote, if Leq(local, remote) then remote else local)
  }

  /** `init_directional_with_salt`. */
  function InitDirectional(s: State, shared: Key, local: Pub, remote: Pub, salt: Bytes): State {
    StartOn(s, SessionRoot(shared, local, remote, salt), Leq(local, remote))
  }

  // ---------------------------------------------------------------- sending

  /** A send-side Diffie-Hellman step is due. */
  predicate Rotates(s: State) {
    s.remote.Some? && s.sendsSinceDh >= DH_SEND_EVERY
  }

  function DhSend(s: State, ephemeral: Secret): State
    requires s.remote.Some?
  {
    var shared := DiffieHellman(ephemeral, s.remote.value);
    var root := StepRoot(s.root, shared);
    s.(secret := ephemeral, public := ephemeral.point, root := root, chainSend := DhChain(root, shared), sendsSinceDh := 0)
  }

  function BeforeSend(s: State, ephemeral: Secret): State {
    if Rotates(s) then DhSend(s, ephemeral) else s
  }

  /** `ratchet_send`: the state after it; the message key and step are those of `SendKey`, `SendStep`. */
  function AfterSend(s: State, ephemeral: Secret): State {
    var t := BeforeSend(s, ephemeral);
    t.(chainSend := NextChain(t.chainSend),
       sendCount := SaturatingInc(t.sendCount),
       sendsSinceDh := SaturatingInc(t.sendsSinceDh))
  }

  function SendKey(s: State, ephemeral: Secret): Key {
    MsgKey(BeforeSend(s, ephemeral).chainSend)
  }

  function EpochStart(s: State): u32 {
    if s.sendCount < s.sendsSinceDh then 0 else s.sendCount - s.sendsSinceDh
  }

  // ---------------------------------------------------------------- skipped keys

  ghost predicate IsLowest(m: map<u32, Key>, n: u32) {
    n in m && forall k :: k in m ==> n <= k
  }

  lemma {:induction false} LowestExists(m: map<u32, Key>)
    requires m != map[]
    ensures exists n :: IsLowest(m, n)
    decreases |m|
  {
    var x :| x in m;
    var rest := m - {x};
    if rest == map[] {
      assert forall k :: k in m ==> k in rest || k == x;
      assert IsLowest(m, x);
    } else {
      LowestExists(rest);
      var y :| IsLowest(rest, y);
      assert forall k :: k in m ==> k in rest || k == x;
      assert IsLowest(m, if x <= y then x else y);
    }
  }

  ghost function Lowest(m: map<u32, Key>): (n: u32)
    requires m != map[]
    ensures IsLowest(m, n)
  {
    LowestExists(m);
    var n :| IsLowest(m, n);
    n
  }

  /** Drop the lowest steps until the cap is met. */
  ghost function Evict(m: map<u32, Key>): map<u32, Key>
    decreases |m|
  {
    if |m| <= MAX_SKIPPED_KEYS then m else Evict(m - {Lowest(m)})
  }

  // ---------------------------------------------------------------- receiving

  /** `next_recv_key` followed by `store_skipped_key`. */
  ghost function SkipOne(s: State): State {
    s.(chainRecv := NextChain(s.chainRecv),
       recvCount := SaturatingInc(s.recvCount),
       skipped := Evict(s.skipped[s.recvCount := MsgKey(s.chainRecv)]))
  }

  ghost function SkipTo(s: State, until: u32): State
    requires s.recvCount <= until
    decreases until - s.recvCount
  {
    if s.recvCount == until then s else SkipTo(SkipOne(s), until)
  }

  /** `skip_recv_until`. */
  ghost function Skip(s: State, until: u32): Result<State, Error> {
    if until < s.recvCount then Err(StaleOrReplayed)
    else if until - s.recvCount > MAX_SKIP then Err(TooManySkipped)
    else Ok(SkipTo(s, until))
  }

  function DhRecv(s: State, remote: Pub): State {
    var shared := DiffieHellman(s.secret, remote);
    var root := StepRoot(s.root, shared);
    s.(root := root, chainRecv := DhChain(root, shared), remote := Some(remote))
  }

  /** What the closures passed to `commit_if_opens` do to the scratch copy. */
  datatype Plan = SameChain(remote: Pub, step: u32) | NewChain(remote: Pub, first: u32, step: u32)

  ghost function Prepare(s: State, plan: Plan): Result<State, Error> {
    match plan
    case SameChain(remote, step) =>
      (match Skip(s, step)
       case Err(e) => Err(e)
       case Ok(t) => Ok(if t.remote.None? then t.(remote := Some(remote)) else t))
    case NewChain(remote, first, step) =>
      match Skip(s, first)
      case Err(e) => Err(e)
      case Ok(t) => Skip(DhRecv(t, remote), step)
  }

  function TakeKey(s: State): State {
    s.(chainRecv := NextChain(s.chainRecv), recvCount := SaturatingInc(s.recvCount))
  }

  /** `commit_if_opens`: the live state is replaced only if the frame opens. */
  ghost function Commit(s: State, plan: Plan, ct: Ciphertext, aad: Bytes): Outcome {
    match Prepare(s, plan)
    case Err(e) => Outcome(s, Err(e))
    case Ok(t) =>
      match Decrypt(MsgKey(t.chainRecv), ct, aad)
      case Err(why) => Outcome(s, Err(NotOpened(why)))
      case Ok(plaintext) => Outcome(TakeKey(t), Ok(Opened(plaintext, t.recvCount)))
  }

  function OpenSkipped(s: State, step: u32, ct: Ciphertext, aad: Bytes): Outcome {
    if step !in s.skipped then Outcome(s, Err(NoSkippedKey))
    else match Decrypt(s.skipped[step], ct, aad)
      case Err(why) => Outcome(s, Err(NotOpened(why)))
      case Ok(plaintext) => Outcome(s.(skipped := s.skipped - {step}), Ok(Opened(plaintext, step)))
  }

  /** The search for the start of the sender's new chain, from distance `k` on. */
  ghost function Search(s: State, remote: Pub, step: u32, ct: Ciphertext, aad: Bytes, k: nat, last: Error): Outcome
    requires k <= DH_SEND_EVERY
    decreases DH_SEND_EVERY - k
  {
    if k == DH_SEND_EVERY || step < k || step - k < s.recvCount then Outcome(s, Err(last))
    else
      var attempt := Commit(s, NewChain(remote, step - k, step), ct, aad);
      if attempt.result.Ok? then attempt
      else Search(s, remote, step, ct, aad, k + 1, attempt.result.error)
  }

  /** `recv_inner`. */
  ghost function Receive(s: State, remote: Pub, step: u32, epochStart: Option<u32>, ct: Ciphertext, aad: Bytes): Outcome {
    if step in s.skipped then OpenSkipped(s, step, ct, aad)
    else if s.recvCount == U32_MAX then Outcome(s, Err(CounterExhausted))
    else if remote == s.public then Outcome(s, Err(Reflected))
    else if s.remote != Some(remote) && !WasContributory(remote) then Outcome(s, Err(InvalidSenderKey))
    else if step < s.recvCount then Outcome(s, Err(StaleOrReplayed))
    else if s.remote.None? || s.remote == Some(remote) then Commit(s, SameChain(remote, step), ct, aad)
    else match epochStart
      case Some(first) =>
        if first < s.recvCount then Outcome(s, Err(StaleOrReplayed))
        else Commit(s, NewChain(remote, first, step), ct, aad)
      case None => Search(s, remote, step, ct, aad, 0, NotOpened(NotAuthentic))
  }

  /** `try_recv_decrypt_epoch`. */
  ghost function ReceiveEpoch(s: State, remote: Pub, step: u32, epochStart: u32, ct: Ciphertext, aad: Bytes): Outcome {
    if epochStart > step then Outcome(s, Err(EpochStartAfterStep))
    else Receive(s, remote, step, Some(epochStart), ct, aad)
  }

  /** `s` with its receiving side replaced. */
  function Receiving(s: State, root: Key, remote: Option<Pub>, chain: Key, count: u32, skipped: map<u32, Key>): State {
    State(s.secret, s.public, remote, root, s.chainSend, chain, s.sendCount, count, s.sendsSinceDh, skipped)
  }

  // ---------------------------------------------------------------- facts about skipping

  /** Eviction removes the lowest steps and nothing else, and only above the cap. */
  lemma {:induction false} EvictFacts(m: map<u32, Key>)
    ensures |Evict(m)| <= MAX_SKIPPED_KEYS
    ensures Evict(m).Keys <= m.Keys && forall n :: n in Evict(m) ==> Evict(m)[n] == m[n]
    ensures forall x, y :: x in m && x !in Evict(m) && y in Evict(m) ==> x < y
    ensures |m| <= MAX_SKIPPED_KEYS ==> Evict(m) == m
    ensures |m| > MAX_SKIPPED_KEYS ==> |Evict(m)| == MAX_SKIPPED_KEYS
    decreases |m|
  {
    if |m| > MAX_SKIPPED_KEYS {
      var n := Lowest(m);
      assert |m - {n}| == |m| - 1 by {
        assert (m - {n}).Keys == m.Keys - {n};
      }
      EvictFacts(m - {n});
    }
  }

  predicate Within(first: int, n: int, until: int) {
    first <= n < until
  }

  ghost function Steps(first: u32, until: u32): set<u32> {
    set n: u32 | first <= n < until && Within(first, n, until)
  }

  lemma {:induction false} StepsSize(first: u32, until: u32)
    requires first <= until
    ensures |Steps(first, until)| == until - first
    decreases until - first
  {
    if first == until {
      assert Steps(first, until) == {};
    } else {
      StepsSize(first, until - 1);
      assert Steps(first, until) == Steps(first, until - 1) + {until - 1};
    }
  }

  /** The keys of the steps `first .. until` of a chain that is at `chain` for `first`. */
  ghost function KeysFrom(chain: Key, first: u32, until: u32): map<u32, Key>
  {
    map n | n in Steps(first, until) :: MsgKey(Advance(chain, n - first))
  }

  /** Skipping moves the receive chain and its counter; apart from the stored keys nothing else changes. */
  lemma {:induction false} SkipMoves(s: State, until: u32)
    requires s.recvCount <= until
    ensures SkipTo(s, until)
         == Receiving(s, s.root, s.remote, Advance(s.chainRecv, until - s.recvCount), until, SkipTo(s, until).skipped)
    decreases until - s.recvCount
  {
    if s.recvCount == until {
    } else {
      SkipMoves(SkipOne(s), until);
      AdvanceFromNext(s.chainRecv, until - s.recvCount - 1);
    }
  }

  /** Every key there is to store while skipping, whether or not it is kept. */
  ghost function AllKeys(s: State, until: u32): map<u32, Key>
    requires s.recvCount <= until
  {
    s.skipped + KeysFrom(s.chainRecv, s.recvCount, until)
  }

  lemma KeysFromNext(chain: Key, first: u32, until: u32)
    requires first < until
    ensures KeysFrom(chain, first, until) == map[first := MsgKey(chain)] + KeysFrom(NextChain(chain), first + 1, until)
  {
    var rest := KeysFrom(NextChain(chain), first + 1, until);
    forall n | n in rest
      ensures Advance(chain, n - first) == Advance(NextChain(chain), n - first - 1)
    {
      AdvanceFromNext(chain, n - first - 1);
    }
  }

  lemma PutThenMerge<K, V>(m: map<K, V>, k: K, v: V, more: map<K, V>)
    ensures m + (map[k := v] + more) == m[k := v] + more
  {
  }

  lemma AllKeysSkipOne(s: State, until: u32)
    requires s.recvCount < until
    ensures AllKeys(s, until)
         == s.skipped[s.recvCount := MsgKey(s.chainRecv)] + KeysFrom(NextChain(s.chainRecv), s.recvCount + 1, until)
  {
    KeysFromNext(s.chainRecv, s.recvCount, until);
    PutThenMerge(s.skipped, s.recvCount, MsgKey(s.chainRecv), KeysFrom(NextChain(s.chainRecv), s.recvCount + 1, until));
  }

  /** `kept` is `all`, or the highest steps of it. */
  ghost predicate KeepsHighest(kept: map<u32, Key>, all: map<u32, Key>) {
    && kept.Keys <= all.Keys
    && (forall n :: n in kept ==> kept[n] == all[n])
    && (forall x, y :: x in all && x !in kept && y in kept ==> x < y)
  }

  lemma KeepsHighestTransitive(a: map<u32, Key>, b: map<u32, Key>, c: map<u32, Key>, more: map<u32, Key>, mid: u32)
    requires KeepsHighest(b, a) && KeepsHighest(c, b + more)
    requires forall x :: x in a ==> x < mid
    requires forall y :: y in more ==> mid <= y
    ensures KeepsHighest(c, a + more)
  {
    forall x, y | x in a + more && x !in c && y in c
      ensures x < y
    {
      if x !in b + more {
        assert x in a && x !in b;
        assert y in b || y in more;
      }
    }
  }

  lemma KeysFromBounds(chain: Key, first: u32, until: u32)
    ensures forall n :: n in KeysFrom(chain, first, until) ==> first <= n < until
  {
  }

  lemma SkipOneStores(s: State)
    requires s.recvCount < U32_MAX && forall n :: n in s.skipped ==> n < s.recvCount
    ensures var stored := s.skipped[s.recvCount := MsgKey(s.chainRecv)];
            && (forall n :: n in stored ==> n < SkipOne(s).recvCount)
            && KeepsHighest(SkipOne(s).skipped, stored)
            && (forall n :: n in SkipOne(s).skipped ==> n < SkipOne(s).recvCount)
  {
    EvictFacts(s.skipped[s.recvCount := MsgKey(s.chainRecv)]);
  }

  lemma SkipOneKeeps(s: State, until: u32, kept: map<u32, Key>)
    requires s.recvCount < until && forall n :: n in s.skipped ==> n < s.recvCount
    requires KeepsHighest(kept, AllKeys(SkipOne(s), until))
    ensures KeepsHighest(kept, AllKeys(s, until))
  {
    hide KeepsHighest, KeysFrom, Evict, Advance;
    var t := SkipOne(s);
    var stored := s.skipped[s.recvCount := MsgKey(s.chainRecv)];
    var more := KeysFrom(t.chainRecv, t.recvCount, until);
    AllKeysSkipOne(s, until);
    SkipOneStores(s);
    KeysFromBounds(t.chainRecv, t.recvCount, until);
    KeepsHighestTransitive(stored, t.skipped, kept, more, t.recvCount);
  }

  /** Of the keys passed over and those stored before, skipping keeps all or the highest. */
  lemma {:induction false} SkipKeeps(s: State, until: u32)
    requires s.recvCount <= until
    requires forall n :: n in s.skipped ==> n < s.recvCount
    ensures KeepsHighest(SkipTo(s, until).skipped, AllKeys(s, until))
    decreases until - s.recvCount
  {
    if s.recvCount == until {
      assert AllKeys(s, until) == s.skipped;
    } else {
      SkipOneStores(s);
      SkipKeeps(SkipOne(s), until);
      SkipOneKeeps(s, until, SkipTo(s, until).skipped);
    }
  }

  lemma {:induction false} SkipBounded(s: State, until: u32)
    requires s.recvCount <= until
    ensures |SkipTo(s, until).skipped| <= MAX_SKIPPED_KEYS || |SkipTo(s, until).skipped| <= |s.skipped|
    decreases until - s.recvCount
  {
    if s.recvCount == until {
    } else {
      EvictFacts(s.skipped[s.recvCount := MsgKey(s.chainRecv)]);
      SkipBounded(SkipOne(s), until);
    }
  }

  lemma PartSize<K, V>(part: map<K, V>, all: map<K, V>)
    requires part.Keys <= all.Keys
    ensures |part| <= |all|
  {
    SubsetSize(part.Keys, all.Keys);
  }

  lemma NothingPassed(s: State)
    ensures AllKeys(s, s.recvCount) == s.skipped
  {
  }

  lemma PassedIncludesStored(s: State, until: u32)
    requires s.recvCount < until
    ensures |s.skipped[s.recvCount := MsgKey(s.chainRecv)]| <= |AllKeys(s, until)|
    ensures |SkipOne(s).skipped| <= |AllKeys(SkipOne(s), until)|
  {
    hide KeysFrom, Evict, Advance;
    AllKeysSkipOne(s, until);
    PartSize(s.skipped[s.recvCount := MsgKey(s.chainRecv)], AllKeys(s, until));
    PartSize(SkipOne(s).skipped, AllKeys(SkipOne(s), until));
  }

  lemma AllKeysStay(s: State, until: u32)
    requires s.recvCount < until && |s.skipped[s.recvCount := MsgKey(s.chainRecv)]| <= MAX_SKIPPED_KEYS
    ensures AllKeys(SkipOne(s), until) == AllKeys(s, until)
  {
    hide KeysFrom, Advance;
    AllKeysSkipOne(s, until);
  }

  /** Keys are evicted only when there are more than the cap, and no more of them than it takes. */
  lemma {:induction false} SkipEvictsAboveCapOnly(s: State, until: u32)
    requires s.recvCount <= until && |s.skipped| <= MAX_SKIPPED_KEYS
    ensures var kept, all := SkipTo(s, until).skipped, AllKeys(s, until);
            if |all| <= MAX_SKIPPED_KEYS then kept == all else |kept| == MAX_SKIPPED_KEYS
    decreases until - s.recvCount
  {
    hide KeysFrom, Evict, AllKeys, Advance;
    if s.recvCount == until {
      NothingPassed(s);
    } else {
      var stored := s.skipped[s.recvCount := MsgKey(s.chainRecv)];
      EvictFacts(stored);
      SkipEvictsAboveCapOnly(SkipOne(s), until);
      PassedIncludesStored(s, until);
      if |stored| <= MAX_SKIPPED_KEYS {
        AllKeysStay(s, until);
      }
    }
  }

  /** Skipping in closed form, while nothing is evicted. */
  lemma SkipClosed(s: State, until: u32)
    requires s.recvCount <= until && until - s.recvCount <= MAX_SKIP
    requires |s.skipped| + (until - s.recvCount) <= MAX_SKIPPED_KEYS
    ensures Skip(s, until)
         == Ok(Receiving(s, s.root, s.remote, Advance(s.chainRecv, until - s.recvCount), until, AllKeys(s, until)))
    ensures |AllKeys(s, until)| <= |s.skipped| + (until - s.recvCount)
  {
    SkipMoves(s, until);
    MergeSize(s.skipped, KeysFrom(s.chainRecv, s.recvCount, until));
    StepsSize(s.recvCount, until);
    assert KeysFrom(s.chainRecv, s.recvCount, until).Keys == Steps(s.recvCount, until);
    SkipEvictsAboveCapOnly(s, until);
  }

  lemma MergeSize<K, V>(a: map<K, V>, b: map<K, V>)
    ensures |a + b| <= |a| + |b|
  {
    assert (a + b).Keys == a.Keys + b.Keys;
  }
}
