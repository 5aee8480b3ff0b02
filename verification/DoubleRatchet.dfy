/** `struct DoubleRatchet` of `src/rust/ratchet.rs`, updated in place. Every method is
    proved against the function of module `Ratchet` that says what it computes. */
module RatchetObject {
  import opened Crypto
  import opened Ratchet
  import opened RatchetBlob
  import opened Wire

  class DoubleRatchet {
    var dhSecret: Secret
    var dhPublic: Pub
    var remoteDh: Option<Pub>
    var rootKey: Key
    var chainKeySend: Key
    var chainKeyRecv: Key
    var sendCount: u32
    var recvCount: u32
    var sendsSinceDh: u32
    var skippedKeys: map<u32, Key>

    function Abs(): State
      reads this
    {
      State(dhSecret, dhPublic, remoteDh, rootKey, chainKeySend, chainKeyRecv, sendCount, recvCount, sendsSinceDh, skippedKeys)
    }

    /** The number of skipped keys fits the length field of the blob. */
    predicate Valid()
      reads this
    {
      |skippedKeys| <= U32_MAX
    }

    constructor (secret: Secret)
      ensures Valid() && Abs() == Fresh(secret)
    {
      dhSecret, dhPublic, remoteDh := secret, secret.point, None;
      rootKey, chainKeySend, chainKeyRecv := Unset, Unset, Unset;
      sendCount, recvCount, sendsSinceDh := 0, 0, 0;
      skippedKeys := map[];
    }

    constructor Of(s: State)
      ensures Abs() == s
    {
      dhSecret, dhPublic, remoteDh := s.secret, s.public, s.remote;
      rootKey, chainKeySend, chainKeyRecv := s.root, s.chainSend, s.chainRecv;
      sendCount, recvCount, sendsSinceDh := s.sendCount, s.recvCount, s.sendsSinceDh;
      skippedKeys := s.skipped;
    }

    method InitDirectionalWithSalt(shared: Key, localStatic: Pub, remoteStatic: Pub, salt: Bytes)
      modifies this
      ensures Abs() == InitDirectional(old(Abs()), shared, localStatic, remoteStatic, salt)
    {
      hide Leq, EffectiveSalt, AllZero;
      var saltOpt := if AllZero(salt) then None else Some(salt);
      NoSaltIff(salt);
      var lower := Leq(localStatic, remoteStatic);
      var lo, hi := remoteStatic, localStatic;
      if lower {
        lo, hi := localStatic, remoteStatic;
      }
      rootKey := InitialRoot(saltOpt, shared, lo, hi);
      assert rootKey == SessionRoot(shared, localStatic, remoteStatic, salt);
      hide SessionRoot;
      var lowChain, highChain := LowToHigh(rootKey), HighToLow(rootKey);
      if lower {
        chainKeySend, chainKeyRecv := lowChain, highChain;
      } else {
        chainKeySend, chainKeyRecv := highChain, lowChain;
      }
      remoteDh := None;
      sendCount, recvCount, sendsSinceDh := 0, 0, 0;
    }

    method DhRatchetSend(ephemeral: Secret)
      modifies this
      ensures Abs() == if old(remoteDh).Some? then DhSend(old(Abs()), ephemeral) else old(Abs())
    {
      if remoteDh.None? {
        return;
      }
      dhSecret := ephemeral;
      dhPublic := dhSecret.point;
      var shared := DiffieHellman(dhSecret, remoteDh.value);
      rootKey := StepRoot(rootKey, shared);
      chainKeySend := DhChain(rootKey, shared);
      sendsSinceDh := 0;
    }

    /** `ephemeral` is the secret that the random source yields if a step is due. */
    method RatchetSend(ephemeral: Secret) returns (key: Key, step: u32)
      modifies this
      ensures Abs() == AfterSend(old(Abs()), ephemeral)
      ensures key == SendKey(old(Abs()), ephemeral) && step == old(sendCount)
    {
      if remoteDh.Some? && sendsSinceDh >= DH_SEND_EVERY {
        DhRatchetSend(ephemeral);
      }
      key := MsgKey(chainKeySend);
      chainKeySend := NextChain(chainKeySend);
      step := sendCount;
      sendCount := SaturatingInc(sendCount);
      sendsSinceDh := SaturatingInc(sendsSinceDh);
    }

    method StoreSkippedKey(n: u32, key: Key)
      modifies this`skippedKeys
      ensures skippedKeys == Evict(old(skippedKeys)[n := key])
    {
      skippedKeys := skippedKeys[n := key];
      while |skippedKeys| > MAX_SKIPPED_KEYS
        invariant Evict(skippedKeys) == Evict(old(skippedKeys)[n := key])
        decreases |skippedKeys|
      {
        LowestExists(skippedKeys);
        var first :| first in skippedKeys && forall k :: k in skippedKeys ==> first <= k;
        assert first == Lowest(skippedKeys);
        RemoveShrinks(skippedKeys, first);
        skippedKeys := skippedKeys - {first};
      }
    }

    method NextRecvKey() returns (key: Key, n: u32)
      modifies this
      ensures Abs() == TakeKey(old(Abs()))
      ensures key == MsgKey(old(chainKeyRecv)) && n == old(recvCount)
    {
      key := MsgKey(chainKeyRecv);
      chainKeyRecv := NextChain(chainKeyRecv);
      n := recvCount;
      recvCount := SaturatingInc(recvCount);
    }

    method SkipRecvUntil(until: u32) returns (r: Result<(), Error>)
      requires Valid()
      modifies this
      ensures Valid()
      ensures match Skip(old(Abs()), until)
              case Ok(s) => r == Ok(()) && Abs() == s
              case Err(e) => r == Err(e) && Abs() == old(Abs())
    {
      if until < recvCount {
        return Err(StaleOrReplayed);
      }
      if until - recvCount > MAX_SKIP {
        return Err(TooManySkipped);
      }
      while recvCount < until
        invariant Valid() && recvCount <= until
        invariant SkipTo(Abs(), until) == SkipTo(old(Abs()), until)
        decreases until - recvCount
      {
        ghost var before := Abs();
        var key, n := NextRecvKey();
        StoreSkippedKey(n, key);
        assert Abs() == SkipOne(before);
        EvictFacts(before.skipped[n := key]);
      }
      return Ok(());
    }

    method DhRatchetRecv(remote: Pub)
      modifies this
      ensures Abs() == DhRecv(old(Abs()), remote)
    {
      var shared := DiffieHellman(dhSecret, remote);
      rootKey := StepRoot(rootKey, shared);
      chainKeyRecv := DhChain(rootKey, shared);
      remoteDh := Some(remote);
    }

    /** Runs one of the closures that the receive paths pass to `commit_if_opens`. */
    method Run(plan: Plan) returns (r: Result<(), Error>)
      requires Valid()
      modifies this
      ensures match Prepare(old(Abs()), plan)
              case Ok(s) => r == Ok(()) && Abs() == s && Valid()
              case Err(e) => r == Err(e)
    {
      match plan {
        case SameChain(remote, step) =>
          r := SkipRecvUntil(step);
          if r.Ok? && remoteDh.None? {
            remoteDh := Some(remote);
          }
        case NewChain(remote, first, step) =>
          r := SkipRecvUntil(first);
          if r.Ok? {
            DhRatchetRecv(remote);
            r := SkipRecvUntil(step);
          }
      }
    }

    method Become(that: DoubleRatchet)
      modifies this
      ensures Abs() == old(that.Abs())
    {
      dhSecret, dhPublic, remoteDh := that.dhSecret, that.dhPublic, that.remoteDh;
      rootKey, chainKeySend, chainKeyRecv := that.rootKey, that.chainKeySend, that.chainKeyRecv;
      sendCount, recvCount, sendsSinceDh := that.sendCount, that.recvCount, that.sendsSinceDh;
      skippedKeys := that.skippedKeys;
    }

    /** The work happens on a copy made through the blob; the object changes only if the frame opens. */
    method CommitIfOpens(ct: Ciphertext, aad: Bytes, plan: Plan) returns (r: Result<Opened, Error>)
      requires Valid()
      modifies this
      ensures Valid()
      ensures Outcome(Abs(), r) == Commit(old(Abs()), plan, ct, aad)
    {
      var snap := ToBytes();
      ghost var before := Abs();
      DeserializeSerialize(before, []);
      assert Serialize(before) + [] == Serialize(before);
      var copy := FromBytes(snap);
      if copy.Err? {
        assert false; // the blob was written by `ToBytes`
      }
      var scratch := copy.value;
      var ready := scratch.Run(plan);
      if ready.Err? {
        return Err(ready.error);
      }
      var key, step := scratch.NextRecvKey();
      var plain := Decrypt(key, ct, aad);
      if plain.Err? {
        return Err(NotOpened(plain.error));
      }
      Become(scratch);
      return Ok(Opened(plain.value, step));
    }

    method OpenSkippedKey(step: u32, ct: Ciphertext, aad: Bytes) returns (r: Result<Opened, Error>)
      requires Valid()
      modifies this`skippedKeys
      ensures Valid()
      ensures Outcome(Abs(), r) == OpenSkipped(old(Abs()), step, ct, aad)
    {
      if step !in skippedKeys {
        return Err(NoSkippedKey);
      }
      var plain := Decrypt(skippedKeys[step], ct, aad);
      if plain.Err? {
        return Err(NotOpened(plain.error));
      }
      RemoveShrinks(skippedKeys, step);
      skippedKeys := skippedKeys - {step};
      return Ok(Opened(plain.value, step));
    }

    method RecvInner(remote: Pub, step: u32, epochStart: Option<u32>, ct: Ciphertext, aad: Bytes)
      returns (r: Result<Opened, Error>)
      requires Valid()
      modifies this
      ensures Valid()
      ensures Outcome(Abs(), r) == Receive(old(Abs()), remote, step, epochStart, ct, aad)
    {
      if step in skippedKeys {
        r := OpenSkippedKey(step, ct, aad);
        return;
      }
      if recvCount == U32_MAX {
        return Err(CounterExhausted);
      }
      if remote == dhPublic {
        return Err(Reflected);
      }
      if remoteDh != Some(remote) && !WasContributory(remote) {
        return Err(InvalidSenderKey);
      }
      if step < recvCount {
        return Err(StaleOrReplayed);
      }
      if remoteDh.None? || remoteDh.value == remote {
        r := CommitIfOpens(ct, aad, SameChain(remote, step));
        return;
      }
      if epochStart.Some? {
        var first := epochStart.value;
        if first < recvCount {
          return Err(StaleOrReplayed);
        }
        r := CommitIfOpens(ct, aad, NewChain(remote, first, step));
        return;
      }
      var lastErr := NotOpened(NotAuthentic);
      var k := 0;
      while k < DH_SEND_EVERY
        invariant 0 <= k <= DH_SEND_EVERY
        invariant Valid() && Abs() == old(Abs())
        invariant Search(Abs(), remote, step, ct, aad, k, lastErr)
               == Search(Abs(), remote, step, ct, aad, 0, NotOpened(NotAuthentic))
      {
        if step < k || step - k < recvCount {
          break;
        }
        var attempt := CommitIfOpens(ct, aad, NewChain(remote, step - k, step));
        if attempt.Ok? {
          return attempt;
        }
        lastErr := attempt.error;
        k := k + 1;
      }
      return Err(lastErr);
    }

    method TryRecvDecryptEpoch(remote: Pub, step: u32, epochStart: u32, ct: Ciphertext, aad: Bytes)
      returns (r: Result<Opened, Error>)
      requires Valid()
      modifies this
      ensures Valid()
      ensures Outcome(Abs(), r) == ReceiveEpoch(old(Abs()), remote, step, epochStart, ct, aad)
    {
      if epochStart > step {
        return Err(EpochStartAfterStep);
      }
      r := RecvInner(remote, step, Some(epochStart), ct, aad);
    }

    method ToBytes() returns (out: Blob)
      ensures out == Serialize(Abs())
    {
      out := HeadCells(Abs()) + Octets(Be32(|skippedKeys| % 0x1_0000_0000));
      var rest := skippedKeys;
      while rest != map[]
        invariant out + SkippedCells(rest) == Serialize(Abs())
        decreases |rest|
      {
        LowestExists(rest);
        var n :| n in rest && forall k :: k in rest ==> n <= k;
        assert n == Lowest(rest);
        RemoveShrinks(rest, n);
        out := out + EntryCells(n, rest[n]);
        rest := rest - {n};
      }
    }

    static method ReadSkipped(data: Blob, start: nat, count: u32) returns (r: Option<map<u32, Key>>)
      ensures r == ReadEntries(data, start, count, map[])
      ensures r.Some? ==> |r.value| <= count
    {
      var pos, skipped: map<u32, Key> := start, map[];
      var i := 0;
      while i < count
        invariant 0 <= i <= count && |skipped| <= i
        invariant ReadEntries(data, pos, count - i, skipped) == ReadEntries(data, start, count, map[])
      {
        var n, k := ReadU32(data, pos), ReadKey(data, pos + 4);
        if n.None? || k.None? {
          return None;
        }
        pos := pos + 5;
        assert |skipped[n.value := k.value]| <= |skipped| + 1;
        skipped := skipped[n.value := k.value];
        i := i + 1;
      }
      return Some(skipped);
    }

    static method FromBytes(data: Blob) returns (r: Result<DoubleRatchet, Error>)
      ensures match Deserialize(data)
              case Some(s) => r.Ok? && fresh(r.value) && r.value.Abs() == s && r.value.Valid()
              case None => r == Err(BadBlob)
    {
      hide ReadU32, ReadKey, ReadEntries;
      if |data| == 0 || (data[0] != Octet(1) && data[0] != Octet(2)) {
        return Err(BadBlob);
      }
      var version := data[0].b;
      var pos := 1;
      if |data| < 4 || !data[pos].SecretCell? || !data[pos + 1].PubCell? || !data[pos + 2].Octet? {
        return Err(BadBlob);
      }
      var secret, public, hasRemote := data[pos].secret, data[pos + 1].public, data[pos + 2].b == 1;
      pos := pos + 3;
      var remote: Option<Pub> := None;
      if hasRemote {
        if pos >= |data| || !data[pos].PubCell? {
          return Err(BadBlob);
        }
        remote := Some(data[pos].public);
        pos := pos + 1;
      }
      assert Deserialize(data) == ReadTail(data, pos, version, secret, public, remote);
      var root, cs, cr := ReadKey(data, pos), ReadKey(data, pos + 1), ReadKey(data, pos + 2);
      pos := pos + 3;
      var send, recv := ReadU32(data, pos), ReadU32(data, pos + 4);
      pos := pos + 8;
      var since: Option<u32> := Some(0);
      if version >= 2 {
        since := ReadU32(data, pos);
        pos := pos + 4;
      }
      var count := ReadU32(data, pos);
      if root.None? || cs.None? || cr.None? || send.None? || recv.None? || since.None? || count.None? {
        return Err(BadBlob);
      }
      pos := pos + 4;
      var skipped := ReadSkipped(data, pos, count.value);
      if skipped.None? {
        return Err(BadBlob);
      }
      var ratchet := new DoubleRatchet.Of(
        State(secret, public, remote, root.value, cs.value, cr.value, send.value, recv.value, since.value, skipped.value));
      return Ok(ratchet);
    }
  }
}
