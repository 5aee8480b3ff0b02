/** Symbolic cryptography: byte strings are kept where the program handles bytes, and
    every derived 32-byte secret is the term that derives it. Two keys are equal exactly
    when they were derived in the same way. */
module Crypto {
  type byte = x: int | 0 <= x < 0x100
  type u32 = x: int | 0 <= x < 0x1_0000_0000
  type u64 = x: int | 0 <= x < 0x1_0000_0000_0000_0000
  type Bytes = seq<byte>

  const U32_MAX: u32 := 0xFFFF_FFFF
  const U64_MAX: u64 := 0xFFFF_FFFF_FFFF_FFFF

  function SaturatingAdd(a: u64, b: u64): u64 {
    if a + b > U64_MAX then U64_MAX else a + b
  }

  datatype Option<+T> = None | Some(value: T)

  datatype Result<+T, +E> = Ok(value: T) | Err(error: E)

  /** An X25519 public key is its 32 bytes; a secret is named by the public key it has. */
  type Pub = Bytes

  datatype Secret = Secret(point: Pub)

  datatype Key =
    | Unset                                                           // a zeroed buffer
    | Dh(ends: set<Pub>)                                              // X25519 shared secret
    | InitialRoot(salt: Option<Bytes>, shared: Key, lo: Pub, hi: Pub) // "HashChat-v3-root"
    | LowToHigh(root: Key)
    | HighToLow(root: Key)
    | StepRoot(root: Key, shared: Key)                                // "HashChat-v1-root"
    | DhChain(root: Key, shared: Key)                                 // "HashChat-v1-dh-chain"
    | NextChain(chain: Key)                                           // "HashChat-v1-chain"
    | MsgKey(chain: Key)                                              // "HashChat-v1-msg-key"
    | HelloKey(dh: Key, inviteSalt: Bytes, inviteId: Bytes)           // "hc-invite-hello-v1"

  /** X25519: each side computes the same value from its own secret and the other's public. */
  function DiffieHellman(secret: Secret, remote: Pub): Key {
    Dh({secret.point, remote})
  }

  function Zeros(n: nat): (r: Bytes)
    ensures |r| == n && forall i :: 0 <= i < n ==> r[i] == 0
  {
    if n == 0 then [] else Zeros(n - 1) + [0]
  }

  /** The low-order points are represented by one of them, the all-zero key. */
  predicate WasContributory(remote: Pub) {
    remote != Zeros(32)
  }

  /** Rust's order on byte arrays. */
  predicate Leq(a: Bytes, b: Bytes) {
    a == [] || (b != [] && (a[0] < b[0] || (a[0] == b[0] && Leq(a[1..], b[1..]))))
  }

  lemma {:induction false} LeqTotal(a: Bytes, b: Bytes)
    ensures Leq(a, b) || Leq(b, a)
    ensures Leq(a, b) && Leq(b, a) ==> a == b
  {
    if a != [] && b != [] && a[0] == b[0] {
      LeqTotal(a[1..], b[1..]);
      assert a == [a[0]] + a[1..] && b == [b[0]] + b[1..];
    }
  }

  lemma {:induction false} LeqTransitive(a: Bytes, b: Bytes, c: Bytes)
    requires Leq(a, b) && Leq(b, c)
    ensures Leq(a, c)
  {
    if a != [] && a[0] == b[0] && b[0] == c[0] {
      LeqTransitive(a[1..], b[1..], c[1..]);
    }
  }

  /** An ideal AEAD: a sealed value remembers its key, its associated data and its plaintext.
      `Garbage(n)` is any other string of `n` bytes. */
  datatype Ciphertext = Sealed(key: Key, aad: Bytes, plaintext: Bytes) | Garbage(length: nat)

  const AEAD_OVERHEAD: nat := 12 + 16

  datatype OpenError = Short | NotAuthentic

  function Decrypt(key: Key, ct: Ciphertext, aad: Bytes): Result<Bytes, OpenError> {
    match ct
    case Sealed(k, a, plaintext) => if k == key && a == aad then Ok(plaintext) else Err(NotAuthentic)
    case Garbage(n) => Err(if n < AEAD_OVERHEAD then Short else NotAuthentic)
  }

  /** Position `n` of the symmetric chain that starts at `chain`. */
  function Advance(chain: Key, n: nat): Key {
    if n == 0 then chain else NextChain(Advance(chain, n - 1))
  }

  lemma {:induction false} AdvanceFromNext(chain: Key, n: nat)
    ensures Advance(NextChain(chain), n) == Advance(chain, n + 1)
  {
    if n == 0 {
    } else {
      AdvanceFromNext(chain, n - 1);
    }
  }

  lemma {:induction false} AdvanceSum(chain: Key, m: nat, n: nat)
    ensures Advance(Advance(chain, m), n) == Advance(chain, m + n)
  {
    if n == 0 {
    } else {
      AdvanceSum(chain, m, n - 1);
    }
  }

  /** The key a chain was started from, and how many times it has been advanced. */
  function Base(chain: Key): Key {
    match chain
    case NextChain(c) => Base(c)
    case _ => chain
  }

  function Position(chain: Key): nat {
    match chain
    case NextChain(c) => 1 + Position(c)
    case _ => 0
  }

  lemma {:induction false} BaseAndPosition(chain: Key, n: nat)
    ensures Base(Advance(chain, n)) == Base(chain)
    ensures Position(Advance(chain, n)) == Position(chain) + n
  {
    if n == 0 {
    } else {
      BaseAndPosition(chain, n - 1);
    }
  }

  /** How many Diffie-Hellman steps lead to a root. */
  function RootDepth(root: Key): nat {
    match root
    case StepRoot(r, _) => 1 + RootDepth(r)
    case _ => 0
  }

  /** The key that a session key was derived from in the first place. */
  function Origin(key: Key): Key {
    match key
    case LowToHigh(root) => Origin(root)
    case HighToLow(root) => Origin(root)
    case StepRoot(root, _) => Origin(root)
    case DhChain(root, _) => Origin(root)
    case NextChain(chain) => Origin(chain)
    case MsgKey(chain) => Origin(chain)
    case _ => key
  }

  lemma {:induction false} OriginOfAdvance(chain: Key, n: nat)
    ensures Origin(Advance(chain, n)) == Origin(chain)
  {
    if n == 0 {
    } else {
      OriginOfAdvance(chain, n - 1);
    }
  }

  /** Root `y` is `x`, or comes from it by Diffie-Hellman steps. */
  predicate LeadsTo(x: Key, y: Key) {
    x == y || (y.StepRoot? && LeadsTo(x, y.root))
  }

  lemma {:induction false} LeadsToTransitive(x: Key, y: Key, z: Key)
    requires LeadsTo(x, y) && LeadsTo(y, z)
    ensures LeadsTo(x, z)
  {
    if y == z {
    } else {
      LeadsToTransitive(x, y, z.root);
    }
  }

  lemma {:induction false} LeadsDeeper(x: Key, y: Key)
    requires LeadsTo(x, y)
    ensures RootDepth(x) < RootDepth(y) || x == y
  {
    if x == y {
    } else {
      LeadsDeeper(x, y.root);
    }
  }

  /** The roots on the way to one root lie in a line. */
  lemma {:induction false} LeadsInLine(x: Key, y: Key, z: Key)
    requires LeadsTo(x, z) && LeadsTo(y, z)
    ensures LeadsTo(x, y) || LeadsTo(y, x)
  {
    if x != z && y != z {
      LeadsInLine(x, y, z.root);
    }
  }
}
