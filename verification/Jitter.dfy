/** The random send delay (`delay_from_source` in `src/rust/send_jitter.rs`). */
module Jitter {
  import opened Crypto

  const MAX_SEND_JITTER_SECS: nat := 120
  const MAX_DRAWS: nat := 64

  function Clamp(secs: u32): (r: nat)
    ensures r <= MAX_SEND_JITTER_SECS
  {
    if secs > MAX_SEND_JITTER_SECS then MAX_SEND_JITTER_SECS else secs
  }

  /** The number of possible delays, in milliseconds. */
  function Span(secs: nat): nat {
    secs * 1000 + 1
  }

  /** The sources below it are the accepted ones. */
  function Zone(span: nat): nat
    requires 0 < span
  {
    U32_MAX - U32_MAX % span
  }

  /** What the draws from number `i` on give; `next(i)` is the value of the i-th draw. */
  function Pick(secs: nat, next: nat -> u32, i: nat): nat
    decreases MAX_DRAWS - i
  {
    if i >= MAX_DRAWS || next(i) == U32_MAX then secs * 1000
    else if next(i) < Zone(Span(secs)) then next(i) % Span(secs)
    else Pick(secs, next, i + 1)
  }

  /** The delay in milliseconds. */
  function Delay(maxSecs: u32, next: nat -> u32): nat {
    if Clamp(maxSecs) == 0 then 0 else Pick(Clamp(maxSecs), next, 0)
  }

  method DelayFromSource(maxSecs: u32, next: nat -> u32) returns (millis: nat)
    ensures millis == Delay(maxSecs, next)
  {
    var secs := Clamp(maxSecs);
    if secs == 0 {
      return 0;
    }
    var span := secs * 1000 + 1;
    var zone := U32_MAX - U32_MAX % span;
    var i := 0;
    while i < MAX_DRAWS
      invariant 0 <= i <= MAX_DRAWS
      invariant Pick(secs, next, i) == Pick(secs, next, 0)
    {
      var v := next(i);
      if v == U32_MAX {
        break;
      }
      if v < zone {
        return v % span;
      }
      i := i + 1;
    }
    return secs * 1000;
  }

  lemma {:induction false} DelayInRange(secs: nat, next: nat -> u32, i: nat)
    ensures Pick(secs, next, i) <= secs * 1000
    decreases MAX_DRAWS - i
  {
    if i < MAX_DRAWS {
      DelayInRange(secs, next, i + 1);
    }
  }

  /** The values that a draw turns into delay `d` at once. */
  ghost predicate Gives(secs: nat, d: nat, v: u32) {
    v != U32_MAX && v < Zone(Span(secs)) && v % Span(secs) == d
  }

  ghost function Sources(secs: nat, d: nat): set<u32> {
    set v: u32 | 0 <= v < 0x1_0000_0000 && Gives(secs, d, v)
  }

  predicate InBlock(v: int, span: nat, n: nat, d: nat)
    requires 0 < span
  {
    0 <= v < n * span && v % span == d
  }

  ghost function Below(span: nat, n: nat, d: nat): set<u32>
    requires 0 < span
  {
    set v: u32 | 0 <= v < 0x1_0000_0000 && InBlock(v, span, n, d)
  }

  lemma OneMoreBlock(span: nat, n: nat, d: nat, v: int)
    requires d < span
    ensures InBlock(v, span, n + 1, d) <==> InBlock(v, span, n, d) || v == n * span + d
  {
    assert (n + 1) * span == n * span + span;
    if n * span <= v < n * span + span {
      var r := v - n * span;
      assert v == n * span + r && 0 <= r < span;
      ModOfSum(span, n, r);
    }
  }

  lemma ModOfSum(span: nat, n: nat, r: nat)
    requires r < span
    ensures (n * span + r) % span == r
  {
    DivMod(span, n, r, n * span + r);
  }

  lemma OneMoreTime(span: nat, n: nat)
    ensures (n + 1) * span == n * span + span
  {
  }

  lemma {:induction false} LargerTimes(span: nat, m: nat, n: nat)
    requires m < n
    ensures m * span + span <= n * span
  {
    OneMoreTime(span, n - 1);
    if n == m + 1 {
    } else {
      LargerTimes(span, m, n - 1);
    }
  }

  lemma DivMod(span: nat, n: nat, r: nat, v: nat)
    requires r < span && v == n * span + r
    ensures v % span == r
  {
    var q, m := v / span, v % span;
    assert v == q * span + m;
    if q < n {
      LargerTimes(span, q, n);
    } else if q > n {
      LargerTimes(span, n, q);
    }
  }

  lemma {:induction false} BlocksCount(span: nat, n: nat, d: nat)
    requires d < span && n * span <= U32_MAX
    ensures |Below(span, n, d)| == n
  {
    if n == 0 {
      assert Below(span, n, d) == {};
    } else {
      assert n * span == (n - 1) * span + span;
      hide Below;
      BlocksCount(span, n - 1, d);
      BlockAdds(span, n - 1, d);
    }
  }

  lemma BlockAdds(span: nat, n: nat, d: nat)
    requires d < span && n * span + span <= U32_MAX && (n + 1) * span == n * span + span
    ensures |Below(span, n + 1, d)| == |Below(span, n, d)| + 1
  {
    hide InBlock;
    forall v: int
      ensures InBlock(v, span, n + 1, d) <==> InBlock(v, span, n, d) || v == n * span + d
    {
      OneMoreBlock(span, n, d, v);
    }
    NotBefore(span, n, d);
    assert Below(span, n + 1, d) == Below(span, n, d) + {n * span + d};
  }

  lemma NotBefore(span: nat, n: nat, d: nat)
    requires d < span
    ensures !InBlock(n * span + d, span, n, d)
  {
  }

  /** Every delay from 0 to the maximum has the same number of accepted sources, so an accepted draw
      favours none. */
  lemma EachDelayHasEquallyManySources(secs: nat, d: nat)
    requires secs <= MAX_SEND_JITTER_SECS && d <= secs * 1000
    ensures |Sources(secs, d)| == U32_MAX / Span(secs)
  {
    var span := Span(secs);
    var n := U32_MAX / span;
    assert Zone(span) == n * span;
    BlocksCount(span, n, d);
    assert Sources(secs, d) == Below(span, n, d);
  }

  /** The first draw that is the source of a delay decides it; those before it were rejected. */
  lemma {:induction false} FirstAcceptedDrawDecides(secs: nat, next: nat -> u32, i: nat, j: nat, d: nat)
    requires i <= j < MAX_DRAWS && next(j) in Sources(secs, d)
    requires forall k :: i <= k < j ==> next(k) != U32_MAX && next(k) >= Zone(Span(secs))
    ensures Pick(secs, next, i) == d
    decreases j - i
  {
    if i < j {
      FirstAcceptedDrawDecides(secs, next, i + 1, j, d);
    }
  }

  /** When the source fails, or all 64 draws are rejected, the delay is the longest one. */
  lemma {:induction false} NoDrawGivesTheMaximum(secs: nat, next: nat -> u32, i: nat, j: nat)
    requires i <= j <= 64 && (j == 64 || next(j) == U32_MAX)
    requires forall k :: i <= k < j ==> next(k) != U32_MAX && next(k) >= Zone(Span(secs))
    ensures Pick(secs, next, i) == secs * 1000
    decreases j - i
  {
    hide Zone, Span;
    if i < j {
      NoDrawGivesTheMaximum(secs, next, i + 1, j);
    }
  }

  /** A draw is rejected exactly when it is the source of no delay. */
  lemma RejectedHasNoDelay(secs: nat, v: u32)
    ensures v == U32_MAX || v >= Zone(Span(secs)) <==> forall d :: 0 <= d <= secs * 1000 ==> v !in Sources(secs, d)
  {
    if v != U32_MAX && v < Zone(Span(secs)) {
      assert v in Sources(secs, v % Span(secs));
    }
  }

  lemma BelowDivisor(n: nat, span: nat)
    requires 0 < span
    ensures n % span < span
  {
  }

  lemma SmallIsInZone(secs: nat, d: nat)
    requires secs <= MAX_SEND_JITTER_SECS && d <= secs * 1000
    ensures Gives(secs, d, d)
  {
    var span := Span(secs);
    assert span <= 120001 && d < span;
    BelowDivisor(U32_MAX, span);
    DivMod(span, 0, d, d);
  }

  lemma DelayFromConstant(maxSecs: u32, d: nat)
    requires d <= 1000 * (if maxSecs <= 120 then maxSecs else 120)
    ensures d < 0x1_0000_0000 && Delay(maxSecs, _ => d as u32) == d
  {
    var secs := Clamp(maxSecs);
    assert secs == if maxSecs <= 120 then maxSecs else 120;
    SmallIsInZone(secs, d);
  }

  /** The delays that a setting can give are exactly those from 0 to as many seconds, or to 120 if it is
      higher. */
  lemma DelaysOfASetting(maxSecs: u32, d: nat)
    ensures (exists next: nat -> u32 :: Delay(maxSecs, next) == d) <==> d <= 1000 * (if maxSecs <= 120 then maxSecs else 120)
  {
    hide Pick;
    if d <= 1000 * (if maxSecs <= 120 then maxSecs else 120) {
      DelayFromConstant(maxSecs, d);
    } else if next: nat -> u32 :| Delay(maxSecs, next) == d {
      DelayInRange(Clamp(maxSecs), next, 0);
    }
  }
}
