/** Text as the transcript keeps it: UTF-8, and `sanitize_for_terminal`
    (`src/rust/term_sanitize.rs`) followed by the cap of `clean_text` (`src/rust/message_book.rs`). */
module Text {
  import opened Crypto

  /** A Unicode scalar value. */
  type Scalar = c: int | 0 <= c < 0x11_0000 && !(0xD800 <= c < 0xE000)

  type Str = seq<Scalar>

  const MAX_TEXT_BYTES: nat := 8 * 1024

  // ---------------------------------------------------------------- sanitizing

  const REPLACEMENT: Scalar := 0xFFFD

  /** `map_char`: what to put in place of a code point, if anything. */
  function MapChar(c: Scalar): Option<Scalar> {
    if c == 0x09 || c == 0x0A || c == 0x0D then Some(0x20)
    else if c < 0x20 || 0x7F <= c < 0xA0 then Some(REPLACEMENT)
    else if c == 0x200E || c == 0x200F || c == 0x061C then Some(REPLACEMENT)
    else if 0x202A <= c <= 0x202E || 0x2066 <= c <= 0x2069 then Some(REPLACEMENT)
    else if c == 0x2028 || c == 0x2029 then Some(REPLACEMENT)
    else if 0xFFF9 <= c <= 0xFFFB then Some(REPLACEMENT)
    else None
  }

  predicate IsTerminalSafe(s: Str) {
    forall i :: 0 <= i < |s| ==> MapChar(s[i]).None?
  }

  function Replaced(c: Scalar): Scalar {
    match MapChar(c)
    case Some(r) => r
    case None => c
  }

  function Sanitized(s: Str): (r: Str)
    ensures |r| == |s| && IsTerminalSafe(r)
    ensures IsTerminalSafe(s) ==> r == s
  {
    if s == [] then [] else Sanitized(s[..|s| - 1]) + [Replaced(s[|s| - 1])]
  }

  /** `sanitize_for_terminal`. */
  method SanitizeForTerminal(s: Str) returns (out: Str)
    ensures out == Sanitized(s)
  {
    if IsTerminalSafe(s) {
      return s;
    }
    out := [];
    var i := 0;
    while i < |s|
      invariant 0 <= i <= |s|
      invariant out == Sanitized(s[..i])
    {
      assert s[..i + 1][..i] == s[..i];
      out := out + [Replaced(s[i])];
      i := i + 1;
    }
    assert s[..i] == s;
  }

  // ---------------------------------------------------------------- UTF-8

  function CharBytes(c: Scalar): (r: Bytes)
    ensures 1 <= |r| <= 4
  {
    if c < 0x80 then [c]
    else if c < 0x800 then [0xC0 + c / 0x40, 0x80 + c % 0x40]
    else if c < 0x1_0000 then [0xE0 + c / 0x1000, 0x80 + c / 0x40 % 0x40, 0x80 + c % 0x40]
    else [0xF0 + c / 0x4_0000, 0x80 + c / 0x1000 % 0x40, 0x80 + c / 0x40 % 0x40, 0x80 + c % 0x40]
  }

  function Utf8(s: Str): Bytes {
    if s == [] then [] else CharBytes(s[0]) + Utf8(s[1..])
  }

  predicate IsContinuation(b: byte) {
    0x80 <= b < 0xC0
  }

  /** The first character of `b` and its width, when `b` begins with a well-formed one: no overlong
      form, no surrogate, nothing above 0x10FFFF. */
  function FirstChar(b: Bytes): (r: Option<(Scalar, nat)>)
    ensures r.Some? ==> 1 <= r.value.1 <= |b|
  {
    if b == [] then None
    else if b[0] < 0x80 then Some((b[0], 1))
    else if 0xC2 <= b[0] < 0xE0 then
      if |b| >= 2 && IsContinuation(b[1]) then Some(((b[0] as int - 0xC0) * 0x40 + (b[1] as int - 0x80), 2)) else None
    else if 0xE0 <= b[0] < 0xF0 then
      if |b| >= 3 && IsContinuation(b[1]) && IsContinuation(b[2]) then
        var c := (b[0] as int - 0xE0) * 0x1000 + (b[1] as int - 0x80) * 0x40 + (b[2] as int - 0x80);
        if c < 0x800 || 0xD800 <= c < 0xE000 then None else Some((c, 3))
      else None
    else if 0xF0 <= b[0] < 0xF5 then
      if |b| >= 4 && IsContinuation(b[1]) && IsContinuation(b[2]) && IsContinuation(b[3]) then
        var c := (b[0] as int - 0xF0) * 0x4_0000 + (b[1] as int - 0x80) * 0x1000 + (b[2] as int - 0x80) * 0x40 + (b[3] as int - 0x80);
        if c < 0x1_0000 || c >= 0x11_0000 then None else Some((c, 4))
      else None
    else None
  }

  /** `str::from_utf8`. */
  function FromUtf8(b: Bytes): Option<Str>
    decreases |b|
  {
    if b == [] then Some([])
    else match FirstChar(b)
      case None => None
      case Some((c, n)) =>
        match FromUtf8(b[n..])
        case None => None
        case Some(rest) => Some([c] + rest)
  }

  lemma SixBits(c: nat)
    ensures c / 0x40 / 0x40 == c / 0x1000 && c / 0x1000 / 0x40 == c / 0x4_0000
    ensures c == c / 0x40 * 0x40 + c % 0x40
    ensures c / 0x40 == c / 0x1000 * 0x40 + c / 0x40 % 0x40
    ensures c / 0x1000 == c / 0x4_0000 * 0x40 + c / 0x1000 % 0x40
  {
  }

  lemma TwoBytesBack(c: Scalar, b: Bytes)
    requires 0x80 <= c < 0x800 && |b| >= 2 && b[..2] == CharBytes(c)
    ensures FirstChar(b) == Some((c, 2))
  {
    SixBits(c);
    assert b[0] == b[..2][0] && b[1] == b[..2][1];
  }

  lemma ThreeBytesBack(c: Scalar, b: Bytes)
    requires 0x800 <= c < 0x1_0000 && |b| >= 3 && b[..3] == CharBytes(c)
    ensures FirstChar(b) == Some((c, 3))
  {
    SixBits(c);
    assert b[0] == b[..3][0] && b[1] == b[..3][1] && b[2] == b[..3][2];
  }

  lemma FourBytesBack(c: Scalar, b: Bytes)
    requires 0x1_0000 <= c && |b| >= 4 && b[..4] == CharBytes(c)
    ensures FirstChar(b) == Some((c, 4))
  {
    SixBits(c);
    assert b[0] == b[..4][0] && b[1] == b[..4][1] && b[2] == b[..4][2] && b[3] == b[..4][3];
  }

  lemma Width(c: Scalar)
    ensures |CharBytes(c)| == if c < 0x80 then 1 else if c < 0x800 then 2 else if c < 0x1_0000 then 3 else 4
    ensures c < 0x80 ==> CharBytes(c) == [c]
  {
  }

  lemma FirstCharBack(c: Scalar, rest: Bytes)
    ensures FirstChar(CharBytes(c) + rest) == Some((c, |CharBytes(c)|))
  {
    hide CharBytes;
    Width(c);
    var b := CharBytes(c) + rest;
    assert b[..|CharBytes(c)|] == CharBytes(c);
    if c < 0x80 {
      assert b[0] == c;
    } else {
      if c < 0x800 {
        TwoBytesBack(c, b);
      } else if c < 0x1_0000 {
        ThreeBytesBack(c, b);
      } else {
        FourBytesBack(c, b);
      }
    }
  }

  /** Decoding undoes encoding. */
  lemma {:induction false} FromUtf8Back(s: Str)
    ensures FromUtf8(Utf8(s)) == Some(s)
  {
    if s == [] {
    } else {
      var rest := Utf8(s[1..]);
      hide CharBytes, FirstChar;
      FirstCharBack(s[0], rest);
      assert Utf8(s) == CharBytes(s[0]) + rest && Utf8(s) != [];
      assert [s[0]] + s[1..] == s;
      assert (CharBytes(s[0]) + rest)[|CharBytes(s[0])|..] == rest;
      FromUtf8Back(s[1..]);
    }
  }

  // ---------------------------------------------------------------- the cap

  /** The longest prefix of whole characters that has at most `max` bytes. */
  function Capped(s: Str, max: nat): (r: Str)
    ensures r <= s && |Utf8(r)| <= max
    ensures |Utf8(s)| <= max ==> r == s
    ensures r != s ==> |Utf8(r)| + |CharBytes(s[|r|])| > max
  {
    if s == [] || |CharBytes(s[0])| > max then []
    else
      var rest := Capped(s[1..], max - |CharBytes(s[0])|);
      assert ([s[0]] + rest)[1..] == rest;
      [s[0]] + rest
  }

  /** What `clean_text` computes. */
  function Cleaned(s: Str): Str {
    Capped(Sanitized(s), MAX_TEXT_BYTES)
  }

  /** `str::is_char_boundary`. */
  predicate IsCharBoundary(b: Bytes, i: nat) {
    i == 0 || i == |b| || (i < |b| && !IsContinuation(b[i]))
  }

  lemma CharShape(c: Scalar)
    ensures !IsContinuation(CharBytes(c)[0])
    ensures forall i :: 1 <= i < |CharBytes(c)| ==> IsContinuation(CharBytes(c)[i])
  {
  }

  lemma OneCharFurther(b: Bytes, w: nat, rest: Bytes, i: nat)
    requires 1 <= w && |b| == w + |rest| && (forall j :: 0 <= j < |rest| ==> b[w + j] == rest[j])
    requires |rest| > 0 && !IsContinuation(rest[0]) && i < |rest|
    ensures IsCharBoundary(b, w + i) <==> IsCharBoundary(rest, i)
  {
    hide IsContinuation;
    assert b[w + i] == rest[i];
  }

  /** `kept` ends at the last character boundary of `b` that does not exceed `max`. */
  ghost predicate EndsAt(b: Bytes, kept: Bytes, max: nat) {
    kept <= b && IsCharBoundary(b, |kept|) && forall i :: |kept| < i <= max ==> !IsCharBoundary(b, i)
  }

  lemma CutBeforeFirst(s: Str, max: nat)
    requires |Utf8(s)| > max && |CharBytes(s[0])| > max
    ensures Capped(s, max) == [] && EndsAt(Utf8(s), Utf8(Capped(s, max)), max)
  {
    hide CharBytes, IsContinuation;
    CharShape(s[0]);
  }

  lemma CutLater(first: Bytes, rest: Bytes, kept: Bytes, max: nat)
    requires |first| <= max && max - |first| < |rest| && |first| > 0 && !IsContinuation(rest[0])
    requires EndsAt(rest, kept, max - |first|) && |kept| <= max - |first|
    ensures EndsAt(first + rest, first + kept, max)
  {
    hide IsContinuation, IsCharBoundary;
    var b, w := first + rest, |first|;
    OneCharFurther(b, w, rest, |kept|);
    forall i | w + |kept| < i <= max
      ensures !IsCharBoundary(b, i)
    {
      OneCharFurther(b, w, rest, i - w);
    }
  }

  /** The longest prefix of whole characters that fits ends at the last boundary that does. */
  lemma {:induction false} LastBoundary(s: Str, max: nat)
    requires |Utf8(s)| > max
    ensures EndsAt(Utf8(s), Utf8(Capped(s, max)), max)
  {
    hide CharBytes, IsContinuation, EndsAt;
    var w := |CharBytes(s[0])|;
    if w > max {
      CutBeforeFirst(s, max);
    } else {
      var rest := Capped(s[1..], max - w);
      LastBoundary(s[1..], max - w);
      CharShape(s[1]);
      assert Capped(s, max) == [s[0]] + rest && ([s[0]] + rest)[1..] == rest;
      CutLater(CharBytes(s[0]), Utf8(s[1..]), Utf8(rest), max);
    }
  }

  /** `clean_text`: sanitize, then step back from the cap to a character boundary and cut there. */
  method CleanText(raw: Str) returns (s: Str)
    ensures s == Cleaned(raw)
  {
    hide CharBytes, FirstChar, IsContinuation, FromUtf8, Utf8;
    var safe := SanitizeForTerminal(raw);
    var bytes := Utf8(safe);
    if |bytes| <= MAX_TEXT_BYTES {
      return safe;
    }
    LastBoundary(safe, MAX_TEXT_BYTES);
    ghost var kept := Utf8(Capped(safe, MAX_TEXT_BYTES));
    var cut := MAX_TEXT_BYTES;
    while !IsCharBoundary(bytes, cut)
      invariant |kept| <= cut <= MAX_TEXT_BYTES
      decreases cut
    {
      cut := cut - 1;
    }
    FromUtf8Back(Capped(safe, MAX_TEXT_BYTES));
    assert bytes[..cut] == kept;
    return FromUtf8(bytes[..cut]).value;
  }

  predicate Clean(s: Str) {
    IsTerminalSafe(s) && |Utf8(s)| <= MAX_TEXT_BYTES
  }

  /** Cleaning gives clean text and leaves clean text alone: it is idempotent. */
  lemma CleanTextIdempotent(s: Str)
    ensures Clean(Cleaned(s)) && Cleaned(Cleaned(s)) == Cleaned(s)
    ensures Clean(s) ==> Cleaned(s) == s
  {
  }
}
