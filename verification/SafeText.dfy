/** What the sanitizer lets through, and which byte strings are UTF-8 (`src/rust/term_sanitize.rs`,
    section 3 of RFC 3629). */
module SafeText {
  import opened Crypto
  import opened Text

  // ---------------------------------------------------------------- the sanitizer

  /** Control characters, bidirectional controls, separators and annotation anchors. */
  predicate Harmful(c: Scalar) {
    c < 0x20 || 0x7F <= c <= 0x9F || c == 0x061C || c == 0x200E || c == 0x200F || 0x2028 <= c <= 0x202E
    || 0x2066 <= c <= 0x2069 || 0xFFF9 <= c <= 0xFFFB
  }

  /** Tab, line feed and carriage return become a space, all other harmful code points U+FFFD, and
      everything else stays. */
  lemma {:induction false} SanitizedIs(s: Str)
    ensures |Sanitized(s)| == |s|
    ensures forall i :: 0 <= i < |s| ==>
              Sanitized(s)[i] == if s[i] == 0x09 || s[i] == 0x0A || s[i] == 0x0D then 0x20 else if Harmful(s[i]) then 0xFFFD else s[i]
  {
    if s == [] {
    } else {
      var init := s[..|s| - 1];
      SanitizedIs(init);
      assert forall i :: 0 <= i < |init| ==> init[i] == s[i] && Sanitized(s)[i] == Sanitized(init)[i];
    }
  }

  lemma ReplacedIsHarmless(s: Str, i: nat)
    requires i < |s|
    ensures |Sanitized(s)| == |s| && !Harmful(Sanitized(s)[i]) && (!Harmful(s[i]) ==> Sanitized(s)[i] == s[i])
  {
    SanitizedIs(s);
  }

  /** Nothing harmful is left, and harmless text is not touched. */
  lemma SanitizedIsHarmless(s: Str)
    ensures forall c :: c in Sanitized(s) ==> !Harmful(c)
    ensures Sanitized(s) == s <==> forall c :: c in s ==> !Harmful(c)
  {
    hide Sanitized, Harmful;
    forall i | 0 <= i < |s|
      ensures !Harmful(Sanitized(s)[i]) && (!Harmful(s[i]) ==> Sanitized(s)[i] == s[i])
    {
      ReplacedIsHarmless(s, i);
    }
  }

  /** Nor does the cap bring anything back: what is stored is harmless, and the beginning of the
      sanitized text. */
  lemma CleanedIsHarmless(s: Str)
    ensures forall c :: c in Cleaned(s) ==> !Harmful(c)
    ensures Cleaned(s) <= Sanitized(s) && (|Utf8(Sanitized(s))| <= 8192 ==> Cleaned(s) == Sanitized(s))
  {
    hide Sanitized, Harmful, Capped, Utf8;
    SanitizedIsHarmless(s);
    assert forall c :: c in Cleaned(s) ==> c in Sanitized(s);
  }

  // ---------------------------------------------------------------- UTF-8

  lemma TwoBytes(a: byte, b: byte)
    requires 0xC2 <= a < 0xE0 && IsContinuation(b)
    ensures CharBytes((a as int - 0xC0) * 0x40 + (b as int - 0x80)) == [a, b]
  {
  }

  lemma ThreeBytes(a: byte, b: byte, d: byte, c: Scalar)
    requires 0xE0 <= a < 0xF0 && IsContinuation(b) && IsContinuation(d) && c >= 0x800
    requires c == (a as int - 0xE0) * 0x1000 + (b as int - 0x80) * 0x40 + (d as int - 0x80)
    ensures CharBytes(c) == [a, b, d]
  {
    var high := (a as int - 0xE0) * 0x40 + (b as int - 0x80);
    assert c == high * 0x40 + (d as int - 0x80) && c / 0x40 == high && c / 0x1000 == high / 0x40;
  }

  lemma FourBytes(a: byte, b: byte, d: byte, e: byte, c: Scalar)
    requires 0xF0 <= a < 0xF5 && IsContinuation(b) && IsContinuation(d) && IsContinuation(e) && c >= 0x1_0000
    requires c == (a as int - 0xF0) * 0x4_0000 + (b as int - 0x80) * 0x1000 + (d as int - 0x80) * 0x40 + (e as int - 0x80)
    ensures CharBytes(c) == [a, b, d, e]
  {
    var top := (a as int - 0xF0) * 0x40 + (b as int - 0x80);
    var high := top * 0x40 + (d as int - 0x80);
    assert c == high * 0x40 + (e as int - 0x80) && c / 0x40 == high && high / 0x40 == top;
    assert c / 0x1000 == top && c / 0x4_0000 == top / 0x40;
  }

  lemma FirstCharIsEncoded(b: Bytes)
    requires FirstChar(b).Some?
    ensures CharBytes(FirstChar(b).value.0) == b[..FirstChar(b).value.1]
  {
    hide CharBytes;
    var (c, n) := FirstChar(b).value;
    if b[0] < 0x80 {
      OneByte(b[0]);
      assert b[..1] == [b[0]];
    } else if b[0] < 0xE0 {
      TwoBytes(b[0], b[1]);
      assert b[..2] == [b[0], b[1]];
    } else if b[0] < 0xF0 {
      ThreeBytes(b[0], b[1], b[2], c);
      assert b[..3] == [b[0], b[1], b[2]];
    } else {
      FourBytes(b[0], b[1], b[2], b[3], c);
      assert b[..4] == [b[0], b[1], b[2], b[3]];
    }
  }

  lemma OneByte(a: byte)
    requires a < 0x80
    ensures CharBytes(a) == [a]
  {
  }

  /** Encoding undoes decoding: no second form of a text is accepted. */
  lemma {:induction false} Utf8Back(b: Bytes)
    requires FromUtf8(b).Some?
    ensures Utf8(FromUtf8(b).value) == b
    decreases |b|
  {
    hide CharBytes, FirstChar;
    if b == [] {
    } else {
      var (c, n) := FirstChar(b).value;
      FirstCharIsEncoded(b);
      Utf8Back(b[n..]);
      var rest := FromUtf8(b[n..]).value;
      assert ([c] + rest)[1..] == rest && b == b[..n] + b[n..];
    }
  }

  /** Exactly the encodings of texts are accepted. */
  lemma AcceptsExactlyUtf8(b: Bytes)
    ensures FromUtf8(b).Some? <==> exists s :: b == Utf8(s)
  {
    if FromUtf8(b).Some? {
      Utf8Back(b);
    } else if s :| b == Utf8(s) {
      FromUtf8Back(s);
    }
  }

  /** The widths and examples of sections 3 and 7 of RFC 3629. */
  lemma Utf8Examples()
    ensures CharBytes(0x0041) == [0x41] && CharBytes(0x0391) == [0xCE, 0x91] && CharBytes(0x2262) == [0xE2, 0x89, 0xA2]
    ensures CharBytes(0xD55C) == [0xED, 0x95, 0x9C] && CharBytes(0x2_33B4) == [0xF0, 0xA3, 0x8E, 0xB4]
    ensures forall c: Scalar :: |CharBytes(c)| == if c <= 0x7F then 1 else if c <= 0x7FF then 2 else if c <= 0xFFFF then 3 else 4
  {
  }
}
