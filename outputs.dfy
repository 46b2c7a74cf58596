/**
  The formatting helpers of src/format/outputs.rs: deleting MediaInfo's
  Matroska codec prefixes ("V_", "A_") and passing non-numeric bitrates
  through. `logo` (FIGlet rendering to the console) is not modelled.
 */
module Outputs {

  /** The characters that start a prefix: the regex class `[VA]`. */
  predicate IsPrefixLetter(c: char) {
    c == 'V' || c == 'A'
  }

  /** A match of the regex `[VA]_` starts at position i of s. */
  predicate PrefixAt(s: string, i: int) {
    0 <= i && i + 1 < |s| && IsPrefixLetter(s[i]) && s[i + 1] == '_'
  }

  /** s contains no `V_` and no `A_` substring. */
  predicate NoPrefix(s: string) {
    forall i :: 0 <= i < |s| ==> !PrefixAt(s, i)
  }

  /** r keeps some of the characters of s, in their order. */
  predicate IsSubsequence(r: string, s: string)
    decreases |s|
  {
    if r == [] then true
    else if s == [] then false
    else (r[0] == s[0] && IsSubsequence(r[1..], s[1..])) || IsSubsequence(r, s[1..])
  }

  /**
    Regex `[VA]_` replaced by "" everywhere: matches are found from the left
    and do not overlap, so after a match the scan resumes behind its `_`.
   */
  function RemovePrefixes(s: string): (r: string)
    ensures |r| <= |s| && (|s| - |r|) % 2 == 0
    decreases |s|
  {
    if |s| < 2 then s
    else if PrefixAt(s, 0) then RemovePrefixes(s[2..])
    else [s[0]] + RemovePrefixes(s[1..])
  }

  /** The output keeps characters of the input, in order. */
  lemma {:induction false} RemovePrefixesSubsequence(s: string)
    ensures IsSubsequence(RemovePrefixes(s), s)
    decreases |s|
  {
    if |s| >= 2 {
      if PrefixAt(s, 0) {
        RemovePrefixesSubsequence(s[2..]);
        assert s[1..][1..] == s[2..];
      } else {
        RemovePrefixesSubsequence(s[1..]);
      }
    } else {
      SubsequenceReflexive(s);
    }
  }

  lemma {:induction false} SubsequenceReflexive(s: string)
    ensures IsSubsequence(s, s)
    decreases |s|
  {
    if s != [] {
      SubsequenceReflexive(s[1..]);
    }
  }

  /** A string with no `V_` and no `A_` is returned unchanged. */
  lemma {:induction false} NoPrefixUnchanged(s: string)
    requires NoPrefix(s)
    ensures RemovePrefixes(s) == s
    decreases |s|
  {
    if |s| >= 2 {
      assert !PrefixAt(s, 0);
      assert NoPrefix(s[1..]) by {
        forall i | 0 <= i < |s[1..]| ensures !PrefixAt(s[1..], i) {
          assert !PrefixAt(s, i + 1);
        }
      }
      NoPrefixUnchanged(s[1..]);
    }
  }

  /** Matroska codec IDs lose their prefix. */
  lemma CodecExamples()
    ensures RemovePrefixes("V_MPEG4/ISO/AVC") == "MPEG4/ISO/AVC"
    ensures RemovePrefixes("A_AAC") == "AAC"
  {
    var avc := "V_MPEG4/ISO/AVC";
    assert PrefixAt(avc, 0);
    assert avc[2..] == "MPEG4/ISO/AVC";
    NoUnderscoreUnchanged(avc[2..]);
    var aac := "A_AAC";
    assert PrefixAt(aac, 0);
    assert aac[2..] == "AAC";
    NoUnderscoreUnchanged(aac[2..]);
  }

  /** Only an upper-case V or A directly followed by `_` is a prefix. */
  lemma OnlyUpperCasePrefixes()
    ensures RemovePrefixes("v_x") == "v_x"
    ensures RemovePrefixes("B_x") == "B_x"
    ensures RemovePrefixes("A_V_") == ""
  {
    assert "A_V_"[2..] == "V_";
    assert "V_"[2..] == "";
  }

  /** Deleting a match can bring a new `V_` together, which is then kept:
      one pass of the regex is not idempotent. */
  lemma NotIdempotent()
    ensures RemovePrefixes("VV__") == "V_"
    ensures RemovePrefixes(RemovePrefixes("VV__")) == ""
  {
    assert RemovePrefixes("VV__") == ['V'] + RemovePrefixes("V__");
    assert RemovePrefixes("V__") == RemovePrefixes("_");
  }

  /**
    Stripping a concatenation strips the parts separately, provided no match
    can straddle the seam: the left part does not end in V/A, or the right
    part does not start with `_`.
   */
  lemma {:induction false} RemovePrefixesConcat(a: string, b: string)
    requires a == [] || b == [] || !IsPrefixLetter(a[|a| - 1]) || b[0] != '_'
    ensures RemovePrefixes(a + b) == RemovePrefixes(a) + RemovePrefixes(b)
  {
    if a == [] {
      assert a + b == b;
    } else if |a| == 1 {
      if |b| == 0 {
        assert a + b == a;
      } else {
        assert !PrefixAt(a + b, 0);
        assert (a + b)[1..] == b;
      }
    } else if PrefixAt(a, 0) {
      assert PrefixAt(a + b, 0);
      assert (a + b)[2..] == a[2..] + b;
      RemovePrefixesConcat(a[2..], b);
    } else {
      assert !PrefixAt(a + b, 0);
      assert (a + b)[1..] == a[1..] + b;
      RemovePrefixesConcat(a[1..], b);
    }
  }

  /** A string without an underscore is never changed. */
  lemma NoUnderscoreUnchanged(s: string)
    requires forall i :: 0 <= i < |s| ==> s[i] != '_'
    ensures RemovePrefixes(s) == s
  {
    assert NoPrefix(s);
    NoPrefixUnchanged(s);
  }

  /** A string without the letters V and A is never changed. */
  lemma {:induction false} NoPrefixLetterUnchanged(s: string)
    requires forall i :: 0 <= i < |s| ==> !IsPrefixLetter(s[i])
    ensures RemovePrefixes(s) == s
  {
    assert NoPrefix(s) by {
      forall i | 0 <= i < |s| ensures !PrefixAt(s, i) {
      }
    }
    NoPrefixUnchanged(s);
  }

  // ---------------------------------------------------------------------
  // format_bitrate: the test `bitrate.parse::<f64>()` as Rust's grammar for
  // f64 literals, compared case-insensitively.

  predicate IsDigit(c: char) {
    '0' <= c <= '9'
  }

  predicate IsSign(c: char) {
    c == '+' || c == '-'
  }

  /** ASCII lower-casing, enough for the letters of the grammar. */
  function LowerAscii(c: char): (l: char)
    ensures 'A' <= c <= 'Z' ==> 'a' <= l <= 'z'
    ensures !('A' <= c <= 'Z') ==> l == c
  {
    if 'A' <= c <= 'Z' then (c as int + 32) as char else c
  }

  /** s equals the lower-case word w, ignoring ASCII case. */
  predicate EqualsIgnoringCase(s: string, w: string) {
    |s| == |w| && forall i :: 0 <= i < |s| ==> LowerAscii(s[i]) == w[i]
  }

  predicate AllDigits(s: string) {
    forall i :: 0 <= i < |s| ==> IsDigit(s[i])
  }

  /** Exp ::= [eE] Sign? Digit+ */
  predicate IsExponent(s: string) {
    |s| >= 2 && (s[0] == 'e' || s[0] == 'E') &&
    if IsSign(s[1]) then |s| >= 3 && AllDigits(s[2..]) else AllDigits(s[1..])
  }

  /** Mantissa ::= Digit+ | Digit+ '.' Digit* | Digit* '.' Digit+ */
  predicate IsMantissa(s: string) {
    (|s| > 0 && AllDigits(s)) ||
    (exists p :: 0 <= p < |s| && s[p] == '.' && AllDigits(s[..p]) && AllDigits(s[p + 1..]) && |s| >= 2)
  }

  /** Number ::= Mantissa Exp? */
  predicate IsNumber(s: string) {
    IsMantissa(s) || exists k :: 0 < k < |s| && IsMantissa(s[..k]) && IsExponent(s[k..])
  }

  /** Float ::= Sign? ('inf' | 'infinity' | 'nan' | Number) */
  predicate IsUnsignedFloat(s: string) {
    EqualsIgnoringCase(s, "inf") || EqualsIgnoringCase(s, "infinity") ||
    EqualsIgnoringCase(s, "nan") || IsNumber(s)
  }

  /** The strings for which `str::parse::<f64>` returns `Ok`: never the
      empty string, nor a sign on its own. */
  predicate ParsesAsFloat(s: string): (ok: bool)
    ensures ok ==> |s| > 0 && !(|s| == 1 && IsSign(s[0]))
  {
    if |s| > 0 && IsSign(s[0]) then IsUnsignedFloat(s[1..]) else IsUnsignedFloat(s)
  }

  /**
    A bitrate in bits per second becomes "<kb> kb/s"; anything else is kept.
    `kbps` stands for the floating-point part (divide by 1000, round, print),
    which is not modelled.
   */
  function FormatBitrate(bitrate: string, kbps: string -> string): (r: string)
    ensures !ParsesAsFloat(bitrate) ==> r == bitrate
    ensures ParsesAsFloat(bitrate) ==> |r| >= 5 && r[|r| - 5..] == " kb/s"
  {
    if ParsesAsFloat(bitrate) then kbps(bitrate) + " kb/s" else bitrate
  }

  /** The characters any f64 literal is made of. */
  predicate InFloatAlphabet(c: char) {
    IsDigit(c) || IsSign(c) || c == '.' ||
    LowerAscii(c) in {'e', 'i', 'n', 'f', 't', 'y', 'a'}
  }

  lemma {:induction false} MantissaInAlphabet(s: string)
    requires IsMantissa(s)
    ensures forall i :: 0 <= i < |s| ==> InFloatAlphabet(s[i])
  {
    if !AllDigits(s) {
      var p :| 0 <= p < |s| && s[p] == '.' && AllDigits(s[..p]) && AllDigits(s[p + 1..]) && |s| >= 2;
      forall i | 0 <= i < |s| ensures InFloatAlphabet(s[i]) {
        if i < p { assert s[i] == s[..p][i]; }
        else if i > p { assert s[i] == s[p + 1..][i - p - 1]; }
      }
    }
  }

  lemma {:induction false} NumberInAlphabet(s: string)
    requires IsNumber(s)
    ensures forall i :: 0 <= i < |s| ==> InFloatAlphabet(s[i])
  {
    if !IsMantissa(s) {
      var k :| 0 < k < |s| && IsMantissa(s[..k]) && IsExponent(s[k..]);
      MantissaInAlphabet(s[..k]);
      var e := s[k..];
      forall i | 0 <= i < |s| ensures InFloatAlphabet(s[i]) {
        if i < k {
          assert s[i] == s[..k][i];
        } else if i == k {
          assert s[i] == e[0];
        } else if IsSign(e[1]) {
          if i > k + 1 { assert s[i] == e[2..][i - k - 2]; }
        } else {
          assert s[i] == e[1..][i - k - 1];
        }
      }
    }
  }

  /** Every character of a string that parses as f64 belongs to the float alphabet. */
  lemma {:induction false} FloatAlphabet(s: string)
    requires ParsesAsFloat(s)
    ensures forall i :: 0 <= i < |s| ==> InFloatAlphabet(s[i])
  {
    var u := if |s| > 0 && IsSign(s[0]) then s[1..] else s;
    assert IsUnsignedFloat(u);
    if IsNumber(u) {
      NumberInAlphabet(u);
    }
    forall i | 0 <= i < |s| ensures InFloatAlphabet(s[i]) {
      if |s| > 0 && IsSign(s[0]) && i > 0 {
        assert s[i] == u[i - 1];
      } else if |s| > 0 && IsSign(s[0]) {
      } else {
        assert s[i] == u[i];
      }
    }
  }

  /** A bitrate with a character that no number contains, such as the "N/A"
      placeholder for a missing field, is printed as it is. */
  lemma PassThroughOutsideAlphabet(bitrate: string, kbps: string -> string)
    requires exists i :: 0 <= i < |bitrate| && !InFloatAlphabet(bitrate[i])
    ensures FormatBitrate(bitrate, kbps) == bitrate
  {
    if ParsesAsFloat(bitrate) {
      FloatAlphabet(bitrate);
    }
  }

  lemma MissingBitratePassesThrough(kbps: string -> string)
    ensures FormatBitrate("N/A", kbps) == "N/A"
  {
    assert !InFloatAlphabet("N/A"[1]);
    PassThroughOutsideAlphabet("N/A", kbps);
  }
}
