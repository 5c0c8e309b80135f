/** The string operations the handler relies on: `String.prototype.trim`, the
    `\s` class of regular expressions, and the decimal rendering of integers in
    template literals. */
module JsStrings {

  /** The characters `\s` matches and `trim` removes: the ECMAScript
      WhiteSpace and LineTerminator code points. */
  predicate IsWhitespace(c: char) {
    || c == '\t' || c == '\n' || c == '\U{000B}' || c == '\U{000C}' || c == '\r'
    || c == ' ' || c == '\U{00A0}' || c == '\U{1680}'
    || ('\U{2000}' <= c <= '\U{200A}')
    || c == '\U{2028}' || c == '\U{2029}' || c == '\U{202F}' || c == '\U{205F}'
    || c == '\U{3000}' || c == '\U{FEFF}'
  }

  predicate AllWhitespace(s: string) {
    forall i | 0 <= i < |s| :: IsWhitespace(s[i])
  }

  /** Neither the first nor the last character is whitespace. */
  predicate Unpadded(s: string) {
    s == [] || (!IsWhitespace(s[0]) && !IsWhitespace(s[|s| - 1]))
  }

  /** `s.trimStart()`, which is also what a greedy `\s*` consumes. */
  function TrimStart(s: string): (r: string)
    ensures |r| <= |s|
  {
    if s != [] && IsWhitespace(s[0]) then TrimStart(s[1..]) else s
  }

  /** trimStart keeps a suffix, drops only whitespace, and stops at the first
      character that is not whitespace. */
  lemma {:induction false} TrimStartSpec(s: string)
    ensures var r := TrimStart(s);
            && r == s[|s| - |r|..]
            && AllWhitespace(s[..|s| - |r|])
            && (r == [] || !IsWhitespace(r[0]))
  {
    if s != [] && IsWhitespace(s[0]) {
      TrimStartSpec(s[1..]);
      var r := TrimStart(s);
      var dropped := s[..|s| - |r|];
      forall i | 0 <= i < |dropped| ensures IsWhitespace(dropped[i]) {
        if i > 0 {
          assert dropped[i] == s[1..][..|s| - 1 - |r|][i - 1];
        }
      }
    }
  }

  /** `s.trimEnd()`. */
  function TrimEnd(s: string): (r: string)
    ensures |r| <= |s|
  {
    if s != [] && IsWhitespace(s[|s| - 1]) then TrimEnd(s[..|s| - 1]) else s
  }

  /** trimEnd keeps a prefix, drops only whitespace, and stops at the last
      character that is not whitespace. */
  lemma {:induction false} TrimEndSpec(s: string)
    ensures var r := TrimEnd(s);
            && r == s[..|r|]
            && AllWhitespace(s[|r|..])
            && (r == [] || !IsWhitespace(r[|r| - 1]))
  {
    if s != [] && IsWhitespace(s[|s| - 1]) {
      var s' := s[..|s| - 1];
      TrimEndSpec(s');
      var r := TrimEnd(s);
      assert r == s'[..|r|];
      forall i | |r| <= i < |s| ensures IsWhitespace(s[i]) {
        if i < |s| - 1 {
          assert s[i] == s'[|r|..][i - |r|];
        }
      }
      assert r == s[..|r|];
    }
  }

  /** `s.trim()`. */
  function Trim(s: string): (r: string)
    ensures |r| <= |s|
  {
    TrimEnd(TrimStart(s))
  }

  /** What trim keeps is the slice of `s` starting at `i`, with only
      whitespace on either side of it and none at its own ends. */
  lemma {:induction false} TrimSpec(s: string) returns (i: nat)
    ensures i + |Trim(s)| <= |s| && Trim(s) == s[i..i + |Trim(s)|]
    ensures AllWhitespace(s[..i]) && AllWhitespace(s[i + |Trim(s)|..])
    ensures Unpadded(Trim(s))
  {
    var t := TrimStart(s);
    var r := TrimEnd(t);
    TrimStartSpec(s);
    TrimEndSpec(t);
    i := |s| - |t|;
    assert r == s[i..i + |r|];
    assert s[i + |r|..] == t[|r|..];
    if r != [] {
      assert r[0] == t[0];
    }
  }

  /** What trim returns has no whitespace at its ends. */
  lemma {:induction false} TrimUnpaddedResult(s: string)
    ensures Unpadded(Trim(s))
  {
    var _ := TrimSpec(s);
  }

  /** Trimming drops nothing but the whitespace at the ends: a string
      without such whitespace comes back unchanged. */
  lemma {:induction false} TrimUnpadded(s: string)
    requires Unpadded(s)
    ensures Trim(s) == s
  {
    if s != [] {
      assert TrimStart(s) == s;
    }
  }

  lemma {:induction false} TrimIdempotent(s: string)
    ensures Trim(Trim(s)) == Trim(s)
  {
    var _ := TrimSpec(s);
    TrimUnpadded(Trim(s));
  }

  /** A string trims to nothing exactly when it is all whitespace. */
  lemma {:induction false} TrimEmptyIffAllWhitespace(s: string)
    ensures Trim(s) == [] <==> AllWhitespace(s)
  {
    if s != [] && IsWhitespace(s[0]) {
      TrimEmptyIffAllWhitespace(s[1..]);
      assert AllWhitespace(s) <==> AllWhitespace(s[1..]) by {
        if AllWhitespace(s[1..]) {
          forall i | 0 <= i < |s| ensures IsWhitespace(s[i]) {
            if i > 0 { assert s[i] == s[1..][i - 1]; }
          }
        }
      }
    } else if s != [] {
      TrimEndSpec(s);
    }
  }

  /** Whitespace in front of a string does not change what trimStart keeps. */
  lemma {:induction false} TrimStartSkipsWhitespace(w: string, x: string)
    requires AllWhitespace(w)
    ensures TrimStart(w + x) == TrimStart(x)
  {
    if w != [] {
      assert IsWhitespace((w + x)[0]);
      assert (w + x)[1..] == w[1..] + x;
      assert AllWhitespace(w[1..]) by {
        forall i | 0 <= i < |w| - 1 ensures IsWhitespace(w[1..][i]) {
          assert w[1..][i] == w[i + 1];
        }
      }
      TrimStartSkipsWhitespace(w[1..], x);
    } else {
      assert w + x == x;
    }
  }

  /** trimStart of `x + z` stops inside `x` or at the first character of `z`
      when that character is not whitespace. */
  lemma {:induction false} TrimStartStopsBefore(x: string, z: string)
    requires z != [] && !IsWhitespace(z[0])
    ensures TrimStart(x + z) == TrimStart(x) + z
  {
    if x != [] {
      assert (x + z)[0] == x[0];
      if IsWhitespace(x[0]) {
        assert (x + z)[1..] == x[1..] + z;
        TrimStartStopsBefore(x[1..], z);
      }
    } else {
      assert x + z == z;
    }
  }

  lemma {:induction false} TrimStartIdempotent(s: string)
    ensures TrimStart(TrimStart(s)) == TrimStart(s)
  {
    TrimStartSpec(s);
  }

  /** Trimming after trimStart is trimming. */
  lemma {:induction false} TrimAfterTrimStart(s: string)
    ensures Trim(TrimStart(s)) == Trim(s)
  {
    TrimStartIdempotent(s);
  }

  /** The digits of `n` in base 10, as `${n}` renders a non-negative integer. */
  function Decimal(n: nat): (r: string)
    ensures r != [] && AllDigits(r)
  {
    if n < 10 then [DigitChar(n)] else Decimal(n / 10) + [DigitChar(n % 10)]
  }

  function DigitChar(d: nat): (c: char)
    requires d < 10
    ensures '0' <= c <= '9'
  {
    ('0' as int + d) as char
  }

  predicate AllDigits(s: string) {
    forall i | 0 <= i < |s| :: '0' <= s[i] <= '9'
  }

  /** The value a string of decimal digits denotes, read left to right: the
      reference against which Decimal is checked. */
  function DecimalValue(s: string): (value: nat)
    requires AllDigits(s)
  {
    if s == [] then 0 else DecimalValue(s[..|s| - 1]) * 10 + (s[|s| - 1] as int - '0' as int)
  }

  /** Reading back the rendering of `n` gives `n`. */
  lemma {:induction false} DecimalRoundTrip(n: nat)
    ensures DecimalValue(Decimal(n)) == n
  {
    if n >= 10 {
      DecimalRoundTrip(n / 10);
      var r := Decimal(n);
      assert r[..|r| - 1] == Decimal(n / 10);
    }
  }

  /** Different numbers render differently. */
  lemma {:induction false} DecimalInjective(m: nat, n: nat)
    requires Decimal(m) == Decimal(n)
    ensures m == n
  {
    DecimalRoundTrip(m);
    DecimalRoundTrip(n);
  }
}
