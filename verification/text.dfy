/** String helpers with Python semantics: `str.strip()`, slicing `s[:n]` and `str(int)`. */
module Text {

  /** Python's `str.isspace()` for a single code point: the characters `str.strip()` removes. */
  predicate IsWhitespace(c: char) {
    var n := c as int;
    || 0x09 <= n <= 0x0D
    || 0x1C <= n <= 0x20
    || n == 0x85 || n == 0xA0 || n == 0x1680
    || 0x2000 <= n <= 0x200A
    || n == 0x2028 || n == 0x2029 || n == 0x202F || n == 0x205F || n == 0x3000
  }

  /** Every character of `s` is whitespace. */
  predicate AllWhitespace(s: string) {
    forall i :: 0 <= i < |s| ==> IsWhitespace(s[i])
  }

  /** `r` has no whitespace at either end. */
  predicate Trimmed(r: string) {
    r == [] || (!IsWhitespace(r[0]) && !IsWhitespace(r[|r| - 1]))
  }

  /** Reference description of stripping: `s` is `r` surrounded by `lead` whitespace
      characters on the left and only whitespace on the right. */
  ghost predicate StripsTo(s: string, lead: nat, r: string) {
    && lead + |r| <= |s|
    && s[lead..lead + |r|] == r
    && AllWhitespace(s[..lead])
    && AllWhitespace(s[lead + |r|..])
    && Trimmed(r)
  }

  /** `s.lstrip()`: drops the leading whitespace. */
  function LStrip(s: string): (r: string)
    ensures |r| <= |s|
    ensures r == [] || !IsWhitespace(r[0])
  {
    if |s| > 0 && IsWhitespace(s[0]) then LStrip(s[1..]) else s
  }

  /** What `LStrip` keeps is a suffix, and what it drops is whitespace. */
  lemma {:induction false} LStripDrops(s: string)
    ensures var r := LStrip(s);
      r == s[|s| - |r|..] && AllWhitespace(s[..|s| - |r|])
  {
    if |s| > 0 && IsWhitespace(s[0]) {
      var r := LStrip(s[1..]);
      LStripDrops(s[1..]);
      assert s[1..][|s| - 1 - |r|..] == s[|s| - |r|..];
      assert s[1..][..|s| - 1 - |r|] == s[1..|s| - |r|];
      assert forall i :: 1 <= i < |s| - |r| ==> s[1..|s| - |r|][i - 1] == s[i];
    }
  }

  /** `s.rstrip()`: drops the trailing whitespace. */
  function RStrip(s: string): (r: string)
    ensures |r| <= |s|
    ensures r == [] || !IsWhitespace(r[|r| - 1])
  {
    if |s| > 0 && IsWhitespace(s[|s| - 1]) then RStrip(s[..|s| - 1]) else s
  }

  /** What `RStrip` keeps is a prefix, and what it drops is whitespace. */
  lemma {:induction false} RStripDrops(s: string)
    ensures var r := RStrip(s);
      r == s[..|r|] && AllWhitespace(s[|r|..])
  {
    if |s| > 0 && IsWhitespace(s[|s| - 1]) {
      var r := RStrip(s[..|s| - 1]);
      RStripDrops(s[..|s| - 1]);
      assert s[..|s| - 1][..|r|] == s[..|r|];
      assert s[..|s| - 1][|r|..] == s[|r|..|s| - 1];
      assert forall i :: |r| <= i < |s| - 1 ==> s[|r|..|s| - 1][i - |r|] == s[i];
    } else {
      assert s[..|s|] == s;
    }
  }

  /** `s.strip()`: drops whitespace at both ends and keeps the middle verbatim. */
  function Strip(s: string): (r: string)
    ensures |r| <= |s|
    ensures Trimmed(r)
  {
    RStripDrops(LStrip(s));
    RStrip(LStrip(s))
  }

  /** `Strip(s)` is a solution of the reference description, with the leading
      whitespace being what `LStrip` drops. */
  lemma {:induction false} StripMeetsReference(s: string)
    ensures StripsTo(s, |s| - |LStrip(s)|, Strip(s))
  {
    var l := LStrip(s);
    var r := RStrip(l);
    var lead := |s| - |l|;
    LStripDrops(s);
    RStripDrops(l);
    assert l == s[lead..];
    assert r == l[..|r|];
    assert s[lead..lead + |r|] == r;
    assert s[lead + |r|..] == l[|r|..];
    assert AllWhitespace(s[..lead]);
    assert AllWhitespace(l[|r|..]);
  }

  /** Once the first `lead` characters are whitespace and the next one is not,
      `LStrip` keeps exactly the rest. */
  lemma {:induction false} LStripFrom(s: string, lead: nat)
    requires lead <= |s| && AllWhitespace(s[..lead])
    requires lead == |s| || !IsWhitespace(s[lead])
    ensures LStrip(s) == s[lead..]
  {
    if lead > 0 {
      assert s[..lead][0] == s[0];
      assert s[1..][..lead - 1] == s[1..lead];
      assert forall i :: 0 <= i < lead - 1 ==> s[1..lead][i] == s[..lead][i + 1];
      LStripFrom(s[1..], lead - 1);
      assert s[1..][lead - 1..] == s[lead..];
    }
  }

  /** Once everything from position `k` on is whitespace and the character before
      it is not, `RStrip` keeps exactly the first `k` characters. */
  lemma {:induction false} RStripTo(t: string, k: nat)
    requires k <= |t| && AllWhitespace(t[k..])
    requires k == 0 || !IsWhitespace(t[k - 1])
    ensures RStrip(t) == t[..k]
    decreases |t| - k
  {
    if k < |t| {
      assert t[k..][|t| - 1 - k] == t[|t| - 1];
      var t' := t[..|t| - 1];
      assert t'[k..] == t[k..|t| - 1];
      assert forall i :: 0 <= i < |t'| - k ==> t'[k..][i] == t[k..][i];
      RStripTo(t', k);
      assert t'[..k] == t[..k];
    }
  }

  /** `Strip` agrees with the reference description: any decomposition of `s` into
      leading whitespace, a trimmed middle `r` and trailing whitespace has `r == Strip(s)`. */
  lemma StripCharacterised(s: string, lead: nat, r: string)
    requires StripsTo(s, lead, r)
    ensures r == Strip(s)
  {
    if r == [] {
      assert forall i :: 0 <= i < |s| ==> IsWhitespace(s[i]) by {
        forall i | 0 <= i < |s| ensures IsWhitespace(s[i]) {
          if i < lead {
            assert s[..lead][i] == s[i];
          } else {
            assert s[lead..][i - lead] == s[i];
          }
        }
      }
      assert s[..|s|] == s;
      LStripFrom(s, |s|);
    } else {
      assert s[lead] == r[0];
      LStripFrom(s, lead);
      var l := s[lead..];
      assert l[..|r|] == r;
      assert l[|r|..] == s[lead + |r|..];
      RStripTo(l, |r|);
    }
  }

  /** Stripping a string that has no whitespace at its ends returns it unchanged;
      in particular stripping twice is stripping once. */
  lemma StripTrimmed(s: string)
    requires Trimmed(s)
    ensures Strip(s) == s
  {
  }

  /** `s[:n]` guarded by `len(s) > n`: the hard cut to at most `n` characters. */
  function Cut(s: string, n: nat): (r: string)
    ensures |r| <= n
    ensures r <= s
    ensures |s| <= n ==> r == s
    ensures |s| > n ==> |r| == n
  {
    if |s| > n then s[..n] else s
  }

  /** Digit characters `'0'`..`'9'`. */
  predicate IsDigit(c: char) {
    '0' <= c <= '9'
  }

  function DigitChar(d: nat): (c: char)
    requires d < 10
    ensures IsDigit(c) && (c as int) - ('0' as int) == d
  {
    (('0' as int) + d) as char
  }

  /** `str(n)` for a non-negative integer: decimal digits, no leading zero. */
  function NatToDecimal(n: nat): (r: string)
    ensures |r| >= 1
    ensures forall i :: 0 <= i < |r| ==> IsDigit(r[i])
    ensures r[0] == '0' ==> n == 0
  {
    if n < 10 then [DigitChar(n)] else NatToDecimal(n / 10) + [DigitChar(n % 10)]
  }

  /** The number a string of decimal digits denotes: the inverse of `NatToDecimal`. */
  function DecimalValue(s: string): nat
    requires forall i :: 0 <= i < |s| ==> IsDigit(s[i])
  {
    if |s| == 0 then 0
    else
      var d := (s[|s| - 1] as int) - ('0' as int);
      assert IsDigit(s[|s| - 1]);
      DecimalValue(s[..|s| - 1]) * 10 + d
  }

  /** Reading back the decimal rendering gives the number. */
  lemma {:induction false} DecimalRoundTrip(n: nat)
    ensures DecimalValue(NatToDecimal(n)) == n
  {
    if n >= 10 {
      var r := NatToDecimal(n);
      assert r[..|r| - 1] == NatToDecimal(n / 10);
      DecimalRoundTrip(n / 10);
    }
  }

  /** Distinct numbers render to distinct decimal strings. */
  lemma DecimalInjective(m: nat, n: nat)
    ensures NatToDecimal(m) == NatToDecimal(n) ==> m == n
  {
    DecimalRoundTrip(m);
    DecimalRoundTrip(n);
  }

  /** `str(n)` for any integer: a minus sign before the digits of a negative number. */
  function IntToDecimal(n: int): (r: string)
    ensures n >= 0 ==> r == NatToDecimal(n)
    ensures n < 0 ==> r == "-" + NatToDecimal(-n)
  {
    if n < 0 then "-" + NatToDecimal(-n) else NatToDecimal(n)
  }

  /** Distinct integers render to distinct strings: the sign tells negative from
      non-negative, and the digits do the rest. */
  lemma IntToDecimalInjective(m: int, n: int)
    ensures IntToDecimal(m) == IntToDecimal(n) ==> m == n
  {
    if IntToDecimal(m) == IntToDecimal(n) {
      if m < 0 && n < 0 {
        assert IntToDecimal(m)[1..] == NatToDecimal(-m);
        assert IntToDecimal(n)[1..] == NatToDecimal(-n);
        DecimalInjective(-m, -n);
      } else if m >= 0 && n >= 0 {
        DecimalInjective(m, n);
      }
    }
  }
}
