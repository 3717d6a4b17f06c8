/**
 * The pieces of the JavaScript string library the browser scripts rely on:
 * `String.prototype.trim` and `parseInt(s, 10)`, both over the whitespace
 * set of the ECMAScript grammar (WhiteSpace and LineTerminator code points).
 */
module JsText {
  import opened Wrappers

  /** ECMAScript WhiteSpace (TAB, VT, FF, SP, NBSP, ZWNBSP, every Zs) or LineTerminator (LF, CR, LS, PS). */
  predicate IsWhite(c: char) {
    var n := c as int;
    n == 0x09 || n == 0x0A || n == 0x0B || n == 0x0C || n == 0x0D || n == 0x20 ||
    n == 0xA0 || n == 0x1680 || (0x2000 <= n <= 0x200A) || n == 0x2028 || n == 0x2029 ||
    n == 0x202F || n == 0x205F || n == 0x3000 || n == 0xFEFF
  }

  predicate IsDigit(c: char) {
    '0' <= c <= '9'
  }

  /** How many whitespace characters `s` starts with. */
  function LeadingWhite(s: string): (k: nat)
    ensures k <= |s| && (k < |s| ==> !IsWhite(s[k]))
    ensures forall i :: 0 <= i < k ==> IsWhite(s[i])
  {
    if s != [] && IsWhite(s[0]) then
      var k := 1 + LeadingWhite(s[1..]);
      assert forall i :: 1 <= i < k ==> s[i] == s[1..][i - 1];
      k
    else 0
  }

  /** Where the text of `s` ends: only whitespace follows. */
  function ContentEnd(s: string): (k: nat)
    ensures k <= |s| && (0 < k ==> !IsWhite(s[k - 1]))
    ensures forall i :: k <= i < |s| ==> IsWhite(s[i])
  {
    if s != [] && IsWhite(s[|s| - 1]) then ContentEnd(s[..|s| - 1]) else |s|
  }

  /** Leading whitespace dropped (`parseInt` skips it). */
  function TrimStart(s: string): string {
    s[LeadingWhite(s)..]
  }

  /** `s.trim()`: the piece of `s` between its leading and its trailing whitespace. */
  function Trim(s: string): string {
    var k := LeadingWhite(s);
    s[k..][..ContentEnd(s[k..])]
  }

  /** The trim is a contiguous piece of `s` with nothing but whitespace on either side of it. */
  lemma TrimIsPiece(s: string)
    ensures var k, r := LeadingWhite(s), Trim(s);
      && k + |r| <= |s| && r == s[k..k + |r|]
      && (forall i :: 0 <= i < k ==> IsWhite(s[i]))
      && (forall i :: k + |r| <= i < |s| ==> IsWhite(s[i]))
  {
    var k := LeadingWhite(s);
    TrimPiece(s, k, ContentEnd(s[k..]));
  }

  /** The trim neither starts nor ends with whitespace. */
  lemma TrimEnds(s: string)
    ensures var r := Trim(s); r == [] || (!IsWhite(r[0]) && !IsWhite(r[|r| - 1]))
  {
    var k := LeadingWhite(s);
    TrimPiece(s, k, ContentEnd(s[k..]));
  }

  /** Cutting `s` at `k` and the rest at `e` leaves the piece `s[k..k + e]`, with only whitespace after it. */
  lemma TrimPiece(s: string, k: nat, e: nat)
    requires k <= |s| && (k < |s| ==> !IsWhite(s[k]))
    requires e <= |s| - k && (0 < e ==> !IsWhite(s[k + e - 1]))
    requires forall i :: e <= i < |s| - k ==> IsWhite(s[k..][i])
    ensures var r := s[k..][..e];
      && r == s[k..k + e]
      && (forall i :: k + e <= i < |s| ==> IsWhite(s[i]))
      && (r == [] || (!IsWhite(r[0]) && !IsWhite(r[|r| - 1])))
  {
    var t := s[k..];
    forall i | k + e <= i < |s| ensures IsWhite(s[i]) {
      assert s[i] == t[i - k];
    }
  }

  lemma TrimStartOfClean(s: string)
    requires s == [] || !IsWhite(s[0])
    ensures TrimStart(s) == s
  {
    assert LeadingWhite(s) == 0;
    assert s[0..] == s;
  }

  /** Trimming never changes a string whose ends are not whitespace. */
  lemma TrimOfClean(s: string)
    requires s == [] || (!IsWhite(s[0]) && !IsWhite(s[|s| - 1]))
    ensures Trim(s) == s
  {
    TrimStartOfClean(s);
    assert ContentEnd(s) == |s|;
    assert s[..|s|] == s;
  }

  /** Trimming is idempotent. */
  lemma TrimIdempotent(s: string)
    ensures Trim(Trim(s)) == Trim(s)
  {
    TrimEnds(s);
    TrimOfClean(Trim(s));
  }

  /** The longest prefix of `s` made of decimal digits. */
  function DigitPrefix(s: string): (r: string)
    ensures |r| <= |s| && r == s[..|r|]
    ensures forall i :: 0 <= i < |r| ==> IsDigit(r[i])
    ensures |r| == |s| || !IsDigit(s[|r|])
  {
    if s != [] && IsDigit(s[0]) then [s[0]] + DigitPrefix(s[1..]) else []
  }

  /** The number a string of decimal digits spells, most significant digit first. */
  function DigitsValue(ds: string): nat
    requires forall i :: 0 <= i < |ds| ==> IsDigit(ds[i])
  {
    if ds == [] then 0
    else
      assert IsDigit(ds[|ds| - 1]);
      DigitsValue(ds[..|ds| - 1]) * 10 + (ds[|ds| - 1] as int - '0' as int)
  }

  /**
   * `parseInt(s, 10)`: after leading whitespace, an optional sign and then the
   * longest run of decimal digits; `None` stands for NaN (no digit at all).
   */
  function ParseInt(s: string): (r: Option<int>)
    ensures r.None? <==> DigitPrefix(Unsigned(TrimStart(s))) == []
  {
    var t := TrimStart(s);
    var ds := DigitPrefix(Unsigned(t));
    if ds == [] then None
    else if t[0] == '-' then Some(-(DigitsValue(ds) as int))
    else Some(DigitsValue(ds))
  }

  /** The text after a leading `+` or `-`, if there is one. */
  function Unsigned(t: string): (u: string)
    ensures |u| <= |t| && u == t[|t| - |u|..]
    ensures |u| == |t| || (|u| + 1 == |t| && (t[0] == '+' || t[0] == '-'))
    ensures u == t <==> t == [] || (t[0] != '+' && t[0] != '-')
  {
    if t != [] && (t[0] == '+' || t[0] == '-') then t[1..] else t
  }

  function DigitChar(d: nat): (c: char)
    requires d < 10
    ensures IsDigit(c) && c as int - '0' as int == d
  {
    ('0' as int + d) as char
  }

  /** The decimal digits of `n`, without leading zeros. */
  function NatDigits(n: nat): (ds: string)
    ensures ds != [] && forall i :: 0 <= i < |ds| ==> IsDigit(ds[i])
  {
    if n < 10 then [DigitChar(n)] else NatDigits(n / 10) + [DigitChar(n % 10)]
  }

  /** `String(n)` for an integer: its decimal form, with a `-` when negative. */
  function Decimal(n: int): (s: string)
    ensures s != [] && (s[0] == '-' <==> n < 0)
    ensures forall i :: (if n < 0 then 1 else 0) <= i < |s| ==> IsDigit(s[i])
    ensures 'x' !in s && 'X' !in s
  {
    if n < 0 then "-" + NatDigits(-n) else NatDigits(n)
  }

  lemma {:induction false} NatDigitsValue(n: nat)
    ensures DigitsValue(NatDigits(n)) == n
  {
    var ds := NatDigits(n);
    if n >= 10 {
      NatDigitsValue(n / 10);
      assert ds[..|ds| - 1] == NatDigits(n / 10);
    }
  }

  lemma {:induction false} DigitPrefixOfDigits(ds: string, rest: string)
    requires forall i :: 0 <= i < |ds| ==> IsDigit(ds[i])
    requires rest == [] || !IsDigit(rest[0])
    ensures DigitPrefix(ds + rest) == ds
  {
    if ds != [] {
      assert (ds + rest)[1..] == ds[1..] + rest;
      DigitPrefixOfDigits(ds[1..], rest);
    } else {
      assert ds + rest == rest;
    }
  }

  /**
   * Round trip: `parseInt` reads back the decimal form of every integer, also
   * when a non-digit (a decimal point, an exponent, ...) follows it.
   */
  lemma ParseIntDecimal(n: int, rest: string)
    requires rest == [] || !IsDigit(rest[0])
    ensures ParseInt(Decimal(n) + rest) == Some(n)
  {
    DecimalThenRest(n, rest);
    if n < 0 {
      ParseIntOfSigned(Decimal(n) + rest);
    } else {
      ParseIntOfDigits(Decimal(n) + rest);
    }
  }

  /** What `parseInt` sees in the decimal form of `n` followed by a non-digit. */
  lemma DecimalThenRest(n: int, rest: string)
    requires rest == [] || !IsDigit(rest[0])
    ensures var s := Decimal(n) + rest;
      if n < 0 then |s| >= 2 && s[0] == '-' && IsDigit(s[1]) && DigitsValue(DigitPrefix(s[1..])) == -n
      else s != [] && IsDigit(s[0]) && DigitsValue(DigitPrefix(s)) == n
  {
    var m: nat := if n < 0 then -n else n;
    var ds := NatDigits(m);
    NatDigitsValue(m);
    DigitsThenRest(ds, rest);
    DecimalSplit(n, rest);
  }

  lemma DecimalSplit(n: int, rest: string)
    ensures n < 0 ==> (Decimal(n) + rest)[0] == '-' && (Decimal(n) + rest)[1..] == NatDigits(-n) + rest
    ensures n >= 0 ==> Decimal(n) + rest == NatDigits(n) + rest
  {
    if n < 0 {
      assert (Decimal(n) + rest)[1..] == NatDigits(-n) + rest;
    }
  }

  lemma DigitsThenRest(ds: string, rest: string)
    requires ds != [] && forall i :: 0 <= i < |ds| ==> IsDigit(ds[i])
    requires rest == [] || !IsDigit(rest[0])
    ensures (ds + rest)[0] == ds[0] && IsDigit(ds[0])
    ensures DigitPrefix(ds + rest) == ds
  {
    DigitPrefixOfDigits(ds, rest);
  }

  /** Text that starts with a digit reads as its leading run of digits. */
  lemma ParseIntOfDigits(s: string)
    requires s != [] && IsDigit(s[0])
    ensures ParseInt(s) == Some(DigitsValue(DigitPrefix(s)))
  {
    assert !IsWhite(s[0]);
    TrimStartOfClean(s);
    assert Unsigned(s) == s;
    assert DigitPrefix(s) != [];
    ParseIntUnsigned(s);
  }

  /** Text with nothing to skip and no sign reads as its leading run of digits. */
  lemma ParseIntUnsigned(s: string)
    requires TrimStart(s) == s && Unsigned(s) == s && DigitPrefix(s) != []
    ensures ParseInt(s) == Some(DigitsValue(DigitPrefix(s)))
  {
  }

  /** Text that starts with `-` and then a digit reads as the negated run of digits. */
  lemma ParseIntOfSigned(s: string)
    requires |s| >= 2 && s[0] == '-' && IsDigit(s[1])
    ensures ParseInt(s) == Some(-(DigitsValue(DigitPrefix(s[1..])) as int))
  {
    assert !IsWhite(s[0]);
    TrimStartOfClean(s);
    assert Unsigned(s) == s[1..];
    assert s[1..][0] == s[1];
    assert DigitPrefix(s[1..]) != [];
    ParseIntMinus(s);
  }

  /** Text with nothing to skip and a leading `-` reads as the negated run of digits after it. */
  lemma ParseIntMinus(s: string)
    requires TrimStart(s) == s && s != [] && s[0] == '-'
    requires Unsigned(s) == s[1..] && DigitPrefix(s[1..]) != []
    ensures ParseInt(s) == Some(-(DigitsValue(DigitPrefix(s[1..])) as int))
  {
  }

  /** The whitespace `ws` in front of text that does not start with whitespace is exactly what is skipped. */
  lemma {:induction false} LeadingWhiteOf(ws: string, t: string)
    requires forall i :: 0 <= i < |ws| ==> IsWhite(ws[i])
    requires t == [] || !IsWhite(t[0])
    ensures LeadingWhite(ws + t) == |ws| && TrimStart(ws + t) == t
  {
    if ws == [] {
      assert ws + t == t;
      if t != [] {
        assert !IsWhite((ws + t)[0]);
      }
    } else {
      assert (ws + t)[1..] == ws[1..] + t;
      LeadingWhiteOf(ws[1..], t);
    }
  }

  /** An optional sign, then no digit: `parseInt` gives NaN. */
  predicate NoNumberAfter(sign: string, rest: string) {
    rest == [] || (!IsDigit(rest[0]) && (sign == "" ==> !IsWhite(rest[0]) && rest[0] != '+' && rest[0] != '-'))
  }

  /** The value `parseInt` gives for a sign and a run of digits. */
  function SignedValue(sign: string, ds: string): int
    requires forall i :: 0 <= i < |ds| ==> IsDigit(ds[i])
  {
    if sign == "-" then -(DigitsValue(ds) as int) else DigitsValue(ds)
  }

  /** After an optional sign, the text that is not itself a sign is what `Unsigned` keeps. */
  lemma UnsignedAfterSign(sign: string, u: string)
    requires sign == "" || sign == "+" || sign == "-"
    requires sign == "" ==> u == [] || (u[0] != '+' && u[0] != '-')
    ensures Unsigned(sign + u) == u
    ensures sign + u != [] ==> ((sign + u)[0] == '-' <==> sign == "-")
  {
    if sign != "" {
      assert (sign + u)[0] == sign[0];
      assert (sign + u)[1..] == u;
    } else {
      assert sign + u == u;
    }
  }

  /** `ParseInt` once the whitespace it skips and the sign it drops are known. */
  lemma ParseIntVia(s: string, t: string, ds: string)
    requires TrimStart(s) == t && DigitPrefix(Unsigned(t)) == ds
    ensures ds == [] ==> ParseInt(s) == None
    ensures ds != [] ==> t != [] && ParseInt(s) == Some(if t[0] == '-' then -(DigitsValue(ds) as int) else DigitsValue(ds))
  {
  }

  /** What `ParseInt` sees in whitespace, a sign, a run of digits and a rest that does not continue it. */
  lemma SplitSeen(ws: string, sign: string, ds: string, rest: string)
    requires forall i :: 0 <= i < |ws| ==> IsWhite(ws[i])
    requires sign == "" || sign == "+" || sign == "-"
    requires ds != [] && forall i :: 0 <= i < |ds| ==> IsDigit(ds[i])
    requires rest == [] || !IsDigit(rest[0])
    ensures var t := sign + (ds + rest);
      t != [] && TrimStart(ws + t) == t && DigitPrefix(Unsigned(t)) == ds && (t[0] == '-' <==> sign == "-")
  {
    var u := ds + rest;
    var t := sign + u;
    assert u[0] == ds[0];
    assert t[0] == (if sign == "" then ds[0] else sign[0]);
    LeadingWhiteOf(ws, t);
    UnsignedAfterSign(sign, u);
    DigitPrefixOfDigits(ds, rest);
  }

  /**
   * `parseInt(ws + sign + ds + rest, 10)`: whitespace, an optional sign, a
   * run of digits and anything that does not continue the run read as the
   * signed value of the digits.
   */
  lemma ParseIntOfSplit(ws: string, sign: string, ds: string, rest: string)
    requires forall i :: 0 <= i < |ws| ==> IsWhite(ws[i])
    requires sign == "" || sign == "+" || sign == "-"
    requires ds != [] && forall i :: 0 <= i < |ds| ==> IsDigit(ds[i])
    requires rest == [] || !IsDigit(rest[0])
    ensures ParseInt(ws + sign + ds + rest) == Some(SignedValue(sign, ds))
  {
    var t := sign + (ds + rest);
    ConcatRight(ws, sign, ds, rest);
    SplitSeen(ws, sign, ds, rest);
    ParseIntVia(ws + t, t, ds);
  }

  /** Whitespace and an optional sign with no digit after them: `parseInt` gives NaN. */
  lemma ParseIntNaN(ws: string, sign: string, rest: string)
    requires forall i :: 0 <= i < |ws| ==> IsWhite(ws[i])
    requires sign == "" || sign == "+" || sign == "-"
    requires NoNumberAfter(sign, rest)
    ensures ParseInt(ws + sign + rest) == None
  {
    var t := sign + rest;
    assert ws + sign + rest == ws + t;
    assert TrimStart(ws + t) == t by {
      if sign != "" {
        assert t[0] == sign[0];
      } else {
        assert t == rest;
      }
      LeadingWhiteOf(ws, t);
    }
    assert DigitPrefix(Unsigned(t)) == [] by {
      UnsignedAfterSign(sign, rest);
    }
    ParseIntVia(ws + t, t, []);
  }

  lemma ConcatRight(a: string, b: string, c: string, d: string)
    ensures a + b + c + d == a + (b + (c + d))
  {
  }

  /** The split of trimmed text into the sign `parseInt` takes, the digits it reads and the rest. */
  lemma SignSplit(t: string) returns (sign: string, ds: string, rest: string)
    requires t == [] || !IsWhite(t[0])
    ensures t == sign + (ds + rest)
    ensures sign == "" || sign == "+" || sign == "-"
    ensures forall i :: 0 <= i < |ds| ==> IsDigit(ds[i])
    ensures rest == [] || !IsDigit(rest[0])
    ensures ds == [] ==> NoNumberAfter(sign, rest)
  {
    sign := if t != [] && (t[0] == '+' || t[0] == '-') then [t[0]] else "";
    var u := t[|sign|..];
    assert t == sign + u;
    ds := DigitPrefix(u);
    rest := u[|ds|..];
    assert u == ds + rest;
    if rest != [] {
      assert rest[0] == u[|ds|];
    }
  }

  /** The split `parseInt` makes: the whitespace it skips, the sign it takes, the digits it reads. */
  lemma SplitOf(s: string) returns (ws: string, sign: string, ds: string, rest: string)
    ensures s == ws + sign + ds + rest
    ensures forall i :: 0 <= i < |ws| ==> IsWhite(ws[i])
    ensures sign == "" || sign == "+" || sign == "-"
    ensures forall i :: 0 <= i < |ds| ==> IsDigit(ds[i])
    ensures rest == [] || !IsDigit(rest[0])
    ensures ds == [] ==> NoNumberAfter(sign, rest)
  {
    var k := LeadingWhite(s);
    ws := s[..k];
    var t := s[k..];
    assert s == ws + t;
    forall i | 0 <= i < |ws| ensures IsWhite(ws[i]) {
      assert ws[i] == s[i];
    }
    assert t == [] || t[0] == s[k];
    sign, ds, rest := SignSplit(t);
    ConcatRight(ws, sign, ds, rest);
  }

  /**
   * Every string splits into whitespace, an optional sign, a run of digits
   * and the rest, in one of the two shapes above; so `parseInt` is NaN
   * exactly when the run of digits is empty.
   */
  lemma ParseIntSplit(s: string) returns (ws: string, sign: string, ds: string, rest: string)
    ensures s == ws + sign + ds + rest
    ensures forall i :: 0 <= i < |ws| ==> IsWhite(ws[i])
    ensures sign == "" || sign == "+" || sign == "-"
    ensures forall i :: 0 <= i < |ds| ==> IsDigit(ds[i])
    ensures ds != [] ==> (rest == [] || !IsDigit(rest[0])) && ParseInt(s) == Some(SignedValue(sign, ds))
    ensures ds == [] ==> NoNumberAfter(sign, rest) && ParseInt(s) == None
  {
    ws, sign, ds, rest := SplitOf(s);
    if ds != [] {
      ParseIntOfSplit(ws, sign, ds, rest);
    } else {
      assert s == ws + sign + rest;
      ParseIntNaN(ws, sign, rest);
    }
  }
}
