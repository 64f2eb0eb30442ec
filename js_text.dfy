/** The JavaScript string operations the Express back end relies on:
    `String.prototype.trim` (the schema's `trim: true`), `replace` with a
    string pattern, `split('/')[0]` and the global `parseInt` without a radix. */
module JsText {
  import opened Seqs

  /** WhiteSpace and LineTerminator code points of ECMAScript (the set both
      `trim` and `parseInt` skip). */
  predicate IsJsSpace(c: char)
  {
    var n := c as int;
    (0x09 <= n <= 0x0D) || n == 0x20 || n == 0xA0 || n == 0x1680 ||
    (0x2000 <= n <= 0x200A) || n == 0x2028 || n == 0x2029 || n == 0x202F ||
    n == 0x205F || n == 0x3000 || n == 0xFEFF
  }

  /** Nothing but white space (or nothing at all). */
  predicate IsBlank(s: string)
  {
    forall k :: 0 <= k < |s| ==> IsJsSpace(s[k])
  }

  /** Neither the first nor the last character is white space. */
  predicate NoSpaceAtEnds(s: string)
  {
    s != [] ==> !IsJsSpace(s[0]) && !IsJsSpace(s[|s| - 1])
  }

  /** `s.trimStart()`: the suffix left once leading white space is gone. */
  function TrimStart(s: string): (r: string)
    ensures |r| <= |s| && r == s[|s| - |r|..]
    ensures forall k :: 0 <= k < |s| - |r| ==> IsJsSpace(s[k])
    ensures r != [] ==> !IsJsSpace(r[0])
  {
    if s != [] && IsJsSpace(s[0]) then TrimStart(s[1..]) else s
  }

  /** `s.trimEnd()`: the prefix left once trailing white space is gone. */
  function TrimEnd(s: string): (r: string)
    ensures |r| <= |s| && r == s[..|r|]
    ensures forall k :: |r| <= k < |s| ==> IsJsSpace(s[k])
    ensures r != [] ==> !IsJsSpace(r[|r| - 1])
  {
    if s != [] && IsJsSpace(s[|s| - 1]) then TrimEnd(s[..|s| - 1]) else s
  }

  /** `s.trim()`, what Mongoose's `trim: true` applies before validating. */
  function Trim(s: string): (r: string)
    ensures |r| <= |s|
    ensures NoSpaceAtEnds(r)
    ensures r == [] <==> IsBlank(s)
  {
    var t := TrimStart(s);
    var r := TrimEnd(t);
    assert r == [] ==> t == [];
    assert r != [] ==> t != [] && s[|s| - |t|] == t[0];
    r
  }

  /** What `trimStart` drops is a blank prefix. */
  lemma {:induction false} TrimStartDropsBlank(s: string)
    ensures IsBlank(s[..|s| - |TrimStart(s)|])
  {
    var i := |s| - |TrimStart(s)|;
    forall k | 0 <= k < i
      ensures IsJsSpace(s[..i][k])
    {
      assert s[..i][k] == s[k];
    }
  }

  /** What `trimEnd` drops is a blank suffix. */
  lemma {:induction false} TrimEndDropsBlank(t: string)
    ensures IsBlank(t[|TrimEnd(t)|..])
  {
    var n := |TrimEnd(t)|;
    forall k | 0 <= k < |t| - n
      ensures IsJsSpace(t[n..][k])
    {
      assert t[n..][k] == t[n + k];
    }
  }

  /** What `trim` keeps is a slice of its input, and everything it drops on
      either side is white space. */
  lemma {:induction false} TrimIsInnerSlice(s: string)
    ensures exists i, j :: 0 <= i <= j <= |s| && Trim(s) == s[i..j] && IsBlank(s[..i]) && IsBlank(s[j..])
  {
    var t := TrimStart(s);
    var r := TrimEnd(t);
    assert Trim(s) == r;
    TrimStartDropsBlank(s);
    TrimEndDropsBlank(t);
    BlankEndsSlice(s, t, r);
  }

  /** A blank-suffixed prefix of a blank-prefixed suffix is a slice with
      blank text on both sides. */
  lemma {:induction false} BlankEndsSlice(s: string, t: string, r: string)
    requires |t| <= |s| && t == s[|s| - |t|..] && IsBlank(s[..|s| - |t|])
    requires |r| <= |t| && r == t[..|r|] && IsBlank(t[|r|..])
    ensures exists i, j :: 0 <= i <= j <= |s| && r == s[i..j] && IsBlank(s[..i]) && IsBlank(s[j..])
  {
    var i := |s| - |t|;
    var j := i + |r|;
    assert r == s[i..j];
    assert s[j..] == t[|r|..];
  }

  /** Trimming text that already has no white space at either end changes
      nothing, so trimming twice is trimming once. */
  lemma {:induction false} TrimKeepsTrimmed(s: string)
    requires NoSpaceAtEnds(s)
    ensures Trim(s) == s
  {
  }

  lemma {:induction false} TrimIdempotent(s: string)
    ensures Trim(Trim(s)) == Trim(s)
  {
    TrimKeepsTrimmed(Trim(s));
  }

  /** `pat` occurs in `s` at position `k`. */
  predicate MatchesAt(s: string, pat: string, k: nat)
  {
    k + |pat| <= |s| && s[k..k + |pat|] == pat
  }

  lemma MatchesAtTail(s: string, pat: string, k: nat)
    requires s != []
    ensures MatchesAt(s, pat, k + 1) <==> MatchesAt(s[1..], pat, k)
  {
    if k + 1 + |pat| <= |s| {
      assert s[k + 1..k + 1 + |pat|] == s[1..][k..k + |pat|];
    }
  }

  /** `s.indexOf(pat)`: the position of the first occurrence. */
  function IndexOf(s: string, pat: string): (r: Option<nat>)
    ensures r.Some? ==> MatchesAt(s, pat, r.value)
    ensures r.Some? ==> forall k: nat :: k < r.value ==> !MatchesAt(s, pat, k)
    ensures r.None? ==> forall k: nat :: !MatchesAt(s, pat, k)
    decreases |s|
  {
    if |s| < |pat| then None
    else if s[..|pat|] == pat then Some(0)
    else
      match IndexOf(s[1..], pat)
      case None =>
        assert forall k: nat :: !MatchesAt(s, pat, k) by {
          forall k: nat ensures !MatchesAt(s, pat, k) {
            if k > 0 {
              MatchesAtTail(s, pat, k - 1);
            }
          }
        }
        None
      case Some(i) =>
        MatchesAtTail(s, pat, i);
        assert forall k: nat :: k < i + 1 ==> !MatchesAt(s, pat, k) by {
          forall k: nat | k < i + 1 ensures !MatchesAt(s, pat, k) {
            if k > 0 {
              MatchesAtTail(s, pat, k - 1);
            }
          }
        }
        Some(i + 1)
  }

  /** `s.replace(pat, rep)` with a string pattern: only the first
      occurrence is replaced. */
  function ReplaceFirst(s: string, pat: string, rep: string): (r: string)
    ensures IndexOf(s, pat).None? ==> r == s
    ensures IndexOf(s, pat).Some? ==>
      var i := IndexOf(s, pat).value; r == s[..i] + rep + s[i + |pat|..]
  {
    match IndexOf(s, pat)
    case None => s
    case Some(i) => s[..i] + rep + s[i + |pat|..]
  }

  /** `s.split('/')[0]`: everything before the first slash. */
  function BeforeSlash(s: string): (r: string)
    ensures r <= s && '/' !in r
    ensures |r| < |s| ==> s[|r|] == '/'
  {
    if s == [] || s[0] == '/' then [] else [s[0]] + BeforeSlash(s[1..])
  }

  // ------------------------------------------------------------- parseInt

  predicate IsDecimalDigit(c: char) { '0' <= c <= '9' }

  predicate IsDigitIn(c: char, radix: nat)
  {
    if radix == 16 then IsDecimalDigit(c) || 'a' <= c <= 'f' || 'A' <= c <= 'F'
    else IsDecimalDigit(c)
  }

  function DigitValue(c: char): nat
  {
    if IsDecimalDigit(c) then c as nat - '0' as nat
    else if 'a' <= c <= 'f' then c as nat - 'a' as nat + 10
    else if 'A' <= c <= 'F' then c as nat - 'A' as nat + 10
    else 0
  }

  /** The longest prefix made of digits of the radix. */
  function LeadingDigits(s: string, radix: nat): (d: string)
    ensures d <= s
    ensures forall k :: 0 <= k < |d| ==> IsDigitIn(d[k], radix)
    ensures |d| < |s| ==> !IsDigitIn(s[|d|], radix)
  {
    if s != [] && IsDigitIn(s[0], radix) then [s[0]] + LeadingDigits(s[1..], radix) else []
  }

  /** The number a digit string denotes, read left to right. */
  function DigitsValue(d: string, radix: nat): nat
  {
    if d == [] then 0 else DigitsValue(d[..|d| - 1], radix) * radix + DigitValue(d[|d| - 1])
  }

  /** The radix and the rest of the text once an optional "0x"/"0X" is
      dropped. */
  function StripHexPrefix(s: string): (string, nat)
  {
    if |s| >= 2 && s[0] == '0' && (s[1] == 'x' || s[1] == 'X') then (s[2..], 16) else (s, 10)
  }

  /** `parseInt(s)`: skip leading white space, take an optional sign and an
      optional hex prefix, then the longest run of digits; no digit is NaN
      (None). */
  function ParseInt(s: string): Option<int>
  {
    var t := TrimStart(s);
    var negative := t != [] && t[0] == '-';
    var unsigned := if t != [] && (t[0] == '-' || t[0] == '+') then t[1..] else t;
    var (body, radix) := StripHexPrefix(unsigned);
    var digits := LeadingDigits(body, radix);
    if digits == [] then None
    else
      var v: int := DigitsValue(digits, radix);
      Some(if negative then 0 - v else v)
  }

  predicate HasNoDecimalDigit(s: string)
  {
    forall k :: 0 <= k < |s| ==> !IsDecimalDigit(s[k])
  }

  lemma NoDecimalDigitInSuffix(s: string, i: nat)
    requires HasNoDecimalDigit(s) && i <= |s|
    ensures HasNoDecimalDigit(s[i..])
  {
    forall k | 0 <= k < |s| - i ensures !IsDecimalDigit(s[i..][k]) {
      assert s[i..][k] == s[i + k];
    }
  }

  /** Text with no decimal digit anywhere is NaN: a hexadecimal number
      needs its "0x". */
  lemma ParseIntNeedsADigit(s: string)
    requires HasNoDecimalDigit(s)
    ensures ParseInt(s).None?
  {
    var t := TrimStart(s);
    NoDecimalDigitInSuffix(s, |s| - |t|);
    var unsigned := if t != [] && (t[0] == '-' || t[0] == '+') then t[1..] else t;
    if unsigned != t {
      NoDecimalDigitInSuffix(t, 1);
    }
    assert StripHexPrefix(unsigned) == (unsigned, 10);
  }

  /** Decimal representation of a natural number, without leading zeros. */
  function ShowNat(n: nat): (r: string)
    ensures r != []
    ensures forall k :: 0 <= k < |r| ==> IsDecimalDigit(r[k])
    ensures n >= 10 ==> r[0] != '0'
    ensures |r| >= 2 ==> r[0] != '0'
  {
    if n < 10 then [('0' as nat + n) as char]
    else ShowNat(n / 10) + [('0' as nat + n % 10) as char]
  }

  lemma {:induction false} ShowNatValue(n: nat)
    ensures DigitsValue(ShowNat(n), 10) == n
  {
    if n >= 10 {
      var s := ShowNat(n);
      assert s[..|s| - 1] == ShowNat(n / 10);
      ShowNatValue(n / 10);
    }
  }

  lemma {:induction false} LeadingDigitsOfDigits(d: string, rest: string, radix: nat)
    requires forall k :: 0 <= k < |d| ==> IsDigitIn(d[k], radix)
    requires rest == [] || !IsDigitIn(rest[0], radix)
    ensures LeadingDigits(d + rest, radix) == d
  {
    if d != [] {
      assert (d + rest)[1..] == d[1..] + rest;
      LeadingDigitsOfDigits(d[1..], rest, radix);
    }
  }

  /** Text that starts with a decimal digit and no hex prefix is read in
      base 10 from its first character. */
  lemma ParseIntOfDecimal(s: string)
    requires s != [] && IsDecimalDigit(s[0])
    requires !(|s| >= 2 && s[0] == '0' && (s[1] == 'x' || s[1] == 'X'))
    ensures ParseInt(s) == Some(DigitsValue(LeadingDigits(s, 10), 10))
  {
    assert !IsJsSpace(s[0]);
    assert TrimStart(s) == s;
    assert StripHexPrefix(s) == (s, 10);
  }

  /** A duration typed as digits, possibly followed by something that is not
      a digit nor the "x" of a hex prefix ("30", "30s"), parses to that
      number. */
  lemma ParseIntReadsLeadingNumber(n: nat, rest: string)
    requires rest == [] || (!IsDecimalDigit(rest[0]) && rest[0] != 'x' && rest[0] != 'X')
    ensures ParseInt(ShowNat(n) + rest) == Some(n)
  {
    var d := ShowNat(n);
    var s := d + rest;
    assert s[0] == d[0];
    if |d| == 1 {
      assert |s| >= 2 ==> s[1] == rest[0];
    } else {
      assert s[0] != '0';
    }
    ParseIntOfDecimal(s);
    LeadingDigitsOfDigits(d, rest, 10);
    ShowNatValue(n);
  }

  /** Text that starts with "0x" and a hex digit is read in base 16 from
      its third character. */
  lemma ParseIntOfHex(s: string)
    requires |s| >= 2 && s[0] == '0' && s[1] == 'x'
    requires LeadingDigits(s[2..], 16) != []
    ensures ParseInt(s) == Some(DigitsValue(LeadingDigits(s[2..], 16), 16))
  {
    assert !IsJsSpace(s[0]);
    assert TrimStart(s) == s;
    assert StripHexPrefix(s) == (s[2..], 16);
  }

  /** The hexadecimal digit of a value below 16, lower case. */
  function HexDigit(d: nat): (c: char)
    requires d < 16
    ensures IsDigitIn(c, 16) && DigitValue(c) == d
  {
    if d < 10 then ('0' as nat + d) as char else ('a' as nat + d - 10) as char
  }

  /** Hexadecimal representation of a natural number, without leading
      zeros. */
  function ShowHex(n: nat): (r: string)
    ensures r != []
    ensures forall k :: 0 <= k < |r| ==> IsDigitIn(r[k], 16)
  {
    if n < 16 then [HexDigit(n)] else ShowHex(n / 16) + [HexDigit(n % 16)]
  }

  lemma {:induction false} ShowHexValue(n: nat)
    ensures DigitsValue(ShowHex(n), 16) == n
  {
    if n >= 16 {
      var s := ShowHex(n);
      assert s[..|s| - 1] == ShowHex(n / 16);
      ShowHexValue(n / 16);
    }
  }

  /** parseInt also reads hexadecimal after "0x": the hex numeral of any n,
      followed by anything that is not a hex digit, parses to n. */
  lemma ParseIntReadsHex(n: nat, rest: string)
    requires rest == [] || !IsDigitIn(rest[0], 16)
    ensures ParseInt("0x" + ShowHex(n) + rest) == Some(n)
  {
    var h := ShowHex(n);
    var tail := h + rest;
    var s := "0x" + tail;
    assert "0x" + h + rest == s;
    assert s[2..] == tail;
    LeadingDigitsOfDigits(h, rest, 16);
    ParseIntOfHex(s);
    ShowHexValue(n);
  }

}
