/** C strings as sequences of characters: what the library calls of the program
    (`strstr`, `strchr`, `isspace`, `atoi`, `%d`) compute on them. */
module CString {

  datatype Option<+T> = None | Some(value: T)

  const NUL: char := '\0'

  ghost predicate NulFree(s: string) {
    forall i :: 0 <= i < |s| ==> s[i] != NUL
  }

  /** What a `char *` into memory holding `s` denotes: everything before the first NUL. */
  function CStr(s: string): (r: string)
    ensures r <= s && NulFree(r)
    ensures NulFree(s) ==> r == s
    ensures |r| < |s| ==> s[|r|] == NUL
  {
    if s == "" || s[0] == NUL then "" else [s[0]] + CStr(s[1..])
  }

  ghost predicate OccursAt(s: string, pat: string, i: nat) {
    i + |pat| <= |s| && s[i..i + |pat|] == pat
  }

  /** `strstr`: the first occurrence of `pat`. */
  function StrStr(s: string, pat: string): (r: Option<nat>)
    ensures r.Some? ==> OccursAt(s, pat, r.value)
    ensures r.Some? ==> forall j :: 0 <= j < r.value ==> !OccursAt(s, pat, j)
    ensures r.None? ==> forall j: nat :: !OccursAt(s, pat, j)
  {
    if |s| < |pat| then None
    else if s[..|pat|] == pat then assert OccursAt(s, pat, 0); Some(0)
    else
      OccursLater(s, pat);
      match StrStr(s[1..], pat)
      case None => None
      case Some(k) => Some(k + 1)
  }

  lemma OccursLater(s: string, pat: string)
    requires 0 < |s|
    ensures forall j: nat :: 0 < j ==> (OccursAt(s, pat, j) <==> OccursAt(s[1..], pat, j - 1))
  {
    forall j: nat | 0 < j
      ensures OccursAt(s, pat, j) <==> OccursAt(s[1..], pat, j - 1)
    {
      var t := s[1..];
      if j + |pat| <= |s| {
        assert t[j - 1..j - 1 + |pat|] == s[j..j + |pat|];
      }
    }
  }

  lemma StrStrAt(s: string, pat: string, k: nat)
    requires OccursAt(s, pat, k)
    requires forall j :: 0 <= j < k ==> !OccursAt(s, pat, j)
    ensures StrStr(s, pat) == Some(k)
  {
  }

  lemma OccursFirst(s: string, pat: string, i: nat)
    requires pat != "" && i < |s| && s[i] != pat[0]
    ensures !OccursAt(s, pat, i)
  {
    if i + |pat| <= |s| {
      assert s[i..i + |pat|][0] == s[i];
    }
  }

  /** `strchr` for a character other than NUL. */
  function StrChr(s: string, c: char): (r: Option<nat>)
    ensures r.Some? ==> r.value < |s| && s[r.value] == c && c !in s[..r.value]
    ensures r.None? ==> c !in s
  {
    if s == "" then None
    else if s[0] == c then Some(0)
    else match StrChr(s[1..], c)
      case None => None
      case Some(k) => Some(k + 1)
  }

  lemma StrChrAt(pre: string, c: char, post: string)
    requires c !in pre
    ensures StrChr(pre + [c] + post, c) == Some(|pre|)
  {
    if pre == "" {
    } else {
      assert (pre + [c] + post)[1..] == pre[1..] + [c] + post;
      StrChrAt(pre[1..], c, post);
    }
  }

  /** `isspace` in the C locale. */
  predicate IsSpace(c: char) {
    c == ' ' || '\t' <= c <= '\r'
  }

  predicate IsDigit(c: char) {
    '0' <= c <= '9'
  }

  /** The text after its leading white space. */
  function SkipSpace(s: string): (r: string)
    ensures |r| <= |s|
    ensures r != "" ==> !IsSpace(r[0])
  {
    if s != "" && IsSpace(s[0]) then SkipSpace(s[1..]) else s
  }

  /** The value of the leading digits of `s`, continuing from `acc`. */
  function DigitsValue(s: string, acc: nat): nat {
    if s == "" || !IsDigit(s[0]) then acc
    else DigitsValue(s[1..], acc * 10 + (s[0] as int - '0' as int))
  }

  /** The `int` of the target machine. */
  type CInt = x: int | -0x8000_0000 <= x < 0x8000_0000

  /** A number as `strtol` and a conversion to `int` leave it: cut to 64 bits, then wrapped to 32. */
  function ToInt(x: int): (r: CInt)
    ensures -0x8000_0000 <= x < 0x8000_0000 ==> r == x
  {
    var long := if x < -0x8000_0000_0000_0000 then -0x8000_0000_0000_0000
                else if x > 0x7FFF_FFFF_FFFF_FFFF then 0x7FFF_FFFF_FFFF_FFFF else x;
    (long + 0x8000_0000) % 0x1_0000_0000 - 0x8000_0000
  }

  /** `atoi`. */
  function Atoi(s: string): CInt {
    var t := SkipSpace(s);
    ToInt(if t == "" then 0
          else if t[0] == '-' then -(DigitsValue(t[1..], 0) as int)
          else if t[0] == '+' then DigitsValue(t[1..], 0)
          else DigitsValue(t, 0))
  }

  /** `%u`. */
  function Digits(n: nat): (s: string)
    ensures s != "" && forall i :: 0 <= i < |s| ==> IsDigit(s[i])
  {
    var last := ['0' + (n % 10) as char];
    if n < 10 then last else Digits(n / 10) + last
  }

  /** `%d`. */
  function Decimal(n: int): string {
    if n < 0 then "-" + Digits(-n) else Digits(n)
  }

  lemma {:induction false} DigitsValueAppend(s: string, d: char, acc: nat)
    requires forall i :: 0 <= i < |s| ==> IsDigit(s[i])
    requires IsDigit(d)
    ensures DigitsValue(s + [d], acc) == DigitsValue(s, acc) * 10 + (d as int - '0' as int)
  {
    if s == "" {
      assert DigitsValue([d][1..], acc * 10 + (d as int - '0' as int)) == acc * 10 + (d as int - '0' as int);
    } else {
      assert (s + [d])[1..] == s[1..] + [d];
      DigitsValueAppend(s[1..], d, acc * 10 + (s[0] as int - '0' as int));
    }
  }

  lemma {:induction false} DigitsRoundTrip(n: nat)
    ensures DigitsValue(Digits(n), 0) == n
  {
    var d := '0' + (n % 10) as char;
    if n < 10 {
      assert DigitsValue([d][1..], n) == n;
    } else {
      DigitsRoundTrip(n / 10);
      DigitsValueAppend(Digits(n / 10), d, 0);
    }
  }

  lemma AtoiDigits(t: string)
    requires t != "" && IsDigit(t[0])
    ensures Atoi(t) == ToInt(DigitsValue(t, 0))
    ensures Atoi("-" + t) == ToInt(-(DigitsValue(t, 0) as int))
  {
    assert SkipSpace(t) == t;
    var u := "-" + t;
    assert u[0] == '-' && u[1..] == t;
    assert SkipSpace(u) == u;
  }

  /** `atoi` reads back what `%d` printed. */
  lemma AtoiDecimal(n: CInt)
    ensures Atoi(Decimal(n)) == n
  {
    var t := Digits(if n < 0 then -(n as int) else n);
    assert t[0] in t;
    AtoiDigits(t);
    DigitsRoundTrip(if n < 0 then -(n as int) else n);
  }

  lemma DecimalPlain(n: CInt)
    ensures 0 < |Decimal(n)| <= 11
    ensures forall c :: c in Decimal(n) ==> c == '-' || IsDigit(c)
  {
    assert Pow10(5) == 100_000 && Pow10(10) == 10_000_000_000;
    DigitsLength(if n < 0 then -(n as int) else n, 10);
  }

  function Pow10(k: nat): nat {
    if k == 0 then 1 else 10 * Pow10(k - 1)
  }

  lemma {:induction false} DigitsLength(n: nat, k: nat)
    requires n < Pow10(k) && k > 0
    ensures |Digits(n)| <= k
  {
    if n >= 10 {
      DigitsLength(n / 10, k - 1);
    }
  }

  // ---------- the C library, in plain terms ----------

  lemma SpacesAre(c: char)
    ensures IsSpace(c) <==> c == ' ' || 9 <= c as int <= 13
  {
  }

  /** Decimal digits, most significant first. */
  lemma DecimalIs(q: nat, r: nat)
    requires r < 10
    ensures Digits(r) == ["0123456789"[r]]
    ensures q > 0 ==> Digits(10 * q + r) == Digits(q) + ["0123456789"[r]]
    ensures Decimal(q) == Digits(q) && (q > 0 ==> Decimal(-(q as int)) == "-" + Digits(q))
  {
    assert (10 * q + r) / 10 == q && (10 * q + r) % 10 == r;
    assert '0' + r as char == "0123456789"[r];
  }

  lemma {:induction false} DigitsValueStops(s: string, rest: string, acc: nat)
    requires forall i :: 0 <= i < |s| ==> IsDigit(s[i])
    requires rest == "" || !IsDigit(rest[0])
    ensures DigitsValue(s + rest, acc) == DigitsValue(s, acc)
  {
    if s == "" {
      assert s + rest == rest;
    } else {
      assert (s + rest)[1..] == s[1..] + rest;
      DigitsValueStops(s[1..], rest, acc * 10 + (s[0] as int - '0' as int));
    }
  }

  lemma {:induction false} SkipAll(blanks: string, s: string)
    requires forall i :: 0 <= i < |blanks| ==> IsSpace(blanks[i])
    requires s == "" || !IsSpace(s[0])
    ensures SkipSpace(blanks + s) == s
  {
    if blanks == "" {
      assert blanks + s == s;
    } else {
      assert (blanks + s)[1..] == blanks[1..] + s;
      SkipAll(blanks[1..], s);
    }
  }

  /** `atoi` skips white space, takes one sign and then digits; the value is an int of the GNU
      library: beyond 32 bits it wraps, beyond 64 it is the last `long`, which ends in 32 ones. */
  lemma AtoiIs(blanks: string, n: nat, rest: string)
    requires forall i :: 0 <= i < |blanks| ==> blanks[i] == ' ' || 9 <= blanks[i] as int <= 13
    requires rest == "" || !('0' <= rest[0] <= '9')
    ensures Atoi(blanks + (Digits(n) + rest)) == Atoi(blanks + ("+" + Digits(n) + rest))
    ensures n < 0x8000_0000 ==> Atoi(blanks + (Digits(n) + rest)) == n
    ensures n <= 0x8000_0000 ==> Atoi(blanks + ("-" + Digits(n) + rest)) == -(n as int)
    ensures 0x8000_0000 <= n < 0x1_0000_0000 ==> Atoi(blanks + (Digits(n) + rest)) == n - 0x1_0000_0000
    ensures n >= 0x7FFF_FFFF_FFFF_FFFF ==> Atoi(blanks + (Digits(n) + rest)) == -1
    ensures n >= 0x8000_0000_0000_0000 ==> Atoi(blanks + ("-" + Digits(n) + rest)) == 0
  {
    hide Atoi, ToInt;
    AtoiParts(blanks, n, rest);
    ToIntIs(n);
  }

  lemma AtoiParts(blanks: string, n: nat, rest: string)
    requires forall i :: 0 <= i < |blanks| ==> IsSpace(blanks[i])
    requires rest == "" || !IsDigit(rest[0])
    ensures Atoi(blanks + (Digits(n) + rest)) == Atoi(blanks + ("+" + Digits(n) + rest)) == ToInt(n)
    ensures Atoi(blanks + ("-" + Digits(n) + rest)) == ToInt(-(n as int))
  {
    hide ToInt, Digits;
    var d := Digits(n);
    assert d[0] in d && IsDigit(d[0]);
    SkipAll(blanks, d + rest);
    SkipAll(blanks, "+" + d + rest);
    SkipAll(blanks, "-" + d + rest);
    assert ("+" + d + rest)[1..] == d + rest && ("-" + d + rest)[1..] == d + rest;
    DigitsRoundTrip(n);
    DigitsValueStops(d, rest, 0);
  }

  lemma ToIntIs(n: nat)
    ensures n < 0x8000_0000 ==> ToInt(n) == n
    ensures n <= 0x8000_0000 ==> ToInt(-(n as int)) == -(n as int)
    ensures 0x8000_0000 <= n < 0x1_0000_0000 ==> ToInt(n) == n - 0x1_0000_0000
    ensures n >= 0x7FFF_FFFF_FFFF_FFFF ==> ToInt(n) == -1
    ensures n >= 0x8000_0000_0000_0000 ==> ToInt(-(n as int)) == 0
  {
  }

  /** Without digits it is zero. */
  lemma AtoiOfNoNumber(blanks: string, rest: string)
    requires forall i :: 0 <= i < |blanks| ==> blanks[i] == ' ' || 9 <= blanks[i] as int <= 13
    requires rest == "" || !('0' <= rest[0] <= '9' || rest[0] == '-' || rest[0] == '+' || IsSpace(rest[0]))
    ensures Atoi(blanks + rest) == 0
  {
    SkipAll(blanks, rest);
  }
}
