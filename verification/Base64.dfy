/** The base64 codec of the program against RFC 4648, section 4. Bits are handled as
    arithmetic: a shift by n is a multiplication or division by 2^n, a mask a remainder,
    and `|` with operands that share no bit an addition. */
module Base64 {
  import opened CString

  type Byte = c: char | c as int < 256 witness 'a'

  const WORD32: nat := 0x1_0000_0000

  // ---------- the alphabet ----------

  /** The encoding table. */
  function Letter(v: nat): (c: char)
    requires v < 64
  {
    if v < 26 then 'A' + v as char
    else if v < 52 then 'a' + (v - 26) as char
    else if v < 62 then '0' + (v - 52) as char
    else if v == 62 then '+' else '/'
  }

  /** The decoding table: 0x80 marks a character outside the alphabet, and `=` counts as zero. */
  function Value(c: char): (v: nat)
    ensures v < 64 || v == 0x80
  {
    if 'A' <= c <= 'Z' then c as int - 'A' as int
    else if 'a' <= c <= 'z' then c as int - 'a' as int + 26
    else if '0' <= c <= '9' then c as int - '0' as int + 52
    else if c == '+' then 62
    else if c == '/' then 63
    else if c == '=' then 0
    else 0x80
  }

  lemma LetterValue(v: nat)
    requires v < 64
    ensures Value(Letter(v)) == v && Letter(v) != '='
  {
  }

  // ---------- the standard ----------

  /** The three bytes of a group as one 24-bit number, and its four sextets. */
  function Triple(a: Byte, b: Byte, c: Byte): (t: nat)
    ensures t < 0x100_0000
  {
    a as int * 0x1_0000 + b as int * 0x100 + c as int
  }

  function Sextet(triple: nat, k: nat): (v: nat)
    requires triple < 0x100_0000 && k < 4
    ensures v < 64
  {
    if k == 0 then triple / 0x4_0000 % 64
    else if k == 1 then triple / 0x1000 % 64
    else if k == 2 then triple / 64 % 64
    else triple % 64
  }

  function Group(a: Byte, b: Byte, c: Byte): (g: string)
    ensures |g| == 4
  {
    var t := Triple(a, b, c);
    [Letter(Sextet(t, 0)), Letter(Sextet(t, 1)), Letter(Sextet(t, 2)), Letter(Sextet(t, 3))]
  }

  /** The encoding of RFC 4648, section 4: the last group is padded with `=`. */
  function Rfc4648(x: seq<Byte>): string {
    if x == [] then ""
    else if |x| == 1 then Group(x[0], NUL, NUL)[..2] + "=="
    else if |x| == 2 then Group(x[0], x[1], NUL)[..3] + "="
    else Group(x[0], x[1], x[2]) + Rfc4648(x[3..])
  }

  /** `x` followed by zero bytes up to the next multiple of three. */
  function ZeroExtended(x: seq<Byte>): (r: seq<Byte>)
    ensures |r| % 3 == 0
  {
    if |x| % 3 == 0 then x else if |x| % 3 == 1 then x + [NUL, NUL] else x + [NUL]
  }

  lemma {:induction false} RfcLength(x: seq<Byte>)
    ensures |Rfc4648(x)| == 4 * ((|x| + 2) / 3)
  {
    hide Group;
    if |x| >= 3 {
      RfcLength(x[3..]);
    }
  }

  lemma {:induction false} RfcAppend(x: seq<Byte>, y: seq<Byte>)
    requires |x| % 3 == 0
    ensures Rfc4648(x + y) == Rfc4648(x) + Rfc4648(y)
  {
    hide Group;
    if x == [] {
      assert x + y == y;
    } else {
      RfcAppend(x[3..], y);
      assert (x + y)[3..] == x[3..] + y;
    }
  }

  // ---------- base64_encode ----------

  /** The encoder extends its input with zero bytes and never writes `=`. */
  method Encode(input: seq<Byte>) returns (output: array<char>)
    ensures fresh(output)
    ensures output[..] == Rfc4648(ZeroExtended(input)) + [NUL]
  {
    var len := |input|;
    hide Rfc4648, ZeroExtended, Group;
    EncodeNothing();
    var outputLen := 4 * ((len + 2) / 3);
    output := new char[outputLen + 1];
    var i, j := 0, 0;
    ghost var groups := 0;
    while i < len
      invariant i <= len && i <= 3 * groups < len + 3 && j == 4 * groups
      invariant i < len ==> i == 3 * groups
      invariant output[..j] == Rfc4648(ZeroExtended(input[..i]))
    {
      ghost var start := i;
      var a, b, c;
      a, i := NextOctet(input, i);
      b, i := NextOctet(input, i);
      c, i := NextOctet(input, i);
      WriteGroup(output, j, a, b, c, i, len);
      GroupAppended(input, start, i);
      j := j + 4;
      groups := groups + 1;
    }
    assert input[..i] == input;
    output[outputLen] := NUL;
    assert output[..] == output[..j] + [NUL];
  }

  lemma EncodeNothing()
    ensures Rfc4648(ZeroExtended([])) == ""
  {
  }

  /** The four output characters of one turn of the loop; `i` never exceeds `len`. */
  method WriteGroup(output: array<char>, j: nat, a: Byte, b: Byte, c: Byte, i: nat, len: nat)
    requires j + 4 <= output.Length && i <= len
    modifies output
    ensures output[..j + 4] == old(output[..j]) + Group(a, b, c)
  {
    var triple := Triple(a, b, c);
    output[j] := Letter(Sextet(triple, 0));
    output[j + 1] := Letter(Sextet(triple, 1));
    output[j + 2] := if i > len + 1 then '=' else Letter(Sextet(triple, 2));
    output[j + 3] := if i > len then '=' else Letter(Sextet(triple, 3));
  }

  /** `i < len ? input[i++] : 0`. */
  method NextOctet(input: seq<Byte>, i: nat) returns (octet: Byte, i': nat)
    ensures octet == ByteAt(input, i) && i' == if i < |input| then i + 1 else i
  {
    if i < |input| {
      return input[i], i + 1;
    }
    return NUL, i;
  }

  /** `input[i]`, or zero past the end. */
  function ByteAt(x: seq<Byte>, i: nat): Byte {
    if i < |x| then x[i] else NUL
  }

  lemma GroupAppended(x: seq<Byte>, i: nat, i': nat)
    requires i % 3 == 0 && i < |x| && i' <= |x| && (i' == i + 3 || i' == |x| < i + 3)
    ensures Rfc4648(ZeroExtended(x[..i']))
         == Rfc4648(ZeroExtended(x[..i])) + Group(ByteAt(x, i), ByteAt(x, i + 1), ByteAt(x, i + 2))
  {
    var g := [ByteAt(x, i), ByteAt(x, i + 1), ByteAt(x, i + 2)];
    ZeroExtension(x[..i']);
    assert ZeroExtended(x[..i']) == x[..i] + g;
    RfcAppend(x[..i], g);
    assert g[3..] == [];
  }

  lemma ZeroExtension(x: seq<Byte>)
    ensures |x| <= |ZeroExtended(x)| <= |x| + 2
    ensures forall i :: 0 <= i < |ZeroExtended(x)| ==> ZeroExtended(x)[i] == ByteAt(x, i)
  {
  }

  /** What the program writes is the standard's encoding exactly when three divides the length. */
  lemma {:induction false} EncodeIsRfc4648(x: seq<Byte>)
    ensures Rfc4648(ZeroExtended(x)) == Rfc4648(x) <==> |x| % 3 == 0
  {
    var z := ZeroExtended(x);
    if |x| == 1 || |x| == 2 {
      assert z[3..] == [];
      LetterValue(Sextet(Triple(z[0], z[1], z[2]), 3));
      assert Rfc4648(x)[3] == '=' != Rfc4648(z)[3];
    } else if |x| >= 3 {
      assert z[3..] == ZeroExtended(x[3..]);
      EncodeIsRfc4648(x[3..]);
      assert Rfc4648(z)[4..] == Rfc4648(z[3..]);
      assert Rfc4648(x)[4..] == Rfc4648(x[3..]);
    }
  }

  // ---------- base64_decode ----------

  /** The sextets of `s` as one exact number: the accumulator if it never wrapped. */
  ghost function Exact(s: string): nat {
    if s == "" then 0 else Exact(s[..|s| - 1]) * 64 + Value(s[|s| - 1])
  }

  /** Byte `j` of the sextet stream, its bits 8j to 8j + 7, is complete after `Chars(j)`
      sextets, and `Shift(j)` further bits then wait for the next byte. */
  ghost function Chars(j: nat): nat {
    (4 * j + 6) / 3
  }

  ghost function Shift(j: nat): nat {
    4 - 2 * (j % 3)
  }

  ghost function Emitted(s: string, j: nat): Byte
    requires Chars(j) <= |s|
  {
    Low8(Exact(s[..Chars(j)]), Shift(j))
  }

  ghost predicate Decodable(s: string) {
    |s| % 4 == 0 && forall i :: 0 <= i < |s| ==> Value(s[i]) < 64
  }

  function Padding(s: string): (p: nat)
    ensures p <= 2 && (s == "" ==> p == 0)
  {
    if |s| < 2 then 0
    else (if s[|s| - 1] == '=' then 1 else 0) + (if s[|s| - 2] == '=' then 1 else 0)
  }

  ghost function Decoded(s: string): Option<seq<Byte>> {
    if !Decodable(s) then None
    else Some(seq(|s| / 4 * 3 - Padding(s), j requires 0 <= j && Chars(j) <= |s| => Emitted(s, j)))
  }

  /** The 32-bit accumulator is the exact one modulo 2^32; the bits it lost are never emitted. */
  lemma WrapLosesNothing(e: nat)
    ensures e % WORD32 % 256 == e % 256
    ensures e % WORD32 / 4 % 256 == e / 4 % 256
    ensures e % WORD32 / 16 % 256 == e / 16 % 256
  {
    var q, r := e / WORD32, e % WORD32;
    AddMultipleOf256(r, q * 0x100_0000);
    assert e / 4 == q * 0x4000_0000 + r / 4;
    AddMultipleOf256(r / 4, q * 0x40_0000);
    assert e / 16 == q * 0x1000_0000 + r / 16;
    AddMultipleOf256(r / 16, q * 0x10_0000);
  }

  lemma AddMultipleOf256(r: nat, q: nat)
    ensures (256 * q + r) % 256 == r % 256
  {
  }

  lemma WrapStep(e: nat, v: nat)
    requires v < 64
    ensures e % WORD32 * 64 % WORD32 + v == (e * 64 + v) % WORD32
  {
  }

  /** The size of the program's own buffer: `decoded_len + 1`. */
  function Allocated(s: string): nat
    requires |s| % 4 == 0
  {
    |s| / 4 * 3 + 1 - Padding(s)
  }

  lemma AllocatedIs(s: string)
    requires |s| % 4 == 0
    ensures Allocated(s) == |s| / 4 * 3 + 1 - Padding(s)
  {
  }

  /** The array has room for every byte the loop writes: of a decodable text that ends in two
      `=`, and of no other, that is more than the program allocates. Only the first
      `decodedLen` bytes are the result. */
  method Decode(input: string) returns (r: Option<seq<Byte>>, ghost written: nat)
    ensures r == Decoded(input)
    ensures |input| % 4 == 0 ==> (written > Allocated(input) <==> r.Some? && Padding(input) == 2)
  {
    hide *;
    written := 0;
    var len := |input|;
    if len % 4 != 0 {
      BadLength(input);
      return None, written;
    }
    AllocatedIs(input);
    var decodedLen := len / 4 * 3 - Padding(input);
    var decoded := new Byte[len / 4 * 3 + 1](_ => '\0');
    ExactEmpty();
    var j, accumulator, bits := 0, 0, 0;
    for i := 0 to len
      invariant 8 * j <= 6 * i < 8 * j + 8 && bits == 6 * i - 8 * j && written == j
      invariant accumulator == Wrapped(Exact(input[..i]))
      invariant forall k :: 0 <= k < i ==> Value(input[k]) < 64
      invariant forall k :: 0 <= k < j ==> Chars(k) <= i && decoded[k] == Emitted(input, k)
    {
      var val := Value(input[i]);
      if val >= 0x80 {
        NotDecodable(input, i);
        return None, written;
      }
      ExactStep(input, i);
      accumulator := Push6(accumulator, val);
      bits := bits + 6;
      if bits >= 8 {
        bits := bits - 8;
        ByteComplete(input, i, j, bits, accumulator);
        decoded[j] := Low8(accumulator, bits);
        j := j + 1;
        written := j;
      }
    }
    decoded[decodedLen] := '\0';
    r := Some(decoded[..decodedLen]);
    DecodedIs(input, decoded[..decodedLen]);
  }

  /** What 32 bits keep of a number. */
  function Wrapped(n: nat): nat {
    n % WORD32
  }

  /** `(accumulator << 6) | val`. */
  function Push6(accumulator: nat, val: nat): nat {
    Wrapped(accumulator * 64) + val
  }

  /** `(accumulator >> bits) & 0xFF` for the shifts that occur. */
  function Low8(accumulator: nat, bits: nat): Byte {
    ((if bits == 4 then accumulator / 16 else if bits == 2 then accumulator / 4 else accumulator) % 256) as char
  }

  lemma NotDecodable(s: string, i: nat)
    requires i < |s| && Value(s[i]) >= 64
    ensures Decoded(s) == None
  {
  }

  lemma BadLength(s: string)
    requires |s| % 4 != 0
    ensures Decoded(s) == None
  {
  }

  lemma DecodedIs(s: string, x: seq<Byte>)
    requires |s| % 4 == 0 && forall i :: 0 <= i < |s| ==> Value(s[i]) < 64
    requires |x| == |s| / 4 * 3 - Padding(s)
    requires forall j :: 0 <= j < |x| ==> Chars(j) <= |s| && x[j] == Emitted(s, j)
    ensures Decoded(s) == Some(x)
  {
    assert x == Decoded(s).value;
  }

  lemma ExactEmpty()
    ensures Wrapped(Exact("")) == 0 == Exact("")
  {
  }

  lemma ExactStep(s: string, i: nat)
    requires i < |s| && Value(s[i]) < 64
    ensures Push6(Wrapped(Exact(s[..i])), Value(s[i])) == Wrapped(Exact(s[..i + 1]))
  {
    assert s[..i + 1][..i] == s[..i];
    WrapStep(Exact(s[..i]), Value(s[i]));
  }

  lemma ByteComplete(s: string, i: nat, j: nat, bits: nat, accumulator: nat)
    requires i < |s| && 6 * i < 8 * j + 8 && bits == 6 * (i + 1) - 8 * (j + 1)
    requires accumulator == Wrapped(Exact(s[..i + 1]))
    ensures Chars(j) == i + 1 && Low8(accumulator, bits) == Emitted(s, j)
  {
    WrapLosesNothing(Exact(s[..i + 1]));
    assert bits == 4 ==> j % 3 == 0;
    assert bits == 2 ==> j % 3 == 1;
    assert bits == 0 ==> j % 3 == 2;
  }

  // ---------- round trips ----------

  ghost function Pow64(m: nat): nat {
    if m == 0 then 1 else 64 * Pow64(m - 1)
  }

  lemma Regroup(e: nat, p: nat, w: nat, v: nat)
    ensures (e * p + w) * 64 + v == e * (64 * p) + (w * 64 + v)
  {
  }

  lemma SplitNothing(s: string, n: nat)
    requires n <= |s|
    ensures Exact(s[..n]) == Exact(s[..n]) * Pow64(0) + Exact(s[n..n])
  {
  }

  lemma PowStep(m: nat)
    requires m > 0
    ensures Pow64(m) == 64 * Pow64(m - 1)
  {
  }

  lemma {:induction false} ExactSplit(s: string, n: nat, m: nat)
    requires n + m <= |s|
    ensures Exact(s[..n + m]) == Exact(s[..n]) * Pow64(m) + Exact(s[n..n + m])
  {
    hide *;
    if m == 0 {
      SplitNothing(s, n);
    } else {
      ExactSplit(s, n, m - 1);
      ExactLast(s, n + m - 1);
      ExactLast(s[n..], m - 1);
      assert s[n..][..m] == s[n..n + m] && s[n..][..m - 1] == s[n..n + m - 1];
      Regroup(Exact(s[..n]), Pow64(m - 1), Exact(s[n..n + m - 1]), Value(s[n + m - 1]));
      PowStep(m);
    }
  }

  lemma ExactLast(s: string, i: nat)
    requires i < |s|
    ensures Exact(s[..i + 1]) == Exact(s[..i]) * 64 + Value(s[i])
  {
    assert s[..i + 1][..i] == s[..i];
  }

  /** A byte is made of the sextets of its own group only. */
  lemma EmittedIsLocal(s: string, q: nat, k: nat)
    requires 4 * q + 4 <= |s| && k < 3
    ensures Chars(3 * q + k) <= |s| && Chars(k) <= 4
    ensures Emitted(s, 3 * q + k) == Emitted(s[4 * q..4 * q + 4], k)
  {
    hide Exact, Value, Pow64, Low8, Chars, Shift;
    Position(q, k);
    Position(0, k);
    ExactSplit(s, 4 * q, k + 2);
    var quad := s[4 * q..4 * q + 4];
    assert s[4 * q..4 * q + k + 2] == quad[..k + 2];
    HighSextets(Exact(s[..4 * q]), k, Exact(quad[..k + 2]));
  }

  lemma Position(q: nat, k: nat)
    requires k < 3
    ensures Chars(3 * q + k) == 4 * q + k + 2 && Shift(3 * q + k) == 4 - 2 * k
  {
    if k == 0 {
    } else if k == 1 {
    } else {
    }
  }

  lemma HighSextets(e: nat, k: nat, w: nat)
    requires k < 3
    ensures Low8(e * Pow64(k + 2) + w, 4 - 2 * k) == Low8(w, 4 - 2 * k)
  {
    assert Pow64(0) == 1;
    assert Pow64(2) == 0x1000;
    if k == 0 {
      assert (e * 0x1000 + w) / 16 == e * 0x100 + w / 16;
      AddMultipleOf256(w / 16, e);
    } else if k == 1 {
      assert (e * 0x4_0000 + w) / 4 == e * 0x1_0000 + w / 4;
      AddMultipleOf256(w / 4, e * 0x100);
    } else {
      AddMultipleOf256(w, e * 0x1_0000);
    }
  }

  /** The sextets of a group in terms of its bytes. */
  lemma TripleSextets(x: Byte, y: Byte, z: Byte)
    ensures var t, X, Y, Z := Triple(x, y, z), x as int, y as int, z as int;
            && Sextet(t, 0) == X / 4
            && Sextet(t, 1) == X % 4 * 16 + Y / 16
            && Sextet(t, 2) == Y % 16 * 4 + Z / 64
            && Sextet(t, 3) == Z % 64
  {
    SextetParts(x as int, y as int, z as int);
  }

  lemma SextetParts(X: nat, Y: nat, Z: nat)
    requires X < 256 && Y < 256 && Z < 256
    ensures var t := X * 0x1_0000 + Y * 0x100 + Z;
            && t / 0x4_0000 % 64 == X / 4
            && t / 0x1000 % 64 == X % 4 * 16 + Y / 16
            && t / 64 % 64 == Y % 16 * 4 + Z / 64
            && t % 64 == Z % 64
  {
    FirstSextet(X, Y * 0x100 + Z);
    SecondSextet(X, Y, Z);
    ThirdSextet(X * 16 + Y / 16, Y % 16, Z);
    LastSextet(X * 0x400 + Y * 4, Z);
    assert X * 0x1_0000 + Y * 0x100 == (X * 16 + Y / 16) * 0x1000 + Y % 16 * 0x100;
  }

  lemma FirstSextet(X: nat, low: nat)
    requires X < 256 && low < 0x1_0000
    ensures (X * 0x1_0000 + low) / 0x4_0000 % 64 == X / 4
  {
    assert X * 0x1_0000 + low == X / 4 * 0x4_0000 + (X % 4 * 0x1_0000 + low);
  }

  lemma SecondSextet(X: nat, Y: nat, Z: nat)
    requires Y < 256 && Z < 256
    ensures (X * 0x1_0000 + Y * 0x100 + Z) / 0x1000 % 64 == X % 4 * 16 + Y / 16
  {
    assert X * 0x1_0000 + Y * 0x100 + Z == (X / 4 * 64 + (X % 4 * 16 + Y / 16)) * 0x1000 + (Y % 16 * 0x100 + Z);
  }

  lemma ThirdSextet(high: nat, y: nat, Z: nat)
    requires y < 16 && Z < 256
    ensures (high * 0x1000 + y * 0x100 + Z) / 64 % 64 == y * 4 + Z / 64
  {
    var w := y * 4 + Z / 64;
    DivideBy64(high * 64 + w, Z % 64);
    assert high * 0x1000 + y * 0x100 + Z == (high * 64 + w) * 64 + Z % 64;
    DivideBy64(high, w);
  }

  lemma LastSextet(m: nat, Z: nat)
    ensures (m * 64 + Z) % 64 == Z % 64
  {
    DivideBy64(m + Z / 64, Z % 64);
    assert m * 64 + Z == (m + Z / 64) * 64 + Z % 64;
  }

  lemma DivideBy64(m: nat, r: nat)
    requires r < 64
    ensures (m * 64 + r) / 64 == m && (m * 64 + r) % 64 == r
  {
  }

  /** Four characters with the sextets of a group give back its bytes. */
  lemma GroupBytes(quad: string, x: Byte, y: Byte, z: Byte, k: nat)
    requires k < 3 && |quad| == 4
    requires forall m :: 0 <= m < 4 ==> Value(quad[m]) == Sextet(Triple(x, y, z), m)
    ensures Chars(k) <= 4 && Emitted(quad, k) == [x, y, z][k]
  {
    hide Exact, Sextet, Value, Chars, Shift;
    TripleSextets(x, y, z);
    Position(0, k);
    ExactLast(quad, 0);
    ExactLast(quad, 1);
    ExactLast(quad, 2);
    ExactLast(quad, 3);
    ExactEmpty();
    BytesOfSextets(x as int, y as int, z as int);
  }

  lemma BytesOfSextets(X: nat, Y: nat, Z: nat)
    requires X < 256 && Y < 256 && Z < 256
    ensures var a, b, c, d := X / 4, X % 4 * 16 + Y / 16, Y % 16 * 4 + Z / 64, Z % 64;
            && (a * 64 + b) / 16 % 256 == X
            && ((a * 64 + b) * 64 + c) / 4 % 256 == Y
            && (((a * 64 + b) * 64 + c) * 64 + d) % 256 == Z
  {
    var a, b, c, d := X / 4, X % 4 * 16 + Y / 16, Y % 16 * 4 + Z / 64, Z % 64;
    assert a * 64 + b == X * 16 + Y / 16;
    assert (a * 64 + b) * 64 + c == X * 0x400 + Y * 4 + Z / 64;
    assert ((a * 64 + b) * 64 + c) / 4 == X * 0x100 + Y;
    assert ((a * 64 + b) * 64 + c) * 64 + d == X * 0x1_0000 + Y * 0x100 + Z;
  }

  lemma RfcFirst(x: seq<Byte>, k: nat)
    requires x != [] && k < 4
    ensures 4 <= |Rfc4648(x)|
    ensures Value(Rfc4648(x)[k]) == Sextet(Triple(x[0], ByteAt(x, 1), ByteAt(x, 2)), k)
    ensures Rfc4648(x)[k] == '=' <==> k > |x|
  {
    hide Letter, Value, Sextet;
    var t := Triple(x[0], ByteAt(x, 1), ByteAt(x, 2));
    LetterValue(Sextet(t, k));
    if k > |x| {
      TripleSextets(x[0], ByteAt(x, 1), ByteAt(x, 2));
      EqualsSign();
    }
    assert Rfc4648(x)[k] == if k > |x| then '=' else Letter(Sextet(t, k));
  }

  lemma EqualsSign()
    ensures Value('=') == 0
  {
  }

  lemma RfcRest(x: seq<Byte>)
    requires |x| >= 3
    ensures Rfc4648(x)[4..] == Rfc4648(x[3..])
  {
    hide Group;
  }

  /** The sextet that position `k` of group `q` of the encoding stands for; `=` stands for zero. */
  lemma {:induction false} RfcSextet(x: seq<Byte>, q: nat, k: nat)
    requires 3 * q < |x| && k < 4
    ensures 4 * q + k < |Rfc4648(x)|
    ensures Value(Rfc4648(x)[4 * q + k]) == Sextet(Triple(ByteAt(x, 3 * q), ByteAt(x, 3 * q + 1), ByteAt(x, 3 * q + 2)), k)
  {
    hide Rfc4648, Value, Sextet, Triple;
    RfcLength(x);
    if q == 0 {
      RfcFirst(x, k);
    } else {
      RfcSextet(x[3..], q - 1, k);
      RfcRest(x);
      assert Rfc4648(x)[4 * q + k] == Rfc4648(x[3..])[4 * (q - 1) + k];
    }
  }

  lemma PaddingAtTheEnd(s: string)
    requires |s| >= 6
    ensures Padding(s) == Padding(s[4..])
  {
  }

  lemma {:induction false} RfcPadding(x: seq<Byte>)
    ensures 3 * |Rfc4648(x)| == 4 * (|x| + Padding(Rfc4648(x)))
  {
    hide Group, Value, Sextet;
    if x == [] {
    } else if |x| <= 3 {
      RfcFirst(x, 2);
      RfcFirst(x, 3);
      assert |Rfc4648(x)| == 4;
    } else {
      RfcPadding(x[3..]);
      RfcRest(x);
      RfcLength(x);
      PaddingAtTheEnd(Rfc4648(x));
      hide Rfc4648, Padding;
      assert |Rfc4648(x)| == 4 + |Rfc4648(x[3..])|;
    }
  }

  /** The decoder inverts the standard's encoding. */
  lemma DecodeRfc4648(x: seq<Byte>)
    ensures Decoded(Rfc4648(x)) == Some(x)
  {
    var s := Rfc4648(x);
    RfcLength(x);
    RfcPadding(x);
    hide Rfc4648, Value, Sextet, Triple, Emitted, Chars, Padding;
    forall i | 0 <= i < |s|
      ensures Value(s[i]) < 64
    {
      RfcSextet(x, i / 4, i % 4);
      assert 4 * (i / 4) + i % 4 == i;
    }
    forall j | 0 <= j < |x|
      ensures Chars(j) <= |s| && Emitted(s, j) == x[j]
    {
      var q, k := j / 3, j % 3;
      RfcSextet(x, q, 0);
      RfcSextet(x, q, 1);
      RfcSextet(x, q, 2);
      RfcSextet(x, q, 3);
      EmittedIsLocal(s, q, k);
      GroupBytes(s[4 * q..4 * q + 4], ByteAt(x, 3 * q), ByteAt(x, 3 * q + 1), ByteAt(x, 3 * q + 2), k);
    }
    DecodedIs(s, x);
  }

  /** What the program encodes it decodes to the input and the zero bytes that complete its last group. */
  lemma DecodeEncode(x: seq<Byte>)
    ensures Decoded(Rfc4648(ZeroExtended(x))) == Some(ZeroExtended(x))
    ensures Decoded(Rfc4648(ZeroExtended(x))) == Some(x) <==> |x| % 3 == 0
    ensures NulFree(x) ==> CStr(Decoded(Rfc4648(ZeroExtended(x))).value) == x
  {
    DecodeRfc4648(ZeroExtended(x));
    if NulFree(x) {
      CStrStopsAtNul(x, ZeroExtended(x)[|x|..]);
      assert ZeroExtended(x) == x + ZeroExtended(x)[|x|..];
    }
  }

  lemma {:induction false} CStrStopsAtNul(x: string, rest: string)
    requires NulFree(x) && (rest == "" || rest[0] == NUL)
    ensures CStr(x + rest) == x
  {
    if x == "" {
      assert x + rest == rest;
    } else {
      CStrStopsAtNul(x[1..], rest);
      assert (x + rest)[1..] == x[1..] + rest;
    }
  }
}
