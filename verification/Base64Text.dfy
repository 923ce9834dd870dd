/** The codec in literal text: the alphabet and the examples of RFC 4648. */
module Base64Texts {
  import opened CString
  import opened Base64

  /** The alphabet of RFC 4648, section 4, by character codes, and the padding character. */
  ghost predicate InAlphabet(c: char) {
    65 <= c as int <= 90 || 97 <= c as int <= 122 || 48 <= c as int <= 57 || c == '+' || c == '/' || c == '='
  }

  /** Both tables agree with it; `=` decodes as zero bits, every other character is foreign. */
  lemma AlphabetIs(v: nat, c: char)
    requires v < 64
    ensures Letter(v) as int ==
            if v < 26 then 65 + v else if v < 52 then 71 + v else if v < 62 then v - 4 else if v == 62 then 43 else 47
    ensures Value(Letter(v)) == v && Value('=') == 0
    ensures Value(c) == 0x80 <==> !InAlphabet(c)
  {
  }

  /** The decoder accepts exactly the texts of four-character groups over the alphabet and `=`. */
  lemma AcceptedTexts(s: string)
    ensures Decoded(s).Some? <==> |s| % 4 == 0 && forall i :: 0 <= i < |s| ==> InAlphabet(s[i])
  {
    hide Value, Emitted, Chars, Padding, InAlphabet;
    forall i | 0 <= i < |s|
      ensures Value(s[i]) < 64 <==> InAlphabet(s[i])
    {
      AlphabetIs(0, s[i]);
    }
  }

  /** The four letters of a group from its 24 bits. */
  lemma GroupIs(a: Byte, b: Byte, c: Byte, w: nat, x: nat, y: nat, z: nat)
    requires w < 64 && x < 64 && y < 64 && z < 64
    requires a as int * 0x1_0000 + b as int * 0x100 + c as int == w * 0x4_0000 + x * 0x1000 + y * 0x40 + z
    ensures Group(a, b, c) == [Letter(w), Letter(x), Letter(y), Letter(z)]
  {
    hide Letter, Sextet;
    UpperTwo(w, x, y, z);
    LowerTwo(w, x, y, z);
  }

  lemma UpperTwo(w: nat, x: nat, y: nat, z: nat)
    requires w < 64 && x < 64 && y < 64 && z < 64
    ensures var t := w * 0x4_0000 + x * 0x1000 + y * 0x40 + z;
            t < 0x100_0000 && Sextet(t, 0) == w && Sextet(t, 1) == x
  {
    var t := w * 0x4_0000 + x * 0x1000 + y * 0x40 + z;
    assert t / 0x4_0000 == w;
    assert t / 0x1000 == w * 0x40 + x;
    DivideBy64(w, x);
  }

  lemma LowerTwo(w: nat, x: nat, y: nat, z: nat)
    requires w < 64 && x < 64 && y < 64 && z < 64
    ensures var t := w * 0x4_0000 + x * 0x1000 + y * 0x40 + z;
            t < 0x100_0000 && Sextet(t, 2) == y && Sextet(t, 3) == z
  {
    var t := w * 0x4_0000 + x * 0x1000 + y * 0x40 + z;
    DivideBy64(w * 0x1000 + x * 0x40 + y, z);
    DivideBy64(w * 0x40 + x, y);
  }

  lemma FullGroups()
    ensures Group('f', 'o', 'o') == "Zm9v" && Group('b', 'a', 'r') == "YmFy"
  {
    GroupIs('f', 'o', 'o', 25, 38, 61, 47);
    GroupIs('b', 'a', 'r', 24, 38, 5, 50);
  }

  lemma PartGroups()
    ensures Group('f', NUL, NUL) == "ZgAA" && Group('f', 'o', NUL) == "Zm8A"
    ensures Group('b', NUL, NUL) == "YgAA" && Group('b', 'a', NUL) == "YmEA"
  {
    GroupIs('f', NUL, NUL, 25, 32, 0, 0);
    GroupIs('f', 'o', NUL, 25, 38, 60, 0);
    GroupIs('b', NUL, NUL, 24, 32, 0, 0);
    GroupIs('b', 'a', NUL, 24, 38, 4, 0);
  }

  /** The test vectors of RFC 4648, section 10; the decoder inverts them. */
  lemma TestVectors()
    ensures Rfc4648("") == "" && Rfc4648("f") == "Zg==" && Rfc4648("fo") == "Zm8=" && Rfc4648("foo") == "Zm9v"
    ensures Rfc4648("foob") == "Zm9vYg==" && Rfc4648("fooba") == "Zm9vYmE=" && Rfc4648("foobar") == "Zm9vYmFy"
  {
    hide Group;
    FullGroups();
    PartGroups();
    var foo, foob, fooba, foobar: seq<Byte> := "foo", "foob", "fooba", "foobar";
    assert foo[3..] == [] && foob[3..] == ['b'] && fooba[3..] == ['b', 'a'] && foobar[3..] == ['b', 'a', 'r'];
    var bar: seq<Byte> := ['b', 'a', 'r'];
    assert bar[3..] == [];
  }

  /** And what the program writes instead when the last group is not full. */
  lemma WithoutPadding()
    ensures Rfc4648(ZeroExtended("f")) == "ZgAA" && Rfc4648(ZeroExtended("fo")) == "Zm8A"
  {
    hide Group;
    PartGroups();
    var x, y: seq<Byte> := ['f', NUL, NUL], ['f', 'o', NUL];
    assert x[3..] == [] && y[3..] == [];
    assert ZeroExtended("f") == x && ZeroExtended("fo") == y;
  }

  // ---------- any accepted text ----------

  function Byte0(a: nat, b: nat): nat {
    a * 4 + b / 16
  }

  function Byte1(b: nat, c: nat): nat {
    b % 16 * 16 + c / 4
  }

  function Byte2(c: nat, d: nat): nat {
    c % 4 * 64 + d
  }

  lemma BytesFit(a: nat, b: nat, c: nat, d: nat)
    requires a < 64 && b < 64 && c < 64 && d < 64
    ensures Byte0(a, b) < 256 && Byte1(b, c) < 256 && Byte2(c, d) < 256
    ensures a == Byte0(a, b) / 4 && b == Byte0(a, b) % 4 * 16 + Byte1(b, c) / 16
    ensures c == Byte1(b, c) % 16 * 4 + Byte2(c, d) / 64 && d == Byte2(c, d) % 64
  {
  }

  lemma QuadBytes(quad: string)
    requires |quad| == 4 && forall m :: 0 <= m < 4 ==> Value(quad[m]) < 64
    ensures Chars(0) <= 4 && Emitted(quad, 0) as int == Byte0(Value(quad[0]), Value(quad[1]))
    ensures Chars(1) <= 4 && Emitted(quad, 1) as int == Byte1(Value(quad[1]), Value(quad[2]))
    ensures Chars(2) <= 4 && Emitted(quad, 2) as int == Byte2(Value(quad[2]), Value(quad[3]))
  {
    hide Value, Emitted, Chars, Triple, Sextet, Byte0, Byte1, Byte2;
    var a, b, c, d := Value(quad[0]), Value(quad[1]), Value(quad[2]), Value(quad[3]);
    BytesFit(a, b, c, d);
    var x, y, z := Byte0(a, b) as char, Byte1(b, c) as char, Byte2(c, d) as char;
    TripleSextets(x, y, z);
    GroupBytes(quad, x, y, z, 0);
    GroupBytes(quad, x, y, z, 1);
    GroupBytes(quad, x, y, z, 2);
  }

  /** What a text of groups decodes to, `=` anywhere: three bytes for each group, from the 24 bits
      of its four characters, without one byte for each `=` in the last two places. */
  lemma DecodedGroups(s: string, q: nat)
    requires Decoded(s).Some? && 4 * q + 4 <= |s|
    ensures var bytes := Decoded(s).value;
            && |bytes| == |s| / 4 * 3 - (if s[|s| - 1] == '=' then 1 else 0) - (if s[|s| - 2] == '=' then 1 else 0)
            && (3 * q < |bytes| ==> bytes[3 * q] as int == Value(s[4 * q]) * 4 + Value(s[4 * q + 1]) / 16)
            && (3 * q + 1 < |bytes| ==>
                  bytes[3 * q + 1] as int == Value(s[4 * q + 1]) % 16 * 16 + Value(s[4 * q + 2]) / 4)
            && (3 * q + 2 < |bytes| ==>
                  bytes[3 * q + 2] as int == Value(s[4 * q + 2]) % 4 * 64 + Value(s[4 * q + 3]))
  {
    hide Value, Emitted, Chars;
    var quad := s[4 * q..4 * q + 4];
    assert quad[0] == s[4 * q] && quad[1] == s[4 * q + 1] && quad[2] == s[4 * q + 2] && quad[3] == s[4 * q + 3];
    EmittedIsLocal(s, q, 0);
    EmittedIsLocal(s, q, 1);
    EmittedIsLocal(s, q, 2);
    QuadBytes(quad);
  }
}
