/** The base64url alphabet and encoding of section 5 of RFC 4648, without padding. */
module Base64Url {
  import opened Wrappers

  type Byte = b: int | 0 <= b < 256
  type Sextet = v: int | 0 <= v < 64

  function Digit(v: Sextet): char {
    if v < 26 then 'A' + (v as char)
    else if v < 52 then 'a' + ((v - 26) as char)
    else if v < 62 then '0' + ((v - 52) as char)
    else if v == 62 then '-'
    else '_'
  }

  predicate IsDigit(c: char) { 'A' <= c <= 'Z' || 'a' <= c <= 'z' || '0' <= c <= '9' || c == '-' || c == '_' }

  function Value(c: char): (v: Sextet)
    requires IsDigit(c)
    ensures Digit(v) == c
  {
    if 'A' <= c <= 'Z' then (c - 'A') as int
    else if 'a' <= c <= 'z' then (c - 'a') as int + 26
    else if '0' <= c <= '9' then (c - '0') as int + 52
    else if c == '-' then 62
    else 63
  }

  lemma ValueOfDigit(v: Sextet)
    ensures IsDigit(Digit(v)) && Value(Digit(v)) == v
  {
  }

  function First(a: Byte): Sextet { a / 4 }
  function Second(a: Byte, b: Byte): Sextet { a % 4 * 16 + b / 16 }
  function Third(b: Byte, c: Byte): Sextet { b % 16 * 4 + c / 64 }
  function Fourth(c: Byte): Sextet { c % 64 }

  function Byte0(p: Sextet, q: Sextet): Byte { p * 4 + q / 16 }
  function Byte1(q: Sextet, r: Sextet): Byte { q % 16 * 16 + r / 4 }
  function Byte2(r: Sextet, t: Sextet): Byte { r % 4 * 64 + t }

  /** Three bytes to four sextets; one or two bytes left over make two or three. */
  function Pack(data: seq<Byte>): (vs: seq<Sextet>)
    ensures |vs| == (|data| * 4 + 2) / 3
  {
    if data == [] then []
    else if |data| == 1 then [First(data[0]), Second(data[0], 0)]
    else if |data| == 2 then [First(data[0]), Second(data[0], data[1]), Third(data[1], 0)]
    else [First(data[0]), Second(data[0], data[1]), Third(data[1], data[2]), Fourth(data[2])] + Pack(data[3..])
  }

  function Unpack(vs: seq<Sextet>): seq<Byte>
    requires |vs| % 4 != 1
  {
    if vs == [] then []
    else if |vs| == 2 then [Byte0(vs[0], vs[1])]
    else if |vs| == 3 then [Byte0(vs[0], vs[1]), Byte1(vs[1], vs[2])]
    else [Byte0(vs[0], vs[1]), Byte1(vs[1], vs[2]), Byte2(vs[2], vs[3])] + Unpack(vs[4..])
  }

  predicate AllDigits(token: string) { forall i :: 0 <= i < |token| ==> IsDigit(token[i]) }

  function Values(token: string): seq<Sextet>
    requires AllDigits(token)
  {
    seq(|token|, i requires 0 <= i < |token| => Value(token[i]))
  }

  function Encode(data: seq<Byte>): (token: string)
    ensures |token| == (|data| * 4 + 2) / 3
  {
    var vs := Pack(data);
    seq(|vs|, i requires 0 <= i < |vs| => Digit(vs[i]))
  }

  /** The decoder takes any digits that make whole bytes, and looks at no bits left over. */
  function Decode(token: string): Option<seq<Byte>> {
    if !AllDigits(token) || |token| % 4 == 1 then None else Some(Unpack(Values(token)))
  }

  /** Bits the last digit carries beyond whole bytes. */
  function Leftover(vs: seq<Sextet>): int {
    if |vs| % 4 == 2 then vs[|vs| - 1] % 16
    else if |vs| % 4 == 3 then vs[|vs| - 1] % 4
    else 0
  }

  lemma ThreeBytes(a: Byte, b: Byte, c: Byte)
    ensures Byte0(First(a), Second(a, b)) == a && Byte1(Second(a, b), Third(b, c)) == b
            && Byte2(Third(b, c), Fourth(c)) == c
  {
  }

  lemma {:induction false} UnpackUndoesPack(data: seq<Byte>)
    ensures Unpack(Pack(data)) == data
  {
    hide First, Second, Third, Fourth, Byte0, Byte1, Byte2;
    if |data| >= 3 {
      UnpackUndoesPack(data[3..]);
      ThreeBytes(data[0], data[1], data[2]);
      assert Pack(data)[4..] == Pack(data[3..]);
      assert data == [data[0], data[1], data[2]] + data[3..];
    } else if |data| == 2 {
      ThreeBytes(data[0], data[1], 0);
      assert data == [data[0], data[1]];
    } else if |data| == 1 {
      ThreeBytes(data[0], 0, 0);
      assert data == [data[0]];
    }
  }

  lemma FourSextets(p: Sextet, q: Sextet, r: Sextet, t: Sextet)
    ensures var a, b, c := Byte0(p, q), Byte1(q, r), Byte2(r, t);
            First(a) == p && Second(a, b) == q && Third(b, c) == r && Fourth(c) == t
            && (Second(a, 0) == q <==> q % 16 == 0) && (Third(b, 0) == r <==> r % 4 == 0)
  {
  }

  lemma {:induction false} PackUndoesUnpackExactly(vs: seq<Sextet>)
    requires |vs| % 4 != 1
    ensures Pack(Unpack(vs)) == vs <==> Leftover(vs) == 0
  {
    hide First, Second, Third, Fourth, Byte0, Byte1, Byte2;
    if |vs| >= 4 {
      PackUndoesUnpackExactly(vs[4..]);
      PackStep(vs);
      LeftoverStep(vs);
    } else if |vs| == 3 {
      ThreeSextets(vs);
    } else if |vs| == 2 {
      TwoSextets(vs);
    }
  }

  lemma ThreeSextets(vs: seq<Sextet>)
    requires |vs| == 3
    ensures Pack(Unpack(vs)) == vs <==> Leftover(vs) == 0
  {
    hide First, Second, Third, Fourth, Byte0, Byte1, Byte2;
    FourSextets(vs[0], vs[1], vs[2], 0);
    var again := Pack(Unpack(vs));
    assert vs == [vs[0], vs[1], vs[2]];
    assert again == [vs[0], vs[1], again[2]];
  }

  lemma TwoSextets(vs: seq<Sextet>)
    requires |vs| == 2
    ensures Pack(Unpack(vs)) == vs <==> Leftover(vs) == 0
  {
    hide First, Second, Third, Fourth, Byte0, Byte1, Byte2;
    FourSextets(vs[0], vs[1], 0, 0);
    var again := Pack(Unpack(vs));
    assert vs == [vs[0], vs[1]];
    assert again == [vs[0], again[1]];
  }

  lemma PackStep(vs: seq<Sextet>)
    requires |vs| % 4 != 1 && |vs| >= 4
    ensures Pack(Unpack(vs)) == vs <==> Pack(Unpack(vs[4..])) == vs[4..]
  {
    hide First, Second, Third, Fourth, Byte0, Byte1, Byte2, Pack, Unpack;
    var head, rest := [vs[0], vs[1], vs[2], vs[3]], vs[4..];
    FourLess(|vs|);
    var again := Pack(Unpack(rest));
    FourSextets(vs[0], vs[1], vs[2], vs[3]);
    UnpackFour(vs);
    PackThree(Byte0(vs[0], vs[1]), Byte1(vs[1], vs[2]), Byte2(vs[2], vs[3]), Unpack(rest));
    SameHead(head, again, rest);
    assert vs == head + rest;
  }

  lemma FourLess(n: nat)
    requires n >= 4
    ensures (n - 4) % 4 == n % 4
  {
  }

  lemma SameHead(head: seq<Sextet>, a: seq<Sextet>, b: seq<Sextet>)
    ensures head + a == head + b <==> a == b
  {
    assert (head + a)[|head|..] == a && (head + b)[|head|..] == b;
  }

  lemma LeftoverStep(vs: seq<Sextet>)
    requires |vs| % 4 != 1 && |vs| >= 4
    ensures Leftover(vs) == Leftover(vs[4..])
  {
    var rest := vs[4..];
    FourLess(|vs|);
    if rest != [] { assert vs[|vs| - 1] == rest[|rest| - 1]; }
  }

  lemma UnpackFour(vs: seq<Sextet>)
    requires |vs| % 4 != 1 && |vs| >= 4
    ensures Unpack(vs) == [Byte0(vs[0], vs[1]), Byte1(vs[1], vs[2]), Byte2(vs[2], vs[3])] + Unpack(vs[4..])
  {
  }

  lemma PackThree(a: Byte, b: Byte, c: Byte, rest: seq<Byte>)
    ensures Pack([a, b, c] + rest) == [First(a), Second(a, b), Third(b, c), Fourth(c)] + Pack(rest)
  {
    var data: seq<Byte> := [a, b, c] + rest;
    assert data[3..] == rest;
  }

  lemma EncodeDigits(data: seq<Byte>)
    ensures AllDigits(Encode(data)) && Values(Encode(data)) == Pack(data)
  {
    hide Pack, Digit, Value, IsDigit;
    var vs := Pack(data);
    forall i | 0 <= i < |vs|
      ensures IsDigit(Encode(data)[i]) && Value(Encode(data)[i]) == vs[i]
    {
      ValueOfDigit(vs[i]);
    }
  }

  lemma EncodedLength(n: nat)
    ensures ((n * 4 + 2) / 3) % 4 != 1
  {
    var q := n / 3;
    assert n % 3 == 0 ==> (n * 4 + 2) / 3 == 4 * q;
    assert n % 3 == 1 ==> (n * 4 + 2) / 3 == 4 * q + 2;
    assert n % 3 == 2 ==> (n * 4 + 2) / 3 == 4 * q + 3;
  }

  /** Every byte string survives the trip. */
  lemma DecodeUndoesEncode(data: seq<Byte>)
    ensures Decode(Encode(data)) == Some(data)
  {
    hide Pack, Unpack, Encode, Values, AllDigits;
    EncodeDigits(data);
    EncodedLength(|data|);
    UnpackUndoesPack(data);
  }

  /** A token that decodes is the encoding of what it decodes to exactly when its left-over bits are zero. */
  lemma CanonicalExactly(token: string)
    requires Decode(token).Some?
    ensures Encode(Decode(token).value) == token <==> Leftover(Values(token)) == 0
  {
    hide Pack, Unpack, Digit, Value, IsDigit, Leftover;
    var vs := Values(token);
    PackUndoesUnpackExactly(vs);
    var again := Pack(Unpack(vs));
    forall i | 0 <= i < |vs| ensures Digit(vs[i]) == token[i] {}
    if Encode(Unpack(vs)) == token {
      EncodeDigits(Unpack(vs));
    }
  }

  /** So a token is accepted exactly when some byte string encodes to it, and then only that byte string does. */
  lemma AcceptedExactly(token: string)
    ensures (exists data: seq<Byte> :: Encode(data) == token) <==>
            Decode(token).Some? && Encode(Decode(token).value) == token
    ensures forall data: seq<Byte> :: Encode(data) == token ==> Decode(token) == Some(data)
  {
    hide Encode, Decode;
    forall data: seq<Byte> | Encode(data) == token ensures Decode(token) == Some(data) {
      DecodeUndoesEncode(data);
    }
  }
}
