/** Base64 by section 4 of RFC 4648. A string here is a sequence of bytes, one character each. */
module Base64 {
  import opened Options

  predicate IsBytes(s: string) {
    forall i :: 0 <= i < |s| ==> s[i] as int < 256
  }

  type Bytes = s: string | IsBytes(s)

  function Symbol(v: int): (c: char)
    requires 0 <= v < 64
    ensures IsSymbol(c) && Value(c) == v
  {
    if v < 26 then ('A' as int + v) as char
    else if v < 52 then ('a' as int + v - 26) as char
    else if v < 62 then ('0' as int + v - 52) as char
    else if v == 62 then '+'
    else '/'
  }

  predicate IsSymbol(c: char) {
    'A' <= c <= 'Z' || 'a' <= c <= 'z' || '0' <= c <= '9' || c == '+' || c == '/'
  }

  function Value(c: char): (v: int)
    requires IsSymbol(c)
    ensures 0 <= v < 64
  {
    if 'A' <= c <= 'Z' then c as int - 'A' as int
    else if 'a' <= c <= 'z' then c as int - 'a' as int + 26
    else if '0' <= c <= '9' then c as int - '0' as int + 52
    else if c == '+' then 62
    else 63
  }

  lemma SymbolOfValue(c: char)
    requires IsSymbol(c)
    ensures Symbol(Value(c)) == c
  {
  }

  function One(a: char): string
    requires a as int < 256
  {
    [Symbol(a as int / 4), Symbol(a as int % 4 * 16), '=', '=']
  }

  function Two(a: char, b: char): string
    requires a as int < 256 && b as int < 256
  {
    [Symbol(a as int / 4), Symbol(a as int % 4 * 16 + b as int / 16), Symbol(b as int % 16 * 4), '=']
  }

  function Three(a: char, b: char, c: char): string
    requires a as int < 256 && b as int < 256 && c as int < 256
  {
    [Symbol(a as int / 4), Symbol(a as int % 4 * 16 + b as int / 16),
     Symbol(b as int % 16 * 4 + c as int / 64), Symbol(c as int % 64)]
  }

  function Encode(b: Bytes): string {
    if |b| == 0 then ""
    else if |b| == 1 then One(b[0])
    else if |b| == 2 then Two(b[0], b[1])
    else Three(b[0], b[1], b[2]) + Encode(b[3..])
  }

  /** The bytes of one group of four characters; padding bits must be zero. */
  function Group(w: char, x: char, y: char, z: char, last: bool): Option<Bytes> {
    if !IsSymbol(w) || !IsSymbol(x) then None
    else
      var a := Value(w) * 4 + Value(x) / 16;
      if y == '=' && z == '=' then
        if last && Value(x) % 16 == 0 then Some([a as char]) else None
      else if !IsSymbol(y) then None
      else
        var b := Value(x) % 16 * 16 + Value(y) / 4;
        if z == '=' then
          if last && Value(y) % 4 == 0 then Some([a as char, b as char]) else None
        else if !IsSymbol(z) then None
        else Some([a as char, b as char, (Value(y) % 4 * 64 + Value(z)) as char])
  }

  function Decode(s: string): Option<Bytes> {
    if |s| == 0 then Some("")
    else if |s| < 4 then None
    else
      match Group(s[0], s[1], s[2], s[3], |s| == 4)
      case None => None
      case Some(first) =>
        match Decode(s[4..])
        case None => None
        case Some(rest) => Some(first + rest)
  }

  lemma GroupOfOne(a: char)
    requires a as int < 256
    ensures var e := One(a); Group(e[0], e[1], e[2], e[3], true) == Some([a])
  {
  }

  lemma GroupOfTwo(a: char, b: char)
    requires a as int < 256 && b as int < 256
    ensures var e := Two(a, b); Group(e[0], e[1], e[2], e[3], true) == Some([a, b])
  {
    var x := a as int % 4 * 16 + b as int / 16;
    assert x / 16 == a as int % 4 && x % 16 == b as int / 16;
  }

  lemma GroupOfThree(a: char, b: char, c: char, last: bool)
    requires a as int < 256 && b as int < 256 && c as int < 256
    ensures var e := Three(a, b, c); Group(e[0], e[1], e[2], e[3], last) == Some([a, b, c])
  {
    var x, y := a as int % 4 * 16 + b as int / 16, b as int % 16 * 4 + c as int / 64;
    assert x / 16 == a as int % 4 && x % 16 == b as int / 16;
    assert y / 4 == b as int % 16 && y % 4 == c as int / 64;
  }

  lemma DecodeJoined(head: string, tail: string, first: Bytes, rest: Bytes)
    requires |head| == 4 && Group(head[0], head[1], head[2], head[3], |tail| == 0) == Some(first)
    requires Decode(tail) == Some(rest)
    ensures Decode(head + tail) == Some(first + rest)
  {
    assert (head + tail)[4..] == tail;
  }

  lemma DecodeOne(a: char)
    requires a as int < 256
    ensures Decode(One(a)) == Some([a])
  {
    GroupOfOne(a);
    DecodeJoined(One(a), "", [a], "");
    assert One(a) + "" == One(a) && [a] + "" == [a];
  }

  lemma DecodeTwo(a: char, b: char)
    requires a as int < 256 && b as int < 256
    ensures Decode(Two(a, b)) == Some([a, b])
  {
    GroupOfTwo(a, b);
    DecodeJoined(Two(a, b), "", [a, b], "");
    assert Two(a, b) + "" == Two(a, b) && [a, b] + "" == [a, b];
  }

  lemma DecodeThree(a: char, b: char, c: char, tail: string, rest: Bytes)
    requires a as int < 256 && b as int < 256 && c as int < 256 && Decode(tail) == Some(rest)
    ensures Decode(Three(a, b, c) + tail) == Some([a, b, c] + rest)
  {
    GroupOfThree(a, b, c, |tail| == 0);
    DecodeJoined(Three(a, b, c), tail, [a, b, c], rest);
  }

  /** Decoding undoes encoding. */
  lemma {:induction false} DecodeEncode(b: Bytes)
    ensures Decode(Encode(b)) == Some(b)
    decreases |b|
  {
    if |b| == 1 {
      DecodeOne(b[0]);
      assert b == [b[0]];
    } else if |b| == 2 {
      DecodeTwo(b[0], b[1]);
      assert b == [b[0], b[1]];
    } else if |b| > 2 {
      DecodeEncode(b[3..]);
      DecodeThree(b[0], b[1], b[2], Encode(b[3..]), b[3..]);
      assert b == [b[0], b[1], b[2]] + b[3..];
    }
  }

  lemma FirstByte(w: int, x: int)
    requires 0 <= w < 64 && 0 <= x < 64
    ensures (w * 4 + x / 16) / 4 == w && (w * 4 + x / 16) % 4 == x / 16
    ensures x / 16 * 16 + x % 16 == x
  {
  }

  lemma SecondByte(x: int, y: int)
    requires 0 <= x < 64 && 0 <= y < 64
    ensures (x % 16 * 16 + y / 4) / 16 == x % 16 && (x % 16 * 16 + y / 4) % 16 == y / 4
    ensures y / 4 * 4 + y % 4 == y
  {
  }

  lemma ThirdByte(y: int, z: int)
    requires 0 <= y < 64 && 0 <= z < 64
    ensures (y % 4 * 64 + z) / 64 == y % 4 && (y % 4 * 64 + z) % 64 == z
  {
  }

  lemma GroupIsOne(w: char, x: char, last: bool)
    requires Group(w, x, '=', '=', last).Some?
    ensures var b := Group(w, x, '=', '=', last).value; last && |b| == 1 && [w, x, '=', '='] == One(b[0])
  {
    FirstByte(Value(w), Value(x));
    SymbolOfValue(w);
    SymbolOfValue(x);
  }

  lemma TwoOfValues(w: int, x: int, y: int, a: char, b: char)
    requires 0 <= w < 64 && 0 <= x < 64 && 0 <= y < 64 && y % 4 == 0
    requires a as int == w * 4 + x / 16 && b as int == x % 16 * 16 + y / 4
    ensures a as int < 256 && b as int < 256
    ensures Two(a, b) == [Symbol(w), Symbol(x), Symbol(y), '=']
  {
    FirstByte(w, x);
    SecondByte(x, y);
    var a1, b1 := a as int, b as int;
    assert a1 / 4 == w && a1 % 4 * 16 + b1 / 16 == x && b1 % 16 * 4 == y;
  }

  lemma GroupIsTwo(w: char, x: char, y: char, last: bool)
    requires y != '=' && Group(w, x, y, '=', last).Some?
    ensures var b := Group(w, x, y, '=', last).value; last && |b| == 2 && [w, x, y, '='] == Two(b[0], b[1])
  {
    var b := Group(w, x, y, '=', last).value;
    TwoOfValues(Value(w), Value(x), Value(y), b[0], b[1]);
    SymbolOfValue(w);
    SymbolOfValue(x);
    SymbolOfValue(y);
  }

  lemma ThreeOfValues(w: int, x: int, y: int, z: int, a: char, b: char, c: char)
    requires 0 <= w < 64 && 0 <= x < 64 && 0 <= y < 64 && 0 <= z < 64
    requires a as int == w * 4 + x / 16 && b as int == x % 16 * 16 + y / 4 && c as int == y % 4 * 64 + z
    ensures a as int < 256 && b as int < 256 && c as int < 256
    ensures Three(a, b, c) == [Symbol(w), Symbol(x), Symbol(y), Symbol(z)]
  {
    FirstByte(w, x);
    SecondByte(x, y);
    ThirdByte(y, z);
    var a1, b1, c1 := a as int, b as int, c as int;
    assert a1 / 4 == w && a1 % 4 * 16 + b1 / 16 == x;
    assert b1 % 16 * 4 + c1 / 64 == y && c1 % 64 == z;
  }

  lemma GroupIsThree(w: char, x: char, y: char, z: char, last: bool)
    requires y != '=' && z != '=' && Group(w, x, y, z, last).Some?
    ensures var b := Group(w, x, y, z, last).value; |b| == 3 && [w, x, y, z] == Three(b[0], b[1], b[2])
  {
    var b := Group(w, x, y, z, last).value;
    ThreeOfValues(Value(w), Value(x), Value(y), Value(z), b[0], b[1], b[2]);
    SymbolOfValue(w);
    SymbolOfValue(x);
    SymbolOfValue(y);
    SymbolOfValue(z);
  }

  lemma {:induction false} DecodedIsEncoded(s: string)
    requires Decode(s).Some?
    ensures s == Encode(Decode(s).value)
    decreases |s|
  {
    if s != "" {
      var first := Group(s[0], s[1], s[2], s[3], |s| == 4).value;
      var rest := Decode(s[4..]).value;
      assert s == [s[0], s[1], s[2], s[3]] + s[4..];
      if s[2] == '=' && s[3] == '=' {
        GroupIsOne(s[0], s[1], |s| == 4);
        assert first + rest == first;
      } else if s[3] == '=' {
        GroupIsTwo(s[0], s[1], s[2], |s| == 4);
        assert first + rest == first;
      } else {
        GroupIsThree(s[0], s[1], s[2], s[3], |s| == 4);
        DecodedIsEncoded(s[4..]);
        assert (first + rest)[3..] == rest;
      }
    }
  }

  /** What decodes is exactly what encoding produces, so no two texts decode to the same bytes. */
  lemma DecodesOnlyEncodings(s: string, b: Bytes)
    ensures Decode(s) == Some(b) <==> s == Encode(b)
  {
    DecodeEncode(b);
    if Decode(s).Some? {
      DecodedIsEncoded(s);
    }
  }

  /** Encoded text is made of the sixty-four symbols and padding, four characters for every three bytes begun. */
  lemma {:induction false} EncodedShape(b: Bytes)
    ensures forall i :: 0 <= i < |Encode(b)| ==> IsSymbol(Encode(b)[i]) || Encode(b)[i] == '='
    ensures |Encode(b)| == (|b| + 2) / 3 * 4
    decreases |b|
  {
    if |b| > 2 {
      EncodedShape(b[3..]);
      assert (|b| + 2) / 3 == 1 + (|b[3..]| + 2) / 3;
      var first, rest := Three(b[0], b[1], b[2]), Encode(b[3..]);
      assert Encode(b) == first + rest && |first| == 4;
    }
  }
}
