/**
  Base64url without padding (section 5 of RFC 4648), as the strict decoder the tokens use reads it:
  carriage returns and line feeds are skipped anywhere, leftover bits must be zero.
 */
module Base64 {

  import opened Wrappers

  const LINE_FEED: byte := 10
  const CARRIAGE_RETURN: byte := 13

  type sextet = v: int | 0 <= v < 64

  function Symbol(v: sextet): (c: byte)
    ensures c != '.' as byte && c < 128 && c != LINE_FEED && c != CARRIAGE_RETURN
  {
    if v < 26 then 65 + v as byte
    else if v < 52 then 71 + v as byte
    else if v < 62 then (v - 4) as byte
    else if v == 62 then '-' as byte
    else '_' as byte
  }

  const UPPER: string := "ABCDEFGHIJKLMNOPQRSTUVWXYZ"
  const LOWER: string := "abcdefghijklmnopqrstuvwxyz"
  const REST: string := "0123456789-_"

  lemma Capitals(v: nat)
    requires v < 26
    ensures UPPER[v] as int == 65 + v
  {}

  lemma SmallLetters(v: nat)
    requires v < 26
    ensures LOWER[v] as int == 97 + v
  {}

  /** The symbols are those of the URL and filename safe alphabet, in its order. */
  lemma SymbolsAreAlphabet(v: sextet)
    ensures |UPPER + LOWER + REST| == 64 && Symbol(v) as char == (UPPER + LOWER + REST)[v]
  {
    if v < 26 {
      Capitals(v);
    } else if v < 52 {
      SmallLetters(v - 26);
    } else if v < 62 {
      assert REST[v - 52] as int == 48 + (v - 52);
    }
  }

  /** The inverse of `Symbol`, on the bytes that are symbols. */
  function SymbolValue(c: byte): (v: Option<sextet>)
    ensures v.Some? ==> Symbol(v.value) == c
    ensures v.None? ==> forall w: sextet :: Symbol(w) != c
  {
    if 65 <= c <= 90 then Some((c - 65) as int)
    else if 97 <= c <= 122 then Some((c - 71) as int)
    else if 48 <= c <= 57 then Some(c as int + 4)
    else if c == 45 then Some(62)
    else if c == 95 then Some(63)
    else None
  }

  /** The bits of n from weight d up, and those below. */
  function Upper(n: int, d: int): (u: int)
    requires n >= 0 && d > 0
    ensures 0 <= u && d * u <= n
  {
    MultipleFits(n, d);
    n / d
  }

  function Lower(n: int, d: int): (l: int)
    requires n >= 0 && d > 0
    ensures 0 <= l < d
  {
    n % d
  }

  lemma MultipleFits(n: int, d: int)
    requires n >= 0 && d > 0
    ensures 0 <= n / d && d * (n / d) <= n
  {
    assert n == d * (n / d) + n % d;
  }

  /** The bits of the bytes in groups of six, the last group filled up with zeros. */
  function Sextets(b: bytes): seq<sextet> {
    if |b| == 0 then []
    else
      var b0 := b[0] as int;
      if |b| == 1 then [Upper(b0, 4), Lower(b0, 4) * 16]
      else
        var b1 := b[1] as int;
        if |b| == 2 then [Upper(b0, 4), Lower(b0, 4) * 16 + Upper(b1, 16), Lower(b1, 16) * 4]
        else FirstFour(b0, b1, b[2] as int) + Sextets(b[3..])
  }

  function FirstFour(b0: int, b1: int, b2: int): (v: seq<sextet>)
    requires 0 <= b0 < 256 && 0 <= b1 < 256 && 0 <= b2 < 256
    ensures |v| == 4
  {
    [Upper(b0, 4), Lower(b0, 4) * 16 + Upper(b1, 16), Lower(b1, 16) * 4 + Upper(b2, 64), Lower(b2, 64)]
  }

  function Encode(b: bytes): bytes {
    Symbols(Sextets(b))
  }

  function Symbols(v: seq<sextet>): (s: bytes)
    ensures |s| == |v|
  {
    if v == [] then [] else [Symbol(v[0])] + Symbols(v[1..])
  }

  function Strip(s: bytes): bytes {
    if s == [] then []
    else if s[0] == LINE_FEED || s[0] == CARRIAGE_RETURN then Strip(s[1..])
    else [s[0]] + Strip(s[1..])
  }

  function Values(s: bytes): (r: Option<seq<sextet>>)
    ensures r.Some? ==> |r.value| == |s|
  {
    if s == [] then Some([])
    else
      var v, rest := SymbolValue(s[0]), Values(s[1..]);
      if v.Some? && rest.Some? then Some([v.value] + rest.value) else None
  }

  /** Fails on a lone group and on a last group with a bit set beyond the last byte. */
  function Quanta(v: seq<sextet>): Option<bytes> {
    if |v| == 0 then Some([])
    else if |v| == 1 then None
    else if |v| == 2 then
      if Lower(v[1], 16) == 0 then Some([(v[0] as int * 4 + Upper(v[1], 16)) as byte]) else None
    else if |v| == 3 then
      if Lower(v[2], 4) == 0 then
        Some([(v[0] as int * 4 + Upper(v[1], 16)) as byte, (Lower(v[1], 16) * 16 + Upper(v[2], 4)) as byte])
      else None
    else
      var rest := Quanta(v[4..]);
      if rest.Some? then Some(FirstThree(v[0], v[1], v[2], v[3]) + rest.value) else None
  }

  function FirstThree(v0: sextet, v1: sextet, v2: sextet, v3: sextet): (b: bytes)
    ensures |b| == 3
  {
    [(v0 as int * 4 + Upper(v1, 16)) as byte, (Lower(v1, 16) * 16 + Upper(v2, 4)) as byte,
     (Lower(v2, 4) * 64 + v3) as byte]
  }

  function Decode(s: bytes): Option<bytes> {
    var values := Values(Strip(s));
    if values.Some? then Quanta(values.value) else None
  }

  lemma Bits(n: int, d: int, u: int, l: int)
    requires n >= 0 && (d == 4 || d == 16 || d == 64) && 0 <= l < d
    ensures n == u * d + l <==> u == Upper(n, d) && l == Lower(n, d)
  {}

  /** Four sextets and three bytes with the same bits determine each other. */
  lemma GroupBits(v0: sextet, v1: sextet, v2: sextet, v3: sextet, b0: byte, b1: byte, b2: byte)
    ensures [b0, b1, b2] == FirstThree(v0, v1, v2, v3)
       <==> [v0, v1, v2, v3] == FirstFour(b0 as int, b1 as int, b2 as int)
  {
    hide Upper, Lower;
    Bits(b0 as int, 4, v0, Upper(v1, 16));
    Bits(v1, 16, Lower(b0 as int, 4), Upper(b1 as int, 16));
    Bits(b1 as int, 16, Lower(v1, 16), Upper(v2, 4));
    Bits(v2, 4, Lower(b1 as int, 16), Upper(b2 as int, 64));
    Bits(b2 as int, 64, Lower(v2, 4), v3);
  }

  lemma StartsWith<T>(s: seq<T>, first: seq<T>, rest: seq<T>)
    requires |s| >= |first|
    ensures s == first + rest <==> s[..|first|] == first && s[|first|..] == rest
  {
    assert s == s[..|first|] + s[|first|..];
  }

  lemma FirstQuantum(v: seq<sextet>, b: bytes)
    requires |v| >= 4 && |b| >= 3
    ensures Quanta(v) == Some(b) <==>
      Quanta(v[4..]) == Some(b[3..]) && b[..3] == FirstThree(v[0], v[1], v[2], v[3])
  {
    var first, rest := FirstThree(v[0], v[1], v[2], v[3]), Quanta(v[4..]);
    assert Quanta(v) == if rest.Some? then Some(first + rest.value) else None;
    hide Quanta, FirstThree;
    if rest.Some? {
      StartsWith(b, first, rest.value);
    }
  }

  lemma FirstSextets(v: seq<sextet>, b: bytes)
    requires |v| >= 4 && |b| >= 3
    ensures v == Sextets(b) <==>
      v[4..] == Sextets(b[3..]) && v[..4] == FirstFour(b[0] as int, b[1] as int, b[2] as int)
  {
    var first := FirstFour(b[0] as int, b[1] as int, b[2] as int);
    assert Sextets(b) == first + Sextets(b[3..]);
    hide Sextets, FirstFour;
    StartsWith(v, first, Sextets(b[3..]));
  }

  lemma OneByte(v0: sextet, v1: sextet, b0: byte)
    ensures Quanta([v0, v1]) == Some([b0]) <==> [v0, v1] == Sextets([b0])
  {
    hide Upper, Lower;
    Bits(b0 as int, 4, v0, Upper(v1, 16));
    Bits(v1, 16, Lower(b0 as int, 4), 0);
  }

  lemma TwoBytes(v0: sextet, v1: sextet, v2: sextet, b0: byte, b1: byte)
    ensures Quanta([v0, v1, v2]) == Some([b0, b1]) <==> [v0, v1, v2] == Sextets([b0, b1])
  {
    hide Upper, Lower;
    Bits(b0 as int, 4, v0, Upper(v1, 16));
    Bits(v1, 16, Lower(b0 as int, 4), Upper(b1 as int, 16));
    Bits(b1 as int, 16, Lower(v1, 16), Upper(v2, 4));
    Bits(v2, 4, Lower(b1 as int, 16), 0);
  }

  lemma LastQuantum(v: seq<sextet>, b: bytes)
    requires |v| < 4 || |b| < 3
    ensures Quanta(v) == Some(b) <==> v == Sextets(b)
  {
    QuantaLength(v);
    SextetsLength(b);
    assert Quanta([]) == Some([]) && Sextets([]) == [];
    hide Quanta, Sextets;
    if |v| == 0 && |b| == 0 {
      assert v == [] && b == [];
    } else if |v| == 2 && |b| == 1 {
      assert v == [v[0], v[1]] && b == [b[0]];
      OneByte(v[0], v[1], b[0]);
    } else if |v| == 3 && |b| == 2 {
      assert v == [v[0], v[1], v[2]] && b == [b[0], b[1]];
      TwoBytes(v[0], v[1], v[2], b[0], b[1]);
    }
  }

  lemma {:induction false} QuantaLength(v: seq<sextet>)
    ensures Quanta(v).Some? ==> |v| == (|Quanta(v).value| * 4 + 2) / 3
  {
    if |v| >= 4 {
      QuantaLength(v[4..]);
    }
  }

  lemma {:induction false} SextetsLength(b: bytes)
    ensures |Sextets(b)| == (|b| * 4 + 2) / 3
  {
    if |b| >= 3 {
      SextetsLength(b[3..]);
    }
  }

  lemma {:induction false} QuantaInvertSextets(v: seq<sextet>, b: bytes)
    ensures Quanta(v) == Some(b) <==> v == Sextets(b)
  {
    hide Quanta, Sextets, FirstThree, FirstFour;
    if |v| >= 4 && |b| >= 3 {
      QuantaInvertSextets(v[4..], b[3..]);
      GroupBits(v[0], v[1], v[2], v[3], b[0], b[1], b[2]);
      assert v[..4] == [v[0], v[1], v[2], v[3]] && b[..3] == [b[0], b[1], b[2]];
      FirstQuantum(v, b);
      FirstSextets(v, b);
    } else {
      LastQuantum(v, b);
    }
  }

  lemma {:induction false} ValuesInvertSymbols(s: bytes, v: seq<sextet>)
    ensures Values(s) == Some(v) <==> s == Symbols(v)
  {
    if s != [] && v != [] {
      ValuesInvertSymbols(s[1..], v[1..]);
      assert s == [s[0]] + s[1..] && v == [v[0]] + v[1..];
      assert Symbols(v)[1..] == Symbols(v[1..]);
    }
  }

  lemma {:induction false} SymbolsArePlain(v: seq<sextet>)
    ensures Strip(Symbols(v)) == Symbols(v)
    ensures forall c | c in Symbols(v) :: c != '.' as byte && c < 128
  {
    if v != [] {
      SymbolsArePlain(v[1..]);
      assert Symbols(v)[1..] == Symbols(v[1..]);
    }
  }

  /** A text decodes to these bytes exactly when it is their encoding with line breaks put in. */
  lemma DecodeInvertsEncode(s: bytes, b: bytes)
    ensures Decode(s) == Some(b) <==> Strip(s) == Encode(b)
  {
    var plain := Strip(s);
    ValuesInvertSymbols(plain, Sextets(b));
    if Values(plain).Some? {
      QuantaInvertSextets(Values(plain).value, b);
      ValuesInvertSymbols(plain, Values(plain).value);
    }
  }

  lemma EncodingIsInjective(a: bytes, b: bytes)
    ensures Encode(a) == Encode(b) <==> a == b
  {
    SymbolsArePlain(Sextets(a));
    DecodeInvertsEncode(Encode(a), a);
    DecodeInvertsEncode(Encode(a), b);
  }

  /** What the tokens accept: comparing with the re-encoding leaves no second spelling. */
  predicate Canonical(part: bytes) {
    Decode(part).Some? && |Decode(part).value| == 32 && Encode(Decode(part).value) == part
  }

  lemma CanonicalIsEncoding(part: bytes)
    ensures Canonical(part) <==> exists b: bytes :: |b| == 32 && part == Encode(b)
    ensures forall b: bytes | |b| == 32 && part == Encode(b) :: Decode(part) == Some(b)
  {
    forall b: bytes | |b| == 32 && part == Encode(b) ensures Decode(part) == Some(b) {
      SymbolsArePlain(Sextets(b));
      DecodeInvertsEncode(part, b);
    }
  }

  /** Decoding alone is not enough: a line break anywhere leaves the decoded bytes as they are. */
  lemma LineBreaksAreInvisible(s: bytes, t: bytes, c: byte)
    requires c == LINE_FEED || c == CARRIAGE_RETURN
    ensures Decode(s + [c] + t) == Decode(s + t)
  {
    StripConcat(s + [c], t);
    StripConcat(s, [c]);
    assert [c][1..] == [];
    assert Strip(s) + Strip([c]) == Strip(s);
    StripConcat(s, t);
  }

  lemma {:induction false} StripConcat(s: bytes, t: bytes)
    ensures Strip(s + t) == Strip(s) + Strip(t)
  {
    StripFirst(s);
    StripFirst(s + t);
    hide Strip;
    if s == [] {
      assert s + t == t;
    } else {
      StripConcat(s[1..], t);
      assert (s + t)[1..] == s[1..] + t;
      var rest, tail := Strip(s[1..]), Strip(t);
      assert [s[0]] + (rest + tail) == ([s[0]] + rest) + tail;
    }
  }

  lemma StripFirst(s: bytes)
    ensures Strip(s)
         == if s == [] then []
            else if s[0] == LINE_FEED || s[0] == CARRIAGE_RETURN then Strip(s[1..])
            else [s[0]] + Strip(s[1..])
  {}

  lemma EncodedLength(b: bytes)
    ensures |Encode(b)| == (|b| * 4 + 2) / 3
  {
    SextetsLength(b);
  }
}
