/** The Base64 codec of base64.cpp against section 4 of RFC 4648. */
module Base64 {
  import opened Words

  // ----- the alphabet

  function Symbol(v: word): char {
    if v < 26 then Upper(v) else if v < 52 then Lower(v) else Digit(v)
  }

  function Upper(v: word): char {
    match v
    case 0 => 'A' case 1 => 'B' case 2 => 'C' case 3 => 'D' case 4 => 'E' case 5 => 'F' case 6 => 'G' case 7 => 'H'
    case 8 => 'I' case 9 => 'J' case 10 => 'K' case 11 => 'L' case 12 => 'M' case 13 => 'N' case 14 => 'O' case 15 => 'P'
    case 16 => 'Q' case 17 => 'R' case 18 => 'S' case 19 => 'T' case 20 => 'U' case 21 => 'V' case 22 => 'W' case 23 => 'X'
    case 24 => 'Y' case _ => 'Z'
  }

  function Lower(v: word): char {
    match v
    case 26 => 'a' case 27 => 'b' case 28 => 'c' case 29 => 'd' case 30 => 'e' case 31 => 'f' case 32 => 'g' case 33 => 'h'
    case 34 => 'i' case 35 => 'j' case 36 => 'k' case 37 => 'l' case 38 => 'm' case 39 => 'n' case 40 => 'o' case 41 => 'p'
    case 42 => 'q' case 43 => 'r' case 44 => 's' case 45 => 't' case 46 => 'u' case 47 => 'v' case 48 => 'w' case 49 => 'x'
    case 50 => 'y' case _ => 'z'
  }

  function Digit(v: word): char {
    match v
    case 52 => '0' case 53 => '1' case 54 => '2' case 55 => '3' case 56 => '4' case 57 => '5' case 58 => '6' case 59 => '7'
    case 60 => '8' case 61 => '9' case 62 => '+' case _ => '/'
  }

  /** `reverse_table`: 64 stands for a character outside the alphabet. */
  function ReverseSymbol(c: char): word {
    if 'A' <= c <= 'Z' then ReverseUpper(c) else if 'a' <= c <= 'z' then ReverseLower(c) else ReverseDigit(c)
  }

  function ReverseUpper(c: char): word {
    match c
    case 'A' => 0 case 'B' => 1 case 'C' => 2 case 'D' => 3 case 'E' => 4 case 'F' => 5 case 'G' => 6 case 'H' => 7
    case 'I' => 8 case 'J' => 9 case 'K' => 10 case 'L' => 11 case 'M' => 12 case 'N' => 13 case 'O' => 14 case 'P' => 15
    case 'Q' => 16 case 'R' => 17 case 'S' => 18 case 'T' => 19 case 'U' => 20 case 'V' => 21 case 'W' => 22 case 'X' => 23
    case 'Y' => 24 case 'Z' => 25
    case _ => 64
  }

  function ReverseLower(c: char): word {
    match c
    case 'a' => 26 case 'b' => 27 case 'c' => 28 case 'd' => 29 case 'e' => 30 case 'f' => 31 case 'g' => 32 case 'h' => 33
    case 'i' => 34 case 'j' => 35 case 'k' => 36 case 'l' => 37 case 'm' => 38 case 'n' => 39 case 'o' => 40 case 'p' => 41
    case 'q' => 42 case 'r' => 43 case 's' => 44 case 't' => 45 case 'u' => 46 case 'v' => 47 case 'w' => 48 case 'x' => 49
    case 'y' => 50 case 'z' => 51
    case _ => 64
  }

  function ReverseDigit(c: char): word {
    match c
    case '0' => 52 case '1' => 53 case '2' => 54 case '3' => 55 case '4' => 56 case '5' => 57 case '6' => 58 case '7' => 59
    case '8' => 60 case '9' => 61 case '+' => 62 case '/' => 63
    case _ => 64
  }

  lemma Symbols0(v: word)
    requires 0 <= v < 8
    ensures ReverseSymbol(Symbol(v)) == v
  {
    hide Lower, Digit, ReverseLower, ReverseDigit;
  }

  lemma Symbols8(v: word)
    requires 8 <= v < 16
    ensures ReverseSymbol(Symbol(v)) == v
  {
    hide Lower, Digit, ReverseLower, ReverseDigit;
  }

  lemma Symbols16(v: word)
    requires 16 <= v < 20
    ensures ReverseSymbol(Symbol(v)) == v
  {
    hide Lower, Digit, ReverseLower, ReverseDigit;
  }

  lemma Symbols20(v: word)
    requires 20 <= v < 24
    ensures ReverseSymbol(Symbol(v)) == v
  {
    hide Lower, Digit, ReverseLower, ReverseDigit;
  }

  lemma Symbols24(v: word)
    requires 24 <= v < 26
    ensures ReverseSymbol(Symbol(v)) == v
  {
    hide Lower, Digit, ReverseLower, ReverseDigit;
  }

  lemma Symbols26(v: word)
    requires 26 <= v < 34
    ensures ReverseSymbol(Symbol(v)) == v
  {
    hide Upper, Digit, ReverseUpper, ReverseDigit;
  }

  lemma Symbols34(v: word)
    requires 34 <= v < 42
    ensures ReverseSymbol(Symbol(v)) == v
  {
    hide Upper, Digit, ReverseUpper, ReverseDigit;
  }

  lemma Symbols42(v: word)
    requires 42 <= v < 50
    ensures ReverseSymbol(Symbol(v)) == v
  {
    hide Upper, Digit, ReverseUpper, ReverseDigit;
  }

  lemma Symbols50(v: word)
    requires 50 <= v < 52
    ensures ReverseSymbol(Symbol(v)) == v
  {
    hide Upper, Digit, ReverseUpper, ReverseDigit;
  }

  lemma Symbols52(v: word)
    requires 52 <= v < 60
    ensures ReverseSymbol(Symbol(v)) == v
  {
    hide Upper, Lower, ReverseUpper, ReverseLower;
  }

  lemma Symbols60(v: word)
    requires 60 <= v < 64
    ensures ReverseSymbol(Symbol(v)) == v
  {
    hide Upper, Lower, ReverseUpper, ReverseLower;
  }

  lemma SymbolRoundTrip(v: word)
    requires v < 64
    ensures ReverseSymbol(Symbol(v)) == v
  {
    hide Symbol, ReverseSymbol;
    if v < 8 {
      Symbols0(v);
    } else if v < 16 {
      Symbols8(v);
    } else if v < 24 {
      if v < 20 {
        Symbols16(v);
      } else {
        Symbols20(v);
      }
    } else if v < 26 {
      Symbols24(v);
    } else if v < 34 {
      Symbols26(v);
    } else if v < 42 {
      Symbols34(v);
    } else if v < 50 {
      Symbols42(v);
    } else if v < 52 {
      Symbols50(v);
    } else if v < 60 {
      Symbols52(v);
    } else {
      Symbols60(v);
    }
  }

  /** The alphabet of section 4 of RFC 4648, by number: 'A' is 65, 'a' is 97, '0' is 48. */
  function Code(v: nat): nat
    requires v < 64
  {
    if v < 26 then 65 + v else if v < 52 then 97 + (v - 26) else if v < 62 then 48 + (v - 52) else if v == 62 then 43 else 47
  }

  lemma UpperIs(v: word)
    requires v < 26
    ensures v as nat < 26 && Upper(v) as nat == 65 + v as nat
  {
  }

  lemma LowerIs(v: word)
    requires 26 <= v < 52
    ensures 26 <= v as nat < 52 && Lower(v) as nat == 97 + (v as nat - 26)
  {
  }

  lemma DigitIs(v: word)
    requires 52 <= v < 64
    ensures 52 <= v as nat < 64
    ensures Digit(v) as nat == if v as nat < 62 then 48 + (v as nat - 52) else if v as nat == 62 then 43 else 47
  {
  }

  /** The table is the alphabet of the standard. */
  lemma SymbolIs(v: word)
    requires v < 64
    ensures v as nat < 64 && Symbol(v) as nat == Code(v as nat)
  {
    hide Upper, Lower, Digit;
    if v < 26 {
      UpperIs(v);
    } else if v < 52 {
      LowerIs(v);
    } else {
      DigitIs(v);
    }
  }

  lemma ReverseUpperIs(c: char)
    requires 'A' <= c <= 'Z'
    ensures ReverseUpper(c) as nat == c as nat - 65
  {
  }

  lemma ReverseLowerIs(c: char)
    requires 'a' <= c <= 'z'
    ensures ReverseLower(c) as nat == c as nat - 97 + 26
  {
  }

  lemma ReverseDigitIs(c: char)
    ensures ReverseDigit(c) as nat ==
      if '0' <= c <= '9' then c as nat - 48 + 52 else if c == '+' then 62 else if c == '/' then 63 else 64
  {
  }

  /** The reverse table, by number: every character outside the alphabet has 64. */
  lemma ReverseSymbolIs(c: char)
    ensures ReverseSymbol(c) as nat ==
      if 'A' <= c <= 'Z' then c as nat - 65
      else if 'a' <= c <= 'z' then c as nat - 97 + 26
      else if '0' <= c <= '9' then c as nat - 48 + 52
      else if c == '+' then 62 else if c == '/' then 63 else 64
  {
    hide ReverseUpper, ReverseLower, ReverseDigit;
    if 'A' <= c <= 'Z' {
      ReverseUpperIs(c);
    } else if 'a' <= c <= 'z' {
      ReverseLowerIs(c);
    } else {
      ReverseDigitIs(c);
    }
  }

  /** Padding and white space have no value. */
  lemma SkippedHasNoValue(c: char)
    requires Skipped(c)
    ensures ReverseSymbol(c) == 64
  {
  }

  predicate IsSpace(c: char) {
    c == ' ' || 9 as char <= c <= 13 as char
  }

  predicate Skipped(c: char) {
    IsSpace(c) || c == '='
  }

  /** By number: tab to carriage return, the space, and '='. */
  lemma SkippedIs(c: char)
    ensures Skipped(c) <==> c as nat in {9, 10, 11, 12, 13, 32, 61}
  {
  }

  // ----- the encoding as the standard lays it out

  /** Byte `j` of the input, which zero bits extend. */
  function InputAt(b: seq<byte>, j: nat): word {
    if j < |b| then b[j] as word else 0
  }

  /** The `k`-th group of six bits of the input. */
  function SextetAt(b: seq<byte>, k: nat): word {
    var j := 3 * (k / 4);
    match k % 4
    case 0 => First(InputAt(b, j))
    case 1 => Second(InputAt(b, j), InputAt(b, j + 1))
    case 2 => Third(InputAt(b, j + 1), InputAt(b, j + 2))
    case _ => Fourth(InputAt(b, j + 2))
  }

  function First(x: word): word {
    x >> 2
  }

  function Second(x: word, y: word): word {
    ((x & 0x03) << 4) | (y >> 4)
  }

  function Third(y: word, z: word): word {
    ((y & 0x0F) << 2) | (z >> 6)
  }

  function Fourth(z: word): word {
    z & 0x3F
  }

  /** How many groups of six bits hold `n` bytes. */
  function SextetCount(n: nat): nat {
    (8 * n + 5) / 6
  }

  /** The text: a symbol for every group, padded with '=' to a multiple of four. */
  function Text(b: seq<byte>): (t: string)
    ensures |t| == 4 * ((|b| + 2) / 3)
  {
    seq(4 * ((|b| + 2) / 3), k requires 0 <= k => if k < SextetCount(|b|) then Symbol(SextetAt(b, k)) else '=')
  }

  // ----- the encoder

  const LIMIT := 1024968

  method Encode(buffer: seq<byte>) returns (text: string)
    ensures text == Encoded(buffer)
    ensures |text| == if |buffer| <= 1024968 then 4 * ((|buffer| + 2) / 3) else 0
  {
    hide Symbol, SextetAt, Recent, LowSextet, ShiftLeft;
    var size := |buffer|;
    if size > LIMIT {
      return "";
    }
    var retval := new char[((size + 2) / 3) * 4](_ => '=');
    var outpos, bitsCollected := 0, 0;
    var accumulator: word := 0;
    var i := 0;
    RecentOfNone(buffer, accumulator);
    while i < size
      invariant 0 <= i <= size
      invariant 6 * outpos + bitsCollected == 8 * i && bitsCollected < 6
      invariant Recent(buffer, i, accumulator)
      invariant forall k | 0 <= k < retval.Length :: retval[k] == if k < outpos then Symbol(SextetAt(buffer, k)) else '='
    {
      PushByte(buffer, i, accumulator);
      accumulator := (accumulator << 8) | (buffer[i] as word);
      bitsCollected := bitsCollected + 8;
      while bitsCollected >= 6
        invariant 6 * outpos + bitsCollected == 8 * (i + 1) && 0 <= bitsCollected < 14
        invariant forall k | 0 <= k < retval.Length :: retval[k] == if k < outpos then Symbol(SextetAt(buffer, k)) else '='
      {
        bitsCollected := bitsCollected - 6;
        EmitSextet(buffer, i + 1, accumulator, outpos, bitsCollected);
        retval[outpos] := Symbol(LowSextet(accumulator, bitsCollected));
        outpos := outpos + 1;
      }
      i := i + 1;
    }
    if bitsCollected > 0 {
      EmitLast(buffer, accumulator, outpos, bitsCollected);
      accumulator := ShiftLeft(accumulator, 6 - bitsCollected);
      retval[outpos] := Symbol(accumulator & 0x3F);
      outpos := outpos + 1;
    }
    text := retval[..];
  }

  /** The shifts of the source, by the only amounts that occur. */
  function ShiftRight(w: word, n: int): word {
    match n
    case 0 => w
    case 2 => w >> 2
    case 4 => w >> 4
    case _ => w >> 6
  }

  function ShiftLeft(w: word, n: int): word {
    match n
    case 2 => w << 2
    case _ => w << 4
  }

  function LowSextet(w: word, n: int): word {
    ShiftRight(w, n) & 0x3F
  }

  /** Whatever has overflowed, the accumulator still holds the last two bytes. */
  predicate Recent(b: seq<byte>, i: nat, accumulator: word)
    requires i <= |b|
  {
    && (i >= 1 ==> accumulator & 0xFF == b[i - 1] as word)
    && (i >= 2 ==> (accumulator >> 8) & 0xFF == b[i - 2] as word)
  }

  lemma RecentOfNone(b: seq<byte>, accumulator: word)
    ensures Recent(b, 0, accumulator)
  {
  }

  lemma PushByte(b: seq<byte>, i: nat, accumulator: word)
    requires i < |b| && Recent(b, i, accumulator)
    ensures Recent(b, i + 1, (accumulator << 8) | (b[i] as word))
  {
    ShiftInByte(accumulator, b[i]);
  }

  lemma ShiftInByte(a: word, x: byte)
    ensures ((a << 8) | (x as word)) & 0xFF == x as word
    ensures (((a << 8) | (x as word)) >> 8) & 0xFF == a & 0xFF
  {
  }

  lemma EmitSextet(b: seq<byte>, i: nat, accumulator: word, k: nat, bits: nat)
    requires 0 < i <= |b| && Recent(b, i, accumulator)
    requires 6 * (k + 1) + bits == 8 * i && bits < 8
    ensures LowSextet(accumulator, bits) == SextetAt(b, k)
  {
    hide First, Second, Third, Fourth, LowSextet, Recent;
    RecentSextets(b, i, accumulator);
    match k % 4 {
      case 0 =>
        assert bits == 2 && i == 3 * (k / 4) + 1;
      case 1 =>
        assert bits == 4 && i == 3 * (k / 4) + 2;
      case 2 =>
        assert bits == 6 && i == 3 * (k / 4) + 3;
      case _ =>
        assert bits == 0 && i == 3 * (k / 4) + 3;
    }
  }

  lemma RecentSextets(b: seq<byte>, i: nat, a: word)
    requires 0 < i <= |b| && Recent(b, i, a)
    ensures LowSextet(a, 2) == First(InputAt(b, i - 1)) && LowSextet(a, 0) == Fourth(InputAt(b, i - 1))
    ensures i >= 2 ==> LowSextet(a, 4) == Second(InputAt(b, i - 2), InputAt(b, i - 1))
    ensures i >= 2 ==> LowSextet(a, 6) == Third(InputAt(b, i - 2), InputAt(b, i - 1))
  {
    hide First, Second, Third, Fourth, LowSextet;
    SextetsOf(a, (a >> 8) & 0xFF, b[i - 1] as word);
  }

  lemma SextetsOf(a: word, w: word, x: word)
    requires a & 0xFF == x && (a >> 8) & 0xFF == w
    ensures LowSextet(a, 2) == First(x) && LowSextet(a, 0) == Fourth(x)
    ensures LowSextet(a, 4) == Second(w, x) && LowSextet(a, 6) == Third(w, x)
  {
  }

  lemma EmitLast(b: seq<byte>, accumulator: word, k: nat, bits: nat)
    requires 0 < |b| && Recent(b, |b|, accumulator)
    requires 6 * k + bits == 8 * |b| && 0 < bits < 6
    ensures ShiftLeft(accumulator, 6 - bits) & 0x3F == SextetAt(b, k)
  {
    hide Second, Third;
    LastSextets(accumulator, b[|b| - 1] as word);
    assert bits == 2 ==> k % 4 == 1 && |b| == 3 * (k / 4) + 1;
    assert bits == 4 ==> k % 4 == 2 && |b| == 3 * (k / 4) + 2;
  }

  lemma LastSextets(a: word, x: word)
    requires a & 0xFF == x
    ensures (a << 4) & 0x3F == Second(x, 0)
    ensures (a << 2) & 0x3F == Third(x, 0)
  {
  }

  // ----- the decoding

  /** The six-bit values of a text; white space and '=' carry none. */
  function Values(src: string): seq<word> {
    if src == [] then []
    else
      var c := src[|src| - 1];
      Values(src[..|src| - 1]) + (if Skipped(c) then [] else [ReverseSymbol(c)])
  }

  /** Byte `j` of a stream of six-bit values. */
  function OctetAt(vs: seq<word>, j: nat): byte
    requires 8 * j + 8 <= 6 * |vs|
  {
    var k := 4 * (j / 3);
    match j % 3
    case 0 => Octet0(vs[k], vs[k + 1])
    case 1 => Octet1(vs[k + 1], vs[k + 2])
    case _ => Octet2(vs[k + 2], vs[k + 3])
  }

  function Octet0(u: word, v: word): byte {
    Low((u << 2) | (v >> 4))
  }

  function Octet1(u: word, v: word): byte {
    Low((u << 4) | (v >> 2))
  }

  function Octet2(u: word, v: word): byte {
    Low((u << 6) | v)
  }

  /** Every whole byte of the stream: floor(6k/8) bytes for k values. */
  function Octets(vs: seq<word>): (b: seq<byte>)
    ensures |b| == 6 * |vs| / 8
  {
    seq(6 * |vs| / 8, j requires 0 <= j < 6 * |vs| / 8 => OctetAt(vs, j))
  }

  function DecodedText(src: string): seq<byte> {
    Octets(Values(src))
  }

  /**
   * `decode` indexes its 128-entry table with every character it does not skip and never looks at the size
   * of the caller's buffer, so the characters must be ASCII and the buffer large enough.
   */
  method Decode(src: string, buffer: array<byte>) returns (index: nat)
    requires forall c | c in src :: c < 128 as char
    requires |DecodedText(src)| <= buffer.Length
    modifies buffer
    ensures index == |DecodedText(src)|
    ensures buffer[..] == DecodedText(src) + old(buffer[index..])
  {
    hide OctetAt, ReverseSymbol, Low, Pushed, ShiftRight, Latest, Values, Octets;
    LatestOfNone(0);
    NoValues();
    index := 0;
    var bitsCollected := 0;
    var accumulator: word := 0;
    ghost var was := buffer[..];
    assert src[..0] == [] && src[..|src|] == src && buffer[..0] == [];
    for i := 0 to |src|
      invariant 6 * |Values(src[..i])| == 8 * index + bitsCollected && 0 <= bitsCollected < 8
      invariant Latest(Values(src[..i]), accumulator)
      invariant index <= buffer.Length
      invariant buffer[..index] == Octets(Values(src[..i])) && buffer[index..] == was[index..]
    {
      ghost var vs := Values(src[..i]);
      NextValue(src, i);
      ValuesFit(src, i + 1);
      var c := src[i];
      if Skipped(c) {
        continue;
      }
      ghost var v := ReverseSymbol(c);
      PushValue(vs, accumulator, v);
      ghost var before := accumulator;
      accumulator := Pushed(accumulator, ReverseSymbol(c));
      bitsCollected := bitsCollected + 6;
      OctetsGrow(vs, v);
      if bitsCollected >= 8 {
        bitsCollected := bitsCollected - 8;
        assert 8 * index + 8 <= 6 * |Values(src)|;
        EmitOctet(vs, v, before, index, bitsCollected);
        buffer[index] := Low(ShiftRight(accumulator, bitsCollected));
        index := index + 1;
        assert buffer[..index] == buffer[..index - 1] + [buffer[index - 1]];
      }
    }
    assert buffer[..] == buffer[..index] + buffer[index..];
  }

  /** Whatever has overflowed, the accumulator still holds the last six-bit value. */
  predicate Latest(vs: seq<word>, accumulator: word) {
    vs != [] ==> accumulator & 0x3F == vs[|vs| - 1] & 0x3F
  }

  lemma PushValue(vs: seq<word>, accumulator: word, v: word)
    ensures Latest(vs + [v], Pushed(accumulator, v))
  {
    LowSix(accumulator, v);
  }

  lemma NoValues()
    ensures Values([]) == [] && Octets([]) == []
  {
  }

  lemma LatestOfNone(accumulator: word)
    ensures Latest([], accumulator)
  {
  }

  lemma LowSix(a: word, v: word)
    ensures ((a << 6) | v) & 0x3F == v & 0x3F
  {
  }

  lemma NextValue(src: string, i: nat)
    requires i < |src|
    ensures Values(src[..i + 1]) == Values(src[..i]) + (if Skipped(src[i]) then [] else [ReverseSymbol(src[i])])
    ensures Skipped(src[i]) ==> Values(src[..i + 1]) == Values(src[..i])
  {
    assert src[..i + 1][..i] == src[..i];
  }

  lemma ValuesFit(src: string, i: nat)
    requires i <= |src|
    ensures |Values(src[..i])| <= |Values(src)|
    decreases |src| - i
  {
    if i < |src| {
      ValuesFit(src, i + 1);
      assert src[..i + 1][..i] == src[..i];
    } else {
      assert src[..i] == src;
    }
  }

  lemma OctetsGrow(vs: seq<word>, v: word)
    ensures 6 * |vs| % 8 < 2 ==> Octets(vs + [v]) == Octets(vs)
    ensures 6 * |vs| % 8 >= 2 ==> Octets(vs + [v]) == Octets(vs) + [OctetAt(vs + [v], 6 * |vs| / 8)]
  {
    hide Octet0, Octet1, Octet2;
  }

  function Pushed(accumulator: word, v: word): word {
    (accumulator << 6) | v
  }

  lemma EmitOctet(vs: seq<word>, v: word, accumulator: word, j: nat, bits: nat)
    requires 6 * |vs| + 6 == 8 * j + 8 + bits && bits < 6
    requires Latest(vs, accumulator)
    ensures Low(ShiftRight(Pushed(accumulator, v), bits)) == OctetAt(vs + [v], j)
  {
    hide Octet0, Octet1, Octet2, Low, ShiftRight, Pushed;
    var u := vs[|vs| - 1];
    OctetsOf(u, v, accumulator);
    match j % 3 {
      case 0 =>
        assert bits == 4 && |vs| == 4 * (j / 3) + 1;
      case 1 =>
        assert bits == 2 && |vs| == 4 * (j / 3) + 2;
      case _ =>
        assert bits == 0 && |vs| == 4 * (j / 3) + 3;
    }
  }

  lemma OctetsOf(u: word, v: word, a: word)
    requires a & 0x3F == u & 0x3F
    ensures Low(ShiftRight(Pushed(a, v), 4)) == Octet0(u, v)
    ensures Low(ShiftRight(Pushed(a, v), 2)) == Octet1(u, v)
    ensures Low(ShiftRight(Pushed(a, v), 0)) == Octet2(u, v)
  {
    hide Low, ShiftRight, Pushed, Octet0, Octet1, Octet2;
    FirstOctet(u, v, a);
    SecondOctet(u, v, a);
    ThirdOctet(u, v, a);
  }

  lemma FirstOctet(u: word, v: word, a: word)
    requires a & 0x3F == u & 0x3F
    ensures Low(ShiftRight(Pushed(a, v), 4)) == Octet0(u, v)
  {
    SixBits(u, v, a);
  }

  lemma SecondOctet(u: word, v: word, a: word)
    requires a & 0x3F == u & 0x3F
    ensures Low(ShiftRight(Pushed(a, v), 2)) == Octet1(u, v)
  {
    SixBits(u, v, a);
  }

  lemma ThirdOctet(u: word, v: word, a: word)
    requires a & 0x3F == u & 0x3F
    ensures Low(ShiftRight(Pushed(a, v), 0)) == Octet2(u, v)
  {
    SixBits(u, v, a);
  }

  lemma SixBits(u: word, v: word, a: word)
    requires a & 0x3F == u & 0x3F
    ensures (((a << 6) | v) >> 4) & 0xFF == ((u << 2) | (v >> 4)) & 0xFF
    ensures (((a << 6) | v) >> 2) & 0xFF == ((u << 4) | (v >> 2)) & 0xFF
    ensures ((a << 6) | v) & 0xFF == ((u << 6) | v) & 0xFF
  {
  }

  // ----- round trip

  function StripSpace(t: string): string {
    if t == [] then []
    else
      var c := t[|t| - 1];
      StripSpace(t[..|t| - 1]) + (if IsSpace(c) then [] else [c])
  }

  lemma {:induction false} SpaceCarriesNothing(t: string)
    ensures Values(StripSpace(t)) == Values(t)
    decreases |t|
  {
    hide ReverseSymbol;
    if t != [] {
      var rest, c := t[..|t| - 1], t[|t| - 1];
      SpaceCarriesNothing(rest);
      if IsSpace(c) {
        assert StripSpace(t) == StripSpace(rest) && Values(t) == Values(rest);
      } else {
        var kept := StripSpace(rest) + [c];
        assert kept[..|kept| - 1] == StripSpace(rest) && StripSpace(t) == kept;
      }
    }
  }

  function Sextets(b: seq<byte>): (vs: seq<word>)
    ensures |vs| == SextetCount(|b|)
  {
    seq(SextetCount(|b|), k requires 0 <= k => SextetAt(b, k))
  }

  lemma SextetIsSmall(b: seq<byte>, k: nat)
    ensures SextetAt(b, k) < 64
  {
    hide InputAt, First, Second, Third, Fourth;
    var j := 3 * (k / 4);
    InputIsByte(b, j);
    InputIsByte(b, j + 1);
    InputIsByte(b, j + 2);
    SmallSextets(InputAt(b, j), InputAt(b, j + 1), InputAt(b, j + 2));
  }

  lemma InputIsByte(b: seq<byte>, j: nat)
    ensures InputAt(b, j) <= 0xFF
  {
  }

  lemma SmallSextets(x: word, y: word, z: word)
    requires x <= 0xFF && y <= 0xFF && z <= 0xFF
    ensures First(x) < 64 && Second(x, y) < 64 && Third(y, z) < 64 && Fourth(z) < 64
  {
    PlainSextets(x, y, z);
  }

  lemma PlainSextets(x: word, y: word, z: word)
    requires x <= 0xFF && y <= 0xFF && z <= 0xFF
    ensures x >> 2 < 64 && ((x & 0x03) << 4) | (y >> 4) < 64 && ((y & 0x0F) << 2) | (z >> 6) < 64 && z & 0x3F < 64
  {
  }

  /** Characters of the alphabet are neither padding nor white space. */
  lemma SymbolNotSkipped(v: word)
    requires v < 64
    ensures !Skipped(Symbol(v))
  {
    hide Symbol, ReverseSymbol, Skipped;
    SymbolRoundTrip(v);
    if Skipped(Symbol(v)) {
      SkippedHasNoValue(Symbol(v));
    }
  }

  /** A full text is symbols, then as many '=' as the last group of three bytes lacks. */
  lemma TextEnds(b: seq<byte>, k: nat)
    requires k < |Text(b)|
    ensures var pads := (3 - |b| % 3) % 3;
            Text(b)[k] == '=' <==> |Text(b)| - pads <= k
  {
    hide Symbol, SextetAt, Skipped;
    if k < SextetCount(|b|) {
      SextetIsSmall(b, k);
      SymbolNotSkipped(SextetAt(b, k));
      SkippedIs('=');
    }
  }

  /** Four sextets are the 24 bits of three bytes. */
  lemma SextetsAreTheBits(b: seq<byte>, g: nat)
    ensures (SextetAt(b, 4 * g) << 18) | (SextetAt(b, 4 * g + 1) << 12) | (SextetAt(b, 4 * g + 2) << 6)
              | SextetAt(b, 4 * g + 3)
         == (InputAt(b, 3 * g) << 16) | (InputAt(b, 3 * g + 1) << 8) | InputAt(b, 3 * g + 2)
  {
    hide InputAt, First, Second, Third, Fourth, SextetAt;
    SextetForms(b, g);
    InputIsByte(b, 3 * g);
    InputIsByte(b, 3 * g + 1);
    InputIsByte(b, 3 * g + 2);
    GroupBits(InputAt(b, 3 * g), InputAt(b, 3 * g + 1), InputAt(b, 3 * g + 2));
  }

  lemma GroupBits(x: word, y: word, z: word)
    requires x <= 0xFF && y <= 0xFF && z <= 0xFF
    ensures (First(x) << 18) | (Second(x, y) << 12) | (Third(y, z) << 6) | Fourth(z) == (x << 16) | (y << 8) | z
  {
    PlainGroupBits(x, y, z);
  }

  lemma PlainGroupBits(x: word, y: word, z: word)
    requires x <= 0xFF && y <= 0xFF && z <= 0xFF
    ensures ((x >> 2) << 18) | ((((x & 0x03) << 4) | (y >> 4)) << 12) | ((((y & 0x0F) << 2) | (z >> 6)) << 6) | (z & 0x3F)
         == (x << 16) | (y << 8) | z
  {
  }

  /** Three bytes are the 24 bits of four values. */
  lemma OctetsAreTheBits(vs: seq<word>, g: nat)
    requires 4 * g + 4 <= |vs| && forall k | 0 <= k < |vs| :: vs[k] < 64
    ensures (OctetAt(vs, 3 * g) as word << 16) | (OctetAt(vs, 3 * g + 1) as word << 8) | OctetAt(vs, 3 * g + 2) as word
         == (vs[4 * g] << 18) | (vs[4 * g + 1] << 12) | (vs[4 * g + 2] << 6) | vs[4 * g + 3]
  {
    hide Octet0, Octet1, Octet2;
    assert (3 * g + 1) / 3 == g && (3 * g + 2) / 3 == g;
    ValueBits(vs[4 * g], vs[4 * g + 1], vs[4 * g + 2], vs[4 * g + 3]);
  }

  lemma ValueBits(t: word, u: word, v: word, w: word)
    requires t < 64 && u < 64 && v < 64 && w < 64
    ensures (Octet0(t, u) as word << 16) | (Octet1(u, v) as word << 8) | Octet2(v, w) as word
         == (t << 18) | (u << 12) | (v << 6) | w
  {
    PlainValueBits(t, u, v, w);
  }

  lemma PlainValueBits(t: word, u: word, v: word, w: word)
    requires t < 64 && u < 64 && v < 64 && w < 64
    ensures ((((t << 2) | (u >> 4)) & 0xff) << 16) | ((((u << 4) | (v >> 2)) & 0xff) << 8) | (((v << 6) | w) & 0xff)
         == (t << 18) | (u << 12) | (v << 6) | w
  {
  }

  /** The first `n` characters of a text carry its first `n` values, and padding none. */
  lemma {:induction false} ValuesOfPrefix(b: seq<byte>, n: nat)
    requires n <= |Text(b)|
    ensures Values(Text(b)[..n]) == Sextets(b)[..if n < SextetCount(|b|) then n else SextetCount(|b|)]
    decreases n
  {
    hide Symbol, ReverseSymbol, SextetAt;
    if n > 0 {
      var k := n - 1;
      ValuesOfPrefix(b, k);
      NextValue(Text(b), k);
      if k < SextetCount(|b|) {
        SextetIsSmall(b, k);
        SymbolRoundTrip(SextetAt(b, k));
        SymbolNotSkipped(SextetAt(b, k));
        assert Sextets(b)[..k + 1] == Sextets(b)[..k] + [SextetAt(b, k)];
      }
    }
  }

  lemma OctetsOfSextets(b: seq<byte>)
    ensures Octets(Sextets(b)) == b
  {
    hide SextetAt, OctetAt;
    var vs := Sextets(b);
    assert 6 * |vs| / 8 == |b|;
    forall j | 0 <= j < |b|
      ensures OctetAt(vs, j) == b[j]
    {
      OctetOfSextets(b, j);
    }
  }

  lemma OctetOfSextets(b: seq<byte>, j: nat)
    requires j < |b| && 8 * j + 8 <= 6 * SextetCount(|b|)
    ensures OctetAt(Sextets(b), j) == b[j]
  {
    hide InputAt, First, Second, Third, Fourth, Octet0, Octet1, Octet2, Low, SextetAt;
    var g := j / 3;
    InputIsByte(b, 3 * g);
    InputIsByte(b, 3 * g + 1);
    InputIsByte(b, 3 * g + 2);
    GroupRoundTrip(InputAt(b, 3 * g), InputAt(b, 3 * g + 1), InputAt(b, 3 * g + 2));
    InputByte(b, j);
    SextetForms(b, g);
    if j % 3 == 0 {
      assert j == 3 * g;
    } else if j % 3 == 1 {
      assert j == 3 * g + 1;
    } else {
      assert j == 3 * g + 2;
    }
  }

  lemma SextetForms(b: seq<byte>, g: nat)
    ensures SextetAt(b, 4 * g) == First(InputAt(b, 3 * g))
    ensures SextetAt(b, 4 * g + 1) == Second(InputAt(b, 3 * g), InputAt(b, 3 * g + 1))
    ensures SextetAt(b, 4 * g + 2) == Third(InputAt(b, 3 * g + 1), InputAt(b, 3 * g + 2))
    ensures SextetAt(b, 4 * g + 3) == Fourth(InputAt(b, 3 * g + 2))
  {
    hide InputAt, First, Second, Third, Fourth;
    assert (4 * g + 1) / 4 == g && (4 * g + 2) / 4 == g && (4 * g + 3) / 4 == g;
  }

  lemma InputByte(b: seq<byte>, j: nat)
    requires j < |b|
    ensures Low(InputAt(b, j)) == b[j]
  {
    LowOfByte(b[j]);
  }

  lemma LowOfByte(x: byte)
    ensures Low(x as word) == x
  {
  }

  lemma GroupRoundTrip(x: word, y: word, z: word)
    requires x <= 0xFF && y <= 0xFF && z <= 0xFF
    ensures Octet0(First(x), Second(x, y)) == Low(x)
    ensures Octet1(Second(x, y), Third(y, z)) == Low(y)
    ensures Octet2(Third(y, z), Fourth(z)) == Low(z)
  {
    PlainGroup(x, y, z);
  }

  lemma PlainGroup(x: word, y: word, z: word)
    requires x <= 0xFF && y <= 0xFF && z <= 0xFF
    ensures (((x >> 2) << 2) | ((((x & 0x03) << 4) | (y >> 4)) >> 4)) & 0xFF == x & 0xFF
    ensures (((((x & 0x03) << 4) | (y >> 4)) << 4) | ((((y & 0x0F) << 2) | (z >> 6)) >> 2)) & 0xFF == y & 0xFF
    ensures (((((y & 0x0F) << 2) | (z >> 6)) << 6) | (z & 0x3F)) & 0xFF == z & 0xFF
  {
  }

  /** Decoding an encoded text gives the bytes back, wherever white space was put into it. */
  lemma RoundTrip(b: seq<byte>, t: string)
    requires StripSpace(t) == Text(b)
    ensures DecodedText(t) == b
  {
    hide Text;
    SpaceCarriesNothing(t);
    ValuesOfPrefix(b, |Text(b)|);
    assert Text(b)[..|Text(b)|] == Text(b);
    assert SextetCount(|b|) <= |Text(b)|;
    assert Sextets(b)[..SextetCount(|b|)] == Sextets(b);
    OctetsOfSextets(b);
  }

  /** What `encode` returns, its size limit included. */
  function Encoded(b: seq<byte>): string {
    if |b| > LIMIT then "" else Text(b)
  }

  /** The encoder is undone exactly up to its size limit. */
  lemma RoundTripLimit(b: seq<byte>, t: string)
    requires StripSpace(t) == Encoded(b)
    ensures DecodedText(t) == b <==> |b| <= LIMIT
  {
    if |b| <= LIMIT {
      RoundTrip(b, t);
    } else {
      SpaceCarriesNothing(t);
      assert |Octets(Values(""))| == 0;
    }
  }

  // ----- characters outside the alphabet

  lemma {:induction false} ValuesAppend(s: string, t: string)
    ensures Values(s + t) == Values(s) + Values(t)
    decreases |t|
  {
    hide ReverseSymbol;
    if t == [] {
      assert s + t == s;
    } else {
      var n := |t| - 1;
      assert (s + t)[..|s + t| - 1] == s + t[..n];
      ValuesAppend(s, t[..n]);
    }
  }

  /**
   * The values before a character outside the alphabet, as they come out: the seventh bit of its value, 64, falls
   * on the lowest bit of the value before it, unless that value's byte is already written.
   */
  function Nudged(vs: seq<word>): (r: seq<word>)
    ensures |r| == |vs|
  {
    if |vs| % 4 == 0 then vs else vs[..|vs| - 1] + [SetLow(vs[|vs| - 1])]
  }

  function SetLow(v: word): word {
    v | 1
  }

  lemma OutsideAfter(u: word)
    ensures Octet0(u, 64) == Octet0(SetLow(u), 0)
    ensures Octet1(u, 64) == Octet1(SetLow(u), 0)
    ensures Octet2(u, 64) == Octet2(SetLow(u), 0)
  {
    assert (u << 2) | (64 >> 4) == ((u | 1) << 2) | (0 >> 4);
    assert (u << 4) | (64 >> 2) == ((u | 1) << 4) | (0 >> 2);
    assert (u << 6) | 64 == ((u | 1) << 6) | 0;
  }

  lemma OutsideBefore(v: word)
    ensures Octet0(64, v) == Octet0(0, v)
    ensures Octet1(64, v) == Octet1(0, v)
    ensures Octet2(64, v) == Octet2(0, v)
  {
    PlainOutside(v);
  }

  lemma PlainOutside(v: word)
    ensures ((64 << 2) | (v >> 4)) & 0xff == ((0 << 2) | (v >> 4)) & 0xff
    ensures ((64 << 4) | (v >> 2)) & 0xff == ((0 << 4) | (v >> 2)) & 0xff
    ensures ((64 << 6) | v) & 0xff == ((0 << 6) | v) & 0xff
  {
  }

  lemma LowBitUnused(u: word, v: word)
    ensures Octet0(u, SetLow(v)) == Octet0(u, v)
    ensures Octet1(u, SetLow(v)) == Octet1(u, v)
  {
    assert (v | 1) >> 4 == v >> 4;
    assert (v | 1) >> 2 == v >> 2;
  }

  /** Value `i` beside, or at, a value of 64 at place `|a|`. */
  lemma OutsideAt(a: seq<word>, b: seq<word>, i: nat)
    requires i <= |a| + |b|
    ensures var vs, ws, k := a + [64] + b, Nudged(a) + [0] + b, |a|;
            ws[i] == if i == k then 0 else if i == k - 1 && k % 4 != 0 then SetLow(vs[i]) else vs[i]
  {
    hide SetLow;
  }

  /** The byte that a value of 64 at place `|a|` takes part in. */
  lemma OutsideOctet(a: seq<word>, b: seq<word>, j: nat)
    requires 8 * j + 8 <= 6 * (|a| + 1 + |b|)
    ensures OctetAt(a + [64] + b, j) == OctetAt(Nudged(a) + [0] + b, j)
  {
    hide Octet0, Octet1, Octet2, SetLow, Nudged;
    var vs, p := a + [64] + b, 4 * (j / 3) + j % 3;
    OutsideAt(a, b, p);
    OutsideAt(a, b, p + 1);
    if p == |a| {
      OutsideBefore(vs[p + 1]);
    } else if p == |a| - 1 {
      OutsideAfter(vs[p]);
    } else if p == |a| - 2 {
      LowBitUnused(vs[p], vs[p + 1]);
    }
  }

  lemma OutsideOctets(a: seq<word>, b: seq<word>)
    ensures Octets(a + [64] + b) == Octets(Nudged(a) + [0] + b)
  {
    hide OctetAt, Nudged;
    forall j: nat | j < 6 * (|a| + 1 + |b|) / 8
      ensures OctetAt(a + [64] + b, j) == OctetAt(Nudged(a) + [0] + b, j)
    {
      OutsideOctet(a, b, j);
    }
  }

  lemma OneValue(c: char)
    requires !Skipped(c)
    ensures Values([c]) == [ReverseSymbol(c)]
  {
    hide ReverseSymbol;
    assert [c][..0] == [];
  }

  /**
   * The check for characters outside the alphabet does nothing. Anywhere in any text such a character counts as
   * six zero bits, and sets the bit before them.
   */
  lemma ForeignCharacterIsDecoded(before: string, c: char, after: string)
    requires !Skipped(c) && ReverseSymbol(c) == 64
    ensures DecodedText(before + [c] + after) == Octets(Nudged(Values(before)) + [0] + Values(after))
    ensures |DecodedText(before + [c] + after)| == 6 * (|Values(before)| + 1 + |Values(after)|) / 8
  {
    hide ReverseSymbol, OctetAt, Nudged, Values, Skipped;
    ValuesAppend(before, [c]);
    ValuesAppend(before + [c], after);
    OneValue(c);
    OutsideOctets(Values(before), Values(after));
  }
}
