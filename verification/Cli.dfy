/** The example CLI's instruction argument (examples/rust/src/main.rs:171-200):
    PROGRAM or PROGRAM:OFFSET:HEX. Strings are their UTF-8 bytes. */
module Cli {
  import opened Wrappers
  import opened Filters

  datatype SpecError = BadProgram | BadOffset | BadHex | BadShape

  /** How a key prints and parses. */
  datatype KeyText = KeyText(print_: Pubkey -> string, parse: string -> Option<Pubkey>)

  /** A printed key parses back and holds no colon. */
  ghost predicate RoundTrips(keys: KeyText) {
    forall k: Pubkey :: keys.parse(keys.print_(k)) == Some(k) && ':' !in keys.print_(k)
  }

  // ----- integers as text -----

  function DigitOf(c: char, radix: nat): Option<nat> {
    var d := if '0' <= c <= '9' then c as int - '0' as int
             else if 'a' <= c <= 'z' then c as int - 'a' as int + 10
             else if 'A' <= c <= 'Z' then c as int - 'A' as int + 10
             else radix;
    if d < radix then Some(d) else None
  }

  function ParseDigits(s: string, radix: nat, max: nat, sofar: nat): (r: Option<nat>)
    ensures r.Some? && sofar <= max ==> r.value <= max
  {
    if s == "" then Some(sofar) else
    match DigitOf(s[0], radix)
    case None => None
    case Some(d) => if sofar * radix + d > max then None else ParseDigits(s[1..], radix, max, sofar * radix + d)
  }

  /** `from_str_radix` of an unsigned type: one leading plus is allowed. */
  function ParseUnsigned(s: string, radix: nat, max: nat): (r: Option<nat>)
    ensures r.Some? ==> r.value <= max
  {
    if s == "" || s == "+" || s == "-" then None
    else if s[0] == '+' then ParseDigits(s[1..], radix, max, 0)
    else ParseDigits(s, radix, max, 0)
  }

  // ----- hex -----

  function DecodePairs(hex: string): Option<seq<byte>>
    requires |hex| % 2 == 0
  {
    if hex == "" then Some([]) else
    match ParseUnsigned(hex[..2], 16, 255)
    case None => None
    case Some(value) =>
      match DecodePairs(hex[2..])
      case None => None
      case Some(rest) =>
        var first: byte := value;
        Some([first] + rest)
  }

  /** A pair that is not UTF-8 holds no digit either. */
  function DecodeHex(hex: string): Option<seq<byte>> {
    if |hex| % 2 != 0 then None else DecodePairs(hex)
  }

  /** Section 8 of RFC 4648, in upper or lower case. */
  function HexDigit(d: nat, upper: bool): char
    requires d < 16
  {
    if upper then "0123456789ABCDEF"[d] else "0123456789abcdef"[d]
  }

  /** A hex digit and its value. */
  predicate Stands(c: char, value: int) {
    0 <= value < 16 && (c == HexDigit(value, false) || c == HexDigit(value, true))
  }

  /** Two hex digits, or a plus and one. */
  predicate PairReads(a: char, b: char, value: nat) {
    if a == '+' then Stands(b, value) else Stands(a, value / 16) && Stands(b, value % 16)
  }

  lemma {:induction false} HexDigitAt(d: nat, upper: bool)
    requires d < 16
    ensures HexDigit(d, upper) ==
              if d < 10 then '0' + d as char else (if upper then 'A' else 'a') + (d - 10) as char
  {}

  lemma {:induction false} DigitStands(c: char, value: nat)
    ensures DigitOf(c, 16) == Some(value) <==> Stands(c, value)
  {
    hide HexDigit;
    if value < 16 {
      HexDigitAt(value, false);
      HexDigitAt(value, true);
    }
  }

  lemma {:induction false} OneDigit(c: char, sofar: nat)
    requires sofar < 16
    ensures ParseDigits([c], 16, 255, sofar) ==
              match DigitOf(c, 16) case None => None case Some(d) => Some(16 * sofar + d)
  {}

  lemma {:induction false} PairIff(a: char, b: char, value: byte)
    ensures ParseUnsigned([a, b], 16, 255) == Some(value) <==> PairReads(a, b, value)
  {
    hide DigitOf, Stands;
    assert [a, b][1..] == [b];
    OneDigit(b, 0);
    DigitStands(b, value);
    DigitStands(b, value % 16);
    DigitStands(a, value / 16);
    NoSignStands();
    if DigitOf(a, 16).Some? {
      OneDigit(b, DigitOf(a, 16).value);
    }
  }

  lemma {:induction false} NoSignStands()
    ensures DigitOf('+', 16) == None && DigitOf('-', 16) == None
    ensures forall c :: DigitOf(c, 16).Some? ==> DigitOf(c, 16).value < 16
  {}

  predicate AllRead(hex: string, bytes: seq<byte>) {
    && |hex| == 2 * |bytes|
    && forall i :: 0 <= i < |bytes| ==> PairReads(hex[2 * i], hex[2 * i + 1], bytes[i])
  }

  lemma {:induction false} TailReads(hex: string, bytes: seq<byte>)
    requires bytes != [] && |hex| == 2 * |bytes|
    ensures AllRead(hex, bytes) <==> PairReads(hex[0], hex[1], bytes[0]) && AllRead(hex[2..], bytes[1..])
  {}

  /** The exact set of strings `DecodeHex` accepts, and what it reads from each. */
  lemma {:induction false} DecodeHexIff(hex: string, bytes: seq<byte>)
    ensures DecodeHex(hex) == Some(bytes) <==> AllRead(hex, bytes)
    decreases |hex|
  {
    if |hex| % 2 == 0 && hex != "" && bytes != [] {
      hide ParseUnsigned, PairReads;
      var rest := DecodePairs(hex[2..]);
      assert hex[..2] == [hex[0], hex[1]];
      PairIff(hex[0], hex[1], bytes[0]);
      DecodeHexIff(hex[2..], bytes[1..]);
      assert bytes == [bytes[0]] + bytes[1..];
      if DecodeHex(hex) == Some(bytes) {
        assert bytes[1..] == rest.value;
      }
      if |hex| == 2 * |bytes| {
        TailReads(hex, bytes);
      }
    }
  }

  function Base16(bytes: seq<byte>, upper: bool): (hex: string)
    ensures |hex| == 2 * |bytes|
  {
    if bytes == [] then "" else
    [HexDigit(bytes[0] / 16, upper), HexDigit(bytes[0] % 16, upper)] + Base16(bytes[1..], upper)
  }

  lemma {:induction false} PairUndone(value: byte, upper: bool)
    ensures ParseUnsigned([HexDigit(value / 16, upper), HexDigit(value % 16, upper)], 16, 255) == Some(value)
  {
    hide HexDigit, ParseUnsigned;
    HexDigitAt(value / 16, upper);
    PairIff(HexDigit(value / 16, upper), HexDigit(value % 16, upper), value);
  }

  lemma {:induction false} DecodeNext(pair: string, rest: string)
    requires |pair| == 2
    requires ParseUnsigned(pair, 16, 255).Some? && DecodeHex(rest).Some?
    ensures DecodeHex(pair + rest) == Some([ParseUnsigned(pair, 16, 255).value] + DecodeHex(rest).value)
  {
    hide ParseUnsigned;
    assert (pair + rest)[..2] == pair && (pair + rest)[2..] == rest;
  }

  /** Decoding undoes encoding, in either case. */
  lemma {:induction false} DecodeUndoesBase16(bytes: seq<byte>, upper: bool)
    ensures DecodeHex(Base16(bytes, upper)) == Some(bytes)
  {
    if bytes == [] {
    } else {
      var first := [HexDigit(bytes[0] / 16, upper), HexDigit(bytes[0] % 16, upper)];
      hide HexDigit, ParseUnsigned;
      DecodeUndoesBase16(bytes[1..], upper);
      PairUndone(bytes[0], upper);
      DecodeNext(first, Base16(bytes[1..], upper));
      assert bytes == [bytes[0]] + bytes[1..];
    }
  }

  // ----- decimal -----

  function Decimal(n: nat): string {
    if n < 10 then ['0' + n as char] else Decimal(n / 10) + ['0' + (n % 10) as char]
  }

  lemma {:induction false} ParseDigitsConcat(a: string, b: string, radix: nat, max: nat, sofar: nat)
    ensures var first := ParseDigits(a, radix, max, sofar);
            ParseDigits(a + b, radix, max, sofar) ==
              if first.None? then None else ParseDigits(b, radix, max, first.value)
    decreases |a|
  {
    if a == "" {
      assert a + b == b;
    } else {
      assert (a + b)[1..] == a[1..] + b;
      var d := DigitOf(a[0], radix);
      if d.Some? {
        ParseDigitsConcat(a[1..], b, radix, max, sofar * radix + d.value);
      }
    }
  }

  lemma {:induction false} DecimalParses(n: nat, max: nat)
    requires n <= max
    ensures ParseDigits(Decimal(n), 10, max, 0) == Some(n)
    ensures Decimal(n) != "" && forall i :: 0 <= i < |Decimal(n)| ==> '0' <= Decimal(n)[i] <= '9'
  {
    var last := ['0' + (n % 10) as char];
    assert last[1..] == "";
    if n >= 10 {
      DecimalParses(n / 10, max);
      ParseDigitsConcat(Decimal(n / 10), last, 10, max, 0);
    } else {
      assert Decimal(n) == last;
    }
  }

  /** The value of a string of decimal digits, leading zeros allowed. */
  function Value(digits: string): nat
    requires AllDecimal(digits)
  {
    if digits == "" then 0 else
    var n := |digits| - 1;
    10 * Value(digits[..n]) + (digits[n] as int - '0' as int)
  }

  predicate AllDecimal(s: string) {
    forall i :: 0 <= i < |s| ==> '0' <= s[i] <= '9'
  }

  /** Reading digits one by one with an overflow check at each accepts exactly
      the decimal strings whose whole value is in range. */
  lemma {:induction false} DecimalDigitsIff(s: string, max: nat, value: nat)
    ensures ParseDigits(s, 10, max, 0) == Some(value)
            <==> AllDecimal(s) && value == Value(s) && (s == "" || value <= max)
  {
    if s == "" {
    } else {
      var n := |s| - 1;
      var front, last := s[..n], [s[n]];
      assert s == front + last && last[1..] == "";
      ParseDigitsConcat(front, last, 10, max, 0);
      var read := ParseDigits(front, 10, max, 0);
      if read.Some? {
        DecimalDigitsIff(front, max, read.value);
      }
      if AllDecimal(s) {
        DecimalDigitsIff(front, max, Value(front));
      }
    }
  }

  /** The offsets accepted: one optional plus, then at least one decimal digit,
      leading zeros allowed, with a value in range. */
  lemma {:induction false} ParseDecimalIff(s: string, max: nat, value: nat)
    ensures ParseUnsigned(s, 10, max) == Some(value) <==>
              var digits := if s != "" && s[0] == '+' then s[1..] else s;
              digits != "" && AllDecimal(digits) && value == Value(digits) && value <= max
  {
    var digits := if s != "" && s[0] == '+' then s[1..] else s;
    DecimalDigitsIff(digits, max, value);
    if s == "-" {
      assert s[0] == '-';
    }
  }

  // ----- the argument -----

  /** `split(':')`. */
  function Split(s: string): (parts: seq<string>)
    ensures parts != []
  {
    if s == "" then [""]
    else if s[0] == ':' then [""] + Split(s[1..])
    else
      var rest := Split(s[1..]);
      [[s[0]] + rest[0]] + rest[1..]
  }

  lemma {:induction false} SplitAt(a: string, b: string)
    requires ':' !in a
    ensures Split(a + ":" + b) == [a] + Split(b)
  {
    if a == "" {
      assert a + ":" + b == ":" + b && (":" + b)[1..] == b;
    } else {
      assert (a + ":" + b)[1..] == a[1..] + ":" + b;
      SplitAt(a[1..], b);
      assert [a[0]] + a[1..] == a;
    }
  }

  lemma {:induction false} SplitNone(a: string)
    requires ':' !in a
    ensures Split(a) == [a]
  {
    if a == "" {
    } else {
      SplitNone(a[1..]);
      assert [a[0]] + a[1..] == a;
    }
  }

  function Program(program: Pubkey): InstructionFilter {
    InstructionFilter(program, [], None)
  }

  /** What an argument means, by its parts. */
  function Meaning(keys: KeyText, spec: string): Result<InstructionFilter, SpecError> {
    var parts := Split(spec);
    match keys.parse(parts[0])
    case None => Err(BadProgram)
    case Some(program) =>
      if |parts| == 1 then Ok(Program(program))
      else if |parts| != 3 then Err(BadShape)
      else
        match ParseUnsigned(parts[1], 10, U32_MAX)
        case None => Err(BadOffset)
        case Some(offset) =>
          match DecodeHex(parts[2])
          case None => Err(BadHex)
          case Some(bytes) => Ok(InstructionFilter(program, [Memcmp(offset, bytes)], None))
  }

  /** `parts.next()` of the split iterator. */
  function NextPart(parts: seq<string>, i: nat): Option<string> {
    if i < |parts| then Some(parts[i]) else None
  }

  method ParseInstruction(keys: KeyText, spec: string) returns (r: Result<InstructionFilter, SpecError>)
    ensures r == Meaning(keys, spec)
  {
    var parts, i := Split(spec), 0;
    var first := NextPart(parts, i);
    i := i + 1;
    var program := keys.parse(first.value);
    if program.None? {
      return Err(BadProgram);
    }
    var filter := Program(program.value);
    var second := NextPart(parts, i);
    i := i + 1;
    var third := NextPart(parts, i);
    i := i + 1;
    var fourth := NextPart(parts, i);
    if second.None? {
      return Ok(filter);
    }
    if third.None? || fourth.Some? {
      return Err(BadShape);
    }
    var offset := ParseUnsigned(second.value, 10, U32_MAX);
    if offset.None? {
      return Err(BadOffset);
    }
    var bytes := DecodeHex(third.value);
    if bytes.None? {
      return Err(BadHex);
    }
    assert [] + [Memcmp(offset.value, bytes.value)] == [Memcmp(offset.value, bytes.value)];
    return Ok(filter.(memcmp := filter.memcmp + [Memcmp(offset.value, bytes.value)]));
  }

  function Print(keys: KeyText, program: Pubkey, offset: u32, bytes: seq<byte>, upper: bool): string {
    keys.print_(program) + ":" + (Decimal(offset) + ":" + Base16(bytes, upper))
  }

  /** Parsing undoes printing, for every key, offset and byte string, with the
      hex in either case. */
  lemma {:induction false} ParseUndoesPrint(keys: KeyText, program: Pubkey, offset: u32, bytes: seq<byte>, upper: bool)
    requires RoundTrips(keys)
    ensures Meaning(keys, keys.print_(program)) == Ok(Program(program))
    ensures Meaning(keys, Print(keys, program, offset, bytes, upper))
            == Ok(InstructionFilter(program, [Memcmp(offset, bytes)], None))
  {
    var decimal, hex := Decimal(offset), Base16(bytes, upper);
    SplitNone(keys.print_(program));
    SplitAt(keys.print_(program), decimal + ":" + hex);
    DecimalParses(offset, U32_MAX);
    SplitAt(decimal, hex);
    NoColonInHex(bytes, upper);
    SplitNone(hex);
    assert decimal[0] != '+' && decimal != "-";
    DecodeUndoesBase16(bytes, upper);
  }

  lemma {:induction false} NoColonInHex(bytes: seq<byte>, upper: bool)
    ensures ':' !in Base16(bytes, upper)
  {
    if bytes == [] {
    } else {
      hide HexDigit;
      HexDigitAt(bytes[0] / 16, upper);
      HexDigitAt(bytes[0] % 16, upper);
      NoColonInHex(bytes[1..], upper);
    }
  }

  /** A part that is an optional plus and decimal digits with this value. */
  predicate OffsetReads(s: string, offset: u32) {
    var digits := if s != "" && s[0] == '+' then s[1..] else s;
    digits != "" && AllDecimal(digits) && Value(digits) == offset
  }

  lemma {:induction false} OffsetIff(s: string, offset: u32)
    ensures ParseUnsigned(s, 10, U32_MAX) == Some(offset) <==> OffsetReads(s, offset)
  {
    ParseDecimalIff(s, U32_MAX, offset);
  }

  /** An argument of one part, or of three parts of which the second is a decimal
      u32 and the third is hex pairs, is accepted when its key is; nothing else
      is. */
  lemma {:induction false} AcceptedShape(keys: KeyText, spec: string, filter: InstructionFilter)
    ensures Meaning(keys, spec) == Ok(filter) <==>
              var parts := Split(spec);
              && keys.parse(parts[0]) == Some(filter.programId) && filter.dataSize == None
              && (if filter.memcmp == [] then |parts| == 1 else
                    && |parts| == 3 && |filter.memcmp| == 1
                    && OffsetReads(parts[1], filter.memcmp[0].offset)
                    && AllRead(parts[2], filter.memcmp[0].bytes))
  {
    var parts := Split(spec);
    if |parts| == 3 && filter.memcmp != [] {
      var m := filter.memcmp[0];
      OffsetIff(parts[1], m.offset);
      DecodeHexIff(parts[2], m.bytes);
      assert |filter.memcmp| == 1 ==> filter.memcmp == [m];
    }
  }

  ghost predicate IsOffset(s: string) {
    exists offset: u32 :: OffsetReads(s, offset)
  }

  ghost predicate IsHex(s: string) {
    exists bytes :: AllRead(s, bytes)
  }

  /** Which error a refused argument gets: its key first, then the number of its
      parts, then the offset, then the hex. */
  lemma {:induction false} RefusedArgument(keys: KeyText, spec: string)
    ensures var parts, r := Split(spec), Meaning(keys, spec);
            var known, three := keys.parse(parts[0]).Some?, |parts| == 3;
            && (r == Err(BadProgram) <==> !known)
            && (r == Err(BadShape) <==> known && |parts| != 1 && !three)
            && (r == Err(BadOffset) <==> known && three && !IsOffset(parts[1]))
            && (r == Err(BadHex) <==> known && three && IsOffset(parts[1]) && !IsHex(parts[2]))
  {
    hide ParseUnsigned, DecodeHex, OffsetReads, AllRead;
    var parts := Split(spec);
    if |parts| == 3 {
      forall offset: u32
        ensures ParseUnsigned(parts[1], 10, U32_MAX) == Some(offset) <==> OffsetReads(parts[1], offset)
      {
        OffsetIff(parts[1], offset);
      }
      forall bytes
        ensures DecodeHex(parts[2]) == Some(bytes) <==> AllRead(parts[2], bytes)
      {
        DecodeHexIff(parts[2], bytes);
      }
    }
  }
}
