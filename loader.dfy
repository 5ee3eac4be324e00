/**
 * Loading a program from hexadecimal text: the text is trimmed, read two
 * characters at a time, each pair that parses as a hexadecimal `u8`
 * becomes a byte, and the bytes are loaded into the machine.
 */
module Loader {
  import opened Outcomes
  import opened Bits
  import opened Text
  import opened Machine

  /** The byte a two-character pair spells, if `u8::from_str_radix(pair, 16)` accepts it. */
  function PairByte(pair: string): (r: Option<Byte>)
    requires |pair| == 2
  {
    match ParseUnsigned(pair, 16, U8_LIMIT)
    case None => None
    case Some(b) => Some(b)
  }

  /**
   * Which pairs parse: two hexadecimal digits of either case, giving their
   * value, or `+` and one digit, giving that digit.
   */
  lemma {:induction false} PairAccepted(pair: string)
    requires |pair| == 2
    ensures PairByte(pair).Some? <==> (pair[0] == '+' || DigitValue(pair[0], 16).Some?) && DigitValue(pair[1], 16).Some?
    ensures DigitValue(pair[0], 16).Some? && DigitValue(pair[1], 16).Some? ==>
      PairByte(pair) == Some(DigitValue(pair[0], 16).value * 16 + DigitValue(pair[1], 16).value)
    ensures pair[0] == '+' && DigitValue(pair[1], 16).Some? ==> PairByte(pair) == Some(DigitValue(pair[1], 16).value)
  {
    if pair[0] == '+' {
      var rest := pair[1..];
      assert rest == [pair[1]];
      if DigitValue(pair[1], 16).Some? {
        assert rest[..0] == [];
        assert DigitsValue(rest, 16) == DigitValue(pair[1], 16).value;
      }
    } else if DigitValue(pair[0], 16).Some? && DigitValue(pair[1], 16).Some? {
      assert pair[..1] == [pair[0]];
      assert pair[..1][..0] == [];
      assert DigitsValue(pair[..1], 16) == DigitValue(pair[0], 16).value;
    } else if !DigitValue(pair[0], 16).Some? {
      assert !AllDigits(pair, 16);
    } else {
      assert !AllDigits(pair, 16);
    }
  }

  /** The bytes of the pairs of `s`, first pair first; a pair that does not parse gives nothing. */
  function DecodePairs(s: string): (r: seq<Byte>)
    decreases |s|
  {
    if |s| < 2 then [] else Bytes(PairByte(s[..2])) + DecodePairs(s[2..])
  }

  /** The bytes a parsed pair contributes: one or none. */
  function Bytes(b: Option<Byte>): seq<Byte> {
    match b
    case None => []
    case Some(v) => [v]
  }

  /** One turn of the decoding loop: the pair at i, then the pairs after it. */
  lemma {:induction false} DecodeStep(text: string, i: nat)
    requires i + 2 <= |text|
    ensures DecodePairs(text[i..]) == Bytes(PairByte(text[i..i + 2])) + DecodePairs(text[i + 2..])
  {
    assert text[i..][..2] == text[i..i + 2];
    assert text[i..][2..] == text[i + 2..];
  }

  /** The whole decoder: trim, then decode the pairs. */
  function DecodeHex(s: string): seq<Byte> {
    DecodePairs(Trim(s))
  }

  /** Every pair gives at most one byte, and a trailing odd character gives none. */
  lemma {:induction false} DecodePairsBound(s: string)
    ensures |DecodePairs(s)| <= |s| / 2
    decreases |s|
  {
    if |s| >= 2 {
      DecodePairsBound(s[2..]);
    }
  }

  /** A pair that does not parse is skipped: neither an error nor a byte. */
  lemma {:induction false} InvalidPairSkipped(pair: string, rest: string)
    requires |pair| == 2 && PairByte(pair).None?
    ensures DecodePairs(pair + rest) == DecodePairs(rest)
  {
    assert |pair + rest| >= 2;
    assert (pair + rest)[..2] == pair;
    assert (pair + rest)[2..] == rest;
  }

  /** A pair that parses contributes its byte ahead of the rest. */
  lemma {:induction false} ValidPairKept(pair: string, rest: string)
    requires |pair| == 2 && PairByte(pair).Some?
    ensures DecodePairs(pair + rest) == [PairByte(pair).value] + DecodePairs(rest)
  {
    assert (pair + rest)[..2] == pair;
    assert (pair + rest)[2..] == rest;
  }

  /** The text `format!("{:02X}", b)` gives for each byte, concatenated. */
  function EncodeHex(bytes: seq<Byte>): (r: string)
    ensures |r| == 2 * |bytes|
    ensures NoWhitespace(r)
  {
    if bytes == [] then ""
    else
      HexPaddedByte(bytes[0]);
      HexDigitNotWhitespace(bytes[0] / 16);
      HexDigitNotWhitespace(bytes[0] % 16);
      HexPadded(bytes[0], 2) + EncodeHex(bytes[1..])
  }

  lemma {:induction false} HexDigitNotWhitespace(d: nat)
    requires d < 16
    ensures !IsWhitespace(HexDigit(d))
  {
  }

  /** Decoding the `{:02X}` text of any byte sequence gives the sequence back. */
  lemma {:induction false} DecodeEncode(bytes: seq<Byte>)
    ensures DecodeHex(EncodeHex(bytes)) == bytes
  {
    TrimUnchanged(EncodeHex(bytes));
    DecodePairsEncode(bytes);
  }

  lemma {:induction false} DecodePairsEncode(bytes: seq<Byte>)
    ensures DecodePairs(EncodeHex(bytes)) == bytes
  {
    if bytes != [] {
      var b := bytes[0];
      var pair := HexPadded(b, 2);
      HexPaddedByte(b);
      ParseHexPair(b / 16, b % 16);
      assert PairByte(pair) == Some(b);
      ValidPairKept(pair, EncodeHex(bytes[1..]));
      DecodePairsEncode(bytes[1..]);
      assert bytes == [b] + bytes[1..];
    }
  }

  /** Text without whitespace is its own trim. */
  lemma {:induction false} TrimUnchanged(s: string)
    requires NoWhitespace(s)
    ensures Trim(s) == s
  {
  }

  /** The decoding loop: two characters at a time from the trimmed text, keeping the bytes that parse. */
  method DecodificarHex(hex: string) returns (bytes: seq<Byte>)
    ensures bytes == DecodeHex(hex)
  {
    var text := Trim(hex);
    bytes := [];
    var i := 0;
    while i + 2 <= |text|
      invariant 0 <= i <= |text|
      invariant bytes + DecodePairs(text[i..]) == DecodePairs(text)
      decreases |text| - i
    {
      var pair := text[i..i + 2];
      var b := PairByte(pair);
      DecodeStep(text, i);
      ghost var before := bytes;
      if b.Some? {
        bytes := bytes + [b.value];
      }
      Absorb(before, bytes, b, DecodePairs(text[i + 2..]));
      i := i + 2;
    }
    assert DecodePairs(text[i..]) == [];
  }

  lemma {:induction false} Absorb(before: seq<Byte>, after: seq<Byte>, b: Option<Byte>, rest: seq<Byte>)
    requires after == if b.Some? then before + [b.value] else before
    ensures after + rest == before + (Bytes(b) + rest)
  {
  }

  /** `carregar_programa` after the file is read: decode the text and load the bytes; a load error is returned as it is. */
  method CarregarPrograma(maquina: Maquina, hex: string) returns (r: Outcome<LoadError>)
    requires maquina.Valid()
    modifies maquina.registradores, maquina.memoria
    ensures maquina.Valid()
    ensures r.Fail? <==> LOAD_ADDRESS + |DecodeHex(hex)| > Constants.MEMORY_SIZE
    ensures r.Fail? ==> maquina.memoria[..] == old(maquina.memoria[..]) && maquina.registradores[..] == old(maquina.registradores[..])
    ensures r.Pass? ==> maquina.memoria[..] == Loaded(old(maquina.memoria[..]), DecodeHex(hex))
    ensures r.Pass? ==> maquina.registradores[..] == Executor.SetReg(old(maquina.registradores[..]), Constants.PC, LOAD_ADDRESS)
  {
    var bytes := DecodificarHex(hex);
    r := maquina.Carregar(bytes);
  }
}
