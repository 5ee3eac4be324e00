/**
 * The behaviour of the Rust string operations the toolchain relies on (`trim`, `lines`,
 * `split_whitespace`, `split_once`, `replace`, integer parsing and `{:X}` formatting),
 * stated on Dafny strings (sequences of Unicode scalar values).
 */
module Text {
  import opened Outcomes

  /** Rust's `char::is_whitespace`: the characters with the Unicode White_Space property. */
  predicate IsWhitespace(c: char) {
    ('\t' <= c <= '\r') || c == ' ' || c == '\U{85}' || c == '\U{A0}' || c == '\U{1680}'
    || ('\U{2000}' <= c <= '\U{200A}') || c == '\U{2028}' || c == '\U{2029}'
    || c == '\U{202F}' || c == '\U{205F}' || c == '\U{3000}'
  }

  predicate NoWhitespace(s: string) {
    forall i :: 0 <= i < |s| ==> !IsWhitespace(s[i])
  }

  /** `trim_start`: drops the leading whitespace. */
  function TrimStart(s: string): (r: string)
    ensures |r| <= |s|
    ensures r == [] || !IsWhitespace(r[0])
    ensures forall i :: 0 <= i < |s| - |r| ==> IsWhitespace(s[i])
  {
    if |s| > 0 && IsWhitespace(s[0]) then TrimStart(s[1..]) else s
  }

  /** What `trim_start` leaves is a suffix of the string. */
  lemma {:induction false} TrimStartSuffix(s: string)
    ensures TrimStart(s) == s[|s| - |TrimStart(s)|..]
    decreases |s|
  {
    if |s| > 0 && IsWhitespace(s[0]) {
      TrimStartSuffix(s[1..]);
    }
  }

  /** `trim_end`: drops the trailing whitespace. */
  function TrimEnd(s: string): (r: string)
    ensures |r| <= |s| && r == s[..|r|]
    ensures r == [] || !IsWhitespace(r[|r| - 1])
    ensures forall i :: |r| <= i < |s| ==> IsWhitespace(s[i])
  {
    if |s| > 0 && IsWhitespace(s[|s| - 1]) then TrimEnd(s[..|s| - 1]) else s
  }

  /** `trim`: drops leading and trailing whitespace. */
  function Trim(s: string): (r: string)
    ensures |r| <= |s|
    ensures r == [] || (!IsWhitespace(r[0]) && !IsWhitespace(r[|r| - 1]))
  {
    TrimEnd(TrimStart(s))
  }

  predicate StartsWith(s: string, p: string) {
    |p| <= |s| && s[..|p|] == p
  }

  predicate EndsWith(s: string, p: string) {
    |p| <= |s| && s[|s| - |p|..] == p
  }

  /** `contains`: p occurs somewhere in s. */
  predicate Contains(s: string, p: string)
    decreases |s|
  {
    StartsWith(s, p) || (|s| > 0 && Contains(s[1..], p))
  }

  /** The index of the first whitespace character, or |s| when there is none. */
  function FirstWhitespace(s: string): (k: nat)
    ensures k <= |s| && (k < |s| ==> IsWhitespace(s[k]))
    ensures forall i :: 0 <= i < k ==> !IsWhitespace(s[i])
  {
    if |s| == 0 || IsWhitespace(s[0]) then 0 else 1 + FirstWhitespace(s[1..])
  }

  /** The index of the first occurrence of c, or |s| when there is none. */
  function IndexOf(s: string, c: char): (k: nat)
    ensures k <= |s| && (k < |s| ==> s[k] == c)
    ensures forall i :: 0 <= i < k ==> s[i] != c
  {
    if |s| == 0 || s[0] == c then 0 else 1 + IndexOf(s[1..], c)
  }

  /** `split_once(char::is_whitespace)`: the text before and after the first whitespace character. */
  function SplitOnceWhitespace(s: string): (r: Option<(string, string)>)
    ensures r.None? ==> NoWhitespace(s)
    ensures r.Some? ==> NoWhitespace(r.value.0) && |r.value.0| < |s| && IsWhitespace(s[|r.value.0|])
                        && s == r.value.0 + [s[|r.value.0|]] + r.value.1
  {
    var k := FirstWhitespace(s);
    if k < |s| then Some((s[..k], s[k + 1..])) else None
  }

  /** `split_once(c)`: the text before and after the first c. */
  function SplitOnce(s: string, c: char): (r: Option<(string, string)>)
    ensures r.None? ==> c !in s
    ensures r.Some? ==> c !in r.value.0 && s == r.value.0 + [c] + r.value.1
  {
    var k := IndexOf(s, c);
    if k < |s| then Some((s[..k], s[k + 1..])) else None
  }

  /** `s.split_once(c).map(|(l, _)| l).unwrap_or(s)`: everything before the first c. */
  function Before(s: string, c: char): (r: string)
    ensures c !in r && StartsWith(s, r)
  {
    s[..IndexOf(s, c)]
  }

  /** `split_whitespace`: the maximal runs of non-whitespace characters, in order. */
  function SplitWhitespace(s: string): seq<string>
    decreases |s|
  {
    var t := TrimStart(s);
    if t == [] then []
    else
      var k := FirstWhitespace(t);
      [t[..k]] + SplitWhitespace(t[k..])
  }

  /** Every piece of `split_whitespace` is a non-empty run without whitespace. */
  lemma {:induction false} SplitWhitespaceWords(s: string)
    ensures forall t :: t in SplitWhitespace(s) ==> |t| > 0 && NoWhitespace(t)
    decreases |s|
  {
    var t := TrimStart(s);
    if t != [] {
      var k := FirstWhitespace(t);
      SplitWhitespaceWords(t[k..]);
      FirstWord(t);
      assert SplitWhitespace(s) == [t[..k]] + SplitWhitespace(t[k..]);
    }
  }

  /** The text before the first whitespace of a string that starts with a non-whitespace character. */
  lemma {:induction false} FirstWord(t: string)
    requires t != [] && !IsWhitespace(t[0])
    ensures |t[..FirstWhitespace(t)]| > 0 && NoWhitespace(t[..FirstWhitespace(t)])
  {
  }

  /** `split(c)`: the pieces between occurrences of c, empty pieces included. */
  function Split(s: string, c: char): (r: seq<string>)
    ensures |r| >= 1
    ensures forall p :: p in r ==> c !in p
    decreases |s|
  {
    var k := IndexOf(s, c);
    if k < |s| then [s[..k]] + Split(s[k + 1..], c) else [s]
  }

  /** `.filter(|p| !p.is_empty())`. */
  function NonEmpty(ps: seq<string>): (r: seq<string>)
    ensures forall p :: p in r ==> p != [] && p in ps
    ensures |r| <= |ps|
  {
    if ps == [] then [] else (if ps[0] == [] then [] else [ps[0]]) + NonEmpty(ps[1..])
  }

  /** `replace(pat, rep)`: every non-overlapping occurrence of pat, scanned left to right, becomes rep. */
  function Replace(s: string, pat: string, rep: string): string
    requires |pat| > 0
    decreases |s|
  {
    if |s| < |pat| then s
    else if s[..|pat|] == pat then rep + Replace(s[|pat|..], pat, rep)
    else [s[0]] + Replace(s[1..], pat, rep)
  }

  /** `trim_start_matches(c)` followed by `trim_end_matches(c)`, i.e. `trim_matches(c)`. */
  function TrimMatches(s: string, c: char): (r: string)
    ensures r == [] || (r[0] != c && r[|r| - 1] != c)
  {
    TrimEndChar(TrimStartChar(s, c), c)
  }

  function TrimStartChar(s: string, c: char): (r: string)
    ensures r == [] || r[0] != c
    ensures |r| <= |s| && r == s[|s| - |r|..]
  {
    if |s| > 0 && s[0] == c then TrimStartChar(s[1..], c) else s
  }

  function TrimEndChar(s: string, c: char): (r: string)
    ensures r == [] || r[|r| - 1] != c
    ensures |r| <= |s| && r == s[..|r|]
  {
    if |s| > 0 && s[|s| - 1] == c then TrimEndChar(s[..|s| - 1], c) else s
  }

  /** `trim_start_matches(p)` for a non-empty string pattern. */
  function TrimStartMatches(s: string, p: string): (r: string)
    requires |p| > 0
    ensures !StartsWith(r, p)
    decreases |s|
  {
    if StartsWith(s, p) then TrimStartMatches(s[|p|..], p) else s
  }

  /** `trim_end_matches(p)` for a non-empty string pattern. */
  function TrimEndMatches(s: string, p: string): (r: string)
    requires |p| > 0
    ensures !EndsWith(r, p)
    decreases |s|
  {
    if EndsWith(s, p) then TrimEndMatches(s[..|s| - |p|], p) else s
  }

  /** `str::lines`: split at each `\n`; a `\r` just before a `\n` is dropped; no empty last line. */
  function Lines(s: string): (r: seq<string>)
    decreases |s|
  {
    if s == [] then []
    else
      var k := IndexOf(s, '\n');
      if k < |s| then [DropCarriageReturn(s[..k])] + Lines(s[k + 1..]) else [s]
  }

  function DropCarriageReturn(l: string): string {
    if |l| > 0 && l[|l| - 1] == '\r' then l[..|l| - 1] else l
  }

  /** Each line followed by a newline. */
  function Unlines(ls: seq<string>): string {
    if ls == [] then "" else ls[0] + "\n" + Unlines(ls[1..])
  }

  /** `join(sep)`: the lines separated by sep, with no trailing separator. */
  function Join(ls: seq<string>, sep: string): string {
    if ls == [] then "" else if |ls| == 1 then ls[0] else ls[0] + sep + Join(ls[1..], sep)
  }

  /** The number of bytes of c in UTF-8. */
  function Utf8Len(c: char): (n: nat)
    ensures 1 <= n <= 4
  {
    if c as int < 0x80 then 1 else if c as int < 0x800 then 2 else if c as int < 0x1_0000 then 3 else 4
  }

  /** Rust's `str::len`: the length in UTF-8 bytes. */
  function ByteLen(s: string): (n: nat)
    ensures |s| <= n
  {
    if s == [] then 0 else Utf8Len(s[0]) + ByteLen(s[1..])
  }

  /** `char::to_digit(radix)`. */
  function DigitValue(c: char, radix: nat): (r: Option<nat>)
    ensures r.Some? ==> r.value < radix
  {
    var d := if '0' <= c <= '9' then c as int - '0' as int
             else if 'a' <= c <= 'z' then c as int - 'a' as int + 10
             else if 'A' <= c <= 'Z' then c as int - 'A' as int + 10
             else 36;
    if d < radix then Some(d) else None
  }

  predicate AllDigits(s: string, radix: nat) {
    forall i :: 0 <= i < |s| ==> DigitValue(s[i], radix).Some?
  }

  /** The value of a digit string, most significant digit first. */
  function DigitsValue(s: string, radix: nat): nat
    requires AllDigits(s, radix)
  {
    if s == [] then 0 else DigitsValue(s[..|s| - 1], radix) * radix + DigitValue(s[|s| - 1], radix).value
  }

  /**
   * `from_str_radix` for an unsigned integer type whose values are below limit: an optional
   * leading `+`, then at least one digit; a value that does not fit is rejected.
   */
  function ParseUnsigned(s: string, radix: nat, limit: nat): (r: Option<nat>)
    ensures r.Some? ==> r.value < limit
  {
    var digits := if |s| > 0 && s[0] == '+' then s[1..] else s;
    if digits == [] || !AllDigits(digits, radix) then None
    else
      var v := DigitsValue(digits, radix);
      if v < limit then Some(v) else None
  }

  const U8_LIMIT: nat := 0x100
  const USIZE_LIMIT: nat := 0x1_0000_0000_0000_0000

  /** `s.parse::<usize>()`. */
  function ParseUsize(s: string): Option<nat> { ParseUnsigned(s, 10, USIZE_LIMIT) }

  /** `s.parse::<u8>()`. */
  function ParseU8(s: string): Option<nat> { ParseUnsigned(s, 10, U8_LIMIT) }

  /** An upper-case hexadecimal digit. */
  function HexDigit(d: nat): (c: char)
    requires d < 16
    ensures DigitValue(c, 16) == Some(d)
  {
    if d < 10 then ('0' as int + d) as char else ('A' as int + d - 10) as char
  }

  /** `format!("{:X}", n)`: the shortest upper-case hexadecimal numeral of n. */
  function ToHex(n: nat): (r: string)
    ensures |r| >= 1
    decreases n
  {
    if n < 16 then [HexDigit(n)] else ToHex(n / 16) + [HexDigit(n % 16)]
  }

  /** `format!("{:0wX}", n)`: ToHex(n) left-padded with zeros to at least `width` digits. */
  function HexPadded(n: nat, width: nat): (r: string)
    ensures |r| >= width
  {
    var h := ToHex(n);
    if |h| < width then seq(width - |h|, _ => '0') + h else h
  }

  /** Padding peels off one low digit at a time: `{:0wX}` of n is `{:0(w-1)X}` of n / 16 and the last digit. */
  lemma {:induction false} HexPaddedStep(n: nat, width: nat)
    requires width >= 2
    ensures HexPadded(n, width) == HexPadded(n / 16, width - 1) + [HexDigit(n % 16)]
  {
    if n < 16 {
      assert ToHex(n / 16) == "0";
      assert seq(width - 1, _ => '0') == seq(width - 2, _ => '0') + "0";
    }
  }

  /** `{:02X}` of a byte is exactly its two hexadecimal digits. */
  lemma {:induction false} HexPaddedByte(b: nat)
    requires b < 0x100
    ensures HexPadded(b, 2) == [HexDigit(b / 16), HexDigit(b % 16)]
  {
    HexPaddedStep(b, 2);
  }

  /** `{:03X}` of a 12-bit value is exactly three digits. */
  lemma {:induction false} HexPadded3(v: nat)
    requires v < 0x1000
    ensures HexPadded(v, 3) == [HexDigit(v / 256), HexDigit(v / 16 % 16), HexDigit(v % 16)]
  {
    HexPaddedStep(v, 3);
    HexPaddedByte(v / 16);
    assert v / 16 / 16 == v / 256;
  }

  /** `{:05X}` of a 20-bit value is exactly five digits. */
  lemma {:induction false} HexPadded5(v: nat)
    requires v < 0x10_0000
    ensures HexPadded(v, 5) == [HexDigit(v / 0x1_0000), HexDigit(v / 0x1000 % 16),
                                HexDigit(v / 256 % 16), HexDigit(v / 16 % 16), HexDigit(v % 16)]
  {
    HexPaddedStep(v, 5);
    HexPaddedStep(v / 16, 4);
    assert v / 16 / 16 == v / 256;
    HexPadded3(v / 256);
    assert v / 256 / 256 == v / 0x1_0000;
    assert v / 256 / 16 % 16 == v / 0x1000 % 16;
  }

  /** A single hexadecimal digit is its own shortest numeral. */
  lemma {:induction false} ToHexDigit(d: nat)
    requires d < 16
    ensures ToHex(d) == [HexDigit(d)]
  {
  }

  /** Two hexadecimal digits parse, as a `u8` in radix 16, to the byte they spell. */
  lemma {:induction false} ParseHexPair(hi: nat, lo: nat)
    requires hi < 16 && lo < 16
    ensures ParseUnsigned([HexDigit(hi), HexDigit(lo)], 16, U8_LIMIT) == Some(16 * hi + lo)
  {
    var s := [HexDigit(hi), HexDigit(lo)];
    assert s[..1] == [HexDigit(hi)];
    assert s[..1][..0] == [];
    assert DigitsValue(s[..1], 16) == hi;
  }

  /** Replacing a pattern that does not occur changes nothing. */
  lemma {:induction false} ReplaceAbsent(s: string, pat: string, rep: string)
    requires |pat| > 0 && !Contains(s, pat)
    ensures Replace(s, pat, rep) == s
    decreases |s|
  {
    if |s| >= |pat| {
      assert s[..|pat|] != pat;
      ReplaceAbsent(s[1..], pat, rep);
      assert s == [s[0]] + s[1..];
    }
  }
}
