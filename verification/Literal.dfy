/** String literals: how the scanner finds the closing quote (scanner.c:385-414) and how the text between
    the quotes becomes the 256 bytes of a buffer (parse.c:35-186). Characters are bytes. */
module Literal {
  import opened Wrappers
  import opened Bytes

  const BUFFER_NODE_MAX := 256
  const LITERAL_MAX := 1024

  const QUOTE: byte := 34
  const APOSTROPHE: byte := 39
  const BACKSLASH: byte := 92
  const LOWER_X: byte := 120

  // ----- Scanning -----

  /** The text between the quotes and what follows the closing one; or a text that is too long, which is
      also how a missing quote ends. */
  datatype Scanned = Scanned(lit: seq<byte>, rest: seq<byte>) | TooLarge

  /** Whether the character at `k` is escaped: it has an odd number of backslashes before it. */
  predicate Escaped(input: seq<byte>, k: nat)
    requires k <= |input|
  {
    k > 0 && input[k - 1] == BACKSLASH && !Escaped(input, k - 1)
  }

  predicate Closes(input: seq<byte>, k: nat)
    requires k < |input|
  {
    input[k] == QUOTE && !Escaped(input, k)
  }

  /** The literal ends at the first quote that is not escaped, if that is not more than LITERAL_MAX
      characters away. */
  ghost predicate ScansTo(input: seq<byte>, r: Scanned) {
    match r
    case Scanned(lit, rest) =>
      && |lit| <= LITERAL_MAX && |lit| < |input| && lit == input[..|lit|] && rest == input[|lit| + 1..]
      && Closes(input, |lit|) && forall k :: 0 <= k < |lit| ==> !Closes(input, k)
    case TooLarge => forall k :: 0 <= k < |input| && k <= LITERAL_MAX ==> !Closes(input, k)
  }

  /** `string` (scanner.c:385-414), behind the opening quote. At the end of the file the scanner goes on
      delivering EOF, which is written to the literal like any other character. */
  method ScanString(input: seq<byte>) returns (r: Scanned)
    ensures ScansTo(input, r)
  {
    var len := 0;
    var escaped := false;
    while true
      invariant len <= LITERAL_MAX
      invariant len <= |input| ==> escaped == Escaped(input, len)
      invariant forall k :: 0 <= k < |input| && k < len ==> !Closes(input, k)
      decreases LITERAL_MAX - len
    {
      if len < |input| && input[len] == BACKSLASH {
        escaped := !escaped;
      } else if len < |input| && input[len] == QUOTE && !escaped {
        return Scanned(input[..len], input[len + 1..]);
      } else {
        escaped := false;
      }
      len := len + 1;
      if len > LITERAL_MAX {
        return TooLarge;
      }
    }
  }

  // ----- Decoding -----

  function HexDigit(c: byte): (v: Option<nat>)
    ensures v.Some? ==> v.value < 16
  {
    if 48 <= c <= 57 then Some(c - 48)
    else if 97 <= c <= 102 then Some(c - 87)
    else if 65 <= c <= 70 then Some(c - 55)
    else None
  }

  /** The characters that strtoul skips in front of a number. */
  predicate IsSpace(c: byte) {
    c == 32 || 9 <= c <= 13
  }

  /** strtoul in base 16 on two characters, when it reads both; it also takes one digit behind a blank or
      a sign, and a minus wraps around. */
  function HexPair(c: byte, d: byte): Option<byte> {
    match HexDigit(d)
    case None => None
    case Some(lo) =>
      if HexDigit(c).Some? then Some(16 * HexDigit(c).value + lo)
      else if IsSpace(c) || c == 43 then Some(lo)
      else if c == 45 then Some((256 - lo) % 256)
      else None
  }

  predicate IsOctal(c: byte) {
    48 <= c <= 55
  }

  /** parse_escape (parse.c:35-125): the byte and how many characters it takes; None for an error. There
      is no escape for the backslash itself. */
  function Escape(s: seq<byte>): (r: Option<(byte, nat)>)
    requires s != [] && s[0] == BACKSLASH
    ensures r.Some? ==> 2 <= r.value.1 <= |s|
  {
    if |s| < 2 then None
    else if s[1] == LOWER_X then
      if |s| < 4 || HexPair(s[2], s[3]).None? then None else Some((HexPair(s[2], s[3]).value, 4))
    else if 48 <= s[1] <= 50 then
      if |s| < 4 || !IsOctal(s[2]) || !IsOctal(s[3]) then None
      else Some((64 * (s[1] - 48) + 8 * (s[2] - 48) + (s[3] - 48), 4))
    else if s[1] == 110 then Some((10, 2))
    else if s[1] == 116 then Some((9, 2))
    else if s[1] == 114 then Some((13, 2))
    else if s[1] == APOSTROPHE then Some((39, 2))
    else if s[1] == QUOTE then Some((34, 2))
    else None
  }

  /** The bytes decoded up to the end of the text or the first error. */
  datatype Decoded = Decoded(bytes: seq<byte>, ok: bool)

  /** parse_string from `lit` on, when `size` bytes are already written. */
  function Decode(lit: seq<byte>, size: nat): (d: Decoded)
    requires size <= BUFFER_NODE_MAX
    ensures size + |d.bytes| <= BUFFER_NODE_MAX
    decreases |lit|
  {
    if lit == [] then Decoded([], true)
    else if size == BUFFER_NODE_MAX then Decoded([], false)
    else if lit[0] == BACKSLASH then
      match Escape(lit)
      case None => Decoded([], false)
      case Some((b, n)) => var d := Decode(lit[n..], size + 1); Decoded([b] + d.bytes, d.ok)
    else
      var d := Decode(lit[1..], size + 1);
      Decoded([lit[0]] + d.bytes, d.ok)
  }

  function Zeros(n: nat): (s: seq<byte>)
    ensures |s| == n && forall k :: 0 <= k < n ==> s[k] == 0
  {
    if n == 0 then [] else [0] + Zeros(n - 1)
  }

  /** The contents of a buffer that begins with `bytes`. */
  function Padded(bytes: seq<byte>): (s: seq<byte>)
    requires |bytes| <= BUFFER_NODE_MAX
    ensures |s| == BUFFER_NODE_MAX
  {
    bytes + Zeros(BUFFER_NODE_MAX - |bytes|)
  }

  /** `done` has been decoded in front of `d`. */
  function Behind(done: seq<byte>, d: Decoded): Decoded {
    Decoded(done + d.bytes, d.ok)
  }

  /** The next byte and the characters it takes. */
  function NextByte(lit: seq<byte>): (r: Option<(byte, nat)>)
    requires lit != []
    ensures r.Some? ==> 1 <= r.value.1 <= |lit|
  {
    if lit[0] == BACKSLASH then Escape(lit) else Some((lit[0], 1))
  }

  lemma DecodeNext(done: seq<byte>, lit: seq<byte>, size: nat)
    requires size <= BUFFER_NODE_MAX
    ensures lit == [] ==> Behind(done, Decode(lit, size)) == Decoded(done, true)
    ensures lit != [] && (size == BUFFER_NODE_MAX || NextByte(lit).None?) ==> Behind(done, Decode(lit, size)) == Decoded(done, false)
    ensures lit != [] && size < BUFFER_NODE_MAX && NextByte(lit).Some? ==>
              var (b, n) := NextByte(lit).value;
              Behind(done, Decode(lit, size)) == Behind(done + [b], Decode(lit[n..], size + 1))
  {
    hide Escape;
    assert done + [] == done;
    if lit != [] && size < BUFFER_NODE_MAX && NextByte(lit).Some? {
      var (b, n) := NextByte(lit).value;
      assert done + ([b] + Decode(lit[n..], size + 1).bytes) == done + [b] + Decode(lit[n..], size + 1).bytes;
    }
  }

  /** parse_string (parse.c:160-186) */
  method ParseString(dest: array<byte>, lit: seq<byte>) returns (ok: bool)
    requires dest.Length == BUFFER_NODE_MAX
    modifies dest
    ensures ok == Decode(lit, 0).ok
    ensures dest[..] == Padded(Decode(lit, 0).bytes)
  {
    hide Decode, Escape, Padded;
    forall k | 0 <= k < BUFFER_NODE_MAX {
      dest[k] := 0;
    }
    var size, offset := 0, 0;
    assert [] + Decode(lit, 0).bytes == Decode(lit, 0).bytes;
    assert lit[0..] == lit && dest[..0] == [];
    while offset < |lit|
      invariant offset <= |lit| && size <= BUFFER_NODE_MAX
      invariant Decode(lit, 0) == Behind(dest[..size], Decode(lit[offset..], size))
      invariant forall k :: size <= k < BUFFER_NODE_MAX ==> dest[k] == 0
    {
      ghost var done, here := dest[..size], lit[offset..];
      DecodeNext(done, here, size);
      Filled(dest[..], size);
      if size == BUFFER_NODE_MAX {
        return false;
      }
      if lit[offset] == BACKSLASH {
        var r := Escape(lit[offset..]);
        if r.None? {
          return false;
        }
        dest[size] := r.value.0;
        offset := offset + r.value.1;
      } else {
        dest[size] := lit[offset];
        offset := offset + 1;
      }
      assert here[NextByte(here).value.1..] == lit[offset..];
      assert dest[..size + 1] == done + [dest[size]];
      size := size + 1;
    }
    assert lit[offset..] == [];
    DecodeNext(dest[..size], [], size);
    Filled(dest[..], size);
    ok := true;
  }

  lemma Filled(s: seq<byte>, size: nat)
    requires |s| == BUFFER_NODE_MAX && size <= |s|
    requires forall k :: size <= k < |s| ==> s[k] == 0
    ensures s == Padded(s[..size])
  {
  }

  // ----- Writing literals -----

  /** The ways to write a byte: as it is; as two hexadecimal digits, each in either case; as one of them
      behind a blank or a sign, which strtoul takes as well; as three octal digits; or by a letter. */
  datatype Spelling = Raw | Hex(upper1: bool, upper2: bool) | Loose(front: byte, upper: bool) | Octal | Short

  function Digit(v: nat, upper: bool): (c: byte)
    requires v < 16
    ensures HexDigit(c) == Some(v) && c != BACKSLASH && c != QUOTE
  {
    if v < 10 then 48 + v else if upper then 55 + v else 87 + v
  }

  function HexOf(b: byte, how: Spelling): (s: seq<byte>)
    requires how.Hex?
    ensures |s| == 4
  {
    [BACKSLASH, LOWER_X, Digit(b / 16, how.upper1), Digit(b % 16, how.upper2)]
  }

  /** The characters for a blank: those of the C locale. */
  const BLANKS: set<byte> := {9, 10, 11, 12, 13, 32}
  const PLUS: byte := 43
  const MINUS: byte := 45

  /** The spelling of a byte that is meant by it; None when there is none of that kind. */
  function Spell(b: byte, how: Spelling): Option<seq<byte>> {
    match how
    case Raw => if b == 0 || b == QUOTE || b == BACKSLASH then None else Some([b])
    case Hex(_, _) => Some(HexOf(b, how))
    case Loose(c, upper) =>
      if (c in BLANKS || c == PLUS) && b < 16 then Some([BACKSLASH, LOWER_X, c, Digit(b, upper)])
      else if c == MINUS && (b == 0 || b > 240) then Some([BACKSLASH, LOWER_X, c, Digit((256 - b) % 256, upper)])
      else None
    case Octal => if b >= 192 then None else Some([BACKSLASH, 48 + b / 64, 48 + b / 8 % 8, 48 + b % 8])
    case Short =>
      if b == 10 then Some([BACKSLASH, 110]) else if b == 9 then Some([BACKSLASH, 116])
      else if b == 13 then Some([BACKSLASH, 114]) else if b == APOSTROPHE then Some([BACKSLASH, APOSTROPHE])
      else if b == QUOTE then Some([BACKSLASH, QUOTE]) else None
  }

  datatype Spelled = Spelled(b: byte, how: Spelling)

  predicate Writable(xs: seq<Spelled>) {
    forall k :: 0 <= k < |xs| ==> Spell(xs[k].b, xs[k].how).Some?
  }

  function Text(xs: seq<Spelled>): seq<byte>
    requires Writable(xs)
  {
    if xs == [] then [] else Spell(xs[0].b, xs[0].how).value + Text(xs[1..])
  }

  function BytesOf(xs: seq<Spelled>): (bs: seq<byte>)
    ensures |bs| == |xs|
  {
    if xs == [] then [] else [xs[0].b] + BytesOf(xs[1..])
  }

  lemma HexRead(b: byte, upper1: bool, upper2: bool)
    ensures HexPair(Digit(b / 16, upper1), Digit(b % 16, upper2)) == Some(b)
  {
    hide Digit, HexDigit;
  }

  lemma LooseRead(b: byte, c: byte, upper: bool)
    requires Spell(b, Loose(c, upper)).Some?
    ensures HexPair(c, Spell(b, Loose(c, upper)).value[3]) == Some(b)
  {
    hide Digit;
    assert HexDigit(c).None?;
  }

  lemma OctalDigits(b: byte)
    requires b < 192
    ensures b / 64 <= 2 && 64 * (b / 64) + 8 * (b / 8 % 8) + b % 8 == b
  {
  }

  /** A spelling is read as its byte, whatever follows. */
  lemma SpellingRead(b: byte, how: Spelling, rest: seq<byte>)
    requires Spell(b, how).Some?
    ensures var s := Spell(b, how).value;
            && 1 <= |s| <= 4 && NextByte(s + rest) == Some((b, |s|)) && (s + rest)[|s|..] == rest
  {
    var s := Spell(b, how).value;
    assert (s + rest)[|s|..] == rest;
    assert forall k :: 0 <= k < |s| ==> (s + rest)[k] == s[k];
    if how == Octal {
      OctalDigits(b);
    } else if how.Hex? {
      HexRead(b, how.upper1, how.upper2);
      hide Digit, HexDigit;
    } else if how.Loose? {
      LooseRead(b, how.front, how.upper);
      hide Digit, HexDigit;
    } else {
      hide HexPair;
    }
  }

  lemma DigitSpelled(c: byte)
    requires HexDigit(c).Some?
    ensures Digit(HexDigit(c).value, c < 97) == c
  {
  }

  lemma HexSpelled(c: byte, d: byte) returns (how: Spelling)
    requires HexPair(c, d).Some?
    ensures Spell(HexPair(c, d).value, how) == Some([BACKSLASH, LOWER_X, c, d])
  {
    hide Digit, HexDigit;
    DigitSpelled(d);
    var b := HexPair(c, d).value;
    if HexDigit(c).Some? {
      DigitSpelled(c);
      how := Hex(c < 97, d < 97);
      assert b / 16 == HexDigit(c).value && b % 16 == HexDigit(d).value;
    } else {
      how := Loose(c, d < 97);
      LooseDigit(c, d);
    }
  }

  lemma LooseDigit(c: byte, d: byte)
    requires HexDigit(c).None? && HexPair(c, d).Some?
    ensures Spell(HexPair(c, d).value, Loose(c, d < 97)) == Some([BACKSLASH, LOWER_X, c, d])
  {
  }

  /** There are no other escapes: whatever is read as one is a spelling of the byte it is read as. */
  lemma EscapeSpelled(s: seq<byte>) returns (how: Spelling)
    requires s != [] && s[0] == BACKSLASH && Escape(s).Some?
    ensures var (b, n) := Escape(s).value; Spell(b, how) == Some(s[..n])
  {
    var (b, n) := Escape(s).value;
    if s[1] == LOWER_X {
      hide HexPair;
      how := HexSpelled(s[2], s[3]);
      assert s[..4] == [BACKSLASH, LOWER_X, s[2], s[3]];
    } else if n == 4 {
      how := Octal;
      OctalSpelled(s[1], s[2], s[3], b);
      assert s[..4] == [BACKSLASH, s[1], s[2], s[3]];
    } else {
      how := Short;
      assert s[..2] == [BACKSLASH, s[1]];
    }
  }

  lemma OctalSpelled(x: byte, y: byte, z: byte, b: byte)
    requires 48 <= x <= 50 && IsOctal(y) && IsOctal(z) && b == 64 * (x - 48) + 8 * (y - 48) + (z - 48)
    ensures Spell(b, Octal) == Some([BACKSLASH, x, y, z])
  {
    assert b / 64 == x - 48 && b / 8 % 8 == y - 48 && b % 8 == z - 48;
  }

  /** Up to 256 bytes, each spelled as one likes, are decoded to those bytes; more are an error. */
  lemma {:induction false} TextDecoded(xs: seq<Spelled>, size: nat)
    requires Writable(xs) && size <= BUFFER_NODE_MAX
    ensures size + |xs| <= BUFFER_NODE_MAX ==> Decode(Text(xs), size) == Decoded(BytesOf(xs), true)
    ensures size + |xs| > BUFFER_NODE_MAX ==> !Decode(Text(xs), size).ok
    decreases |xs|
  {
    hide Spell, Escape, NextByte;
    if xs != [] {
      SpellingRead(xs[0].b, xs[0].how, Text(xs[1..]));
      DecodeNext([], Text(xs), size);
      assert [] + Decode(Text(xs), size).bytes == Decode(Text(xs), size).bytes;
      if size < BUFFER_NODE_MAX {
        TextDecoded(xs[1..], size + 1);
        assert [] + [xs[0].b] == [xs[0].b];
      }
    }
  }

  /** Within a spelling no quote closes the literal, and behind it nothing is escaped. */
  lemma SpellingOpen(before: seq<byte>, b: byte, how: Spelling, after: seq<byte>)
    requires Spell(b, how).Some? && !Escaped(before + Spell(b, how).value + after, |before|)
    ensures var s := Spell(b, how).value;
            var input := before + s + after;
            && !Escaped(input, |before| + |s|)
            && forall k :: |before| <= k < |before| + |s| ==> !Closes(input, k)
  {
    var s := Spell(b, how).value;
    var input := before + s + after;
    var n := |before|;
    assert forall k :: 0 <= k < |s| ==> input[n + k] == s[k];
    assert input[n] == s[0];
    if |s| > 1 {
      assert Escaped(input, n + 1);
      assert !Escaped(input, n + 2);
      if |s| > 2 {
        assert s[2] != BACKSLASH && s[3] != BACKSLASH && s[2] != QUOTE && s[3] != QUOTE && s[1] != QUOTE;
        assert !Escaped(input, n + 3);
        assert !Escaped(input, n + 4);
      }
    }
  }

  lemma {:induction false} TextOpen(before: seq<byte>, xs: seq<Spelled>, after: seq<byte>)
    requires Writable(xs) && !Escaped(before + Text(xs) + after, |before|)
    ensures var input := before + Text(xs) + after;
            && !Escaped(input, |before| + |Text(xs)|)
            && forall k :: |before| <= k < |before| + |Text(xs)| ==> !Closes(input, k)
    decreases |xs|
  {
    hide Spell, Escaped, Closes;
    if xs != [] {
      var s, more := Spell(xs[0].b, xs[0].how).value, Text(xs[1..]);
      assert before + Text(xs) + after == before + s + (more + after) == (before + s) + more + after;
      SpellingOpen(before, xs[0].b, xs[0].how, more + after);
      TextOpen(before + s, xs[1..], after);
    }
  }

  lemma {:induction false} TextLength(xs: seq<Spelled>)
    requires Writable(xs)
    ensures |xs| <= |Text(xs)| <= 4 * |xs|
    ensures (forall k :: 0 <= k < |xs| ==> xs[k].how.Hex?) ==> |Text(xs)| == 4 * |xs|
    decreases |xs|
  {
    hide HexOf;
    if xs != [] {
      SpellingRead(xs[0].b, xs[0].how, []);
      TextLength(xs[1..]);
    }
  }

  lemma FirstClosing(input: seq<byte>, n: nat, r: Scanned)
    requires n < |input| && Closes(input, n) && (forall k :: 0 <= k < n ==> !Closes(input, k)) && ScansTo(input, r)
    ensures r == if n <= LITERAL_MAX then Scanned(input[..n], input[n + 1..]) else TooLarge
  {
    hide Closes;
  }

  lemma TextCloses(text: seq<byte>, rest: seq<byte>)
    requires var input := text + ([QUOTE] + rest); !Escaped(input, |text|)
    ensures var input := text + ([QUOTE] + rest); Closes(input, |text|) && input[..|text|] == text && input[|text| + 1..] == rest
  {
    hide Escaped;
  }

  /** Written between quotes, any sequence of bytes, each spelled as one likes, is scanned back up to the
      closing quote exactly if the text has at most LITERAL_MAX characters ... */
  lemma LiteralScanned(xs: seq<Spelled>, rest: seq<byte>, r: Scanned)
    requires Writable(xs) && ScansTo(Text(xs) + ([QUOTE] + rest), r)
    ensures r == if |Text(xs)| <= LITERAL_MAX then Scanned(Text(xs), rest) else TooLarge
  {
    hide Closes, ScansTo, Text;
    var text := Text(xs);
    var input := text + ([QUOTE] + rest);
    assert [] + text + ([QUOTE] + rest) == input;
    TextOpen([], xs, [QUOTE] + rest);
    TextCloses(text, rest);
    FirstClosing(input, |text|, r);
  }

  /** ... so no literal for a buffer is too large: up to 256 bytes take at most LITERAL_MAX characters,
      and 256 bytes in hexadecimal take exactly as many. What comes out is those bytes and zeros. */
  lemma LiteralRoundTrip(xs: seq<Spelled>, rest: seq<byte>, r: Scanned)
    requires Writable(xs) && |xs| <= 256 && ScansTo(Text(xs) + ([QUOTE] + rest), r)
    ensures r == Scanned(Text(xs), rest)
    ensures Decode(r.lit, 0) == Decoded(BytesOf(xs), true)
    ensures |xs| == 256 && (forall k :: 0 <= k < |xs| ==> xs[k].how.Hex?) ==> |r.lit| == 1024 == LITERAL_MAX
  {
    hide ScansTo, Text, Decode;
    TextLength(xs);
    LiteralScanned(xs, rest, r);
    TextDecoded(xs, 0);
  }
}
