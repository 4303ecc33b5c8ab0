/**
 The lines of the record file as JSON strings (section 7 of RFC 8259): which lines are one, what
 text each stands for, and how the store spells a payload.
 */
module JsonStrings {

  import opened Options
  import opened RecordRoundTrip
  import opened RecordStore
  import opened Text

  /** A hexadecimal digit, in either case. */
  datatype Nibble = Nibble(value: nat, upper: bool)

  /** A character that stands for itself, a two-character escape, or a code unit. */
  datatype Token = Plain(c: char) | Short(letter: char) | Hex(n3: Nibble, n2: Nibble, n1: Nibble, n0: Nibble)

  const LOWER := "0123456789abcdef"
  const UPPER := "0123456789ABCDEF"

  predicate IsNibble(n: Nibble) { n.value < 16 }

  predicate Proper(t: Token) {
    match t
    case Plain(c) => c != '"' && c != '\\' && c as int >= 0x20
    case Short(letter) => letter in {'"', '\\', '/', 'b', 'f', 'n', 'r', 't'}
    case Hex(a, b, c, d) => IsNibble(a) && IsNibble(b) && IsNibble(c) && IsNibble(d)
  }

  ghost predicate AllProper(ts: seq<Token>) { forall i :: 0 <= i < |ts| ==> Proper(ts[i]) }

  function DigitFor(n: Nibble): char
    requires IsNibble(n)
  {
    if n.upper then UPPER[n.value] else LOWER[n.value]
  }

  function Spelling(t: Token): string
    requires Proper(t)
  {
    match t
    case Plain(c) => [c]
    case Short(letter) => ['\\', letter]
    case Hex(a, b, c, d) => ['\\', 'u', DigitFor(a), DigitFor(b), DigitFor(c), DigitFor(d)]
  }

  function Spell(ts: seq<Token>): string
    requires AllProper(ts)
  {
    if ts == [] then "" else Spelling(ts[0]) + Spell(ts[1..])
  }

  function Code(t: Token): nat
    requires t.Hex?
  {
    4096 * t.n3.value + 256 * t.n2.value + 16 * t.n1.value + t.n0.value
  }

  function ShortMeaning(letter: char): char {
    match letter
    case 'b' => '\U{8}'
    case 'f' => '\U{C}'
    case 'n' => '\n'
    case 'r' => '\r'
    case 't' => '\t'
    case _ => letter
  }

  predicate IsHigh(code: nat) { 0xD800 <= code < 0xDC00 }
  predicate IsLow(code: nat) { 0xDC00 <= code < 0xE000 }

  lemma CodeBound(t: Token)
    requires t.Hex? && Proper(t)
    ensures Code(t) < 0x10000
  {
  }

  /** The text of a string; a surrogate that is not one of a pair is U+FFFD. */
  function Meaning(ts: seq<Token>): string
    requires AllProper(ts)
  {
    if ts == [] then ""
    else match ts[0]
      case Plain(c) => [c] + Meaning(ts[1..])
      case Short(letter) => [ShortMeaning(letter)] + Meaning(ts[1..])
      case Hex(_, _, _, _) =>
        CodeBound(ts[0]);
        var code := Code(ts[0]);
        if !IsHigh(code) && !IsLow(code) then [code as char] + Meaning(ts[1..])
        else if IsHigh(code) && |ts| > 1 && ts[1].Hex? && IsLow(Code(ts[1])) then
          [(0x10000 + 0x400 * (code - 0xD800) + (Code(ts[1]) - 0xDC00)) as char] + Meaning(ts[2..])
        else [REPLACEMENT] + Meaning(ts[1..])
  }

  // ---------------------------------------------------------------------------
  // Every spelling is read as its text
  // ---------------------------------------------------------------------------

  lemma DigitReads(n: Nibble)
    requires IsNibble(n)
    ensures HexValue(DigitFor(n)) == Some(n.value)
  {
    assert UPPER[10] == 'A' && UPPER[11] == 'B' && UPPER[12] == 'C' && UPPER[13] == 'D' && UPPER[14] == 'E';
    assert LOWER[10] == 'a' && LOWER[11] == 'b' && LOWER[12] == 'c' && LOWER[13] == 'd' && LOWER[14] == 'e';
    assert forall k :: 0 <= k < 10 ==> UPPER[k] as int == '0' as int + k && LOWER[k] as int == '0' as int + k;
  }

  lemma HexReads(t: Token, rest: string)
    requires t.Hex? && Proper(t)
    ensures CodeUnit(Spelling(t) + rest) == Some(Code(t))
  {
    hide HexValue, DigitFor;
    DigitReads(t.n3);
    DigitReads(t.n2);
    DigitReads(t.n1);
    DigitReads(t.n0);
    var s := Spelling(t) + rest;
    assert s[0] == '\\' && s[1] == 'u' && s[2] == DigitFor(t.n3) && s[3] == DigitFor(t.n2);
    assert s[4] == DigitFor(t.n1) && s[5] == DigitFor(t.n0);
  }

  /** Text that does not begin with a code unit's escape. */
  lemma NotHexReads(t: Token, rest: string)
    requires !t.Hex? && Proper(t)
    ensures CodeUnit(Spelling(t) + rest).None?
  {
    hide HexValue;
    var s := Spelling(t) + rest;
    assert s[0] == Spelling(t)[0] && (t.Short? ==> s[1] == t.letter);
  }

  lemma PlainDecodes(t: Token, rest: string)
    requires !t.Hex? && Proper(t)
    ensures DecodeBody(Spelling(t) + rest)
            == Prepend(if t.Plain? then t.c else ShortMeaning(t.letter), DecodeBody(rest))
  {
    var s := Spelling(t) + rest;
    assert s[0] == Spelling(t)[0];
    if t.Plain? {
      assert s[1..] == rest;
    } else {
      assert s[1] == t.letter && s[2..] == rest;
    }
  }

  lemma SingleDecodes(t: Token, rest: string)
    requires t.Hex? && Proper(t) && !IsHigh(Code(t)) && !IsLow(Code(t))
    ensures Code(t) < 0x10000
    ensures DecodeBody(Spelling(t) + rest) == Prepend(Code(t) as char, DecodeBody(rest))
  {
    hide CodeUnit, DigitFor, Code;
    CodeBound(t);
    HexReads(t, rest);
    var s := Spelling(t) + rest;
    assert s[0] == '\\' && s[1] == 'u' && s[6..] == rest;
  }

  lemma LoneDecodes(t: Token, rest: string)
    requires t.Hex? && Proper(t) && (IsHigh(Code(t)) || IsLow(Code(t)))
    requires IsHigh(Code(t)) ==> CodeUnit(rest).None? || !IsLow(CodeUnit(rest).value)
    ensures DecodeBody(Spelling(t) + rest) == Prepend(REPLACEMENT, DecodeBody(rest))
  {
    hide CodeUnit, DigitFor, Code;
    HexReads(t, rest);
    var s := Spelling(t) + rest;
    assert s[0] == '\\' && s[1] == 'u' && s[6..] == rest;
  }

  lemma PairDecodes(t: Token, u: Token, rest: string)
    requires t.Hex? && Proper(t) && IsHigh(Code(t)) && u.Hex? && Proper(u) && IsLow(Code(u))
    ensures DecodeBody(Spelling(t) + (Spelling(u) + rest))
            == Prepend((0x10000 + 0x400 * (Code(t) - 0xD800) + (Code(u) - 0xDC00)) as char, DecodeBody(rest))
  {
    hide CodeUnit, DigitFor, Code;
    HexReads(t, Spelling(u) + rest);
    HexReads(u, rest);
    var s := Spelling(t) + (Spelling(u) + rest);
    assert s[0] == '\\' && s[1] == 'u' && s[6..] == Spelling(u) + rest && s[12..] == rest;
  }

  /** What comes after a token, as far as its meaning depends on it. */
  lemma NextUnit(ts: seq<Token>)
    requires AllProper(ts)
    ensures var unit := CodeUnit(Spell(ts) + "\"");
            unit == if ts != [] && ts[0].Hex? then Some(Code(ts[0])) else None
  {
    hide CodeUnit, Code;
    if ts == [] {
      QuoteIsNoUnit();
    } else {
      assert Spell(ts) + "\"" == Spelling(ts[0]) + (Spell(ts[1..]) + "\"");
      if ts[0].Hex? {
        HexReads(ts[0], Spell(ts[1..]) + "\"");
      } else {
        NotHexReads(ts[0], Spell(ts[1..]) + "\"");
      }
    }
  }

  lemma QuoteIsNoUnit()
    ensures CodeUnit("" + "\"").None?
  {
  }

  lemma {:induction false} SpellingDecodes(ts: seq<Token>)
    requires AllProper(ts)
    ensures DecodeBody(Spell(ts) + "\"") == Some(Meaning(ts))
    decreases |ts|
  {
    hide Spelling, Code, DecodeBody, CodeUnit, Proper;
    if ts == [] {
      EmptyDecodes();
      assert Spell(ts) + "\"" == "\"";
    } else {
      var t, rest := ts[0], Spell(ts[1..]) + "\"";
      assert Spell(ts) + "\"" == Spelling(t) + rest;
      SpellingDecodes(ts[1..]);
      if !t.Hex? {
        PlainDecodes(t, rest);
      } else if !IsHigh(Code(t)) && !IsLow(Code(t)) {
        SingleDecodes(t, rest);
      } else if IsHigh(Code(t)) && |ts| > 1 && ts[1].Hex? && IsLow(Code(ts[1])) {
        SpellingDecodes(ts[2..]);
        assert ts[1..][1..] == ts[2..];
        assert rest == Spelling(ts[1]) + (Spell(ts[2..]) + "\"");
        PairDecodes(t, ts[1], Spell(ts[2..]) + "\"");
      } else {
        NextUnit(ts[1..]);
        LoneDecodes(t, rest);
      }
    }
  }

  lemma EmptyDecodes()
    ensures DecodeBody("\"") == Some("")
  {
  }

  // ---------------------------------------------------------------------------
  // Nothing else is read as a string
  // ---------------------------------------------------------------------------

  lemma HexDigitIsNibble(c: char) returns (n: Nibble)
    requires HexValue(c).Some?
    ensures IsNibble(n) && DigitFor(n) == c
  {
    var v := HexValue(c).value;
    n := Nibble(v, 'A' <= c <= 'F');
    assert UPPER[10] == 'A' && UPPER[11] == 'B' && UPPER[12] == 'C' && UPPER[13] == 'D' && UPPER[14] == 'E';
    assert LOWER[10] == 'a' && LOWER[11] == 'b' && LOWER[12] == 'c' && LOWER[13] == 'd' && LOWER[14] == 'e';
    assert forall k :: 0 <= k < 10 ==> UPPER[k] as int == '0' as int + k && LOWER[k] as int == '0' as int + k;
  }

  lemma UnitIsToken(s: string) returns (t: Token)
    requires CodeUnit(s).Some?
    ensures t.Hex? && Proper(t) && s == Spelling(t) + s[6..]
  {
    hide HexValue, DigitFor;
    var a := HexDigitIsNibble(s[2]);
    var b := HexDigitIsNibble(s[3]);
    var c := HexDigitIsNibble(s[4]);
    var d := HexDigitIsNibble(s[5]);
    t := Hex(a, b, c, d);
  }

  /** The token that a decodable text begins with. */
  lemma FirstToken(s: string) returns (t: Token)
    requires s != "" && s != "\"" && DecodeBody(s).Some?
    ensures Proper(t) && |Spelling(t)| <= |s| && s == Spelling(t) + s[|Spelling(t)|..]
    ensures DecodeBody(s[|Spelling(t)|..]).Some?
  {
    assert s[0] == '"' ==> |s| == 1;
    assert s[0] == '"' ==> s == "\"";
    if s[0] != '\\' {
      t := Plain(s[0]);
    } else if s[1] == 'u' {
      t := UnitIsToken(s);
      RestDecodes(s);
    } else {
      t := Short(s[1]);
      assert s == ['\\', s[1]] + s[2..];
    }
  }

  /** The second half of a pair is a string's text by itself too. */
  lemma RestDecodes(s: string)
    requires |s| > 1 && s[0] == '\\' && s[1] == 'u' && DecodeBody(s).Some?
    ensures CodeUnit(s).Some? && DecodeBody(s[6..]).Some?
  {
    hide CodeUnit;
    assert CodeUnit(s).Some?;
    UnitStarts(s);
    var rest := s[6..];
    if CodeUnit(rest).Some? && IsLow(CodeUnit(rest).value) && IsHigh(CodeUnit(s).value) {
      UnitStarts(rest);
      assert s[12..] == rest[6..];
    }
  }

  lemma UnitStarts(s: string)
    requires CodeUnit(s).Some?
    ensures |s| >= 6 && s[0] == '\\' && s[1] == 'u'
  {
  }

  lemma {:induction false} DecodedIsSpelled(s: string) returns (ts: seq<Token>)
    requires DecodeBody(s).Some?
    ensures AllProper(ts) && s == Spell(ts) + "\""
    decreases |s|
  {
    if s == "\"" {
      ts := [];
    } else {
      var t := FirstToken(s);
      hide DecodeBody, Proper;
      assert |Spelling(t)| > 0 by { SpellingIsSome(t); }
      var rest := DecodedIsSpelled(s[|Spelling(t)|..]);
      ts := [t] + rest;
      assert ts[1..] == rest;
    }
  }

  lemma SpellingIsSome(t: Token)
    requires Proper(t)
    ensures |Spelling(t)| > 0
  {
  }

  /** The line is a JSON string for the text; the word null stands for no text. */
  ghost predicate IsStringFor(line: string, text: string) {
    || (line == "null" && text == "")
    || (exists ts :: AllProper(ts) && line == "\"" + Spell(ts) + "\"" && text == Meaning(ts))
  }

  /** A line is decoded exactly when it is a JSON string, in whichever of its spellings, and to the text it stands for. */
  lemma DecodesExactly(line: string, text: string)
    ensures DecodeLine(line) == Some(text) <==> IsStringFor(line, text)
  {
    hide DecodeBody, Spell, Meaning;
    if DecodeLine(line) == Some(text) && line != "null" {
      var ts := DecodedIsSpelled(line[1..]);
      SpellingDecodes(ts);
      assert line == "\"" + Spell(ts) + "\"";
    }
    if ts :| AllProper(ts) && line == "\"" + Spell(ts) + "\"" && text == Meaning(ts) {
      assert line[1..] == Spell(ts) + "\"";
      assert line[0] == '"' && "null"[0] == 'n';
      SpellingDecodes(ts);
    }
  }

  /** A line that is not blank is one record: the text it stands for, or itself where it is no JSON string. */
  lemma LineIsRecord(raw: string)
    ensures
      var line := TrimSpace(DropCR(raw));
      && (RecordOf(raw).None? <==> line == "")
      && (forall text :: line != "" && IsStringFor(line, text) ==> RecordOf(raw) == Some(text))
      && (line != "" && (forall text :: !IsStringFor(line, text)) ==> RecordOf(raw) == Some(line))
  {
    hide TrimSpace, DropCR, DecodeLine, IsStringFor;
    var line := TrimSpace(DropCR(raw));
    forall text ensures DecodeLine(line) == Some(text) <==> IsStringFor(line, text) {
      DecodesExactly(line, text);
    }
    if DecodeLine(line).Some? {
      assert IsStringFor(line, DecodeLine(line).value);
    }
  }

  // ---------------------------------------------------------------------------
  // How the store spells a payload
  // ---------------------------------------------------------------------------

  predicate IsLowerHex(t: Token) {
    t.Hex? && IsNibble(t.n3) && IsNibble(t.n2) && IsNibble(t.n1) && IsNibble(t.n0)
    && !t.n3.upper && !t.n2.upper && !t.n1.upper && !t.n0.upper
  }

  /**
   The token for a unit of a payload: stray bytes become U+FFFD; quotes, backslashes and five
   control characters have short escapes; the other control characters, `<`, `>`, `&` and the two
   line separators are code units; and all else stands for itself.
   */
  ghost predicate IsTokenFor(t: Token, u: PayloadUnit) {
    match u
    case Bad(_) => IsLowerHex(t) && Code(t) == 0xFFFD
    case Rune(c) =>
      if c in {'"', '\\', '\U{8}', '\U{C}', '\n', '\r', '\t'} then
        t.Short? && t.letter != '/' && Proper(t) && ShortMeaning(t.letter) == c
      else if c as int < 0x20 || c in {'<', '>', '&', '\U{2028}', '\U{2029}'} then IsLowerHex(t) && Code(t) == c as int
      else t == Plain(c)
  }

  lemma EscapeIsToken(code: nat) returns (t: Token)
    requires code < 0x10000
    ensures IsLowerHex(t) && Proper(t) && Code(t) == code && Spelling(t) == UnicodeEscape(code)
  {
    var a, b, c, d := code / 4096, code / 256 % 16, code / 16 % 16, code % 16;
    NibblesRoundTrip(code);
    t := Hex(Nibble(a, false), Nibble(b, false), Nibble(c, false), Nibble(d, false));
    LowerDigits(a);
    LowerDigits(b);
    LowerDigits(c);
    LowerDigits(d);
    hide HexDigit, DigitFor;
    assert Spelling(t) == ['\\', 'u', HexDigit(a), HexDigit(b), HexDigit(c), HexDigit(d)];
  }

  lemma LowerDigits(n: nat)
    requires n < 16
    ensures DigitFor(Nibble(n, false)) == HexDigit(n)
  {
    assert LOWER[10] == 'a' && LOWER[11] == 'b' && LOWER[12] == 'c' && LOWER[13] == 'd' && LOWER[14] == 'e';
    assert forall k :: 0 <= k < 10 ==> LOWER[k] as int == '0' as int + k;
  }

  lemma UnitIsSpelled(u: PayloadUnit) returns (t: Token)
    ensures IsTokenFor(t, u) && Proper(t) && Spelling(t) == EncodeUnit(u)
  {
    match u
    case Bad(_) => t := EscapeIsToken(0xFFFD);
    case Rune(c) =>
      if c == '"' || c == '\\' {
        t := Short(c);
      } else if c == '\U{8}' {
        t := Short('b');
      } else if c == '\U{C}' {
        t := Short('f');
      } else if c == '\n' {
        t := Short('n');
      } else if c == '\r' {
        t := Short('r');
      } else if c == '\t' {
        t := Short('t');
      } else if c as int < 0x20 || c in {'<', '>', '&', '\U{2028}', '\U{2029}'} {
        hide Spelling, UnicodeEscape;
        t := EscapeIsToken(c as int);
      } else {
        t := Plain(c);
      }
  }

  /** A payload is written as a JSON string of one token for each of its units. */
  lemma {:induction false} PayloadIsSpelled(p: Payload) returns (ts: seq<Token>)
    ensures |ts| == |p| && AllProper(ts) && (forall i :: 0 <= i < |p| ==> IsTokenFor(ts[i], p[i]))
    ensures EncodeBody(p) == Spell(ts) && Encode(p) == "\"" + Spell(ts) + "\""
  {
    if p == [] {
      ts := [];
    } else {
      hide IsTokenFor, Proper, EncodeUnit, Spelling;
      var t := UnitIsSpelled(p[0]);
      var rest := PayloadIsSpelled(p[1..]);
      ts := [t] + rest;
      assert ts[1..] == rest;
      forall i | 0 <= i < |p| ensures IsTokenFor(ts[i], p[i]) && Proper(ts[i]) {
        if i > 0 {
          assert ts[i] == rest[i - 1] && p[i] == p[1..][i - 1];
        }
      }
    }
  }

  // ---------------------------------------------------------------------------
  // The longest line that is read
  // ---------------------------------------------------------------------------

  /** The bytes of a character's UTF-8 encoding (section 3 of RFC 3629). */
  ghost predicate TakesBytes(c: char, n: nat) {
    || (n == 1 && c as int <= 0x7F)
    || (n == 2 && 0x80 <= c as int <= 0x7FF)
    || (n == 3 && 0x800 <= c as int <= 0xFFFF)
    || (n == 4 && 0x10000 <= c as int)
  }

  lemma {:induction false} RepeatedSize(c: char, n: nat, bytes: nat)
    requires IsTokenFor(Plain(c), Rune(c)) && TakesBytes(c, bytes)
    ensures Size(EncodeBody(seq(n, _ => Rune(c)))) == n * bytes
  {
    var p := seq(n, _ => Rune(c));
    if n > 0 {
      assert p[1..] == seq(n - 1, _ => Rune(c));
      RepeatedSize(c, n - 1, bytes);
      assert EncodeUnit(p[0]) == [c];
      SizeAppend([c], EncodeBody(p[1..]));
      assert Size([c]) == bytes by { assert [c][1..] == ""; }
      assert n * bytes == (n - 1) * bytes + bytes;
    }
  }

  /** Text that needs no escapes is read back exactly when it and its quotes stay below 8 MiB. */
  lemma LongestText(c: char, n: nat, bytes: nat)
    requires IsTokenFor(Plain(c), Rune(c)) && TakesBytes(c, bytes)
    ensures
      var p := seq(n, _ => Rune(c));
      ReadFile(Contents(FileAfter(None, [p])))
      == if n * bytes + 2 < 8_388_608 then Read([seq(n, _ => c)]) else TokenTooLong
  {
    var p := seq(n, _ => Rune(c));
    RepeatedSize(c, n, bytes);
    QuotedSize(EncodeBody(p));
    AppendsReadBack([p]);
    assert EveryLineFits([p]) <==> n * bytes + 2 < 8_388_608;
    assert FileAfter(None, [p]).Some? by { hide Encode; assert [p][..0] == []; }
    hide Encode, Fits, EveryLineFits, ReadFile, FileAfter;
    assert TextOf(p) == seq(n, _ => c);
    assert Texts([p]) == [TextOf(p)];
  }
}
