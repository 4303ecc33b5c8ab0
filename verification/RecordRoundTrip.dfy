/** What was appended is what is read back, exactly when the payload is valid UTF-8 and its line fits. */
module RecordRoundTrip {

  import opened Options
  import opened RecordStore
  import opened Text

  /** The text a payload reads back as: every stray byte becomes the replacement character. */
  function TextOf(p: Payload): (t: string)
    ensures |t| == |p|
  {
    seq(|p|, i requires 0 <= i < |p| => CharOf(p[i]))
  }

  function AsPayload(t: string): Payload {
    seq(|t|, i requires 0 <= i < |t| => Rune(t[i]))
  }

  ghost predicate ValidUtf8(p: Payload) {
    forall i :: 0 <= i < |p| ==> p[i].Rune?
  }

  // ---------------------------------------------------------------------------
  // Decoding undoes encoding
  // ---------------------------------------------------------------------------

  lemma HexRoundTrip(n: nat)
    requires n < 16
    ensures HexValue(HexDigit(n)) == Some(n)
  {
  }

  lemma NibblesRoundTrip(code: nat)
    requires code < 0x10000
    ensures ((code / 4096 * 16 + code / 256 % 16) * 16 + code / 16 % 16) * 16 + code % 16 == code
  {
    assert code / 16 / 16 == code / 256 && code / 256 / 16 == code / 4096;
    assert code / 256 == code / 4096 * 16 + code / 256 % 16;
    assert code / 16 == code / 256 * 16 + code / 16 % 16;
  }

  lemma EscapeRoundTrip(code: nat, rest: string)
    requires code < 0x10000
    ensures CodeUnit(UnicodeEscape(code) + rest) == Some(code)
  {
    HexRoundTrip(code / 4096);
    HexRoundTrip(code / 256 % 16);
    HexRoundTrip(code / 16 % 16);
    HexRoundTrip(code % 16);
    NibblesRoundTrip(code);
  }

  lemma DecodeEscape(code: nat, rest: string)
    requires code < 0xD800 || 0xE000 <= code < 0x10000
    ensures DecodeBody(UnicodeEscape(code) + rest) == Prepend(code as char, DecodeBody(rest))
  {
    var s := UnicodeEscape(code) + rest;
    EscapeRoundTrip(code, rest);
    assert s[6..] == rest;
  }

  lemma DecodeRune(c: char, rest: string)
    ensures DecodeBody(EncodeRune(c) + rest) == Prepend(c, DecodeBody(rest))
  {
    var s := EncodeRune(c) + rest;
    if |EncodeRune(c)| == 1 {
      assert s[1..] == rest;
    } else if |EncodeRune(c)| == 2 {
      assert s[2..] == rest;
    } else {
      DecodeEscape(c as int, rest);
    }
  }

  function CharOf(u: PayloadUnit): char {
    if u.Rune? then u.c else REPLACEMENT
  }

  lemma DecodeUnit(u: PayloadUnit, rest: string)
    ensures DecodeBody(EncodeUnit(u) + rest) == Prepend(CharOf(u), DecodeBody(rest))
  {
    hide DecodeBody, EncodeRune;
    if u.Rune? {
      DecodeRune(u.c, rest);
    } else {
      DecodeEscape(0xFFFD, rest);
    }
  }

  lemma {:induction false} DecodeEncodedBody(p: Payload)
    ensures DecodeBody(EncodeBody(p) + "\"") == Some(TextOf(p))
  {
    if p != [] {
      hide DecodeBody, EncodeUnit;
      var rest := EncodeBody(p[1..]) + "\"";
      DecodeEncodedBody(p[1..]);
      assert EncodeBody(p) + "\"" == EncodeUnit(p[0]) + rest;
      DecodeUnit(p[0], rest);
      assert TextOf(p) == [CharOf(p[0])] + TextOf(p[1..]);
    }
  }

  /** A payload's line decodes to its text; the text is the payload exactly when it is valid UTF-8. */
  lemma DecodeEncode(p: Payload)
    ensures DecodeLine(Encode(p)) == Some(TextOf(p))
    ensures AsPayload(TextOf(p)) == p <==> ValidUtf8(p)
  {
    DecodeEncodedBody(p);
    assert Encode(p)[1..] == EncodeBody(p) + "\"";
    if ValidUtf8(p) {
      assert AsPayload(TextOf(p)) == p;
    }
    if AsPayload(TextOf(p)) == p {
      assert forall i :: 0 <= i < |p| ==> AsPayload(TextOf(p))[i].Rune?;
    }
  }

  // ---------------------------------------------------------------------------
  // The shape of a line
  // ---------------------------------------------------------------------------

  lemma {:induction false} NoControlCharacters(p: Payload)
    ensures forall i :: 0 <= i < |EncodeBody(p)| ==> 0x20 <= EncodeBody(p)[i] as int
  {
    if p != [] {
      NoControlCharacters(p[1..]);
      forall i | 0 <= i < |EncodeUnit(p[0])| ensures 0x20 <= EncodeUnit(p[0])[i] as int {
      }
    }
  }

  /** An encoded payload holds no newline, and neither trimming nor carriage returns touch it. */
  lemma LineIsIntact(p: Payload)
    ensures '\n' !in Encode(p)
    ensures TrimSpace(DropCR(Encode(p))) == Encode(p)
    ensures RecordOf(Encode(p)) == Some(TextOf(p))
  {
    NoControlCharacters(p);
    DecodeEncode(p);
    var e := Encode(p);
    assert e[0] == '"' && e[|e| - 1] == '"';
  }

  lemma {:induction false} SizeAppend(s: string, t: string)
    ensures Size(s + t) == Size(s) + Size(t)
  {
    if s == "" {
      assert s + t == t;
    } else {
      SizeAppend(s[1..], t);
      assert (s + t)[1..] == s[1..] + t;
    }
  }

  lemma {:induction false} AsciiSize(s: string)
    requires forall i :: 0 <= i < |s| ==> (s[i] as int) < 0x80
    ensures Size(s) == |s|
  {
    if s != "" {
      AsciiSize(s[1..]);
    }
  }

  lemma EscapeSize(code: nat)
    requires code < 0x10000
    ensures Size(UnicodeEscape(code)) == 6
  {
    AsciiSize(UnicodeEscape(code));
  }

  lemma UnitSize(u: PayloadUnit)
    ensures Size(EncodeUnit(u)) <= 6 * (if u.Rune? then Utf8Bytes(u.c) else 1)
  {
    if u.Rune? && |EncodeRune(u.c)| == 1 {
      assert EncodeRune(u.c)[1..] == "";
    } else {
      AsciiSize(EncodeUnit(u));
    }
  }

  lemma {:induction false} BodySize(p: Payload)
    ensures Size(EncodeBody(p)) <= 6 * PayloadSize(p)
  {
    if p != [] {
      BodySize(p[1..]);
      UnitSize(p[0]);
      SizeAppend(EncodeUnit(p[0]), EncodeBody(p[1..]));
    }
  }

  lemma QuotedSize(body: string)
    ensures Size("\"" + body + "\"") == Size(body) + 2
  {
    SizeAppend("\"", body);
    SizeAppend("\"" + body, "\"");
    AsciiSize("\"");
  }

  /** A line is at most six times as long as its payload, plus the quotes. */
  lemma LineSize(p: Payload)
    ensures Size(Encode(p)) <= 6 * PayloadSize(p) + 2
    ensures 6 * PayloadSize(p) + 2 < MAX_LINE_BYTES ==> Fits(Encode(p))
  {
    BodySize(p);
    QuotedSize(EncodeBody(p));
  }

  // ---------------------------------------------------------------------------
  // Appending adds one line
  // ---------------------------------------------------------------------------

  lemma {:induction false} PiecesExtendLast(file: string, more: string)
    requires '\n' !in more
    ensures var p, q := Pieces(file), Pieces(file + more);
            |q| == |p| && q[..|q| - 1] == p[..|p| - 1] && q[|q| - 1] == p[|p| - 1] + more
    decreases |more|
  {
    var p := Pieces(file);
    if more == "" {
      assert file + more == file && p[|p| - 1] + more == p[|p| - 1];
    } else {
      var front, c := more[..|more| - 1], more[|more| - 1];
      PiecesExtendLast(file, front);
      assert (file + more)[..|file + more| - 1] == file + front;
      assert p[|p| - 1] + more == p[|p| - 1] + front + [c];
    }
  }

  /** A file without an unfinished line: where every Append so far has succeeded. */
  predicate Complete(file: string) {
    file == "" || file[|file| - 1] == '\n'
  }

  lemma AppendAddsLine(file: string, line: string)
    requires Complete(file) && '\n' !in line
    ensures RawLines(file + line + "\n") == RawLines(file) + [line]
    ensures Complete(file + line + "\n")
  {
    var p, longer := Pieces(file), file + line;
    assert p[|p| - 1] == "";
    PiecesExtendLast(file, line);
    assert "" + line == line;
    assert (longer + "\n")[..|longer|] == longer;
    assert Pieces(longer + "\n") == Pieces(longer) + [""];
  }

  lemma EmptyIsComplete()
    ensures Complete("")
  {
  }

  function FileAfter(file: Option<string>, payloads: seq<Payload>): Option<string> {
    if payloads == [] then file
    else AfterAppend(FileAfter(file, payloads[..|payloads| - 1]), payloads[|payloads| - 1], Works)
  }

  function Texts(payloads: seq<Payload>): (t: seq<string>)
    ensures |t| == |payloads|
  {
    seq(|payloads|, i requires 0 <= i < |payloads| => TextOf(payloads[i]))
  }

  function Contents(file: Option<string>): string {
    if file.Some? then file.value else ""
  }

  ghost predicate AllFit(lines: seq<string>) {
    forall i :: 0 <= i < |lines| ==> Fits(lines[i])
  }

  ghost predicate EveryLineFits(payloads: seq<Payload>) {
    forall i :: 0 <= i < |payloads| ==> Fits(Encode(payloads[i]))
  }

  /** The complete file `after` reads like `before` with the payloads' texts behind. */
  ghost predicate ReadsAs(after: string, before: string, payloads: seq<Payload>) {
    && Complete(after)
    && RecordsOf(RawLines(after)) == RecordsOf(RawLines(before)) + Texts(payloads)
    && (AllFit(RawLines(after)) <==> AllFit(RawLines(before)) && EveryLineFits(payloads))
  }

  lemma OneMoreText(payloads: seq<Payload>, last: Payload)
    ensures Texts(payloads + [last]) == Texts(payloads) + [TextOf(last)]
    ensures EveryLineFits(payloads + [last]) <==> EveryLineFits(payloads) && Fits(Encode(last))
  {
    hide Encode, Fits, TextOf;
    var longer := payloads + [last];
    assert forall i :: 0 <= i < |payloads| ==> longer[i] == payloads[i];
    assert longer[|payloads|] == last;
  }

  lemma ReadsAsOneMore(middle: string, before: string, front: seq<Payload>, last: Payload)
    requires ReadsAs(middle, before, front)
    ensures ReadsAs(middle + Encode(last) + "\n", before, front + [last])
  {
    hide Encode, RawLines, TextOf, RecordOf, Fits, Complete, AllFit, EveryLineFits, Texts;
    LineIsIntact(last);
    AppendAddsRecord(middle, Encode(last));
    OneMoreText(front, last);
  }

  lemma ReadsAsItself(file: string)
    requires Complete(file)
    ensures ReadsAs(file, file, [])
  {
    assert RecordsOf(RawLines(file)) + Texts([]) == RecordsOf(RawLines(file));
  }

  lemma ContentsAfter(file: Option<string>, p: Payload)
    ensures Contents(AfterAppend(file, p, Works)) == Contents(file) + Encode(p) + "\n"
  {
  }

  lemma {:induction false} LinesAfter(file: Option<string>, payloads: seq<Payload>)
    requires Complete(Contents(file))
    ensures ReadsAs(Contents(FileAfter(file, payloads)), Contents(file), payloads)
  {
    hide Encode, ReadsAs, AfterAppend, Contents;
    if payloads == [] {
      ReadsAsItself(Contents(file));
    } else {
      var front, last := payloads[..|payloads| - 1], payloads[|payloads| - 1];
      LinesAfter(file, front);
      ReadsAsOneMore(Contents(FileAfter(file, front)), Contents(file), front, last);
      ContentsAfter(FileAfter(file, front), last);
      assert front + [last] == payloads;
    }
  }

  lemma OneMoreRecord(lines: seq<string>, line: string)
    requires RecordOf(line).Some?
    ensures RecordsOf(lines + [line]) == RecordsOf(lines) + [RecordOf(line).value]
    ensures AllFit(lines + [line]) <==> AllFit(lines) && Fits(line)
  {
    hide RecordOf, Fits;
    assert (lines + [line])[..|lines|] == lines;
    assert AllFit(lines + [line]) ==> Fits((lines + [line])[|lines|]);
    assert forall i :: 0 <= i < |lines| ==> (lines + [line])[i] == lines[i];
  }

  lemma AppendAddsRecord(file: string, line: string)
    requires Complete(file) && '\n' !in line && RecordOf(line).Some?
    ensures Complete(file + line + "\n")
    ensures RecordsOf(RawLines(file + line + "\n")) == RecordsOf(RawLines(file)) + [RecordOf(line).value]
    ensures AllFit(RawLines(file + line + "\n")) <==> AllFit(RawLines(file)) && Fits(line)
  {
    hide RecordOf, Fits, RawLines, Complete;
    AppendAddsLine(file, line);
    OneMoreRecord(RawLines(file), line);
  }

  /**
   After any successful appends to a new store, Records returns exactly the appended texts in
   order when every line fits the scanner, and fails when one does not.
   */
  lemma AppendsReadBack(payloads: seq<Payload>)
    ensures var file := FileAfter(None, payloads);
            (if file.None? then Read([]) else ReadFile(file.value))
            == if EveryLineFits(payloads) then Read(Texts(payloads)) else TokenTooLong
  {
    hide Encode, Complete, Fits, TextOf;
    assert Complete("") by { EmptyIsComplete(); }
    LinesAfter(None, payloads);
    assert RawLines("") == [] by { NoLines(); }
    assert RecordsOf([]) + Texts(payloads) == Texts(payloads);
  }

  // ---------------------------------------------------------------------------
  // Where the promise ends
  // ---------------------------------------------------------------------------

  lemma {:induction false} MarkupBodySize(p: Payload, n: nat)
    requires p == seq(n, _ => Rune('<'))
    ensures Size(EncodeBody(p)) == 6 * n && PayloadSize(p) == n
  {
    if n > 0 {
      assert p[1..] == seq(n - 1, _ => Rune('<'));
      MarkupBodySize(p[1..], n - 1);
      EscapeSize('<' as int);
      SizeAppend(EncodeUnit(p[0]), EncodeBody(p[1..]));
    }
  }

  /** A payload the handler accepts can be too long to read back, and then nothing can be read. */
  lemma AcceptedPayloadCanBlockReading(p: Payload, others: seq<Payload>)
    requires p == seq(DEFAULT_MAX_BODY_BYTES, _ => Rune('<'))
    ensures PayloadSize(p) <= DEFAULT_MAX_BODY_BYTES && !Fits(Encode(p))
    ensures ReadFile(Contents(FileAfter(None, [p] + others))) == TokenTooLong
  {
    MarkupBodySize(p, DEFAULT_MAX_BODY_BYTES);
    QuotedSize(EncodeBody(p));
    LinesAfter(None, [p] + others);
    assert ([p] + others)[0] == p;
  }

  lemma TrailingTextIsNoString(p: Payload, more: string)
    requires more != ""
    ensures DecodeBody(EncodeBody(p) + "\"" + more) == None
    decreases |p|
  {
    var s := EncodeBody(p) + "\"" + more;
    if p == [] {
      assert s == "\"" + more;
    } else {
      var rest := EncodeBody(p[1..]) + "\"" + more;
      TrailingTextIsNoString(p[1..], more);
      assert s == EncodeUnit(p[0]) + rest;
      DecodeUnit(p[0], rest);
    }
  }

  lemma GluedLineIsRaw(p: Payload, q: Payload)
    ensures RecordOf(Encode(p) + Encode(q)) == Some(Encode(p) + Encode(q))
  {
    hide DecodeBody, EncodeBody;
    var line := Encode(p) + Encode(q);
    TrailingTextIsNoString(p, Encode(q));
    assert line[1..] == EncodeBody(p) + "\"" + Encode(q);
    assert line[0] == '"' && line[|line| - 1] == '"';
  }

  /** An Append that fails before its newline swallows the next one: both end up in one raw record. */
  lemma TornAppendMerges(p: Payload, q: Payload)
    requires Fits(Encode(p) + Encode(q))
    ensures var file := AfterAppend(AfterAppend(None, p, NewlineFails), q, Works);
            file.Some? && ReadFile(file.value) == Read([Encode(p) + Encode(q)])
  {
    var line := Encode(p) + Encode(q);
    LineIsIntact(p);
    LineIsIntact(q);
    GluedLineIsRaw(p, q);
    hide Encode, RecordOf, Fits, RawLines;
    AppendAddsRecord("", line);
    assert RawLines("") == [] by { NoLines(); }
    assert "" + Encode(p) + Encode(q) + "\n" == "" + line + "\n";
  }

  lemma NoLines()
    ensures RawLines("") == []
  {
  }
}
