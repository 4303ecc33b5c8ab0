/**
 Appends that fail half-way. What such an append leaves in the file becomes part of the next
 line, so a later append that succeeds is not read back as it was written.
 */
module TornAppends {

  import opened Options
  import opened RecordRoundTrip
  import opened RecordStore
  import opened Text

  datatype Attempt = Attempt(payload: Payload, disk: Disk)

  function FileAfterAll(attempts: seq<Attempt>): Option<string> {
    if attempts == [] then None
    else
      var last := attempts[|attempts| - 1];
      AfterAppend(FileAfterAll(attempts[..|attempts| - 1]), last.payload, last.disk)
  }

  function Succeeded(attempts: seq<Attempt>): seq<Payload> {
    if attempts == [] then []
    else
      var last := attempts[|attempts| - 1];
      Succeeded(attempts[..|attempts| - 1]) + if last.disk.Works? then [last.payload] else []
  }

  /** What Records returns, when the file can be opened and read. */
  function ReadBack(file: Option<string>): ReadResult {
    if file.None? then Read([]) else ReadFile(file.value)
  }

  /** An append that failed before it wrote anything. */
  predicate WroteNothing(disk: Disk) {
    disk.OpenFails? || disk == PayloadFails(0)
  }

  // ---------------------------------------------------------------------------
  // Torn pieces
  // ---------------------------------------------------------------------------

  /** What a failing append leaves behind. */
  function Torn(a: Attempt): string {
    var encoded := Encode(a.payload);
    match a.disk
    case Works => ""
    case OpenFails => ""
    case PayloadFails(written) => if written < |encoded| then encoded[..written] else encoded
    case NewlineFails => encoded
  }

  /** What the failing appends since the last successful one have left behind. */
  function Pending(attempts: seq<Attempt>): string {
    if attempts == [] || attempts[|attempts| - 1].disk.Works? then ""
    else Pending(attempts[..|attempts| - 1]) + Torn(attempts[|attempts| - 1])
  }

  /** What stands in front of each successful append on its line. */
  function Prefixes(attempts: seq<Attempt>): (r: seq<string>)
    ensures |r| == |Succeeded(attempts)|
  {
    if attempts == [] then []
    else
      var front := attempts[..|attempts| - 1];
      Prefixes(front) + if attempts[|attempts| - 1].disk.Works? then [Pending(front)] else []
  }

  function Glue(prefixes: seq<string>, payloads: seq<Payload>): (r: seq<string>)
    requires |prefixes| == |payloads|
    ensures |r| == |payloads|
  {
    seq(|payloads|, k requires 0 <= k < |payloads| => prefixes[k] + Encode(payloads[k]))
  }

  /** The start of some encoded payloads, one behind the other. */
  predicate TornText(t: string) {
    '\n' !in t && (t != "" ==> t[0] == '"')
  }

  lemma TornIsTornText(a: Attempt)
    ensures TornText(Torn(a))
    ensures Torn(a) == "" <==> a.disk.Works? || WroteNothing(a.disk)
  {
    LineIsIntact(a.payload);
    assert Encode(a.payload)[0] == '"';
    hide Encode;
  }

  lemma {:induction false} PendingIsTornText(attempts: seq<Attempt>)
    ensures TornText(Pending(attempts))
  {
    if attempts != [] {
      hide Torn;
      PendingIsTornText(attempts[..|attempts| - 1]);
      TornIsTornText(attempts[|attempts| - 1]);
    }
  }

  lemma {:induction false} PrefixesAreTornTexts(attempts: seq<Attempt>)
    ensures forall k :: 0 <= k < |Prefixes(attempts)| ==> TornText(Prefixes(attempts)[k])
  {
    if attempts != [] {
      hide Pending, TornText;
      PrefixesAreTornTexts(attempts[..|attempts| - 1]);
      PendingIsTornText(attempts[..|attempts| - 1]);
    }
  }

  ghost predicate NothingTorn(attempts: seq<Attempt>) {
    forall a :: a in attempts ==> a.disk.Works? || WroteNothing(a.disk)
  }

  ghost predicate AllEmpty(prefixes: seq<string>) {
    forall k :: 0 <= k < |prefixes| ==> prefixes[k] == ""
  }

  /** Nothing stands in front of any line, nor at the end, exactly when no failing append wrote anything. */
  lemma {:induction false} TornShows(attempts: seq<Attempt>)
    ensures NothingTorn(attempts) <==> AllEmpty(Prefixes(attempts)) && Pending(attempts) == ""
  {
    if attempts != [] {
      hide Torn, WroteNothing;
      var front, last := attempts[..|attempts| - 1], attempts[|attempts| - 1];
      TornShows(front);
      TornIsTornText(last);
      assert attempts == front + [last];
      assert NothingTorn(attempts) <==> NothingTorn(front) && (last.disk.Works? || WroteNothing(last.disk));
      if last.disk.Works? {
        EmptyAppend(Prefixes(front), Pending(front));
      } else {
        assert Prefixes(front) + [] == Prefixes(front);
      }
    }
  }

  lemma EmptyAppend(prefixes: seq<string>, last: string)
    ensures AllEmpty(prefixes + [last]) <==> AllEmpty(prefixes) && last == ""
  {
    var longer := prefixes + [last];
    assert longer[|prefixes|] == last && forall k :: 0 <= k < |prefixes| ==> longer[k] == prefixes[k];
  }

  // ---------------------------------------------------------------------------
  // The lines of the file
  // ---------------------------------------------------------------------------

  lemma AfterAttempt(file: Option<string>, a: Attempt)
    ensures Contents(AfterAppend(file, a.payload, a.disk))
            == if a.disk.Works? then Contents(file) + Encode(a.payload) + "\n" else Contents(file) + Torn(a)
  {
    hide Encode;
  }

  lemma PiecesOfNewline(file: string)
    ensures Pieces(file + "\n") == Pieces(file) + [""]
  {
    assert (file + "\n")[..|file|] == file;
  }

  lemma GlueAppend(prefixes: seq<string>, payloads: seq<Payload>, prefix: string, last: Payload)
    requires |prefixes| == |payloads|
    ensures Glue(prefixes + [prefix], payloads + [last]) == Glue(prefixes, payloads) + [prefix + Encode(last)]
  {
    hide Encode;
  }

  lemma {:induction false} PiecesAre(attempts: seq<Attempt>)
    ensures Pieces(Contents(FileAfterAll(attempts)))
            == Glue(Prefixes(attempts), Succeeded(attempts)) + [Pending(attempts)]
  {
    if attempts != [] {
      hide Pieces, Torn, Encode, Glue, AfterAppend, Contents;
      var front, last := attempts[..|attempts| - 1], attempts[|attempts| - 1];
      var file, glued := Contents(FileAfterAll(front)), Glue(Prefixes(front), Succeeded(front));
      PiecesAre(front);
      AfterAttempt(FileAfterAll(front), last);
      if last.disk.Works? {
        LineIsIntact(last.payload);
        PiecesExtendLast(file, Encode(last.payload));
        PiecesOfNewline(file + Encode(last.payload));
        GlueAppend(Prefixes(front), Succeeded(front), Pending(front), last.payload);
        LastReplaced(Pieces(file), Pieces(file + Encode(last.payload)), glued, Pending(front), Encode(last.payload));
      } else {
        TornIsTornText(last);
        PiecesExtendLast(file, Torn(last));
        LastReplaced(Pieces(file), Pieces(file + Torn(last)), glued, Pending(front), Torn(last));
        assert Prefixes(front) + [] == Prefixes(front) && Succeeded(front) + [] == Succeeded(front);
      }
    } else {
      assert Glue([], []) + [""] == [""];
    }
  }

  lemma LastReplaced(p: seq<string>, q: seq<string>, front: seq<string>, last: string, more: string)
    requires p == front + [last] && |q| == |p| && q[..|q| - 1] == p[..|p| - 1] && q[|q| - 1] == p[|p| - 1] + more
    ensures q == front + [last + more]
  {
    assert q == q[..|q| - 1] + [q[|q| - 1]];
  }

  // ---------------------------------------------------------------------------
  // A glued line does not read back
  // ---------------------------------------------------------------------------

  lemma PrependLength(c: char, rest: Option<string>)
    ensures Prepend(c, rest).Some? <==> rest.Some?
    ensures rest.Some? ==> |Prepend(c, rest).value| == |rest.value| + 1
  {
  }

  /** No escape of six characters reaches past a quote. */
  lemma UnitStopsAtQuote(s: string, k: nat)
    requires k < |s| && k < 6 && s[k] == '"'
    ensures CodeUnit(s).None?
  {
  }

  /** Whatever precedes an encoded payload, what the whole decodes to is longer than that payload. */
  lemma {:induction false} GluedDecodesLonger(x: string, q: Payload)
    ensures var decoded := DecodeBody(x + Encode(q)); decoded.Some? ==> |decoded.value| > |q|
    decreases |x|
  {
    var s := x + Encode(q);
    assert Encode(q)[0] == '"' && |Encode(q)| >= 2;
    if x == "" {
      assert s[0] == '"' && |s| > 1;
    } else if x[0] != '\\' {
      assert s[1..] == x[1..] + Encode(q);
      GluedDecodesLonger(x[1..], q);
      hide Encode;
    } else if |x| == 1 {
      assert s[1] == '"' && s[2..] == EncodeBody(q) + "\"";
      DecodeEncodedBody(q);
      PrependLength('"', DecodeBody(s[2..]));
      hide Encode, EncodeBody;
    } else if x[1] != 'u' {
      assert s[2..] == x[2..] + Encode(q);
      GluedDecodesLonger(x[2..], q);
      hide Encode;
    } else if |x| < 6 {
      UnitStopsAtQuote(s, |x|);
      hide Encode;
    } else {
      GluedEscape(x, q);
    }
  }

  lemma GluedEscape(x: string, q: Payload)
    requires |x| >= 6 && x[0] == '\\' && x[1] == 'u'
    ensures var decoded := DecodeBody(x + Encode(q)); decoded.Some? ==> |decoded.value| > |q|
    decreases |x|, 0
  {
    var s := x + Encode(q);
    var rest := x[6..];
    assert s[6..] == rest + Encode(q);
    GluedDecodesLonger(rest, q);
    assert Encode(q)[0] == '"';
    hide Encode;
    if |rest| < 6 {
      UnitStopsAtQuote(s[6..], |rest|);
    } else {
      assert s[12..] == rest[6..] + Encode(q);
      GluedDecodesLonger(rest[6..], q);
    }
  }

  lemma {:induction false} EncodedIsLonger(q: Payload)
    ensures |EncodeBody(q)| >= |q|
  {
    if q != [] {
      EncodedIsLonger(q[1..]);
      assert |EncodeUnit(q[0])| >= 1;
    }
  }

  lemma QuotedIsIntact(line: string)
    requires line != "" && line[0] == '"' && line[|line| - 1] == '"'
    ensures TrimSpace(DropCR(line)) == line
  {
  }

  lemma GluedLineDiffers(t: string, q: Payload)
    requires TornText(t) && t != ""
    ensures RecordOf(t + Encode(q)).Some? && RecordOf(t + Encode(q)).value != TextOf(q)
  {
    var line := t + Encode(q);
    assert line[0] == '"' && line[|line| - 1] == '"';
    QuotedIsIntact(line);
    assert line[1..] == t[1..] + Encode(q);
    GluedDecodesLonger(t[1..], q);
    EncodedIsLonger(q);
    assert |line| > |q|;
    hide DecodeBody, Encode, TextOf, TrimSpace, DropCR;
    assert "null"[0] == 'n';
  }

  lemma {:induction false} TrimRightKeepsFirst(s: string)
    requires s != "" && !IsSpace(s[0])
    ensures TrimRight(s) != ""
  {
    if IsSpace(s[|s| - 1]) {
      TrimRightKeepsFirst(s[..|s| - 1]);
    }
  }

  lemma PendingIsARecord(t: string)
    requires TornText(t) && t != ""
    ensures RecordOf(t).Some?
  {
    assert DropCR(t) != "" && DropCR(t)[0] == '"';
    TrimRightKeepsFirst(DropCR(t));
    hide DecodeLine;
  }

  // ---------------------------------------------------------------------------
  // When appends read back
  // ---------------------------------------------------------------------------

  ghost predicate AllRecords(lines: seq<string>) {
    forall k :: 0 <= k < |lines| ==> RecordOf(lines[k]).Some?
  }

  lemma {:induction false} RecordsAt(lines: seq<string>, k: nat)
    requires AllRecords(lines) && k < |lines|
    ensures |RecordsOf(lines)| == |lines| && RecordsOf(lines)[k] == RecordOf(lines[k]).value
  {
    hide RecordOf;
    RecordsCount(lines[..|lines| - 1]);
    if k < |lines| - 1 {
      RecordsAt(lines[..|lines| - 1], k);
    }
  }

  lemma {:induction false} RecordsCount(lines: seq<string>)
    requires AllRecords(lines)
    ensures |RecordsOf(lines)| == |lines|
  {
    if lines != [] {
      hide RecordOf;
      RecordsCount(lines[..|lines| - 1]);
    }
  }

  lemma GlueRecords(prefixes: seq<string>, payloads: seq<Payload>)
    requires |prefixes| == |payloads| && forall k :: 0 <= k < |prefixes| ==> TornText(prefixes[k])
    ensures AllRecords(Glue(prefixes, payloads))
    ensures forall k :: 0 <= k < |payloads| ==>
              (RecordOf(Glue(prefixes, payloads)[k]).value == TextOf(payloads[k]) <==> prefixes[k] == "")
  {
    hide RecordOf, TextOf, Encode, TornText;
    forall k | 0 <= k < |payloads|
      ensures RecordOf(prefixes[k] + Encode(payloads[k])).Some?
      ensures RecordOf(prefixes[k] + Encode(payloads[k])).value == TextOf(payloads[k]) <==> prefixes[k] == ""
    {
      if prefixes[k] == "" {
        LineIsIntact(payloads[k]);
        assert "" + Encode(payloads[k]) == Encode(payloads[k]);
      } else {
        GluedLineDiffers(prefixes[k], payloads[k]);
      }
    }
  }

  /** The lines of the file, read: the texts of the payloads exactly when nothing is torn. */
  lemma GluedReads(prefixes: seq<string>, payloads: seq<Payload>, pending: string)
    requires |prefixes| == |payloads| && TornText(pending)
    requires forall k :: 0 <= k < |prefixes| ==> TornText(prefixes[k])
    ensures var lines := Glue(prefixes, payloads) + if pending == "" then [] else [pending];
            RecordsOf(lines) == Texts(payloads) <==> AllEmpty(prefixes) && pending == ""
  {
    var glued := Glue(prefixes, payloads);
    var lines := glued + if pending == "" then [] else [pending];
    GlueRecords(prefixes, payloads);
    if pending != "" {
      PendingIsARecord(pending);
      LinesAreRecords(glued, pending);
      RecordsCount(lines);
    } else {
      assert lines == glued;
      hide RecordOf, TextOf, Glue, TornText;
      RecordsCount(glued);
      forall k | 0 <= k < |payloads| ensures RecordsOf(glued)[k] == TextOf(payloads[k]) <==> prefixes[k] == "" {
        RecordsAt(glued, k);
      }
      TextsCompare(RecordsOf(glued), payloads, prefixes);
    }
  }

  lemma LinesAreRecords(lines: seq<string>, last: string)
    requires AllRecords(lines) && RecordOf(last).Some?
    ensures AllRecords(lines + [last])
  {
    hide RecordOf;
  }

  lemma TextsCompare(records: seq<string>, payloads: seq<Payload>, prefixes: seq<string>)
    requires |records| == |payloads| == |prefixes|
    requires forall k :: 0 <= k < |payloads| ==> (records[k] == TextOf(payloads[k]) <==> prefixes[k] == "")
    ensures records == Texts(payloads) <==> AllEmpty(prefixes)
  {
    hide TextOf;
    if records == Texts(payloads) {
      forall k | 0 <= k < |prefixes| ensures prefixes[k] == "" {
        assert records[k] == Texts(payloads)[k];
      }
    }
  }

  lemma WholeLinesFit(prefixes: seq<string>, payloads: seq<Payload>)
    requires |prefixes| == |payloads| && AllEmpty(prefixes)
    ensures AllFit(Glue(prefixes, payloads)) <==> EveryLineFits(payloads)
  {
    hide Fits, Encode;
    var lines := Glue(prefixes, payloads);
    forall k | 0 <= k < |payloads| ensures lines[k] == Encode(payloads[k]) {
      assert "" + Encode(payloads[k]) == Encode(payloads[k]);
    }
  }

  /**
   Over every sequence of appends to a new store, with failures anywhere in them: Records
   returns exactly the texts of the successful ones, in order, if and only if each of those
   fits the scanner and no failing append wrote anything.
   */
  lemma AppendsReadBackExactly(attempts: seq<Attempt>)
    ensures ReadBack(FileAfterAll(attempts)) == Read(Texts(Succeeded(attempts)))
            <==> EveryLineFits(Succeeded(attempts)) && NothingTorn(attempts)
  {
    var prefixes, payloads, pending := Prefixes(attempts), Succeeded(attempts), Pending(attempts);
    var lines := RawLines(Contents(FileAfterAll(attempts)));
    hide TextOf, Torn, Fits, Encode, RecordOf, TornText, AllEmpty, EveryLineFits, NothingTorn, Texts;
    PiecesAre(attempts);
    PendingIsTornText(attempts);
    PrefixesAreTornTexts(attempts);
    TornShows(attempts);
    assert lines == Glue(prefixes, payloads) + if pending == "" then [] else [pending];
    GluedReads(prefixes, payloads, pending);
    if NothingTorn(attempts) {
      WholeLinesFit(prefixes, payloads);
      assert lines == Glue(prefixes, payloads);
    }
    ReadBackIs(FileAfterAll(attempts));
  }

  lemma ReadBackIs(file: Option<string>)
    ensures var lines := RawLines(Contents(file));
            ReadBack(file) == if AllFit(lines) then Read(RecordsOf(lines)) else TokenTooLong
  {
    if file.None? {
      NoLines();
    }
  }
}
