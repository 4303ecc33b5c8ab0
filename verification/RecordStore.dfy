/**
 The alert receiver's record store: webhook payloads as JSON strings (section 7 of RFC 8259),
 one a line, in an append-only file.

 A `char` is a Unicode scalar value, so a `string` is a valid UTF-8 text. A payload is what a
 Go string decodes to: runes, and single bytes that are not part of any valid encoding.
 */
module RecordStore {

  import opened Options
  import opened Text

  const MAX_LINE_BYTES := 8 * 1024 * 1024
  const DEFAULT_MAX_BODY_BYTES := 2 * 1024 * 1024
  const REPLACEMENT: char := '\U{FFFD}'

  datatype PayloadUnit = Rune(c: char) | Bad(b: bv8)

  type Payload = seq<PayloadUnit>

  function Utf8Bytes(c: char): (n: nat)
    ensures 1 <= n <= 4
  {
    if (c as int) < 0x80 then 1 else if (c as int) < 0x800 then 2 else if (c as int) < 0x10000 then 3 else 4
  }

  function Size(s: string): nat {
    if s == "" then 0 else Utf8Bytes(s[0]) + Size(s[1..])
  }

  function PayloadSize(p: Payload): nat {
    if p == [] then 0 else (if p[0].Rune? then Utf8Bytes(p[0].c) else 1) + PayloadSize(p[1..])
  }

  // ---------------------------------------------------------------------------
  // json.Marshal of a string
  // ---------------------------------------------------------------------------

  function HexDigit(n: nat): char
    requires n < 16
  {
    if n < 10 then ('0' as int + n) as char else ('a' as int + n - 10) as char
  }

  function UnicodeEscape(code: nat): string
    requires code < 0x10000
  {
    ['\\', 'u', HexDigit(code / 4096), HexDigit(code / 256 % 16), HexDigit(code / 16 % 16), HexDigit(code % 16)]
  }

  function EncodeRune(c: char): string {
    if c == '"' || c == '\\' then ['\\', c]
    else if c == '\U{8}' then "\\b"
    else if c == '\U{C}' then "\\f"
    else if c == '\n' then "\\n"
    else if c == '\r' then "\\r"
    else if c == '\t' then "\\t"
    else if (c as int) < 0x20 || c == '<' || c == '>' || c == '&' || c == '\U{2028}' || c == '\U{2029}'
      then UnicodeEscape(c as int)
    else [c]
  }

  function EncodeUnit(u: PayloadUnit): string {
    match u
    case Rune(c) => EncodeRune(c)
    case Bad(_) => UnicodeEscape(0xFFFD)
  }

  function EncodeBody(p: Payload): string {
    if p == [] then "" else EncodeUnit(p[0]) + EncodeBody(p[1..])
  }

  function Encode(p: Payload): string {
    "\"" + EncodeBody(p) + "\""
  }

  // ---------------------------------------------------------------------------
  // json.Unmarshal into a string
  // ---------------------------------------------------------------------------

  function HexValue(c: char): Option<nat> {
    if '0' <= c <= '9' then Some(c as int - '0' as int)
    else if 'a' <= c <= 'f' then Some(c as int - 'a' as int + 10)
    else if 'A' <= c <= 'F' then Some(c as int - 'A' as int + 10)
    else None
  }

  /** The code unit of the \uXXXX escape that `s` starts with. */
  function CodeUnit(s: string): (r: Option<nat>)
    ensures r.Some? ==> r.value < 0x10000
  {
    if |s| < 6 || s[0] != '\\' || s[1] != 'u' then None
    else
      var h := (HexValue(s[2]), HexValue(s[3]), HexValue(s[4]), HexValue(s[5]));
      if h.0.Some? && h.1.Some? && h.2.Some? && h.3.Some?
      then Some(((h.0.value * 16 + h.1.value) * 16 + h.2.value) * 16 + h.3.value)
      else None
  }

  function Prepend(c: char, rest: Option<string>): Option<string> {
    if rest.Some? then Some([c] + rest.value) else None
  }

  /** What follows the opening quote of a string, up to and including the closing one. */
  function DecodeBody(s: string): Option<string>
    decreases |s|
  {
    if s == "" then None
    else if s[0] == '"' then (if |s| == 1 then Some("") else None)
    else if (s[0] as int) < 0x20 then None
    else if s[0] != '\\' then Prepend(s[0], DecodeBody(s[1..]))
    else if |s| == 1 then None
    else match s[1]
      case '"' => Prepend('"', DecodeBody(s[2..]))
      case '\\' => Prepend('\\', DecodeBody(s[2..]))
      case '/' => Prepend('/', DecodeBody(s[2..]))
      case 'b' => Prepend('\U{8}', DecodeBody(s[2..]))
      case 'f' => Prepend('\U{C}', DecodeBody(s[2..]))
      case 'n' => Prepend('\n', DecodeBody(s[2..]))
      case 'r' => Prepend('\r', DecodeBody(s[2..]))
      case 't' => Prepend('\t', DecodeBody(s[2..]))
      case 'u' =>
        var unit := CodeUnit(s);
        if unit.None? then None
        else if !(0xD800 <= unit.value < 0xE000) then Prepend(unit.value as char, DecodeBody(s[6..]))
        else
          var low := CodeUnit(s[6..]);
          if unit.value < 0xDC00 && low.Some? && 0xDC00 <= low.value < 0xE000
          then Prepend((0x10000 + (unit.value - 0xD800) * 0x400 + (low.value - 0xDC00)) as char, DecodeBody(s[12..]))
          else Prepend(REPLACEMENT, DecodeBody(s[6..]))
      case _ => None
  }

  /** json.Unmarshal of a line into a string variable; None is an error. */
  function DecodeLine(line: string): Option<string> {
    if line == "null" then Some("")
    else if line != "" && line[0] == '"' then DecodeBody(line[1..])
    else None
  }

  // ---------------------------------------------------------------------------
  // Lines
  // ---------------------------------------------------------------------------

  /** The file cut at its newlines; the last piece is what follows the last one. */
  function Pieces(file: string): (p: seq<string>)
    ensures p != []
  {
    if file == "" then [""]
    else
      var p, c := Pieces(file[..|file| - 1]), file[|file| - 1];
      if c == '\n' then p + [""] else p[..|p| - 1] + [p[|p| - 1] + [c]]
  }

  /** The raw lines a scanner sees: an empty last one is none. */
  function RawLines(file: string): seq<string> {
    var p := Pieces(file);
    if p[|p| - 1] == "" then p[..|p| - 1] else p
  }

  function DropCR(s: string): string {
    if s != "" && s[|s| - 1] == '\r' then s[..|s| - 1] else s
  }

  /** The scanner's buffer must hold the line and its newline. */
  predicate Fits(line: string) { Size(line) < MAX_LINE_BYTES }

  /** The record a raw line stands for; a blank line is none. */
  function RecordOf(raw: string): Option<string> {
    var line := TrimSpace(DropCR(raw));
    if line == "" then None
    else if DecodeLine(line).Some? then DecodeLine(line)
    else Some(line)
  }

  function RecordsOf(lines: seq<string>): seq<string> {
    if lines == [] then []
    else
      var last := RecordOf(lines[|lines| - 1]);
      RecordsOf(lines[..|lines| - 1]) + if last.Some? then [last.value] else []
  }

  datatype ReadResult = Read(records: seq<string>) | TokenTooLong | ReadError

  function ReadFile(file: string): ReadResult {
    var lines := RawLines(file);
    if forall i :: 0 <= i < |lines| ==> Fits(lines[i]) then Read(RecordsOf(lines)) else TokenTooLong
  }

  // ---------------------------------------------------------------------------
  // The store
  // ---------------------------------------------------------------------------

  /** How the file system treats one Append. */
  datatype Disk = Works | OpenFails | PayloadFails(written: nat) | NewlineFails

  function AfterAppend(file: Option<string>, p: Payload, disk: Disk): Option<string> {
    var before, encoded := if file.Some? then file.value else "", Encode(p);
    match disk
    case OpenFails => file
    case PayloadFails(written) => Some(before + if written < |encoded| then encoded[..written] else encoded)
    case NewlineFails => Some(before + encoded)
    case Works => Some(before + encoded + "\n")
  }

  class Store {
    var file: Option<string>

    constructor (file: Option<string>)
      ensures this.file == file
    {
      this.file := file;
    }

    method Append(raw: Payload, disk: Disk) returns (ok: bool)
      modifies this
      ensures file == AfterAppend(old(file), raw, disk)
      ensures ok <==> disk.Works?
    {
      var encoded := Encode(raw);
      if disk.OpenFails? {
        return false;
      }
      var contents := if file.Some? then file.value else "";
      if disk.PayloadFails? {
        file := Some(contents + if disk.written < |encoded| then encoded[..disk.written] else encoded);
        return false;
      }
      contents := contents + encoded;
      if disk.NewlineFails? {
        file := Some(contents);
        return false;
      }
      file := Some(contents + "\n");
      return true;
    }

    /** `opens` and `readable` tell whether the file can be opened and read to its end. */
    method Records(opens: bool, readable: bool) returns (result: ReadResult)
      ensures file.None? ==> result == Read([])
      ensures file.Some? && !opens ==> result == ReadError
      ensures file.Some? && opens && readable ==> result == ReadFile(file.value)
      ensures file.Some? && opens && !readable ==> result in {TokenTooLong, ReadError}
    {
      hide TrimSpace, DropCR, DecodeLine, Fits, RawLines;
      if file == None {
        return Read([]);
      }
      if !opens {
        return ReadError;
      }
      var records: seq<string> := [];
      var lines := RawLines(file.value);
      for i := 0 to |lines|
        invariant forall j :: 0 <= j < i ==> Fits(lines[j])
        invariant records == RecordsOf(lines[..i])
      {
        assert lines[..i + 1][..i] == lines[..i];
        if !Fits(lines[i]) {
          return TokenTooLong;
        }
        var line := TrimSpace(DropCR(lines[i]));
        if line == "" {
          continue;
        }
        var decoded := DecodeLine(line);
        if decoded == None {
          records := records + [line];
        } else {
          records := records + [decoded.value];
        }
      }
      if !readable {
        return ReadError;
      }
      assert lines[..|lines|] == lines;
      return Read(records);
    }
  }
}
