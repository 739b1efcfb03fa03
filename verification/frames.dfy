/** The wire format between the chat API routes and the browser clients.

  The server writes every chunk as one event-stream frame
  `data: <JSON>\n\n`, where `<JSON>` is `JSON.stringify({ content: chunk })`
  (the `data:` field of the event-stream format, section 9.2.5 of the WHATWG
  HTML Living Standard, without event names, ids or retry fields).  The
  clients split what they read at line breaks, keep the lines that start
  with `data: `, parse the rest of the line as JSON and take its `content`.

  Encoding follows `JSON.stringify` for a string (section 7 of RFC 8259, with
  ECMAScript's choice of escapes): the quote and backslash are escaped, the
  five control characters with short forms use them, every other control
  character becomes `\u00xx` with lower-case hex digits, and every other
  character is written as itself.  So no encoded string holds a raw line
  break, and each frame is exactly one line followed by a blank line.

  Decoding accepts the objects of one string member whose text has no
  whitespace between tokens — what `JSON.stringify` produces — with any
  escape RFC 8259 allows in the string.
 */
module Frames {
  import opened Outcomes
  import Text

  // ---------------------------------------------------------------------
  // Hex digits

  function HexChar(v: int): (c: char)
    requires 0 <= v < 16
  {
    if v < 10 then (v + '0' as int) as char else (v - 10 + 'a' as int) as char
  }

  /** The value of a hex digit of either case. */
  function HexValue(c: char): (r: Option<int>)
    ensures r.Some? ==> 0 <= r.value < 16
  {
    if '0' <= c <= '9' then Some(c as int - '0' as int)
    else if 'a' <= c <= 'f' then Some(c as int - 'a' as int + 10)
    else if 'A' <= c <= 'F' then Some(c as int - 'A' as int + 10)
    else None
  }

  lemma HexRoundTrip(v: int)
    requires 0 <= v < 16
    ensures HexValue(HexChar(v)) == Some(v)
  {
  }

  /** The value of four hex digits. */
  function Hex4(s: string): (r: Option<int>)
    requires |s| == 4
    ensures r.Some? ==> 0 <= r.value < 0x1_0000
  {
    match (HexValue(s[0]), HexValue(s[1]), HexValue(s[2]), HexValue(s[3]))
    case (Some(a), Some(b), Some(c), Some(d)) => Some(((a * 16 + b) * 16 + c) * 16 + d)
    case _ => None
  }

  // ---------------------------------------------------------------------
  // Encoding

  predicate IsControl(c: char) { c < ' ' }

  /** How `JSON.stringify` writes one character inside a string. */
  function EscapeChar(c: char): (r: string)
    ensures |r| >= 1
    ensures forall i :: 0 <= i < |r| ==> !IsControl(r[i])
    ensures !IsControl(c) && c != '"' && c != '\\' ==> r == [c]
  {
    if c == '"' then "\\\""
    else if c == '\\' then "\\\\"
    else if c as int == 8 then "\\b"
    else if c == '\t' then "\\t"
    else if c == '\n' then "\\n"
    else if c as int == 12 then "\\f"
    else if c == '\r' then "\\r"
    else if IsControl(c) then "\\u00" + [HexChar(c as int / 16), HexChar(c as int % 16)]
    else [c]
  }

  /** The text between the quotes of `JSON.stringify(s)`. */
  function Escape(s: string): (r: string)
    ensures |r| >= |s|
    ensures forall i :: 0 <= i < |r| ==> !IsControl(r[i])
    decreases |s|
  {
    if |s| == 0 then "" else EscapeChar(s[0]) + Escape(s[1..])
  }

  /** `JSON.stringify(s)` for a string. */
  function Quote(s: string): (r: string)
    ensures forall i :: 0 <= i < |r| ==> !IsControl(r[i])
  {
    "\"" + Escape(s) + "\""
  }

  /** `JSON.stringify({ [key]: value })` for a string value. */
  function MemberJson(key: string, value: string): (r: string)
    ensures forall i :: 0 <= i < |r| ==> !IsControl(r[i])
  {
    "{" + Quote(key) + ":" + Quote(value) + "}"
  }

  /** The payload of every frame: `JSON.stringify({ content: value })`. */
  function ContentJson(value: string): string {
    MemberJson("content", value)
  }

  const DataPrefix: string := "data: "

  /** `data: ${JSON.stringify({ content: value })}\n\n`. */
  function Frame(value: string): string {
    DataPrefix + ContentJson(value) + "\n\n"
  }

  function Frames(values: seq<string>): (r: seq<string>)
    ensures |r| == |values|
    ensures forall i :: 0 <= i < |r| ==> r[i] == Frame(values[i])
    decreases |values|
  {
    if |values| == 0 then [] else [Frame(values[0])] + Frames(values[1..])
  }

  /** The bytes a stream of frames puts on the wire, one frame after another. */
  function FrameText(values: seq<string>): string {
    Text.Concat(Frames(values))
  }

  // ---------------------------------------------------------------------
  // Decoding

  function Cons(c: char, rest: Option<string>): (r: Option<string>)
    ensures r.Some? <==> rest.Some?
    ensures r.Some? ==> r.value == [c] + rest.value
  {
    match rest
    case None => None
    case Some(t) => Some([c] + t)
  }

  /** The character a one-letter escape stands for. */
  function ShortEscape(e: char): Option<char> {
    if e == '"' then Some('"')
    else if e == '\\' then Some('\\')
    else if e == '/' then Some('/')
    else if e == 'b' then Some(8 as char)
    else if e == 'f' then Some(12 as char)
    else if e == 'n' then Some('\n')
    else if e == 'r' then Some('\r')
    else if e == 't' then Some('\t')
    else None
  }

  /** The characters a JSON string body stands for, or `None` where
      `JSON.parse` rejects it: a raw quote (the string would end early), a
      raw control character, or a malformed escape.  `\u` escapes of
      surrogate code units are rejected too (surrogate pairs are not modelled). */
  function Unescape(s: string): (r: Option<string>)
    decreases |s|
  {
    if |s| == 0 then Some("")
    else if s[0] == '"' || IsControl(s[0]) then None
    else if s[0] != '\\' then Cons(s[0], Unescape(s[1..]))
    else if |s| < 2 then None
    else if s[1] == 'u' then
      if |s| < 6 then None
      else
        match Hex4(s[2..6])
        case None => None
        case Some(v) =>
          if 0xD800 <= v < 0xE000 then None else Cons(v as char, Unescape(s[6..]))
    else
      match ShortEscape(s[1])
      case None => None
      case Some(c) => Cons(c, Unescape(s[2..]))
  }

  /** `JSON.parse(payload)[key]` for a payload written by `MemberJson`. */
  function ParseMember(key: string, payload: string): (r: Option<string>)
  {
    var open := "{" + Quote(key) + ":\"";
    if |payload| >= |open| + 2 && payload[..|open|] == open && payload[|payload| - 2..] == "\"}" then
      Unescape(payload[|open|..|payload| - 2])
    else None
  }

  function ParseContent(payload: string): Option<string> {
    ParseMember("content", payload)
  }

  // ---------------------------------------------------------------------
  // Round trip

  lemma UnescapeEscapeChar(c: char, t: string)
    ensures Unescape(EscapeChar(c) + t) == Cons(c, Unescape(t))
  {
    var s := EscapeChar(c) + t;
    if c == '"' || c == '\\' || c as int == 8 || c == '\t' || c == '\n' || c as int == 12 || c == '\r' {
      assert s[2..] == t;
    } else if IsControl(c) {
      var hi, lo := c as int / 16, c as int % 16;
      HexRoundTrip(hi);
      HexRoundTrip(lo);
      assert s[2..6] == ['0', '0', HexChar(hi), HexChar(lo)];
      assert Hex4(s[2..6]) == Some(c as int);
      assert s[6..] == t;
    } else {
      assert s[1..] == t;
    }
  }

  /** Decoding undoes `JSON.stringify`'s escaping for every string. */
  lemma {:induction false} UnescapeEscape(s: string)
    ensures Unescape(Escape(s)) == Some(s)
    decreases |s|
  {
    if |s| > 0 {
      UnescapeEscape(s[1..]);
      UnescapeEscapeChar(s[0], Escape(s[1..]));
      assert [s[0]] + s[1..] == s;
    }
  }

  /** The payload of a one-member object parses back to the value written. */
  lemma ParseMemberJson(key: string, value: string)
    ensures ParseMember(key, MemberJson(key, value)) == Some(value)
  {
    var open := "{" + Quote(key) + ":\"";
    var p := MemberJson(key, value);
    assert p == open + Escape(value) + "\"}";
    assert p[..|open|] == open;
    assert p[|open|..|p| - 2] == Escape(value);
    UnescapeEscape(value);
  }

  /** Different values are never written as the same payload. */
  lemma ContentJsonInjective(v1: string, v2: string)
    requires ContentJson(v1) == ContentJson(v2)
    ensures v1 == v2
  {
    ParseMemberJson("content", v1);
    ParseMemberJson("content", v2);
  }

  // ---------------------------------------------------------------------
  // Reading frames back

  /** The `content` values taken from the `data: ` lines, in order, and
      whether a data line failed to parse (`JSON.parse` throws there, and the
      lines after it are not looked at). */
  datatype Scan = Scan(contents: seq<string>, fault: bool)

  /** The loop over `chunk.split('\n')`: lines that do not start with
      `data: ` are skipped; the rest of a data line after its six-character
      prefix is the JSON payload. */
  function ScanLines(lines: seq<string>): (r: Scan)
    ensures |r.contents| <= |lines|
    decreases |lines|
  {
    if |lines| == 0 then Scan([], false)
    else if !Text.StartsWith(lines[0], DataPrefix) then ScanLines(lines[1..])
    else
      match ParseContent(lines[0][|DataPrefix|..])
      case None => Scan([], true)
      case Some(v) =>
        var rest := ScanLines(lines[1..]);
        Scan([v] + rest.contents, rest.fault)
  }

  /** One `reader.read()`, decoded to text. */
  function ScanRead(chunk: string): Scan {
    ScanLines(Text.Split(chunk, '\n'))
  }

  /** All the reads of a response body, stopping at the first fault. */
  function ScanReads(chunks: seq<string>): (r: Scan)
    decreases |chunks|
  {
    if |chunks| == 0 then Scan([], false)
    else
      var first := ScanRead(chunks[0]);
      if first.fault then first
      else
        var rest := ScanReads(chunks[1..]);
        Scan(first.contents + rest.contents, rest.fault)
  }

  /** Lines that are not data lines change nothing, wherever they are. */
  lemma {:induction false} ScanSkipsOtherLines(a: seq<string>, b: seq<string>)
    requires forall i :: 0 <= i < |a| ==> !Text.StartsWith(a[i], DataPrefix)
    ensures ScanLines(a + b) == ScanLines(b)
    decreases |a|
  {
    if |a| == 0 {
      assert a + b == b;
    } else {
      assert (a + b)[1..] == a[1..] + b;
      ScanSkipsOtherLines(a[1..], b);
    }
  }

  /** Each frame is one data line and a blank line. */
  lemma FrameLines(v: string, rest: string)
    ensures Text.Split(Frame(v) + rest, '\n') == [DataPrefix + ContentJson(v), ""] + Text.Split(rest, '\n')
  {
    var json := ContentJson(v);
    var line := DataPrefix + json;
    forall i | 0 <= i < |line| ensures line[i] != '\n' {
      if i >= |DataPrefix| {
        assert line[i] == json[i - |DataPrefix|];
      }
    }
    Text.SplitFree(line, '\n');
    var tail := "\n" + rest;
    assert Frame(v) == line + "\n\n";
    assert Frame(v) + rest == line + ['\n'] + tail;
    Text.SplitAround(line, '\n', tail);
    assert tail[1..] == rest;
  }

  /** A data line written for `v` reads back as `v`. */
  lemma DataLineReads(v: string, more: seq<string>)
    ensures ScanLines([DataPrefix + ContentJson(v), ""] + more)
      == Scan([v] + ScanLines(more).contents, ScanLines(more).fault)
  {
    var line := DataPrefix + ContentJson(v);
    var lines := [line, ""] + more;
    assert line[..|DataPrefix|] == DataPrefix;
    assert line[|DataPrefix|..] == ContentJson(v);
    ParseMemberJson("content", v);
    assert lines[1..] == [""] + more;
    assert lines[1..][1..] == more;
  }

  /** Decoding the frames written for `values` gives the values back, in
      order, with no fault. */
  lemma {:induction false} ScanFrames(values: seq<string>)
    ensures ScanRead(FrameText(values)) == Scan(values, false)
    decreases |values|
  {
    if |values| > 0 {
      ScanFrames(values[1..]);
      assert Frames(values) == [Frame(values[0])] + Frames(values[1..]);
      assert FrameText(values) == Frame(values[0]) + FrameText(values[1..]);
      FrameLines(values[0], FrameText(values[1..]));
      DataLineReads(values[0], Text.Split(FrameText(values[1..]), '\n'));
      assert [values[0]] + values[1..] == values;
    }
  }

  function Flatten(groups: seq<seq<string>>): (r: seq<string>)
    decreases |groups|
  {
    if |groups| == 0 then [] else groups[0] + Flatten(groups[1..])
  }

  /** The reads of a body, when every read holds whole frames. */
  function ReadsOf(groups: seq<seq<string>>): (r: seq<string>)
    ensures |r| == |groups|
    ensures forall i :: 0 <= i < |r| ==> r[i] == FrameText(groups[i])
    decreases |groups|
  {
    if |groups| == 0 then [] else [FrameText(groups[0])] + ReadsOf(groups[1..])
  }

  /** However the frames are grouped into reads, as long as no frame is cut
      between two reads, decoding gives every value once, in order. */
  lemma {:induction false} ScanWholeFrameReads(groups: seq<seq<string>>)
    ensures ScanReads(ReadsOf(groups)) == Scan(Flatten(groups), false)
    decreases |groups|
  {
    if |groups| > 0 {
      ScanFrames(groups[0]);
      ScanWholeFrameReads(groups[1..]);
      assert ReadsOf(groups)[1..] == ReadsOf(groups[1..]);
    }
  }

  /** Writing the frames of a stream and reading them back gives the
      concatenation of all its values. */
  lemma FramesConcatenate(groups: seq<seq<string>>)
    ensures Text.Concat(ScanReads(ReadsOf(groups)).contents) == Text.Concat(Flatten(groups))
  {
    ScanWholeFrameReads(groups);
  }
}
