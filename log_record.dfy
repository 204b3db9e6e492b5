/**
 * Decoding one line of an NCSA Common Log Format access log into a LogRecord
 * (pkg/logmonitor/log_record.go).  A line such as
 *
 *   127.0.0.1 - james [09/May/2018:16:00:39 +0000] "GET /report HTTP/1.0" 200 123
 *
 * is split on single spaces; field 3 and 4 carry the bracketed timestamp,
 * fields 5, 6 and 7 the quoted request line, and the "section" is the request
 * path up to (not including) the first '/' after its first character, unless
 * that '/' is the second character; with no such '/', the whole path.
 */
module LogLine {
  import opened Optional
  import opened Clock

  /** One decoded access-log line. */
  datatype LogRecord = LogRecord(
    timestamp: Instant,
    addr: string,
    userName: string,
    httpMethod: string,
    path: string,
    proto: string,
    status: string,
    section: string)

  datatype ParseError =
    | InvalidLine    // fewer than ten space-separated fields
    | BadTimestamp   // time.Parse rejected the bracketed timestamp

  /**
   * What parseLogLine does with a line: it returns a record, returns an error,
   * or panics on a slice out of range (an empty field it cuts a character from).
   */
  datatype ParseOutcome = Parsed(record: LogRecord) | Failed(error: ParseError) | Panicked

  /** The number of occurrences of c in s. */
  function Count(s: string, c: char): (n: nat)
    ensures n <= |s|
    ensures n == 0 <==> c !in s
  {
    if s == [] then 0 else (if s[0] == c then 1 else 0) + Count(s[1..], c)
  }

  lemma {:induction false} CountConcat(a: string, b: string, c: char)
    ensures Count(a + b, c) == Count(a, c) + Count(b, c)
  {
    if a == [] {
      assert a + b == b;
    } else {
      assert (a + b)[1..] == a[1..] + b;
      CountConcat(a[1..], b, c);
    }
  }

  /** Go's strings.Index with a one-character pattern: the first position of c in s, or -1. */
  function Index(s: string, c: char): (i: int)
    ensures -1 <= i < |s|
    ensures 0 <= i ==> s[i] == c && c !in s[..i]
    ensures i == -1 <==> c !in s
  {
    if s == [] then -1
    else if s[0] == c then 0
    else
      var j := Index(s[1..], c);
      assert j >= 0 ==> s[..j + 1] == [s[0]] + s[1..][..j];
      if j < 0 then -1 else j + 1
  }

  /** Go's strings.Join(fields, string(sep)): the inverse of Split. */
  function Join(fields: seq<string>, sep: char): string
  {
    if |fields| == 0 then ""
    else if |fields| == 1 then fields[0]
    else fields[0] + [sep] + Join(fields[1..], sep)
  }

  /** Go's strings.Split(s, string(sep)): the pieces of s between occurrences of sep. */
  function Split(s: string, sep: char): (fields: seq<string>)
    ensures |fields| == Count(s, sep) + 1
    ensures forall i :: 0 <= i < |fields| ==> sep !in fields[i]
    ensures Join(fields, sep) == s
    decreases |s|
  {
    var i := Index(s, sep);
    if i < 0 then [s]
    else
      var rest := Split(s[i + 1..], sep);
      assert s == s[..i] + [sep] + s[i + 1..];
      CountConcat(s[..i] + [sep], s[i + 1..], sep);
      CountConcat(s[..i], [sep], sep);
      assert ([s[..i]] + rest)[1..] == rest;
      [s[..i]] + rest
  }

  /** Index finds a separator placed right after a piece that holds none. */
  lemma IndexAfterPiece(a: string, b: string, sep: char)
    requires sep !in a
    ensures Index(a + [sep] + b, sep) == |a|
  {
    var s := a + [sep] + b;
    assert s[..|a|] == a;
    assert s[|a|] == sep;
  }

  /** A separator-free piece followed by the separator splits off as the first field. */
  lemma SplitAfterPiece(a: string, b: string, sep: char)
    requires sep !in a
    ensures Split(a + [sep] + b, sep) == [a] + Split(b, sep)
  {
    var s := a + [sep] + b;
    IndexAfterPiece(a, b, sep);
    assert s[..|a|] == a;
    assert s[|a| + 1..] == b;
  }

  /** Splitting a joined list of separator-free pieces gives the pieces back. */
  lemma {:induction false} SplitJoin(fields: seq<string>, sep: char)
    requires |fields| >= 1
    requires forall i :: 0 <= i < |fields| ==> sep !in fields[i]
    ensures Split(Join(fields, sep), sep) == fields
  {
    if |fields| == 1 {
      assert Index(fields[0], sep) == -1;
    } else {
      SplitAfterPiece(fields[0], Join(fields[1..], sep), sep);
      SplitJoin(fields[1..], sep);
      assert fields == [fields[0]] + fields[1..];
    }
  }

  /**
   * The section of a request path: the path up to (not including) the first
   * '/' after its first character, unless that '/' is the second character,
   * in which case, as when there is no such '/', the whole path.
   */
  function Section(path: string): (section: string)
    requires path != []
    ensures section <= path
    ensures section != path ==> 2 <= |section| && path[|section|] == '/' && '/' !in section[1..]
    ensures section == path <==> |path| < 2 || path[1] == '/' || '/' !in path[2..]
  {
    var i := Index(path[1..], '/');
    assert 0 < i ==> path[1..][..i] == path[1..1 + i];
    assert 2 <= |path| ==> path[1..] == [path[1]] + path[2..];
    if 0 < i then path[..1 + i] else path
  }

  /**
   * parseLogLine(line), with time.Parse(timeLayout, ·) passed in as parseTime:
   * the line is split on single spaces and the fields are decoded.
   */
  function ParseLogLine(line: string, parseTime: string -> Option<Instant>): (r: ParseOutcome)
    ensures r == Failed(InvalidLine) <==> Count(line, ' ') < 9
    ensures r.Parsed? ==> ' ' !in r.record.path && r.record.section <= r.record.path
  {
    DecodeFields(Split(line, ' '), parseTime)
  }

  /**
   * The text handed to time.Parse: field 3 without its first character, a
   * space, and field 4 without its last character (the brackets of
   * "[date zone]", whatever characters stand there).
   */
  function TimeText(dateField: string, zoneField: string): (text: string)
    requires dateField != [] && zoneField != []
    ensures |text| == |dateField| + |zoneField| - 1
    ensures [dateField[0]] + text + [zoneField[|zoneField| - 1]] == dateField + " " + zoneField
  {
    dateField[1..] + " " + zoneField[..|zoneField| - 1]
  }

  /**
   * The decoding half of parseLogLine.  Fields 3 and 4 are sliced before the
   * timestamp is parsed, fields 5, 6 and 7 after it, so an empty field 3 or 4
   * panics even when the timestamp text is bad, and an empty field 5, 6 or 7
   * panics only when it is good.
   */
  function DecodeFields(ss: seq<string>, parseTime: string -> Option<Instant>): (r: ParseOutcome)
    ensures r == Failed(InvalidLine) <==> |ss| < 10
    ensures r.Parsed? ==> forall k :: 3 <= k <= 7 ==> ss[k] != []
    ensures r.Parsed? ==> r.record.path == ss[6] && r.record.section <= r.record.path
    ensures 10 <= |ss| && (ss[3] == [] || ss[4] == []) ==> r == Panicked
    ensures 10 <= |ss| && (ss[5] == [] || ss[6] == [] || ss[7] == []) ==> r == Panicked || r == Failed(BadTimestamp)
    ensures 10 <= |ss| && ss[3] != [] && ss[4] != [] ==>
      (r == Failed(BadTimestamp) <==> parseTime(TimeText(ss[3], ss[4])).None?)
    ensures 10 <= |ss| && (forall k :: 3 <= k <= 7 ==> ss[k] != []) && parseTime(TimeText(ss[3], ss[4])).Some? ==> r.Parsed?
    ensures r.Parsed? ==>
      && parseTime(TimeText(ss[3], ss[4])) == Some(r.record.timestamp)
      && r.record.addr == ss[0] && r.record.userName == ss[2]
      && [ss[5][0]] + r.record.httpMethod == ss[5]
      && r.record.proto + [ss[7][|ss[7]| - 1]] == ss[7]
      && r.record.status == ss[8]
      && r.record.section == Section(ss[6])
  {
    if |ss| < 10 then Failed(InvalidLine)
    else if ss[3] == [] || ss[4] == [] then Panicked
    else
      match parseTime(TimeText(ss[3], ss[4]))
      case None => Failed(BadTimestamp)
      case Some(t) =>
        if ss[5] == [] || ss[6] == [] || ss[7] == [] then Panicked
        else
          Parsed(LogRecord(
            timestamp := t,
            addr := ss[0],
            userName := ss[2],
            httpMethod := ss[5][1..],
            path := ss[6],
            proto := ss[7][..|ss[7]| - 1],
            status := ss[8],
            section := Section(ss[6])))
  }

  /**
   * One Common Log Format line as a web server writes it, field by field:
   *   host ident authUser [date zone] "method path proto" status bytes extra...
   * The four delimiters are fields of their own: the decoder cuts one
   * character at each of those places whatever it is, so a line with other
   * characters there decodes the same way.
   */
  datatype CommonLogEntry = CommonLogEntry(
    host: string,
    ident: string,
    authUser: string,
    dateOpen: char,
    date: string,
    zone: string,
    dateClose: char,
    requestOpen: char,
    httpMethod: string,
    path: string,
    proto: string,
    requestClose: char,
    status: string,
    bytes: string,
    extra: seq<string>)

  function Fields(e: CommonLogEntry): seq<string>
  {
    [e.host, e.ident, e.authUser, [e.dateOpen] + e.date, e.zone + [e.dateClose],
     [e.requestOpen] + e.httpMethod, e.path, e.proto + [e.requestClose], e.status, e.bytes] + e.extra
  }

  /** Writes the entry as one log line. */
  function FormatLine(e: CommonLogEntry): string
  {
    Join(Fields(e), ' ')
  }

  /** No field or delimiter is a space, and the request path is not empty. */
  predicate WellFormed(e: CommonLogEntry)
  {
    && ' ' !in e.host && ' ' !in e.ident && ' ' !in e.authUser
    && ' ' !in e.date && ' ' !in e.zone
    && ' ' !in e.httpMethod && ' ' !in e.path && ' ' !in e.proto
    && ' ' !in e.status && ' ' !in e.bytes
    && e.dateOpen != ' ' && e.dateClose != ' ' && e.requestOpen != ' ' && e.requestClose != ' '
    && (forall i :: 0 <= i < |e.extra| ==> ' ' !in e.extra[i])
    && e.path != []
  }

  /** A written line splits back into exactly the fields that were written. */
  lemma SplitFormatLine(e: CommonLogEntry)
    requires WellFormed(e)
    ensures Split(FormatLine(e), ' ') == Fields(e)
  {
    var fs := Fields(e);
    forall i | 0 <= i < |fs| ensures ' ' !in fs[i] {
      if i >= 10 {
        assert fs[i] == e.extra[i - 10];
      }
    }
    SplitJoin(fs, ' ');
  }

  lemma DecodeWrittenFields(e: CommonLogEntry, parseTime: string -> Option<Instant>)
    requires e.path != []
    ensures DecodeFields(Fields(e), parseTime) ==
      match parseTime(e.date + " " + e.zone)
      case None => Failed(BadTimestamp)
      case Some(t) =>
        Parsed(LogRecord(t, e.host, e.authUser, e.httpMethod, e.path, e.proto, e.status, Section(e.path)))
  {
  }

  /**
   * Parsing a written line recovers the entry: the timestamp is what
   * time.Parse makes of "date zone", the method and protocol lose their
   * delimiters, and the section is derived from the path.
   */
  lemma ParseFormatLine(e: CommonLogEntry, parseTime: string -> Option<Instant>)
    requires WellFormed(e)
    ensures ParseLogLine(FormatLine(e), parseTime) ==
      match parseTime(e.date + " " + e.zone)
      case None => Failed(BadTimestamp)
      case Some(t) =>
        Parsed(LogRecord(t, e.host, e.authUser, e.httpMethod, e.path, e.proto, e.status, Section(e.path)))
  {
    SplitFormatLine(e);
    DecodeWrittenFields(e, parseTime);
  }
}
