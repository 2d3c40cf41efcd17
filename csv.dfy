/** Comma-separated values as RFC 4180 defines them: a file is records
    separated by line breaks, a record is fields separated by commas, and a
    field that holds a comma, a quote or a line break is enclosed in double
    quotes with each quote inside it doubled. The reader accepts quoted and
    unquoted fields; the writer quotes every field. */
module Csv {
  import opened Strings
  import Seqs

  /** Each double quote written twice (section 2, rule 7 of RFC 4180). */
  function Escape(f: string): string {
    if f == [] then [] else (if f[0] == '"' then "\"\"" else [f[0]]) + Escape(f[1..])
  }

  /** A field enclosed in double quotes. */
  function Quote(f: string): (r: string)
    ensures |r| >= 2 && r[0] == '"'
  {
    "\"" + Escape(f) + "\""
  }

  /** Every field quoted, in place. */
  function QuoteAll(fields: seq<string>): (r: seq<string>)
    ensures |r| == |fields|
    ensures forall i :: 0 <= i < |fields| ==> r[i] == Quote(fields[i])
  {
    if fields == [] then [] else [Quote(fields[0])] + QuoteAll(fields[1..])
  }

  /** One record with every field quoted. */
  function QuotedLine(fields: seq<string>): string {
    Join(QuoteAll(fields), ",")
  }

  /** One quoted line per record, in order. */
  function QuotedLines(records: seq<seq<string>>): (r: seq<string>)
    ensures |r| == |records|
    ensures forall i :: 0 <= i < |records| ==> r[i] == QuotedLine(records[i])
  {
    if records == [] then [] else [QuotedLine(records[0])] + QuotedLines(records[1..])
  }

  // ---------------------------------------------------------------------
  // The reader

  /** The text of a quoted field after its opening quote, up to the closing
      quote, and what follows that quote; a doubled quote stands for one. */
  function ReadQuoted(s: string): (r: (string, string))
    ensures |r.1| <= |s|
    decreases |s|
  {
    if s == [] then ([], [])
    else if s[0] == '"' then
      if |s| > 1 && s[1] == '"' then
        var (f, rest) := ReadQuoted(s[2..]);
        (['"'] + f, rest)
      else ([], s[1..])
    else
      var (f, rest) := ReadQuoted(s[1..]);
      ([s[0]] + f, rest)
  }

  /** An unquoted field runs up to the next comma or line break. */
  function ReadUnquoted(s: string): (r: (string, string))
    ensures |r.1| <= |s|
    ensures |r.1| == |s| ==> s == [] || s[0] == ',' || s[0] == '\n'
    decreases |s|
  {
    if s == [] || s[0] == ',' || s[0] == '\n' then ([], s)
    else
      var (f, rest) := ReadUnquoted(s[1..]);
      ([s[0]] + f, rest)
  }

  function ReadField(s: string): (r: (string, string))
    ensures |r.1| <= |s|
    ensures |r.1| == |s| ==> s == [] || s[0] == ',' || s[0] == '\n'
  {
    if s != [] && s[0] == '"' then ReadQuoted(s[1..]) else ReadUnquoted(s)
  }

  /** The fields of one record and the input after its line break. */
  function ReadRecord(s: string): (r: (seq<string>, string))
    ensures |r.1| <= |s| && (s != [] ==> |r.1| < |s|)
    decreases |s|
  {
    var (f, rest) := ReadField(s);
    if rest != [] && rest[0] == ',' then
      var (fs, after) := ReadRecord(rest[1..]);
      ([f] + fs, after)
    else if rest != [] && rest[0] == '\n' then ([f], rest[1..])
    else ([f], rest)
  }

  /** The records of a file. */
  function ParseCsv(s: string): seq<seq<string>>
    decreases |s|
  {
    if s == [] then [] else
      var (record, rest) := ReadRecord(s);
      [record] + ParseCsv(rest)
  }

  // ---------------------------------------------------------------------
  // Round trip

  /** A quoted field reads back as its text, provided what follows the
      closing quote is not another quote. */
  lemma {:induction false} ReadQuotedEscape(f: string, rest: string)
    requires rest == [] || rest[0] != '"'
    ensures ReadQuoted(Escape(f) + "\"" + rest) == (f, rest)
  {
    var s := Escape(f) + "\"" + rest;
    if f == [] {
      assert s == "\"" + rest;
    } else if f[0] == '"' {
      ReadQuotedEscape(f[1..], rest);
      assert s == "\"\"" + (Escape(f[1..]) + "\"" + rest);
      assert s[2..] == Escape(f[1..]) + "\"" + rest;
      assert f == ['"'] + f[1..];
    } else {
      ReadQuotedEscape(f[1..], rest);
      assert s == [f[0]] + (Escape(f[1..]) + "\"" + rest);
      assert s[1..] == Escape(f[1..]) + "\"" + rest;
      assert f == [f[0]] + f[1..];
    }
  }

  lemma ReadFieldQuoted(f: string, rest: string)
    requires rest == [] || rest[0] != '"'
    ensures ReadField(Quote(f) + rest) == (f, rest)
  {
    var s := Quote(f) + rest;
    assert s[1..] == Escape(f) + "\"" + rest;
    ReadQuotedEscape(f, rest);
  }

  /** A record written with quoted fields reads back as those fields, when
      it ends the file or a line break follows it. */
  lemma {:induction false} ReadRecordQuoted(fields: seq<string>, tail: string)
    requires fields != []
    requires tail == [] || tail[0] == '\n'
    ensures ReadRecord(QuotedLine(fields) + tail) == (fields, if tail == [] then [] else tail[1..])
    decreases |fields|
  {
    if |fields| == 1 {
      ReadRecordQuotedLast(fields, tail);
    } else {
      ReadRecordQuoted(fields[1..], tail);
      ReadRecordQuotedStep(fields, tail);
    }
  }

  lemma ReadRecordQuotedLast(fields: seq<string>, tail: string)
    requires |fields| == 1
    requires tail == [] || tail[0] == '\n'
    ensures ReadRecord(QuotedLine(fields) + tail) == (fields, if tail == [] then [] else tail[1..])
  {
    assert QuoteAll(fields) == [Quote(fields[0])];
    assert QuotedLine(fields) + tail == Quote(fields[0]) + tail;
    ReadFieldQuoted(fields[0], tail);
    assert fields == [fields[0]];
  }

  /** The first quoted field, then the comma, then the rest of the record. */
  lemma ReadRecordQuotedStep(fields: seq<string>, tail: string)
    requires |fields| > 1
    requires ReadRecord(QuotedLine(fields[1..]) + tail) == (fields[1..], if tail == [] then [] else tail[1..])
    ensures ReadRecord(QuotedLine(fields) + tail) == (fields, if tail == [] then [] else tail[1..])
  {
    var more := QuotedLine(fields[1..]);
    QuotedLineCons(fields);
    var line, rest := QuotedLine(fields) + tail, "," + more + tail;
    Regroup(Quote(fields[0]), ",", more, tail);
    ReadFieldQuoted(fields[0], rest);
    AfterSeparator(",", more, tail);
    ReadRecordComma(line, fields[0], rest);
    Seqs.HeadAndRest(fields);
  }

  /** A record of several fields is its first field quoted, a comma, and
      the rest of the record. */
  lemma QuotedLineCons(fields: seq<string>)
    requires |fields| > 1
    ensures QuotedLine(fields) == Quote(fields[0]) + "," + QuotedLine(fields[1..])
  {
    var q := QuoteAll(fields);
    assert q[0] == Quote(fields[0]) && q[1..] == QuoteAll(fields[1..]);
  }

  /** A field followed by a comma: the record continues after the comma. */
  lemma ReadRecordComma(s: string, f: string, rest: string)
    requires ReadField(s) == (f, rest) && rest != [] && rest[0] == ','
    ensures ReadRecord(s) == ([f] + ReadRecord(rest[1..]).0, ReadRecord(rest[1..]).1)
  {
  }

  lemma AfterSeparator(sep: string, a: string, b: string)
    requires |sep| == 1
    ensures (sep + a + b)[1..] == a + b
  {
  }

  lemma Regroup(a: string, b: string, c: string, d: string)
    ensures a + b + c + d == a + (b + c + d)
  {
  }

  /** A file written with quoted fields reads back as its records. */
  lemma {:induction false} ParseQuoted(records: seq<seq<string>>)
    requires forall i :: 0 <= i < |records| ==> records[i] != []
    ensures ParseCsv(Join(QuotedLines(records), "\n")) == records
    decreases |records|
  {
    if records != [] {
      var s := Join(QuotedLines(records), "\n");
      var line := QuotedLine(records[0]);
      assert QuoteAll(records[0]) != [];
      assert |line| > 0 by {
        assert Join(QuoteAll(records[0]), ",")[..|Quote(records[0][0])|] == Quote(records[0][0]) by {
          JoinStartsWithHead(QuoteAll(records[0]), ",");
        }
      }
      if |records| == 1 {
        assert s == line + [];
        ReadRecordQuoted(records[0], []);
      } else {
        var rest := Join(QuotedLines(records[1..]), "\n");
        assert QuotedLines(records)[1..] == QuotedLines(records[1..]);
        assert s == line + ("\n" + rest);
        ReadRecordQuoted(records[0], "\n" + rest);
        DropSeparator("\n", rest);
        ParseQuoted(records[1..]);
        ParseLine(line, rest, records[0], records[1..]);
        assert records == [records[0]] + records[1..];
      }
    }
  }

  // ---------------------------------------------------------------------
  // Unquoted fields

  /** A field that can be written without quotes. */
  predicate Plain(f: string) {
    forall k :: 0 <= k < |f| ==> f[k] != ',' && f[k] != '\n' && f[k] != '"'
  }

  lemma {:induction false} ReadUnquotedPlain(f: string, rest: string)
    requires Plain(f)
    requires rest == [] || rest[0] == ',' || rest[0] == '\n'
    ensures ReadUnquoted(f + rest) == (f, rest)
  {
    if f == [] {
      assert f + rest == rest;
    } else {
      ReadUnquotedPlain(f[1..], rest);
      assert (f + rest)[1..] == f[1..] + rest;
      assert f == [f[0]] + f[1..];
    }
  }

  lemma ReadFieldPlain(f: string, rest: string)
    requires Plain(f)
    requires rest == [] || rest[0] == ',' || rest[0] == '\n'
    ensures ReadField(f + rest) == (f, rest)
  {
    ReadUnquotedPlain(f, rest);
    if f == [] {
      assert f + rest == rest;
    }
  }

  /** A record of plain fields joined by commas reads back as those fields. */
  lemma {:induction false} ReadRecordPlain(fields: seq<string>, tail: string)
    requires fields != []
    requires forall i :: 0 <= i < |fields| ==> Plain(fields[i])
    requires tail == [] || tail[0] == '\n'
    ensures ReadRecord(Join(fields, ",") + tail) == (fields, if tail == [] then [] else tail[1..])
    decreases |fields|
  {
    var s := Join(fields, ",") + tail;
    if |fields| == 1 {
      assert s == fields[0] + tail;
      ReadFieldPlain(fields[0], tail);
      assert fields == [fields[0]];
    } else {
      var more := Join(fields[1..], ",");
      assert s == fields[0] + ("," + more + tail);
      ReadFieldPlain(fields[0], "," + more + tail);
      AfterSeparator(",", more, tail);
      ReadRecordPlain(fields[1..], tail);
      assert fields == [fields[0]] + fields[1..];
    }
  }

  /** Lines of at least two plain fields each, joined by line breaks, read
      back as their records. */
  lemma {:induction false} ParsePlain(lines: seq<string>, records: seq<seq<string>>)
    requires |lines| == |records|
    requires forall i :: 0 <= i < |records| ==> |records[i]| >= 2 && lines[i] == Join(records[i], ",")
    requires forall i, k :: 0 <= i < |records| && 0 <= k < |records[i]| ==> Plain(records[i][k])
    ensures ParseCsv(Join(lines, "\n")) == records
    decreases |records|
  {
    if records != [] {
      var line := lines[0];
      assert line == records[0][0] + ("," + Join(records[0][1..], ","));
      if |records| == 1 {
        assert Join(lines, "\n") == line + [];
        ReadRecordPlain(records[0], []);
      } else {
        var rest := Join(lines[1..], "\n");
        assert Join(lines, "\n") == line + ("\n" + rest);
        ReadRecordPlain(records[0], "\n" + rest);
        DropSeparator("\n", rest);
        ParsePlain(lines[1..], records[1..]);
        ParseLine(line, rest, records[0], records[1..]);
        assert records == [records[0]] + records[1..];
      }
    }
  }

  /** A line, a line break and more lines parse as the line's record
      followed by the records of the rest. */
  lemma ParseLine(line: string, rest: string, record: seq<string>, more: seq<seq<string>>)
    requires line != []
    requires ReadRecord(line + ("\n" + rest)) == (record, rest)
    requires ParseCsv(rest) == more
    ensures ParseCsv(line + ("\n" + rest)) == [record] + more
  {
  }

  lemma DropSeparator(sep: string, a: string)
    requires |sep| == 1
    ensures (sep + a)[1..] == a
  {
  }

  /** Joining splits a field at a separator the field holds: the last field
      "x,y" joins like the two fields "x" and "y". */
  lemma {:induction false} JoinSplitsLast(front: seq<string>, x: string, y: string, sep: string)
    ensures Join(front + [x + sep + y], sep) == Join(front + [x, y], sep)
    decreases |front|
  {
    if front == [] {
      assert [x, y][1..] == [y];
    } else {
      JoinSplitsLast(front[1..], x, y, sep);
      assert (front + [x + sep + y])[1..] == front[1..] + [x + sep + y];
      assert (front + [x, y])[1..] == front[1..] + [x, y];
    }
  }
}
