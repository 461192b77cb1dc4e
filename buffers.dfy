/** The two append-only text buffers of the recorder (accelerometer and GPS) and the
    effect run that grows them. */
module Buffers {
  import opened Text

  const AccelerometerHeader := "x;y;z;date"
  const GpsHeader := "lat;lon;kmh;date"

  /** A field of a record line: a formatted number or a formatted date, which never
      holds the field delimiter or a line break. */
  predicate PlainField(f: string)
  {
    ';' !in f && '\n' !in f
  }

  /** One record line: the fields joined with `;`, no trailing delimiter. */
  function Line(fields: seq<string>): string
  {
    Join(fields, ';')
  }

  /** One run of a buffer effect: nothing while not monitoring; an empty buffer receives
      only its header; a non-empty buffer receives one line-break-prefixed record line.
      The buffer changes exactly when monitoring. */
  function EffectRun(monitoring: bool, content: string, header: string, fields: seq<string>): (r: string)
    requires header != ""
    ensures r == content <==> !monitoring
  {
    if !monitoring then content
    else if content == "" then header
    else content + "\n" + Line(fields)
  }

  /** A run never removes text: the old content is a prefix of the new one, and on a
      non-empty buffer what follows it is one line break and one record line. */
  lemma EffectRunExtends(monitoring: bool, content: string, header: string, fields: seq<string>)
    requires header != ""
    ensures content <= EffectRun(monitoring, content, header, fields)
    ensures monitoring && content != "" ==>
      EffectRun(monitoring, content, header, fields)[|content|..] == "\n" + Line(fields)
  {
    var r := EffectRun(monitoring, content, header, fields);
    if monitoring && content != "" {
      assert r == content + ("\n" + Line(fields));
    }
  }

  /** A four-field record line, written out. */
  lemma LineOfFour(a: string, b: string, c: string, d: string)
    ensures Line([a, b, c, d]) == a + ";" + b + ";" + c + ";" + d
  {
    assert [a, b, c, d][1..] == [b, c, d];
    assert [b, c, d][1..] == [c, d];
    assert [c, d][1..] == [d];
    assert Join([d], ';') == d;
    assert Join([c, d], ';') == c + ";" + d;
    assert Join([b, c, d], ';') == b + ";" + (c + ";" + d);
    assert Join([a, b, c, d], ';') == a + ";" + (b + ";" + (c + ";" + d));
  }

  /** The text of a buffer holding a header and the given records, one per line. */
  function Document(header: string, records: seq<seq<string>>): string
  {
    Join([header] + Lines(records), '\n')
  }

  /** The record lines of the records, in order. */
  function Lines(records: seq<seq<string>>): (lines: seq<string>)
    ensures |lines| == |records|
  {
    seq(|records|, i requires 0 <= i < |records| => Line(records[i]))
  }

  /** What a buffer holds: nothing yet, or a header followed by records in arrival order. */
  datatype Stream = Unstarted | Started(records: seq<seq<string>>)

  function Render(s: Stream, header: string): string
  {
    match s
    case Unstarted => ""
    case Started(records) => Document(header, records)
  }

  /** The abstract effect of one run: monitoring starts an unstarted stream without a record
      and appends the reading to a started one; not monitoring changes nothing. */
  function Advance(s: Stream, monitoring: bool, fields: seq<string>): Stream
  {
    if !monitoring then s
    else match s
      case Unstarted => Started([])
      case Started(records) => Started(records + [fields])
  }

  /** Reads a buffer's text back: its first line, and each further line split into fields. */
  function ParseDocument(text: string): (string, seq<seq<string>>)
  {
    var lines := Split(text, '\n');
    (lines[0], seq(|lines| - 1, i requires 0 <= i < |lines| - 1 => Split(lines[i + 1], ';')))
  }

  /** Adding a record adds one line-break-prefixed line at the end of the document. */
  lemma DocumentSnoc(header: string, records: seq<seq<string>>, fields: seq<string>)
    ensures Document(header, records + [fields]) == Document(header, records) + "\n" + Line(fields)
  {
    assert Lines(records + [fields]) == Lines(records) + [Line(fields)];
    assert [header] + Lines(records + [fields]) == ([header] + Lines(records)) + [Line(fields)];
    JoinSnoc([header] + Lines(records), Line(fields), '\n');
  }

  /** A started buffer is never empty, since it opens with its header. */
  lemma DocumentNonEmpty(header: string, records: seq<seq<string>>)
    requires header != ""
    ensures Document(header, records) != ""
  {
    JoinStartsWithHead([header] + Lines(records), '\n');
  }

  /** The first run while monitoring on an empty buffer leaves the document without records. */
  lemma EffectRunStartsDocument(header: string, fields: seq<string>)
    requires header != ""
    ensures EffectRun(true, "", header, fields) == Document(header, [])
  {
    assert Lines([]) == [];
  }

  /** A run while monitoring on a started buffer appends the reading as the last record. */
  lemma EffectRunAppendsRecord(header: string, records: seq<seq<string>>, fields: seq<string>)
    requires header != ""
    ensures EffectRun(true, Document(header, records), header, fields) == Document(header, records + [fields])
  {
    DocumentNonEmpty(header, records);
    DocumentSnoc(header, records, fields);
  }

  /** The text operation of an effect run and the abstract stream agree: the buffer text is
      always the rendering of the stream, whatever the readings. */
  lemma EffectRunAdvances(s: Stream, monitoring: bool, header: string, fields: seq<string>)
    requires header != ""
    ensures EffectRun(monitoring, Render(s, header), header, fields) == Render(Advance(s, monitoring, fields), header)
  {
    match s
    case Unstarted =>
      EffectRunStartsDocument(header, fields);
    case Started(records) =>
      EffectRunAppendsRecord(header, records, fields);
  }

  /** Every field of every record is plain and every record has at least one field. */
  predicate PlainRecords(records: seq<seq<string>>)
  {
    forall i, j :: 0 <= i < |records| && 0 <= j < |records[i]| ==> PlainField(records[i][j])
  }

  predicate NonEmptyRecords(records: seq<seq<string>>)
  {
    forall i :: 0 <= i < |records| ==> |records[i]| >= 1
  }

  /** A buffer's text reads back as exactly its header and its records, in order. */
  lemma ReadBack(header: string, records: seq<seq<string>>)
    requires '\n' !in header
    requires PlainRecords(records) && NonEmptyRecords(records)
    ensures ParseDocument(Document(header, records)) == (header, records)
  {
    var lines := [header] + Lines(records);
    forall i | 0 <= i < |records|
      ensures '\n' !in Lines(records)[i] && Split(Lines(records)[i], ';') == records[i]
    {
      JoinAvoids(records[i], ';', '\n');
      SplitJoin(records[i], ';');
    }
    SplitJoin(lines, '\n');
    var parsed := ParseDocument(Document(header, records));
    assert Split(Document(header, records), '\n') == lines;
    assert parsed.0 == header;
    assert |parsed.1| == |records|;
    forall i | 0 <= i < |records|
      ensures parsed.1[i] == records[i]
    {
      assert lines[i + 1] == Lines(records)[i];
      assert parsed.1[i] == Split(lines[i + 1], ';');
    }
    assert parsed.1 == records;
    assert parsed == (header, records);
  }

  /** Consecutive effect runs while monitoring, one per reading. */
  function RunAll(content: string, header: string, readings: seq<seq<string>>): string
    requires header != ""
    decreases |readings|
  {
    if |readings| == 0 then content
    else RunAll(EffectRun(true, content, header, readings[0]), header, readings[1..])
  }

  /** On a started buffer, runs while monitoring record every reading, in order. */
  lemma {:induction false} RunAllRecordsInOrder(header: string, records: seq<seq<string>>, readings: seq<seq<string>>)
    requires header != ""
    ensures RunAll(Document(header, records), header, readings) == Document(header, records + readings)
    decreases |readings|
  {
    if |readings| == 0 {
      assert records + readings == records;
    } else {
      EffectRunAdvances(Started(records), true, header, readings[0]);
      RunAllRecordsInOrder(header, records + [readings[0]], readings[1..]);
      assert records + [readings[0]] + readings[1..] == records + readings;
    }
  }

  /** From an empty buffer, the first run writes only the header and drops its reading;
      every later reading is recorded, in order. */
  lemma RunAllFromEmpty(header: string, readings: seq<seq<string>>)
    requires header != ""
    requires |readings| >= 1
    ensures RunAll("", header, readings) == Document(header, readings[1..])
  {
    assert Document(header, []) == header;
    RunAllRecordsInOrder(header, [], readings[1..]);
    assert [] + readings[1..] == readings[1..];
  }
}
