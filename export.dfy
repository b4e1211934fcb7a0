/** The CSV text that `exportToCsv` hands to the download: a header line of
    field names and one line per record, cells joined by ',' and lines by
    '\n', with no quoting or escaping. */
module Export {
  import opened Policy
  import opened Strings

  /** `Object.keys(record)`: the field names, in declaration order. */
  function Keys(p: PolicyData): (keys: seq<string>)
    ensures |keys| == |Fields|
    ensures forall j :: 0 <= j < |Fields| ==> keys[j] == FieldName(Fields[j])
  {
    seq(|Fields|, j requires 0 <= j < |Fields| => FieldName(Fields[j]))
  }

  /** `Object.values(record)` as `join` prints them. */
  function Values(p: PolicyData): (cells: seq<string>)
    ensures |cells| == |Fields|
    ensures forall j :: 0 <= j < |Fields| ==> cells[j] == Show(Get(p, Fields[j]))
  {
    seq(|Fields|, j requires 0 <= j < |Fields| => Show(Get(p, Fields[j])))
  }

  /** `getHeaders`: nothing for no data, else the first record's field names. */
  function Headers(data: seq<PolicyData>): (h: seq<string>)
    ensures |data| == 0 ==> h == []
    ensures |data| > 0 ==> h == Keys(data[0]) && |h| == |Fields|
  {
    if |data| == 0 then [] else Keys(data[0])
  }

  /** `getRows`: one row per record, in the input order. */
  function Rows(data: seq<PolicyData>): (rows: seq<seq<string>>)
    ensures |rows| == |data|
    ensures forall i :: 0 <= i < |data| ==> rows[i] == Values(data[i])
  {
    seq(|data|, i requires 0 <= i < |data| => Values(data[i]))
  }

  /** The lines of the CSV text before they are joined. */
  function Lines(data: seq<PolicyData>): (lines: seq<string>)
    ensures |lines| == |data| + 1
    ensures lines[0] == Join(Headers(data), ',')
    ensures forall i :: 0 <= i < |data| ==> lines[i + 1] == Join(Values(data[i]), ',')
  {
    var rows := Rows(data);
    [Join(Headers(data), ',')] + seq(|rows|, i requires 0 <= i < |rows| => Join(rows[i], ','))
  }

  /** `csvContent`: empty exactly for no data, and otherwise it starts with
      the header line. */
  function CsvText(data: seq<PolicyData>): (text: string)
    ensures |data| == 0 <==> text == ""
    ensures |data| >= 1 ==> Join(Headers(data), ',') + "\n" <= text
  {
    Join(Lines(data), '\n')
  }

  /** Reading the text back the naive way: split into lines, then cells. */
  function ParseCsv(text: string): (table: seq<seq<string>>)
    ensures |table| == |Split(text, '\n')|
  {
    var lines := Split(text, '\n');
    seq(|lines|, i requires 0 <= i < |lines| => Split(lines[i], ','))
  }

  /** No value of any record holds a line break. */
  predicate NoLineBreaks(data: seq<PolicyData>) {
    forall i, j :: 0 <= i < |data| && 0 <= j < |Fields| ==> '\n' !in Values(data[i])[j]
  }

  /** No value of any record holds a comma or a line break. */
  predicate PlainCells(data: seq<PolicyData>) {
    && NoLineBreaks(data)
    && forall i, j :: 0 <= i < |data| && 0 <= j < |Fields| ==> ',' !in Values(data[i])[j]
  }

  lemma FieldNameNoComma(f: Field)
    ensures ',' !in FieldName(f)
  {
  }

  lemma FieldNameNoBreak(f: Field)
    ensures '\n' !in FieldName(f)
  {
  }

  lemma FieldNamePlain(f: Field)
    ensures ',' !in FieldName(f) && '\n' !in FieldName(f)
  {
    FieldNameNoComma(f);
    FieldNameNoBreak(f);
  }

  lemma FieldNamesPlain()
    ensures forall j :: 0 <= j < |Fields| ==> ',' !in FieldName(Fields[j]) && '\n' !in FieldName(Fields[j])
  {
    forall j | 0 <= j < |Fields| ensures ',' !in FieldName(Fields[j]) && '\n' !in FieldName(Fields[j]) {
      FieldNamePlain(Fields[j]);
    }
  }

  /** Empty input gives the empty text. */
  lemma CsvOfNothing()
    ensures CsvText([]) == ""
  {
    assert Lines([]) == [""];
  }

  lemma {:induction false} JoinWithoutLineBreak(cells: seq<string>)
    requires forall j :: 0 <= j < |cells| ==> '\n' !in cells[j]
    ensures '\n' !in Join(cells, ',')
    decreases |cells|
  {
    if |cells| > 1 {
      JoinWithoutLineBreak(cells[1..]);
    }
  }

  /** With no line break in any value, commas included, the text has one
      line for the header and one per record. */
  lemma CsvLines(data: seq<PolicyData>)
    requires NoLineBreaks(data)
    ensures Split(CsvText(data), '\n') == Lines(data)
    ensures |Split(CsvText(data), '\n')| == |data| + 1
  {
    var lines := Lines(data);
    FieldNamesPlain();
    JoinWithoutLineBreak(Headers(data));
    forall i | 0 <= i < |lines| ensures '\n' !in lines[i] {
      if i > 0 {
        assert lines[i] == Join(Values(data[i - 1]), ',');
        JoinWithoutLineBreak(Values(data[i - 1]));
      }
    }
    SplitJoin(lines, '\n');
  }

  /** For one record or more whose values hold no comma and no line break,
      splitting the text by lines and then by commas gives back exactly the
      header and the rows. (With no records the text is "", which splits into
      one empty cell.) */
  lemma CsvRoundTrip(data: seq<PolicyData>)
    requires |data| >= 1
    requires PlainCells(data)
    ensures ParseCsv(CsvText(data)) == [Headers(data)] + Rows(data)
  {
    CsvLines(data);
    var lines := Lines(data);
    var table := ParseCsv(CsvText(data));
    FieldNamesPlain();
    SplitJoin(Headers(data), ',');
    forall i | 0 <= i < |data| ensures table[i + 1] == Rows(data)[i] {
      SplitJoin(Values(data[i]), ',');
    }
    assert |table| == |data| + 1;
    forall i | 0 <= i < |table| ensures table[i] == ([Headers(data)] + Rows(data))[i] {
      if i > 0 { assert table[(i - 1) + 1] == table[i]; }
    }
  }

  /** A comma inside a value is not escaped: the record's line splits into
      more cells than the record has fields, so the round trip fails. */
  lemma CommaInValueBreaksRow(data: seq<PolicyData>, i: nat, j: nat)
    requires i < |data| && j < |Fields|
    requires ',' in Show(Get(data[i], Fields[j]))
    ensures |Split(Lines(data)[i + 1], ',')| > |Fields|
  {
    SplitJoinBreaks(Values(data[i]), ',', j);
  }
}
