/**
 * The text the administrator's assistant builds around a query: the rows a
 * query returned, rendered as a Markdown table of at most twenty rows, and the
 * list of active business rules that goes into its instructions. The language
 * model and the query endpoint are not part of this model; rows arrive as data.
 */
module IaDental {
  import opened Wrappers
  import opened Text
  import opened Dicts
  import opened Seqs
  import opened AppTypes

  /** A cell of a returned row: a missing value (`null`/`undefined`), or the text `String(val)` gives. */
  datatype Cell = Absent | Shown(text: string)

  /** A returned row: its columns in order, as `Object.keys` lists them. */
  type Row = Dict<string, Cell>

  const NoResults := "_No se encontraron resultados._"
  const ErrorPrefix := "⚠️ **Error:** "
  const MaxRows: nat := 20
  const MaxCellChars: nat := 50

  // ---------------------------------------------------------------- the table

  /** The error a row reports, when its `error` field holds non-empty text (`data[0]?.error` is truthy). */
  function ErrorOf(row: Row): Option<string> {
    var v := Get(row, "error");
    if v.Some? && v.value.Shown? && v.value.text != [] then Some(v.value.text) else None
  }

  /** How a cell shows: `-` when missing, else the first fifty characters of its text. */
  function CellText(c: Option<Cell>): (r: string)
    ensures |r| <= MaxCellChars
    ensures c.Some? && c.value.Shown? ==> r == Prefix(c.value.text, MaxCellChars)
    ensures !(c.Some? && c.value.Shown?) ==> r == "-"
  {
    if c.Some? && c.value.Shown? then Prefix(c.value.text, MaxCellChars) else "-"
  }

  /** One line of the table: `| a | b |`. */
  function TableLine(cells: seq<string>): string {
    "| " + Join(cells, " | ") + " |"
  }

  /** The separator cells, one per column. */
  function Dashes(n: nat): (r: seq<string>)
    ensures |r| == n && forall i :: 0 <= i < n ==> r[i] == "---"
  {
    seq(n, i => "---")
  }

  /** The cells of a row under the given headers; a header the row lacks shows as missing. */
  function RowCells(row: Row, headers: seq<string>): (cells: seq<string>)
    ensures |cells| == |headers|
    ensures forall i :: 0 <= i < |headers| ==> cells[i] == CellText(Get(row, headers[i]))
  {
    seq(|headers|, i requires 0 <= i < |headers| => CellText(Get(row, headers[i])))
  }

  /** One table line per row. */
  function BodyLines(rows: seq<Row>, headers: seq<string>): (lines: seq<string>)
    ensures |lines| == |rows|
    ensures forall i :: 0 <= i < |rows| ==> lines[i] == TableLine(RowCells(rows[i], headers))
  {
    seq(|rows|, i requires 0 <= i < |rows| => TableLine(RowCells(rows[i], headers)))
  }

  /** The note naming how many rows were not shown. */
  function FooterLine(n: nat): string
    requires n > MaxRows
  {
    "_...y " + NatToString(n - MaxRows) + " resultados más_"
  }

  function Footer(n: nat): string {
    if n > MaxRows then "\n\n" + FooterLine(n) else ""
  }

  /** `jsonToMarkdownTable`. */
  function MarkdownTable(data: seq<Row>): string {
    if data == [] then NoResults
    else if ErrorOf(data[0]).Some? then ErrorPrefix + ErrorOf(data[0]).value
    else
      var headers := Keys(data[0]);
      TableLine(headers) + "\n" + TableLine(Dashes(|headers|)) + "\n"
        + Join(BodyLines(Prefix(data, MaxRows), headers), "\n") + Footer(|data|)
  }

  /**
   * The lines a table is made of: the headers (the first row's keys), one
   * separator cell per header, one line for each of the first twenty rows, and,
   * when rows were left out, a blank line and the note counting them.
   */
  function TableLines(data: seq<Row>): (lines: seq<string>)
    requires data != []
    ensures |lines| == 2 + (if |data| <= MaxRows then |data| else MaxRows) + (if |data| > MaxRows then 2 else 0)
  {
    var headers := Keys(data[0]);
    [TableLine(headers), TableLine(Dashes(|headers|))] + BodyLines(Prefix(data, MaxRows), headers)
      + (if |data| > MaxRows then ["", FooterLine(|data|)] else [])
  }

  /** No key and no cell text holds a newline. */
  predicate SingleLineRows(data: seq<Row>) {
    forall i, j :: 0 <= i < |data| && 0 <= j < |data[i]| ==>
      '\n' !in data[i][j].0 && (data[i][j].1.Shown? ==> '\n' !in data[i][j].1.text)
  }

  /** Parts and separator without `c` join to text without `c`. */
  lemma {:induction false} JoinWithout(parts: seq<string>, sep: string, c: char)
    requires c !in sep && forall i :: 0 <= i < |parts| ==> c !in parts[i]
    ensures c !in Join(parts, sep)
  {
    if |parts| > 1 {
      JoinWithout(parts[1..], sep, c);
    }
  }

  lemma TableLineSingle(cells: seq<string>)
    requires forall i :: 0 <= i < |cells| ==> '\n' !in cells[i]
    ensures '\n' !in TableLine(cells)
  {
    JoinWithout(cells, " | ", '\n');
  }

  /** A cell of a row without newlines shows without one. */
  lemma CellSingle(row: Row, h: string)
    requires forall j :: 0 <= j < |row| ==> (row[j].1.Shown? ==> '\n' !in row[j].1.text)
    ensures '\n' !in CellText(Get(row, h))
  {
    var c := Get(row, h);
    if c.Some? && c.value.Shown? {
      var j :| 0 <= j < |row| && row[j] == (h, c.value);
      var t := c.value.text;
      var r := Prefix(t, MaxCellChars);
      assert forall k :: 0 <= k < |r| ==> r[k] == t[k];
    }
  }

  /** Every line of the table is free of newlines when the rows are. */
  lemma TableLinesSingle(data: seq<Row>)
    requires data != [] && SingleLineRows(data)
    ensures forall i :: 0 <= i < |TableLines(data)| ==> '\n' !in TableLines(data)[i]
  {
    var headers := Keys(data[0]);
    TableLineSingle(headers);
    TableLineSingle(Dashes(|headers|));
    var rows := Prefix(data, MaxRows);
    forall r | 0 <= r < |rows| ensures '\n' !in TableLine(RowCells(rows[r], headers)) {
      var cells := RowCells(rows[r], headers);
      assert rows[r] == data[r];
      forall i | 0 <= i < |cells| ensures '\n' !in cells[i] {
        CellSingle(rows[r], headers[i]);
      }
      TableLineSingle(cells);
    }
    if |data| > MaxRows {
      var digits := NatToString(|data| - MaxRows);
      assert forall k :: 0 <= k < |digits| ==> IsDigit(digits[k]);
    }
  }

  /** The rendered text is the table's lines joined by newlines. */
  lemma MarkdownIsLines(data: seq<Row>)
    requires data != [] && ErrorOf(data[0]).None?
    ensures MarkdownTable(data) == Join(TableLines(data), "\n")
  {
    var headers := Keys(data[0]);
    var h, s := TableLine(headers), TableLine(Dashes(|headers|));
    var body := BodyLines(Prefix(data, MaxRows), headers);
    var top := [h, s] + body;
    assert [h, s][1..] == [s];
    assert Join([h, s], "\n") == h + "\n" + s;
    JoinAppend([h, s], body, "\n");
    var b := Join(body, "\n");
    assert Join(top, "\n") == h + "\n" + s + "\n" + b;
    if |data| > MaxRows {
      var f := FooterLine(|data|);
      assert ["", f][1..] == [f];
      assert Join(["", f], "\n") == "" + "\n" + f;
      JoinAppend(top, ["", f], "\n");
      assert "\n\n" + f == "\n" + ("" + "\n" + f);
      ConcatAssoc(h + "\n" + s + "\n" + b, "\n", "" + "\n" + f);
    } else {
      assert top + [] == top;
      assert Join(top, "\n") + "" == Join(top, "\n");
    }
  }

  /** The no-results note appears exactly when nothing came back: an error or a table starts differently. */
  lemma NoResultsIff(data: seq<Row>)
    ensures MarkdownTable(data) == NoResults <==> data == []
  {
    if data != [] {
      var t := MarkdownTable(data);
      if ErrorOf(data[0]).Some? {
        assert t[0] == ErrorPrefix[0];
      } else {
        assert t[0] == '|';
      }
      assert NoResults[0] == '_';
    }
  }

  /**
   * Reading the rendered table back line by line gives its lines: the header
   * row, the separator, one line per shown row (at most twenty) and, exactly
   * when more than twenty rows came back, a blank line and the count of the rest.
   */
  lemma MarkdownLines(data: seq<Row>)
    requires data != [] && ErrorOf(data[0]).None? && SingleLineRows(data)
    ensures Split(MarkdownTable(data), '\n') == TableLines(data)
  {
    MarkdownIsLines(data);
    TableLinesSingle(data);
    SplitJoin(TableLines(data), '\n');
  }

  // ---------------------------------------------------------------- the business rules

  /** An entry that states an active business rule. */
  predicate ActiveRule(c: ConfigItem) {
    c.category == BusinessRule && c.value == "TRUE"
  }

  /** The active business rules, in configuration order. */
  function ActiveRules(config: seq<ConfigItem>): seq<ConfigItem> {
    Filter(ActiveRule, config)
  }

  /** How a rule is listed: `- key: description`. */
  function RuleLine(c: ConfigItem): (r: string)
    ensures r != []
  {
    "- " + c.key + ": " + c.description
  }

  function RuleLines(rules: seq<ConfigItem>): (lines: seq<string>)
    ensures |lines| == |rules| && forall i :: 0 <= i < |rules| ==> lines[i] == RuleLine(rules[i])
  {
    seq(|rules|, i requires 0 <= i < |rules| => RuleLine(rules[i]))
  }

  /** The rules list of the administrator's instructions. */
  function BusinessRules(config: seq<ConfigItem>): string {
    Join(RuleLines(ActiveRules(config)), "\n")
  }

  /** What the instructions show under the rules heading (`businessRules || 'Ninguna configurada'`). */
  function RulesSection(config: seq<ConfigItem>): string {
    var text := BusinessRules(config);
    if text == "" then "Ninguna configurada" else text
  }

  /** The list is empty exactly when no entry is an active business rule. */
  lemma BusinessRulesEmpty(config: seq<ConfigItem>)
    ensures BusinessRules(config) == "" <==> forall x :: x in config ==> !ActiveRule(x)
  {
    var rules := ActiveRules(config);
    if rules != [] {
      var lines := RuleLines(rules);
      assert Join(lines, "\n")[..|lines[0]|] == lines[0];
      FilterIff(ActiveRule, config, rules[0]);
    } else {
      forall x | x in config ensures !ActiveRule(x) {
        FilterIff(ActiveRule, config, x);
      }
    }
  }

  /** Keys and descriptions without newlines. */
  predicate SingleLineConfig(config: seq<ConfigItem>) {
    forall i :: 0 <= i < |config| ==> '\n' !in config[i].key && '\n' !in config[i].description
  }

  /** Reading the list back line by line gives one `- key: description` line per active rule, in order. */
  lemma BusinessRulesLines(config: seq<ConfigItem>)
    requires SingleLineConfig(config) && ActiveRules(config) != []
    ensures Split(BusinessRules(config), '\n') == RuleLines(ActiveRules(config))
  {
    var rules := ActiveRules(config);
    var lines := RuleLines(rules);
    forall i | 0 <= i < |lines| ensures '\n' !in lines[i] {
      FilterIff(ActiveRule, config, rules[i]);
      var j :| 0 <= j < |config| && config[j] == rules[i];
    }
    SplitJoin(lines, '\n');
  }

  /** With no active rule the instructions say none is configured; otherwise they list the rules. */
  lemma RulesSectionCases(config: seq<ConfigItem>)
    ensures RulesSection(config) == "Ninguna configurada" <==> forall x :: x in config ==> !ActiveRule(x)
  {
    BusinessRulesEmpty(config);
    var rules := ActiveRules(config);
    if rules != [] {
      var lines := RuleLines(rules);
      var text := Join(lines, "\n");
      assert text[..|lines[0]|] == lines[0];
      assert text[0] == '-';
    }
  }
}
