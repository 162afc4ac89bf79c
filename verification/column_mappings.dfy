/**
 * The column-mapping generator (`ColumnMappingGenerator`). It reads the
 * `Tabla;Columna` listing of the legacy database into a table → columns
 * dictionary, classifies each column of the priority tables into one kind
 * (first match wins), writes one MAPEO_COLUMNAS row per classified column, and
 * renders a Markdown summary of the structure. File and database access are
 * outside the model: the listing arrives as its lines, a failed insert as the
 * index of its attempt, and the summary is returned instead of written.
 */
module ColumnMappings {
  import opened Wrappers
  import opened Text
  import opened Dicts
  import opened Seqs
  import opened Inserts
  import StringOrder

  // ---------------------------------------------------------------- the listing

  /** One listing line: stripped, and kept only when it splits on `;` into exactly two parts. */
  function ParseLine(line: string): (r: Option<(string, string)>)
    ensures r.Some? <==> Strip(line) != [] && CountChar(Strip(line), ';') == 1
    ensures r.Some? ==> Strip(line) == r.value.0 + ";" + r.value.1
                        && ';' !in r.value.0 && ';' !in r.value.1
  {
    var s := Strip(line);
    if s == [] then None
    else
      var parts := Split(s, ';');
      if |parts| == 2 then
        JoinSplit(s, ';');
        Some((parts[0], parts[1]))
      else None
  }

  /** Conversely, `table;column` with no other semicolon and no surrounding blanks is read as that pair. */
  lemma ParseLineOf(table: string, column: string)
    requires ';' !in table && ';' !in column
    requires table != [] && !IsWhitespace(table[0]) && column != [] && !IsWhitespace(column[|column| - 1])
    ensures ParseLine(table + ";" + column) == Some((table, column))
  {
    var s := table + ";" + column;
    assert s[|s| - 1] == column[|column| - 1];
    StripUnpadded(s);
    IndexOfAfter(table, ';', column);
    assert s[..|table|] == table;
    assert s[|table| + 1..] == column;
    assert Split(column, ';') == [column];
    assert Split(s, ';') == [table] + Split(column, ';');
  }

  /** `tables[table].append(column)` on a `defaultdict(list)`. */
  function AddColumn(d: Dict<string, seq<string>>, table: string, column: string): Dict<string, seq<string>> {
    Set(d, table, Get(d, table).GetOr([]) + [column])
  }

  /** The dictionary after reading `lines` in order, starting from `d`. */
  function ParseLines(d: Dict<string, seq<string>>, lines: seq<string>): Dict<string, seq<string>> {
    if lines == [] then d
    else
      var before := ParseLines(d, lines[..|lines| - 1]);
      match ParseLine(lines[|lines| - 1])
      case None => before
      case Some((t, c)) => AddColumn(before, t, c)
  }

  /** The columns the lines give for `table`, in file order, duplicates included. */
  function ColumnsIn(lines: seq<string>, table: string): seq<string> {
    if lines == [] then []
    else
      ColumnsIn(lines[..|lines| - 1], table)
      + match ParseLine(lines[|lines| - 1])
        case Some((t, c)) => if t == table then [c] else []
        case None => []
  }

  /** What the lookup of `table` gives after reading lines that add `columns` to it, starting from `d`. */
  function Expected(d: Dict<string, seq<string>>, table: string, columns: seq<string>): Option<seq<string>> {
    if HasKey(d, table) || columns != [] then Some(Get(d, table).GetOr([]) + columns) else None
  }

  /**
   * After reading, a table is present iff it was before or some line names it,
   * and its columns are the old ones followed by those lines' columns in order.
   */
  lemma {:induction false} ParseLinesGet(d: Dict<string, seq<string>>, lines: seq<string>, table: string)
    ensures Get(ParseLines(d, lines), table) == Expected(d, table, ColumnsIn(lines, table))
  {
    if lines == [] {
      assert Get(d, table).GetOr([]) + [] == Get(d, table).GetOr([]);
    } else {
      var init := lines[..|lines| - 1];
      ParseLinesGet(d, init, table);
      match ParseLine(lines[|lines| - 1])
      case None =>
        assert ColumnsIn(lines, table) == ColumnsIn(init, table);
      case Some((t, c)) =>
        AddColumnGet(d, ParseLines(d, init), t, c, table, ColumnsIn(init, table));
        if t == table {
          assert ColumnsIn(lines, table) == ColumnsIn(init, table) + [c];
        } else {
          assert ColumnsIn(lines, table) == ColumnsIn(init, table);
        }
    }
  }

  lemma AddColumnGet(d: Dict<string, seq<string>>, before: Dict<string, seq<string>>, t: string, c: string,
                     table: string, columns: seq<string>)
    requires Get(before, table) == Expected(d, table, columns)
    ensures Get(AddColumn(before, t, c), table)
            == if t == table then Expected(d, table, columns + [c]) else Expected(d, table, columns)
  {
    GetSet(before, t, Get(before, t).GetOr([]) + [c], table);
    if t == table {
      var old_ := Get(d, table).GetOr([]);
      assert Get(before, t).GetOr([]) == old_ + columns;
      assert old_ + columns + [c] == old_ + (columns + [c]);
    }
  }

  lemma {:induction false} ParseLinesUnique(d: Dict<string, seq<string>>, lines: seq<string>)
    requires UniqueKeys(d)
    ensures UniqueKeys(ParseLines(d, lines))
  {
    if lines != [] {
      ParseLinesUnique(d, lines[..|lines| - 1]);
      match ParseLine(lines[|lines| - 1])
      case None =>
      case Some((t, c)) =>
        var before := ParseLines(d, lines[..|lines| - 1]);
        SetKeepsUnique(before, t, Get(before, t).GetOr([]) + [c]);
    }
  }

  lemma ParseLinesStep(d: Dict<string, seq<string>>, lines: seq<string>, i: nat)
    requires i < |lines|
    ensures ParseLines(d, lines[..i + 1])
            == match ParseLine(lines[i])
               case None => ParseLines(d, lines[..i])
               case Some((t, c)) => AddColumn(ParseLines(d, lines[..i]), t, c)
  {
    assert lines[..i + 1][..i] == lines[..i];
  }

  // ---------------------------------------------------------------- column kinds

  datatype ColumnKind = DateDays | Date | HourSeconds | Hour | DurationMinutes | State | Identifier | Text

  function KindName(k: ColumnKind): string {
    match k
    case DateDays => "FECHA_DIAS"
    case Date => "FECHA"
    case HourSeconds => "HORA_SEGUNDOS"
    case Hour => "HORA"
    case DurationMinutes => "DURACION_MINUTOS"
    case State => "ESTADO"
    case Identifier => "ID"
    case Text => "TEXTO"
  }

  /** Classification of one column: its kind, the four flags, a conversion formula and a description. */
  datatype ColumnInfo = ColumnInfo(kind: ColumnKind, isDate: bool, isHour: bool, isDuration: bool,
                                   isState: bool, formula: Option<string>, description: Option<string>)

  const DateKeywords: seq<string> := ["fecha", "fec", "date"]
  const HourKeywords: seq<string> := ["hora", "hor", "time"]
  const DurationKeywords: seq<string> := ["duracion", "duration"]
  const StateKeywords: seq<string> := ["estado", "status", "sitc", "sit"]

  const DaysFormula: string := "CONVERT(VARCHAR(10), DATEADD(DAY, Fecha - 2, '1900-01-01'), 23)"
  const SecondsFormula: string := "CONVERT(VARCHAR(5), DATEADD(SECOND, Hora, 0), 108)"
  const DurationFormula: string := "CAST(CAST(Duracion AS DECIMAL(10, 2)) / 60 AS INT)"

  predicate IsDateName(lower: string) { AnyKeyword(lower, DateKeywords) }
  predicate IsHourName(lower: string) { !IsDateName(lower) && AnyKeyword(lower, HourKeywords) }
  predicate IsDurationName(lower: string) {
    !IsDateName(lower) && !AnyKeyword(lower, HourKeywords) && AnyKeyword(lower, DurationKeywords)
  }
  predicate IsStateName(lower: string) {
    !IsDateName(lower) && !AnyKeyword(lower, HourKeywords) && !AnyKeyword(lower, DurationKeywords)
    && AnyKeyword(lower, StateKeywords)
  }

  /** `deduce_column_type`: the first matching test decides, in the order date, hour, duration, state, id. */
  function DeduceColumnType(tableName: string, columnName: string): (info: ColumnInfo)
    ensures info.isDate <==> IsDateName(Lower(columnName))
    ensures info.isHour <==> IsHourName(Lower(columnName))
    ensures info.isDuration <==> IsDurationName(Lower(columnName))
    ensures info.isState <==> IsStateName(Lower(columnName))
    ensures info.kind == Identifier <==> !info.isDate && !info.isHour && !info.isDuration && !info.isState
                                         && StartsWith(Lower(columnName), "id")
    ensures info.kind == DateDays <==> info.isDate && tableName == "DCitas" && columnName == "Fecha"
    ensures info.kind == HourSeconds <==> info.isHour && tableName == "DCitas" && columnName == "Hora"
    ensures info.formula.Some? <==> info.kind in {DateDays, HourSeconds, DurationMinutes}
  {
    var lower := Lower(columnName);
    if AnyKeyword(lower, DateKeywords) then
      if tableName == "DCitas" && columnName == "Fecha" then
        ColumnInfo(DateDays, true, false, false, false, Some(DaysFormula),
                   Some("Fecha almacenada como días desde 1900-01-01"))
      else ColumnInfo(Date, true, false, false, false, None, Some("Campo de fecha"))
    else if AnyKeyword(lower, HourKeywords) then
      if tableName == "DCitas" && columnName == "Hora" then
        ColumnInfo(HourSeconds, false, true, false, false, Some(SecondsFormula),
                   Some("Hora almacenada como segundos desde medianoche"))
      else ColumnInfo(Hour, false, true, false, false, None, Some("Campo de hora"))
    else if AnyKeyword(lower, DurationKeywords) then
      ColumnInfo(DurationMinutes, false, false, true, false, Some(DurationFormula),
                 Some("Duración en segundos, convertida a minutos"))
    else if AnyKeyword(lower, StateKeywords) then
      ColumnInfo(State, false, false, false, true, None, Some("Campo de estado (requiere mapeo de valores)"))
    else if StartsWith(lower, "id") then
      ColumnInfo(Identifier, false, false, false, false, None, Some("Identificador: " + columnName))
    else ColumnInfo(Text, false, false, false, false, None, None)
  }

  /** The kinds are mutually exclusive: at most one flag is set, and the kind agrees with it. */
  lemma ColumnKindExclusive(tableName: string, columnName: string)
    ensures var info := DeduceColumnType(tableName, columnName);
            (info.isDate ==> !info.isHour && !info.isDuration && !info.isState)
            && (info.isHour ==> !info.isDuration && !info.isState)
            && (info.isDuration ==> !info.isState)
            && (info.isDate <==> info.kind in {DateDays, Date})
            && (info.isHour <==> info.kind in {HourSeconds, Hour})
  {
  }

  lemma LowerFecha(s: string)
    requires s == "Fecha"
    ensures Lower(s) == "fecha"
  {
  }

  /** `DCitas.Fecha` is the day-count date with its conversion formula. */
  lemma DCitasFechaIsDays(tableName: string, columnName: string)
    requires tableName == "DCitas" && columnName == "Fecha"
    ensures DeduceColumnType(tableName, columnName).kind == DateDays
    ensures DeduceColumnType(tableName, columnName).formula == Some(DaysFormula)
  {
    LowerFecha(columnName);
    ContainsSelf("fecha");
  }

  lemma LowerHora(s: string)
    requires s == "Hora"
    ensures Lower(s) == "hora"
  {
  }

  lemma HoraIsNoDate(s: string)
    requires s == "hora"
    ensures !AnyKeyword(s, DateKeywords)
  {
    MissingCharNotContained(s, "fecha", 'f');
    MissingCharNotContained(s, "fec", 'f');
    MissingCharNotContained(s, "date", 'd');
    AnyKeywordIff(s, DateKeywords);
  }

  /** `DCitas.Hora` is the seconds-since-midnight hour with its conversion formula. */
  lemma DCitasHoraIsSeconds(tableName: string, columnName: string)
    requires tableName == "DCitas" && columnName == "Hora"
    ensures DeduceColumnType(tableName, columnName).kind == HourSeconds
    ensures DeduceColumnType(tableName, columnName).formula == Some(SecondsFormula)
  {
    LowerHora(columnName);
    HoraIsNoDate("hora");
    ContainsSelf("hora");
  }

  lemma LowerIdFecha(s: string)
    requires s == "IdFecha"
    ensures Lower(s) == "id" + "fecha"
  {
  }

  /** The date test comes before the id test: `IdFecha` is a date. */
  lemma IdFechaIsDate(tableName: string, columnName: string)
    requires columnName == "IdFecha"
    ensures DeduceColumnType(tableName, columnName).kind == Date
  {
    LowerIdFecha(columnName);
    ContainsInfix("id", "fecha", "");
    assert "id" + "fecha" + "" == "id" + "fecha";
  }

  lemma LowerIdSitC(s: string)
    requires s == "IdSitC"
    ensures Lower(s) == "id" + "sitc"
  {
  }

  lemma IdSitcNoDate(s: string)
    requires s == "id" + "sitc"
    ensures !AnyKeyword(s, DateKeywords)
  {
    MissingCharNotContained(s, "fecha", 'f');
    MissingCharNotContained(s, "fec", 'f');
    MissingCharNotContained(s, "date", 'a');
    AnyKeywordIff(s, DateKeywords);
  }

  lemma IdSitcNoHour(s: string)
    requires s == "id" + "sitc"
    ensures !AnyKeyword(s, HourKeywords)
  {
    MissingCharNotContained(s, "hora", 'h');
    MissingCharNotContained(s, "hor", 'h');
    MissingCharNotContained(s, "time", 'm');
    AnyKeywordIff(s, HourKeywords);
  }

  lemma IdSitcNoDuration(s: string)
    requires s == "id" + "sitc"
    ensures !AnyKeyword(s, DurationKeywords)
  {
    MissingCharNotContained(s, "duracion", 'u');
    MissingCharNotContained(s, "duration", 'u');
    AnyKeywordIff(s, DurationKeywords);
  }

  /** The state test comes before the id test: `IdSitC` is a state. */
  lemma IdSitCIsState(tableName: string, columnName: string)
    requires columnName == "IdSitC"
    ensures DeduceColumnType(tableName, columnName).kind == State
  {
    LowerIdSitC(columnName);
    IdSitcNoDate("id" + "sitc");
    IdSitcNoHour("id" + "sitc");
    IdSitcNoDuration("id" + "sitc");
    ContainsInfix("id", "sitc", "");
    assert "id" + "sitc" + "" == "id" + "sitc";
    AnyKeywordIff("id" + "sitc", StateKeywords);
    assert "sitc" in StateKeywords;
  }

  // ---------------------------------------------------------------- mapping rows

  /** One MAPEO_COLUMNAS row; the colloquial name is, for now, the column name itself. */
  datatype MappingRow = MappingRow(table: string, column: string, colloquialName: string, kind: string,
                                   isDate: int, isHour: int, isDuration: int, isState: int,
                                   formula: Option<string>, description: Option<string>)

  function Flag(b: bool): int { if b then 1 else 0 }

  function MappingFor(tableName: string, columnName: string): (row: MappingRow)
    ensures row.table == tableName && row.column == columnName && row.colloquialName == columnName
  {
    var info := DeduceColumnType(tableName, columnName);
    MappingRow(tableName, columnName, columnName, KindName(info.kind), Flag(info.isDate), Flag(info.isHour),
               Flag(info.isDuration), Flag(info.isState), info.formula, info.description)
  }

  function TableMappings(tableName: string, columns: seq<string>): (rows: seq<MappingRow>)
    ensures |rows| == |columns|
    ensures forall j :: 0 <= j < |columns| ==> rows[j] == MappingFor(tableName, columns[j])
  {
    seq(|columns|, j requires 0 <= j < |columns| => MappingFor(tableName, columns[j]))
  }

  const DefaultPriorityTables: seq<string> := ["DCitas", "Pacientes", "Tratamientos", "Presu", "TtosMed"]

  /** The rows attempted for the priority tables, in order; a table missing from the listing is skipped. */
  function MappingRows(tables: Dict<string, seq<string>>, priority: seq<string>): seq<MappingRow> {
    if priority == [] then []
    else
      var t := priority[|priority| - 1];
      MappingRows(tables, priority[..|priority| - 1])
      + match Get(tables, t)
        case None => []
        case Some(columns) => TableMappings(t, columns)
  }

  /** Every attempted row belongs to a priority table that is in the listing, and is one of its columns. */
  lemma {:induction false} MappingRowsSound(tables: Dict<string, seq<string>>, priority: seq<string>)
    ensures forall r :: r in MappingRows(tables, priority) ==>
              r.table in priority && Get(tables, r.table).Some? && r.column in Get(tables, r.table).value
              && r == MappingFor(r.table, r.column)
  {
    if priority != [] {
      MappingRowsSound(tables, priority[..|priority| - 1]);
    }
  }

  /** Every column of every listed priority table is attempted. */
  lemma {:induction false} MappingRowsComplete(tables: Dict<string, seq<string>>, priority: seq<string>, t: string, c: string)
    requires t in priority && Get(tables, t).Some? && c in Get(tables, t).value
    ensures MappingFor(t, c) in MappingRows(tables, priority)
  {
    var last := priority[|priority| - 1];
    if t != last {
      MappingRowsComplete(tables, priority[..|priority| - 1], t, c);
    } else {
      var j :| 0 <= j < |Get(tables, t).value| && Get(tables, t).value[j] == c;
      assert TableMappings(t, Get(tables, t).value)[j] == MappingFor(t, c);
    }
  }

  lemma MappingRowsStep(tables: Dict<string, seq<string>>, priority: seq<string>, i: nat)
    requires i < |priority|
    ensures MappingRows(tables, priority[..i + 1])
            == MappingRows(tables, priority[..i])
               + match Get(tables, priority[i])
                 case None => []
                 case Some(columns) => TableMappings(priority[i], columns)
  {
    assert priority[..i + 1][..i] == priority[..i];
  }

  lemma TableMappingsStep(tableName: string, columns: seq<string>, j: nat)
    requires j < |columns|
    ensures TableMappings(tableName, columns[..j + 1]) == TableMappings(tableName, columns[..j]) + [MappingFor(tableName, columns[j])]
  {
  }

  // ---------------------------------------------------------------- documentation

  /** The priority tables described in the summary, with their descriptions, in order. */
  const PriorityInfo: seq<(string, string)> := [
    ("DCitas", "Gestión de citas y agendamiento"),
    ("Pacientes", "Información de pacientes"),
    ("Tratamientos", "Catálogo de tratamientos"),
    ("TtosMed", "Tratamientos médicos realizados"),
    ("Presu", "Presupuestos"),
    ("TColabos", "Colaboradores/Odontólogos"),
    ("Clientes", "Clientes/Aseguradoras")]

  const KeyColumnKeywords: seq<string> := ["id", "nombre", "fecha", "estado"]

  predicate IsKeyColumn(column: string) {
    AnyKeyword(Lower(column), KeyColumnKeywords)
  }

  /** The key columns of a table, in column order. */
  function KeyColumns(columns: seq<string>): (r: seq<string>)
    ensures |r| <= |columns|
    ensures forall c :: c in r <==> c in columns && IsKeyColumn(c)
  {
    if columns == [] then []
    else
      var last := columns[|columns| - 1];
      var init := columns[..|columns| - 1];
      assert columns == init + [last];
      KeyColumns(init) + (if IsKeyColumn(last) then [last] else [])
  }

  function DocHeader(tableCount: nat): string {
    "# Estructura de Base de Datos GELITE\n\n**Generado automáticamente desde NOMBRE DE COLUMNAS.csv**\n\nTotal de tablas: "
    + NatToString(tableCount) + "\n\n## Tablas Principales\n\n"
  }

  function KeyColumnLine(column: string): string {
    "- `" + column + "`\n"
  }

  function KeyColumnLines(columns: seq<string>): string {
    if columns == [] then "" else KeyColumnLines(columns[..|columns| - 1]) + KeyColumnLine(columns[|columns| - 1])
  }

  /** The key-column block of a section: at most ten key columns, or nothing when there are none. */
  function KeyBlock(columns: seq<string>): string {
    var listed := Prefix(KeyColumns(columns), 10);
    if listed == [] then "" else "**Columnas clave**:\n" + KeyColumnLines(listed) + "\n"
  }

  function SectionHead(name: string, description: string, columnCount: nat): string {
    "### " + name + "\n" + "**Descripción**: " + description + "\n" + "**Columnas**: " + NatToString(columnCount) + "\n\n"
  }

  /** The section of one priority table, or nothing when the listing does not have it. */
  function Section(tables: Dict<string, seq<string>>, info: (string, string)): string {
    match Get(tables, info.0)
    case None => ""
    case Some(columns) => SectionHead(info.0, info.1, |columns|) + KeyBlock(columns)
  }

  function Sections(tables: Dict<string, seq<string>>, infos: seq<(string, string)>): string {
    if infos == [] then "" else Sections(tables, infos[..|infos| - 1]) + Section(tables, infos[|infos| - 1])
  }

  function AllTablesHead(tableCount: nat): string {
    "\n## Todas las Tablas\n\nTotal: " + NatToString(tableCount) + " tablas\n\n"
  }

  function TableLine(entry: (string, seq<string>)): string {
    "- **" + entry.0 + "** (" + NatToString(|entry.1|) + " columnas)\n"
  }

  function TableLines(entries: seq<(string, seq<string>)>): string {
    if entries == [] then "" else TableLines(entries[..|entries| - 1]) + TableLine(entries[|entries| - 1])
  }

  /** The tables in the order the summary lists them: `sorted(tables.keys())`. */
  function ListedTables(tables: Dict<string, seq<string>>): (r: seq<(string, seq<string>)>)
    ensures |r| == |tables| && StringOrder.SortedByKey(r) && multiset(r) == multiset(tables)
  {
    StringOrder.SortByKey(tables)
  }

  /** `generate_documentation`: the whole summary text. */
  function Documentation(tables: Dict<string, seq<string>>): string {
    DocHeader(|tables|) + Sections(tables, PriorityInfo) + AllTablesHead(|tables|) + TableLines(ListedTables(tables))
  }

  /** A section lists at most ten columns, each a key column of that table, in column order. */
  lemma KeyBlockColumns(columns: seq<string>)
    ensures |Prefix(KeyColumns(columns), 10)| <= 10
    ensures forall c :: c in Prefix(KeyColumns(columns), 10) ==> c in columns && IsKeyColumn(c)
    ensures |KeyColumns(columns)| <= 10 ==> Prefix(KeyColumns(columns), 10) == KeyColumns(columns)
  {
    var k := KeyColumns(columns);
    var p := Prefix(k, 10);
    forall c | c in p ensures c in columns && IsKeyColumn(c) {
      assert c in k;
    }
  }

  lemma KeyColumnLinesStep(columns: seq<string>, j: nat)
    requires j < |columns|
    ensures KeyColumnLines(columns[..j + 1]) == KeyColumnLines(columns[..j]) + KeyColumnLine(columns[j])
  {
    assert columns[..j + 1][..j] == columns[..j];
  }

  lemma SectionsStep(tables: Dict<string, seq<string>>, infos: seq<(string, string)>, i: nat)
    requires i < |infos|
    ensures Sections(tables, infos[..i + 1]) == Sections(tables, infos[..i]) + Section(tables, infos[i])
  {
    assert infos[..i + 1][..i] == infos[..i];
  }

  lemma TableLinesStep(entries: seq<(string, seq<string>)>, i: nat)
    requires i < |entries|
    ensures TableLines(entries[..i + 1]) == TableLines(entries[..i]) + TableLine(entries[i])
  {
    assert entries[..i + 1][..i] == entries[..i];
  }

  // ---------------------------------------------------------------- the generator

  /** The insert loop of `populate_mappings`, over the given priority tables. */
  method InsertMappings(tables: Dict<string, seq<string>>, priority: seq<string>, failed: set<nat>)
    returns (totalInserted: nat, written: seq<MappingRow>)
    ensures written == Successful(MappingRows(tables, priority), failed)
    ensures totalInserted == |written|
  {
    totalInserted := 0;
    written := [];
    ghost var attempted: seq<MappingRow> := [];
    var attempts := 0;
    for i := 0 to |priority|
      invariant attempted == MappingRows(tables, priority[..i]) && attempts == |attempted|
      invariant written == Successful(attempted, failed) && totalInserted == |written|
    {
      MappingRowsStep(tables, priority, i);
      var found := Get(tables, priority[i]);
      if found.Some? {
        attempts, written, totalInserted := InsertTable(priority[i], found.value, failed, attempted, attempts, written, totalInserted);
        attempted := attempted + TableMappings(priority[i], found.value);
      }
    }
    assert priority[..|priority|] == priority;
  }

  /** The inner loop: one insert attempt per column of one table, numbered after the `attempted` ones. */
  method InsertTable(tableName: string, columns: seq<string>, failed: set<nat>, ghost attempted: seq<MappingRow>,
                     attempts0: nat, written0: seq<MappingRow>, inserted0: nat)
    returns (attempts: nat, written: seq<MappingRow>, inserted: nat)
    requires attempts0 == |attempted| && written0 == Successful(attempted, failed) && inserted0 == |written0|
    ensures attempts == |attempted + TableMappings(tableName, columns)|
    ensures written == Successful(attempted + TableMappings(tableName, columns), failed)
    ensures inserted == |written|
  {
    attempts, written, inserted := attempts0, written0, inserted0;
    ghost var done := attempted;
    for j := 0 to |columns|
      invariant done == attempted + TableMappings(tableName, columns[..j]) && attempts == |done|
      invariant written == Successful(done, failed) && inserted == |written|
    {
      var row := MappingFor(tableName, columns[j]);
      TableMappingsStep(tableName, columns, j);
      SuccessfulAppend(done, row, failed);
      if attempts !in failed {
        written := written + [row];
        inserted := inserted + 1;
      }
      done := done + [row];
      attempts := attempts + 1;
    }
    assert columns[..|columns|] == columns;
  }

  method AppendSections(tables: Dict<string, seq<string>>, header: string, infos: seq<(string, string)>)
    returns (content: string)
    ensures content == header + Sections(tables, infos)
  {
    content := header;
    for i := 0 to |infos|
      invariant content == header + Sections(tables, infos[..i])
    {
      var section := SectionText(tables, infos[i]);
      SectionsStep(tables, infos, i);
      ConcatAssoc(header, Sections(tables, infos[..i]), section);
      content := content + section;
    }
    assert infos[..|infos|] == infos;
  }

  /** One priority table's section. */
  method SectionText(tables: Dict<string, seq<string>>, info: (string, string)) returns (text: string)
    ensures text == Section(tables, info)
  {
    var found := Get(tables, info.0);
    if found.None? {
      return "";
    }
    var columns := found.value;
    text := SectionHead(info.0, info.1, |columns|);
    var listed := Prefix(KeyColumns(columns), 10);
    if listed != [] {
      text := AppendKeyColumnLines(text + "**Columnas clave**:\n", listed);
      text := text + "\n";
    }
  }

  /** The key-column lines, appended one by one. */
  method AppendKeyColumnLines(header: string, columns: seq<string>) returns (text: string)
    ensures text == header + KeyColumnLines(columns)
  {
    text := header;
    for j := 0 to |columns|
      invariant text == header + KeyColumnLines(columns[..j])
    {
      KeyColumnLinesStep(columns, j);
      text := text + KeyColumnLine(columns[j]);
    }
    assert columns[..|columns|] == columns;
  }

  method AppendTableLines(header: string, entries: seq<(string, seq<string>)>) returns (content: string)
    ensures content == header + TableLines(entries)
  {
    content := header;
    for i := 0 to |entries|
      invariant content == header + TableLines(entries[..i])
    {
      TableLinesStep(entries, i);
      content := content + TableLine(entries[i]);
    }
    assert entries[..|entries|] == entries;
  }

  class ColumnMappingGenerator {
    var tables: Dict<string, seq<string>>

    predicate Valid()
      reads this
    {
      UniqueKeys(tables)
    }

    constructor()
      ensures tables == [] && Valid()
    {
      tables := [];
    }

    /** `parse_csv`: reads the lines in order into `tables`. */
    method ParseCsv(lines: seq<string>) returns (parsed: Dict<string, seq<string>>)
      requires Valid()
      modifies this
      ensures Valid()
      ensures tables == ParseLines(old(tables), lines) && parsed == tables
    {
      for i := 0 to |lines|
        invariant tables == ParseLines(old(tables), lines[..i])
        invariant Valid()
      {
        ParseLinesStep(old(tables), lines, i);
        var line := Strip(lines[i]);
        if line != [] {
          var parts := Split(line, ';');
          if |parts| == 2 {
            var t, c := parts[0], parts[1];
            SetKeepsUnique(tables, t, Get(tables, t).GetOr([]) + [c]);
            tables := AddColumn(tables, t, c);
          }
        }
      }
      assert lines[..|lines|] == lines;
      parsed := tables;
    }

    /**
     * `populate_mappings`: one insert per column of each priority table found in
     * the listing (the default list when none is given); `totalInserted` counts
     * the inserts that succeeded.
     */
    method PopulateMappings(priorityTables: Option<seq<string>>, failed: set<nat>)
      returns (totalInserted: nat, written: seq<MappingRow>)
      ensures written == Successful(MappingRows(tables, priorityTables.GetOr(DefaultPriorityTables)), failed)
      ensures totalInserted == |written|
    {
      totalInserted, written := InsertMappings(tables, priorityTables.GetOr(DefaultPriorityTables), failed);
    }

    /** `generate_documentation`: the summary, built section by section and line by line. */
    method GenerateDocumentation() returns (content: string)
      ensures content == Documentation(tables)
    {
      var count := |tables|;
      var head := DocHeader(count);
      var sections := AppendSections(tables, head, PriorityInfo);
      var listed := ListedTables(tables);
      content := AppendTableLines(sections + AllTablesHead(count), listed);
    }
  }
}
