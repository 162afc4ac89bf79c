/**
 * The schema rule-inference engine (`AutoDiscoveryEngine`). From a database
 * schema, taken as a value, it deduces business rules from column names
 * (keyword containment), foreign keys, NOT NULL, UNIQUE and CHECK constraints,
 * a one-line purpose for every table, and the assistant's initial system prompt.
 */
module AutoDiscovery {
  import opened Wrappers
  import opened Text
  import opened Dicts
  import StringOrder
  import opened Seqs

  // ---------------------------------------------------------------- schema

  datatype Column = Column(name: string, dataType: string, isNullable: string)
  datatype ForeignKey = ForeignKey(columnName: string, referencedTable: string, referencedColumn: string)
  datatype CheckConstraint = CheckConstraint(constraintName: string, checkClause: string)
  datatype Table = Table(name: string, columns: seq<Column>, foreignKeys: seq<ForeignKey>,
                         uniqueConstraints: seq<string>, checkConstraints: seq<CheckConstraint>)
  datatype Schema = Schema(tables: seq<Table>)

  /**
   * A deduced rule: the JSON object the engine builds, one optional field per key
   * that only some kinds of rule carry.
   */
  datatype Rule = Rule(
    ruleType: string,
    table: Option<string>,
    column: Option<string>,
    references: Option<string>,
    referencedColumn: Option<string>,
    constraintName: Option<string>,
    definition: Option<string>,
    rule: string,
    pattern: Option<string>,
    message: Message)

  /**
   * The user-facing message of a rule, kept as the message kind and its
   * arguments; `MessageText` renders the Spanish text the source formats.
   */
  datatype Message =
    | NonNegative(column: string)
    | DateFormat(column: string)
    | EmailFormat(column: string)
    | PhoneFormat(column: string)
    | StateValue(column: string)
    | NifFormat(column: string)
    | MustExist(column: string, referencedTable: string, referencedColumn: string)
    | Required(column: string)
    | UniqueIn(column: string, tableName: string)
    | MustSatisfy(checkClause: string)

  function MessageText(m: Message): string {
    match m
    case NonNegative(c) => c + " debe ser un valor numérico positivo o cero"
    case DateFormat(c) => c + " debe tener un formato de fecha válido"
    case EmailFormat(c) => c + " debe tener formato de email válido"
    case PhoneFormat(c) => c + " debe tener formato de teléfono válido"
    case StateValue(c) => c + " debe tener un valor de estado válido"
    case NifFormat(c) => c + " debe tener formato de NIF/DNI válido"
    case MustExist(c, t, rc) => "El valor de " + c + " debe existir en " + t + "." + rc
    case Required(c) => c + " es un campo obligatorio"
    case UniqueIn(c, t) => c + " debe ser único en la tabla " + t
    case MustSatisfy(clause) => "Debe cumplir: " + clause
  }

  // ---------------------------------------------------------------- column semantics

  const MonetaryKeywords: seq<string> := ["saldo", "importe", "precio", "total", "coste", "cost"]
  const TemporalKeywords: seq<string> := ["fecha", "fec", "date"]
  const EmailKeywords: seq<string> := ["email", "correo"]
  const PhoneKeywords: seq<string> := ["tel", "telefono", "phone", "movil"]
  const StateKeywords: seq<string> := ["estado", "status", "situacion", "sit"]
  const NifKeywords: seq<string> := ["nif", "dni", "cif"]

  const EmailPattern: string := "^[a-zA-Z0-9._%+-]+@[a-zA-Z0-9.-]+\\.[a-zA-Z]{2,}$"
  const PhonePattern: string := "^\\+?[0-9]{9,15}$"

  /** A rule about a column, before the engine stamps it with its table. */
  function ColumnRule(ruleType: string, column: string, rule: string, pattern: Option<string>, message: Message): Rule {
    Rule(ruleType, None, Some(column), None, None, None, None, rule, pattern, message)
  }

  /** The rule a test adds when it holds. */
  function When(test: bool, rule: Rule): (r: seq<Rule>)
    ensures |r| <= 1
  {
    if test then [rule] else []
  }

  /** The accounting test: amounts, prices and balances must be non-negative numbers. */
  function MonetaryRule(columnName: string): seq<Rule> {
    When(AnyKeyword(Lower(columnName), MonetaryKeywords),
         ColumnRule("VALIDACION_CONTABLE", columnName, "debe_ser_numerico_positivo", None,
                    NonNegative(columnName)))
  }

  function TemporalRule(columnName: string): seq<Rule> {
    When(AnyKeyword(Lower(columnName), TemporalKeywords),
         ColumnRule("VALIDACION_TEMPORAL", columnName, "formato_fecha_valido", None,
                    DateFormat(columnName)))
  }

  /** The email test is two substring tests joined by `or`. */
  function EmailRule(columnName: string): seq<Rule> {
    var lower := Lower(columnName);
    When(Contains(lower, "email") || Contains(lower, "correo"),
         ColumnRule("VALIDACION_FORMATO", columnName, "formato_email", Some(EmailPattern),
                    EmailFormat(columnName)))
  }

  function PhoneRule(columnName: string): seq<Rule> {
    When(AnyKeyword(Lower(columnName), PhoneKeywords),
         ColumnRule("VALIDACION_FORMATO", columnName, "formato_telefono", Some(PhonePattern),
                    PhoneFormat(columnName)))
  }

  function StateRule(columnName: string): seq<Rule> {
    When(AnyKeyword(Lower(columnName), StateKeywords),
         ColumnRule("MAQUINA_ESTADOS", columnName, "validar_transicion_estado", None,
                    StateValue(columnName)))
  }

  function NifRule(columnName: string): seq<Rule> {
    When(AnyKeyword(Lower(columnName), NifKeywords),
         ColumnRule("VALIDACION_FORMATO", columnName, "formato_nif", None,
                    NifFormat(columnName)))
  }

  /** `analyze_column_semantics`: six independent keyword tests over the lower-cased name, in this order. */
  function AnalyzeColumnSemantics(columnName: string): seq<Rule> {
    MonetaryRule(columnName) + TemporalRule(columnName) + EmailRule(columnName)
    + PhoneRule(columnName) + StateRule(columnName) + NifRule(columnName)
  }

  /** Some rule of `rules` has the rule name `name`. */
  predicate HasRule(rules: seq<Rule>, name: string) {
    exists x :: x in rules && x.rule == name
  }

  lemma HasRuleConcat(a: seq<Rule>, b: seq<Rule>, name: string)
    ensures HasRule(a + b, name) <==> HasRule(a, name) || HasRule(b, name)
  {
    if HasRule(a + b, name) {
      var x :| x in a + b && x.rule == name;
    }
    if HasRule(b, name) {
      var x :| x in b && x.rule == name;
      assert x in a + b;
    }
  }

  lemma HasRuleWhen(test: bool, rule: Rule, name: string)
    ensures HasRule(When(test, rule), name) <==> test && rule.rule == name
  {
    if test && rule.rule == name {
      assert rule in When(test, rule);
    }
  }

  /**
   * Each of the six tests contributes at most one rule, so a column yields at
   * most six, each naming the column and no table yet.
   */
  lemma ColumnSemanticsShape(columnName: string)
    ensures |AnalyzeColumnSemantics(columnName)| <= 6
    ensures ForColumn(AnalyzeColumnSemantics(columnName), columnName)
  {
    var c := columnName;
    ForColumnConcat(MonetaryRule(c), TemporalRule(c), c);
    ForColumnConcat(MonetaryRule(c) + TemporalRule(c), EmailRule(c), c);
    ForColumnConcat(MonetaryRule(c) + TemporalRule(c) + EmailRule(c), PhoneRule(c), c);
    ForColumnConcat(MonetaryRule(c) + TemporalRule(c) + EmailRule(c) + PhoneRule(c), StateRule(c), c);
    ForColumnConcat(MonetaryRule(c) + TemporalRule(c) + EmailRule(c) + PhoneRule(c) + StateRule(c), NifRule(c), c);
  }

  /** Every rule of `rules` is about column `c` and names no table yet. */
  predicate ForColumn(rules: seq<Rule>, c: string) {
    forall x :: x in rules ==> x.column == Some(c) && x.table == None
  }

  lemma ForColumnConcat(a: seq<Rule>, b: seq<Rule>, c: string)
    requires ForColumn(a, c) && ForColumn(b, c)
    ensures ForColumn(a + b, c)
  {
  }

  /** A rule name is present in the classifier's result when, and only when, it is present in one of the six parts. */
  lemma HasRuleParts(c: string, name: string)
    ensures HasRule(AnalyzeColumnSemantics(c), name)
        <==> HasRule(MonetaryRule(c), name) || HasRule(TemporalRule(c), name) || HasRule(EmailRule(c), name)
             || HasRule(PhoneRule(c), name) || HasRule(StateRule(c), name) || HasRule(NifRule(c), name)
  {
    var a := MonetaryRule(c) + TemporalRule(c);
    var b := a + EmailRule(c);
    var d := b + PhoneRule(c);
    var e := d + StateRule(c);
    HasRuleConcat(MonetaryRule(c), TemporalRule(c), name);
    HasRuleConcat(a, EmailRule(c), name);
    HasRuleConcat(b, PhoneRule(c), name);
    HasRuleConcat(d, StateRule(c), name);
    HasRuleConcat(e, NifRule(c), name);
  }

  /** Each part gives its own rule name and no other. */
  lemma PartRuleNames(c: string)
    ensures forall name :: HasRule(MonetaryRule(c), name) <==> AnyKeyword(Lower(c), MonetaryKeywords) && name == "debe_ser_numerico_positivo"
    ensures forall name :: HasRule(TemporalRule(c), name) <==> AnyKeyword(Lower(c), TemporalKeywords) && name == "formato_fecha_valido"
    ensures forall name :: HasRule(EmailRule(c), name) <==> (Contains(Lower(c), "email") || Contains(Lower(c), "correo")) && name == "formato_email"
    ensures forall name :: HasRule(PhoneRule(c), name) <==> AnyKeyword(Lower(c), PhoneKeywords) && name == "formato_telefono"
    ensures forall name :: HasRule(StateRule(c), name) <==> AnyKeyword(Lower(c), StateKeywords) && name == "validar_transicion_estado"
    ensures forall name :: HasRule(NifRule(c), name) <==> AnyKeyword(Lower(c), NifKeywords) && name == "formato_nif"
  {
  }

  /** Exactly the tests that hold give a rule: each rule name is present if and only if one of its keywords occurs. */
  lemma ColumnSemanticsExact(columnName: string)
    ensures var r := AnalyzeColumnSemantics(columnName);
            var lower := Lower(columnName);
            && (HasRule(r, "debe_ser_numerico_positivo") <==> AnyKeyword(lower, MonetaryKeywords))
            && (HasRule(r, "formato_fecha_valido") <==> AnyKeyword(lower, TemporalKeywords))
            && (HasRule(r, "formato_email") <==> Contains(lower, "email") || Contains(lower, "correo"))
            && (HasRule(r, "formato_telefono") <==> AnyKeyword(lower, PhoneKeywords))
            && (HasRule(r, "validar_transicion_estado") <==> AnyKeyword(lower, StateKeywords))
            && (HasRule(r, "formato_nif") <==> AnyKeyword(lower, NifKeywords))
  {
    PartRuleNames(columnName);
    HasRuleParts(columnName, "debe_ser_numerico_positivo");
    HasRuleParts(columnName, "formato_fecha_valido");
    HasRuleParts(columnName, "formato_email");
    HasRuleParts(columnName, "formato_telefono");
    HasRuleParts(columnName, "validar_transicion_estado");
    HasRuleParts(columnName, "formato_nif");
  }

  /**
   * A column whose lower-cased name contains "fecha" always gets the temporal rule;
   * `FechaAlta` and `fechanac` alike.
   */
  lemma FechaGetsTemporalRule(columnName: string)
    requires Contains(Lower(columnName), "fecha")
    ensures exists x :: x in AnalyzeColumnSemantics(columnName) && x.ruleType == "VALIDACION_TEMPORAL"
                        && x.rule == "formato_fecha_valido"
  {
    AnyKeywordIff(Lower(columnName), TemporalKeywords);
    assert "fecha" in TemporalKeywords;
    var rs := AnalyzeColumnSemantics(columnName);
    var a := if AnyKeyword(Lower(columnName), MonetaryKeywords) then 1 else 0;
    assert rs[a].ruleType == "VALIDACION_TEMPORAL";
  }

  /** Only the email and phone rules carry a pattern, and it is the fixed regular expression. */
  lemma PatternsOnlyOnEmailAndPhone(columnName: string)
    ensures forall x :: x in AnalyzeColumnSemantics(columnName) ==>
      (x.rule == "formato_email" ==> x.pattern == Some(EmailPattern))
      && (x.rule == "formato_telefono" ==> x.pattern == Some(PhonePattern))
      && (x.rule != "formato_email" && x.rule != "formato_telefono" ==> x.pattern == None)
  {
    var c := columnName;
    forall x | x in AnalyzeColumnSemantics(c)
      ensures x.rule == "formato_email" ==> x.pattern == Some(EmailPattern)
      ensures x.rule == "formato_telefono" ==> x.pattern == Some(PhonePattern)
      ensures x.rule != "formato_email" && x.rule != "formato_telefono" ==> x.pattern == None
    {
      assert x in MonetaryRule(c) || x in TemporalRule(c) || x in EmailRule(c)
          || x in PhoneRule(c) || x in StateRule(c) || x in NifRule(c);
    }
  }

  function One(test: bool): nat {
    if test then 1 else 0
  }

  /** A column yields one rule per test that holds. */
  lemma ColumnSemanticsCount(c: string)
    ensures var lower := Lower(c);
            |AnalyzeColumnSemantics(c)|
            == One(AnyKeyword(lower, MonetaryKeywords)) + One(AnyKeyword(lower, TemporalKeywords))
               + One(Contains(lower, "email") || Contains(lower, "correo")) + One(AnyKeyword(lower, PhoneKeywords))
               + One(AnyKeyword(lower, StateKeywords)) + One(AnyKeyword(lower, NifKeywords))
  {
    assert |MonetaryRule(c)| == One(AnyKeyword(Lower(c), MonetaryKeywords));
    assert |TemporalRule(c)| == One(AnyKeyword(Lower(c), TemporalKeywords));
    assert |EmailRule(c)| == One(Contains(Lower(c), "email") || Contains(Lower(c), "correo"));
    assert |PhoneRule(c)| == One(AnyKeyword(Lower(c), PhoneKeywords));
    assert |StateRule(c)| == One(AnyKeyword(Lower(c), StateKeywords));
    assert |NifRule(c)| == One(AnyKeyword(Lower(c), NifKeywords));
  }

  /** Keyword matching ignores letter case: names equal up to case yield as many rules, with the same rule names. */
  lemma ColumnSemanticsIgnoresCase(a: string, b: string)
    requires Lower(a) == Lower(b)
    ensures |AnalyzeColumnSemantics(a)| == |AnalyzeColumnSemantics(b)|
    ensures forall name :: HasRule(AnalyzeColumnSemantics(a), name) <==> HasRule(AnalyzeColumnSemantics(b), name)
  {
    ColumnSemanticsCount(a);
    ColumnSemanticsCount(b);
    forall name: string
      ensures HasRule(AnalyzeColumnSemantics(a), name) <==> HasRule(AnalyzeColumnSemantics(b), name)
    {
      HasRuleParts(a, name);
      HasRuleParts(b, name);
      PartRuleNames(a);
      PartRuleNames(b);
    }
  }

  // ---------------------------------------------------------------- table purpose

  const PatientKeywords: seq<string> := ["paciente", "patient"]
  const AppointmentKeywords: seq<string> := ["cita", "appointment"]
  const TreatmentKeywords: seq<string> := ["tratamiento", "treatment", "tto"]
  const BudgetKeywords: seq<string> := ["presup", "budget"]
  const InvoiceKeywords: seq<string> := ["factura", "invoice"]
  const StaffKeywords: seq<string> := ["colabo", "doctor", "medico"]

  const PatientPurpose: string := "Almacena información de pacientes de la clínica dental"
  const AppointmentPurpose: string := "Gestiona las citas y agendamiento de pacientes"
  const TreatmentPurpose: string := "Registra los tratamientos dentales realizados"
  const BudgetPurpose: string := "Gestiona presupuestos y estimaciones de tratamientos"
  const InvoicePurpose: string := "Maneja la facturación y cobros"
  const StaffPurpose: string := "Información de doctores y colaboradores de la clínica"

  /** The domain tests of `deduce_table_purpose`, in the order they are tried. */
  const DomainPurposes: seq<(seq<string>, string)> := [
    (PatientKeywords, PatientPurpose),
    (AppointmentKeywords, AppointmentPurpose),
    (TreatmentKeywords, TreatmentPurpose),
    (BudgetKeywords, BudgetPurpose),
    (InvoiceKeywords, InvoicePurpose),
    (StaffKeywords, StaffPurpose)
  ]

  /** The description of the first domain whose keywords occur in `lower`. */
  function FirstDomain(lower: string, domains: seq<(seq<string>, string)>): (r: Option<string>)
    ensures r.Some? ==> exists i :: 0 <= i < |domains| && domains[i].1 == r.value
                                    && AnyKeyword(lower, domains[i].0)
                                    && forall j :: 0 <= j < i ==> !AnyKeyword(lower, domains[j].0)
    ensures r.None? ==> forall i :: 0 <= i < |domains| ==> !AnyKeyword(lower, domains[i].0)
  {
    if domains == [] then None
    else if AnyKeyword(lower, domains[0].0) then Some(domains[0].1)
    else
      var r := FirstDomain(lower, domains[1..]);
      assert r.Some? ==> exists i :: 1 <= i < |domains| && domains[i].1 == r.value
                                     && AnyKeyword(lower, domains[i].0)
                                     && forall j :: 0 <= j < i ==> !AnyKeyword(lower, domains[j].0) by {
        if r.Some? {
          var i :| 0 <= i < |domains[1..]| && domains[1..][i].1 == r.value
                   && AnyKeyword(lower, domains[1..][i].0)
                   && forall j :: 0 <= j < i ==> !AnyKeyword(lower, domains[1..][j].0);
          assert forall j :: 0 <= j < i + 1 ==> !AnyKeyword(lower, domains[j].0) by {
            forall j | 0 <= j < i + 1 ensures !AnyKeyword(lower, domains[j].0) {
              if j > 0 {
                assert domains[j] == domains[1..][j - 1];
              }
            }
          }
        }
      }
      assert r.None? ==> forall i :: 0 <= i < |domains| ==> !AnyKeyword(lower, domains[i].0) by {
        if r.None? {
          forall i | 0 <= i < |domains| ensures !AnyKeyword(lower, domains[i].0) {
            if i > 0 {
              assert domains[i] == domains[1..][i - 1];
            }
          }
        }
      }
      r
  }

  const CatalogPrefix: string := "Tabla de catálogo/configuración para "
  const JunctionPrefix: string := "Tabla de relación entre "
  const DataPrefix: string := "Tabla de datos: "

  /**
   * `deduce_table_purpose`: a chain of returns, the first test that holds decides.
   * Each domain test is the source's disjunction of substring tests, one per keyword.
   */
  function DeduceTablePurpose(tableName: string, foreignKeys: seq<ForeignKey>): string {
    var lower := Lower(tableName);
    if AnyKeyword(lower, PatientKeywords) then PatientPurpose
    else if AnyKeyword(lower, AppointmentKeywords) then AppointmentPurpose
    else if AnyKeyword(lower, TreatmentKeywords) then TreatmentPurpose
    else if AnyKeyword(lower, BudgetKeywords) then BudgetPurpose
    else if AnyKeyword(lower, InvoiceKeywords) then InvoicePurpose
    else if AnyKeyword(lower, StaffKeywords) then StaffPurpose
    else if StartsWith(tableName, "T") && |foreignKeys| == 0 then
      CatalogPrefix + tableName
    else if |foreignKeys| >= 2 then
      JunctionPrefix + foreignKeys[0].referencedTable + " y " + foreignKeys[1].referencedTable
    else
      DataPrefix + tableName
  }

  /**
   * The purpose is the first matching domain in the fixed order patient,
   * appointment, treatment, budget, invoice, staff; failing all of them, a
   * catalogue (case-sensitive `T` prefix, no foreign keys), then a junction
   * table naming its first two referenced tables, then the generic description.
   */
  lemma TablePurposeFirstMatch(tableName: string, foreignKeys: seq<ForeignKey>)
    ensures var d := FirstDomain(Lower(tableName), DomainPurposes);
            var r := DeduceTablePurpose(tableName, foreignKeys);
            && (d.Some? ==> r == d.value)
            && (d.None? && StartsWith(tableName, "T") && |foreignKeys| == 0 ==> r == CatalogPrefix + tableName)
            && (d.None? && !(StartsWith(tableName, "T") && |foreignKeys| == 0) && |foreignKeys| >= 2 ==>
                  r == JunctionPrefix + foreignKeys[0].referencedTable + " y " + foreignKeys[1].referencedTable)
            && (d.None? && !(StartsWith(tableName, "T") && |foreignKeys| == 0) && |foreignKeys| < 2 ==>
                  r == DataPrefix + tableName)
  {
    var lower := Lower(tableName);
    var ds := DomainPurposes;
    var d := FirstDomain(lower, ds);
    assert d == if AnyKeyword(lower, PatientKeywords) then Some(PatientPurpose) else FirstDomain(lower, ds[1..]);
    ds := ds[1..];
    assert FirstDomain(lower, ds)
        == if AnyKeyword(lower, AppointmentKeywords) then Some(AppointmentPurpose) else FirstDomain(lower, ds[1..]);
    ds := ds[1..];
    assert FirstDomain(lower, ds)
        == if AnyKeyword(lower, TreatmentKeywords) then Some(TreatmentPurpose) else FirstDomain(lower, ds[1..]);
    ds := ds[1..];
    assert FirstDomain(lower, ds)
        == if AnyKeyword(lower, BudgetKeywords) then Some(BudgetPurpose) else FirstDomain(lower, ds[1..]);
    ds := ds[1..];
    assert FirstDomain(lower, ds)
        == if AnyKeyword(lower, InvoiceKeywords) then Some(InvoicePurpose) else FirstDomain(lower, ds[1..]);
    ds := ds[1..];
    assert FirstDomain(lower, ds)
        == if AnyKeyword(lower, StaffKeywords) then Some(StaffPurpose) else FirstDomain(lower, ds[1..]);
    assert ds[1..] == [];
  }

  /** None of the keywords occurs: each lacks a character that `s` lacks. */
  lemma NoKeyword2(s: string, ks: seq<string>, c0: char, c1: char)
    requires |ks| == 2 && c0 in ks[0] && c0 !in s && c1 in ks[1] && c1 !in s
    ensures !AnyKeyword(s, ks)
  {
    MissingCharNotContained(s, ks[0], c0);
    MissingCharNotContained(s, ks[1], c1);
    AnyKeywordIff(s, ks);
  }

  /** A text that does not start with `t` and whose tail lacks a character of `t` does not contain `t`. */
  lemma NotContainedAfterHead(s: string, t: string, c: char)
    requires s != [] && !StartsWith(s, t) && c in t && c !in s[1..]
    ensures !Contains(s, t)
  {
    MissingCharNotContained(s[1..], t, c);
  }

  lemma LowerTColabos(name: string)
    requires name == "TColabos"
    ensures Lower(name) == "tcolabos"
  {
  }

  lemma NoLongTreatment(s: string, c: char)
    requires (c == 'r' || c == 'a') && c !in s
    ensures !Contains(s, "tratamiento") && !Contains(s, "treatment")
  {
    assert c in "tratamiento" && c in "treatment";
    MissingCharNotContained(s, "tratamiento", c);
    MissingCharNotContained(s, "treatment", c);
  }

  lemma NoTto(s: string)
    requires |s| >= 2 && s[1] != 't' && 't' !in s[1..]
    ensures !Contains(s, "tto")
  {
    assert !StartsWith(s, "tto") by {
      if |s| >= 3 {
        assert s[..3][1] == s[1];
      }
    }
    NotContainedAfterHead(s, "tto", 't');
  }

  /** A name without `p`, `i`, `u` and `f` holds none of the patient, appointment, budget or invoice keywords. */
  lemma NoFirstDomainKeyword(s: string)
    requires 'p' !in s && 'i' !in s && 'u' !in s && 'f' !in s
    ensures !AnyKeyword(s, PatientKeywords) && !AnyKeyword(s, AppointmentKeywords)
    ensures !AnyKeyword(s, BudgetKeywords) && !AnyKeyword(s, InvoiceKeywords)
  {
    NoKeyword2(s, PatientKeywords, 'p', 'p');
    NoKeyword2(s, AppointmentKeywords, 'i', 'p');
    NoKeyword2(s, BudgetKeywords, 'p', 'u');
    NoKeyword2(s, InvoiceKeywords, 'f', 'i');
  }

  /**
   * A name with no treatment keyword: it lacks a letter (`r` or `a`) of both
   * long keywords, and "tto" is neither at its start nor in its `t`-free tail.
   */
  lemma NoTreatmentKeyword(s: string, c: char)
    requires |s| >= 2 && s[1] != 't' && 't' !in s[1..]
    requires (c == 'r' || c == 'a') && c !in s
    ensures !AnyKeyword(s, TreatmentKeywords)
  {
    NoLongTreatment(s, c);
    NoTto(s);
    AnyKeywordIff(s, TreatmentKeywords);
  }

  lemma ColabosIsStaffName(s: string)
    requires s == "tcolabos"
    ensures AnyKeyword(s, StaffKeywords)
  {
    assert s == "t" + "colabo" + "s";
    ContainsInfix("t", "colabo", "s");
    AnyKeywordIff(s, StaffKeywords);
  }

  /**
   * `TColabos` gets the staff description, not the catalogue one, although it
   * starts with `T` and has no foreign keys: the domain tests come first.
   */
  lemma TColabosIsStaff(name: string)
    requires name == "TColabos"
    ensures DeduceTablePurpose(name, []) == StaffPurpose
  {
    LowerTColabos(name);
    NoFirstDomainKeyword(Lower(name));
    NoTreatmentKeyword(Lower(name), 'r');
    ColabosIsStaffName(Lower(name));
  }

  lemma LowerTColores(name: string)
    requires name == "TColores"
    ensures Lower(name) == "tcolores"
  {
  }

  lemma ColoresNotStaff(s: string)
    requires s == "tcolores"
    ensures !AnyKeyword(s, StaffKeywords)
  {
    MissingCharNotContained(s, "colabo", 'a');
    MissingCharNotContained(s, "doctor", 'd');
    MissingCharNotContained(s, "medico", 'm');
    AnyKeywordIff(s, StaffKeywords);
  }

  /** A `T` table with no foreign keys and no domain keyword is a catalogue. */
  lemma TColoresIsCatalog(name: string)
    requires name == "TColores"
    ensures DeduceTablePurpose(name, []) == CatalogPrefix + name
  {
    LowerTColores(name);
    NoFirstDomainKeyword(Lower(name));
    NoTreatmentKeyword(Lower(name), 'a');
    ColoresNotStaff(Lower(name));
    assert StartsWith(name, "T");
  }

  /** A table with two or more foreign keys and no domain keyword, not a catalogue, is a junction table. */
  lemma JunctionNamesFirstTwoReferences(tableName: string, foreignKeys: seq<ForeignKey>)
    requires FirstDomain(Lower(tableName), DomainPurposes).None?
    requires |foreignKeys| >= 2
    ensures DeduceTablePurpose(tableName, foreignKeys)
         == JunctionPrefix + foreignKeys[0].referencedTable + " y " + foreignKeys[1].referencedTable
  {
    TablePurposeFirstMatch(tableName, foreignKeys);
  }

  // ---------------------------------------------------------------- relationships and constraints

  function ForeignKeyRule(tableName: string, fk: ForeignKey): Rule {
    Rule("INTEGRIDAD_REFERENCIAL", Some(tableName), Some(fk.columnName), Some(fk.referencedTable),
         Some(fk.referencedColumn), None, None, "validar_existencia_registro", None,
         MustExist(fk.columnName, fk.referencedTable, fk.referencedColumn))
  }

  /** One referential-integrity rule per foreign key, in declaration order. */
  function RelationshipRules(t: Table): (r: seq<Rule>)
    ensures |r| == |t.foreignKeys|
    ensures forall i :: 0 <= i < |r| ==>
      r[i].ruleType == "INTEGRIDAD_REFERENCIAL" && r[i].table == Some(t.name)
      && r[i].column == Some(t.foreignKeys[i].columnName)
      && r[i].references == Some(t.foreignKeys[i].referencedTable)
      && r[i].referencedColumn == Some(t.foreignKeys[i].referencedColumn)
  {
    seq(|t.foreignKeys|, i requires 0 <= i < |t.foreignKeys| => ForeignKeyRule(t.name, t.foreignKeys[i]))
  }

  /** `analyze_relationships`: appends one rule per foreign key. */
  method AnalyzeRelationships(t: Table) returns (rules: seq<Rule>)
    ensures rules == RelationshipRules(t)
  {
    rules := [];
    for i := 0 to |t.foreignKeys|
      invariant rules == RelationshipRules(t)[..i]
    {
      rules := rules + [ForeignKeyRule(t.name, t.foreignKeys[i])];
    }
  }

  function NotNullRule(tableName: string, c: Column): Rule {
    Rule("CAMPO_OBLIGATORIO", Some(tableName), Some(c.name), None, None, None, None, "no_nulo", None,
         Required(c.name))
  }

  function UniqueRule(tableName: string, column: string): Rule {
    Rule("UNICIDAD", Some(tableName), Some(column), None, None, None, None, "valor_unico", None,
         UniqueIn(column, tableName))
  }

  function CheckRule(tableName: string, ck: CheckConstraint): Rule {
    Rule("VALIDACION_CHECK", Some(tableName), None, None, None, Some(ck.constraintName), Some(ck.checkClause),
         "validar_condicion", None, MustSatisfy(ck.checkClause))
  }

  /** A column declared `IS_NULLABLE = 'NO'`. */
  predicate NotNullable(c: Column) {
    c.isNullable == "NO"
  }

  /** The required-field rules, one per column declared `IS_NULLABLE = 'NO'`, in column order. */
  function NotNullRules(tableName: string, columns: seq<Column>): (r: seq<Rule>)
    ensures |r| <= |columns|
    ensures forall x :: x in r ==> exists c :: c in columns && c.isNullable == "NO" && x == NotNullRule(tableName, c)
    ensures forall c :: c in columns && c.isNullable == "NO" ==> NotNullRule(tableName, c) in r
    ensures var req := Filter(NotNullable, columns);
            r == seq(|req|, i requires 0 <= i < |req| => NotNullRule(tableName, req[i]))
  {
    if columns == [] then []
    else
      var init := columns[..|columns| - 1];
      var last := columns[|columns| - 1];
      assert columns == init + [last];
      FilterAppend(NotNullable, init, [last]);
      NotNullRules(tableName, init) + (if last.isNullable == "NO" then [NotNullRule(tableName, last)] else [])
  }

  function UniqueRules(t: Table): seq<Rule> {
    seq(|t.uniqueConstraints|, i requires 0 <= i < |t.uniqueConstraints| => UniqueRule(t.name, t.uniqueConstraints[i]))
  }

  function CheckRules(t: Table): seq<Rule> {
    seq(|t.checkConstraints|, i requires 0 <= i < |t.checkConstraints| => CheckRule(t.name, t.checkConstraints[i]))
  }

  function ConstraintRules(t: Table): seq<Rule> {
    NotNullRules(t.name, t.columns) + UniqueRules(t) + CheckRules(t)
  }

  /** `analyze_constraints`: required fields, then unique columns, then CHECK clauses. */
  method AnalyzeConstraints(t: Table) returns (rules: seq<Rule>)
    ensures rules == ConstraintRules(t)
    ensures |rules| == |NotNullRules(t.name, t.columns)| + |t.uniqueConstraints| + |t.checkConstraints|
    ensures forall i :: 0 <= i < |t.checkConstraints| ==>
      rules[|rules| - |t.checkConstraints| + i].definition == Some(t.checkConstraints[i].checkClause)
  {
    rules := [];
    for i := 0 to |t.columns|
      invariant rules == NotNullRules(t.name, t.columns[..i])
    {
      assert t.columns[..i + 1][..i] == t.columns[..i];
      if t.columns[i].isNullable == "NO" {
        rules := rules + [NotNullRule(t.name, t.columns[i])];
      }
    }
    assert t.columns[..|t.columns|] == t.columns;
    ghost var required := rules;
    for i := 0 to |t.uniqueConstraints|
      invariant rules == required + UniqueRules(t)[..i]
    {
      rules := rules + [UniqueRule(t.name, t.uniqueConstraints[i])];
    }
    ghost var withUnique := rules;
    for i := 0 to |t.checkConstraints|
      invariant rules == withUnique + CheckRules(t)[..i]
    {
      rules := rules + [CheckRule(t.name, t.checkConstraints[i])];
    }
  }

  // ---------------------------------------------------------------- all rules of a schema

  /** The column-semantic rules of a table's columns, in column order. */
  function ColumnRules(columns: seq<Column>): seq<Rule> {
    if columns == [] then []
    else ColumnRules(columns[..|columns| - 1]) + AnalyzeColumnSemantics(columns[|columns| - 1].name)
  }

  function StampTable(rules: seq<Rule>, tableName: string): (r: seq<Rule>)
    ensures |r| == |rules|
    ensures forall i :: 0 <= i < |r| ==> r[i] == rules[i].(table := Some(tableName))
  {
    seq(|rules|, i requires 0 <= i < |rules| => rules[i].(table := Some(tableName)))
  }

  lemma StampAppend(a: seq<Rule>, b: seq<Rule>, tableName: string)
    ensures StampTable(a + b, tableName) == StampTable(a, tableName) + StampTable(b, tableName)
  {
  }

  /** The innermost loop of `discover_all_rules`: stamps each rule with the table's name and appends it. */
  method AppendStamped(acc: seq<Rule>, columnRules: seq<Rule>, tableName: string) returns (rules: seq<Rule>)
    ensures rules == acc + StampTable(columnRules, tableName)
  {
    rules := acc;
    for k := 0 to |columnRules|
      invariant rules == acc + StampTable(columnRules[..k], tableName)
    {
      var rule := columnRules[k].(table := Some(tableName));
      StampAppend(columnRules[..k], [columnRules[k]], tableName);
      assert columnRules[..k + 1] == columnRules[..k] + [columnRules[k]];
      rules := rules + [rule];
    }
    assert columnRules[..|columnRules|] == columnRules;
  }

  /** The column loop of `discover_all_rules`: appends the stamped column rules of every column of `table`. */
  method AppendColumnRules(acc: seq<Rule>, table: Table) returns (rules: seq<Rule>)
    ensures rules == acc + StampTable(ColumnRules(table.columns), table.name)
  {
    rules := acc;
    for j := 0 to |table.columns|
      invariant rules == acc + StampTable(ColumnRules(table.columns[..j]), table.name)
    {
      var columnRules := AnalyzeColumnSemantics(table.columns[j].name);
      ghost var before := ColumnRules(table.columns[..j]);
      rules := AppendStamped(rules, columnRules, table.name);
      ColumnRulesStep(table.columns, j);
      StampAppend(before, columnRules, table.name);
      ConcatAssoc(acc, StampTable(before, table.name), StampTable(columnRules, table.name));
    }
    assert table.columns[..|table.columns|] == table.columns;
  }

  lemma ColumnRulesStep(columns: seq<Column>, j: nat)
    requires j < |columns|
    ensures ColumnRules(columns[..j + 1]) == ColumnRules(columns[..j]) + AnalyzeColumnSemantics(columns[j].name)
  {
    assert columns[..j + 1][..j] == columns[..j];
  }

  /** The rules one table contributes: its stamped column rules, then relationships, then constraints. */
  function TableRules(t: Table): seq<Rule> {
    StampTable(ColumnRules(t.columns), t.name) + RelationshipRules(t) + ConstraintRules(t)
  }

  /** The rules of a whole schema, table by table in schema order. */
  function AllRules(tables: seq<Table>): seq<Rule> {
    if tables == [] then [] else AllRules(tables[..|tables| - 1]) + TableRules(tables[|tables| - 1])
  }

  lemma AllRulesStep(tables: seq<Table>, i: nat)
    requires i < |tables|
    ensures AllRules(tables[..i + 1]) == AllRules(tables[..i]) + TableRules(tables[i])
  {
    assert tables[..i + 1][..i] == tables[..i];
  }

  /** Rules are grouped by table in schema order: the rules of two schema parts are concatenated. */
  lemma {:induction false} AllRulesAppend(a: seq<Table>, b: seq<Table>)
    ensures AllRules(a + b) == AllRules(a) + AllRules(b)
    decreases |b|
  {
    if b == [] {
      assert a + b == a;
    } else {
      var b', last := b[..|b| - 1], b[|b| - 1];
      assert (a + b)[..|a + b| - 1] == a + b' && (a + b)[|a + b| - 1] == last;
      assert AllRules(a + b) == AllRules(a + b') + TableRules(last);
      AllRulesAppend(a, b');
      ConcatAssoc(AllRules(a), AllRules(b'), TableRules(last));
    }
  }

  /** The count of a table's rules is the sum of its parts. */
  function TableRuleCount(t: Table): nat {
    |ColumnRules(t.columns)| + |t.foreignKeys| + |NotNullRules(t.name, t.columns)|
    + |t.uniqueConstraints| + |t.checkConstraints|
  }

  function SumRuleCounts(tables: seq<Table>): nat {
    if tables == [] then 0 else SumRuleCounts(tables[..|tables| - 1]) + TableRuleCount(tables[|tables| - 1])
  }

  /** The total number of rules equals the sum of the parts over all tables. */
  lemma {:induction false} AllRulesCount(tables: seq<Table>)
    ensures |AllRules(tables)| == SumRuleCounts(tables)
  {
    if tables != [] {
      AllRulesCount(tables[..|tables| - 1]);
    }
  }

  /** Every rule of a table's group names that table. */
  lemma TableRulesStamped(t: Table)
    ensures forall x :: x in TableRules(t) ==> x.table == Some(t.name)
  {
    var s := StampTable(ColumnRules(t.columns), t.name);
    var nn := NotNullRules(t.name, t.columns);
    forall x | x in TableRules(t) ensures x.table == Some(t.name) {
      if x in nn {
        var c :| c in t.columns && c.isNullable == "NO" && x == NotNullRule(t.name, c);
      }
    }
  }

  // ---------------------------------------------------------------- table descriptions

  /** The description map after describing `tables` in order, starting from `d`. */
  function Describe(d: Dict<string, string>, tables: seq<Table>): Dict<string, string> {
    if tables == [] then d
    else
      var last := tables[|tables| - 1];
      Set(Describe(d, tables[..|tables| - 1]), last.name, TablePurpose(last))
  }

  /** The purpose recorded for a table. */
  function TablePurpose(t: Table): string {
    DeduceTablePurpose(t.name, t.foreignKeys)
  }

  lemma DescribeStep(d: Dict<string, string>, tables: seq<Table>, i: nat)
    requires i < |tables|
    ensures Describe(d, tables[..i + 1]) == Set(Describe(d, tables[..i]), tables[i].name, TablePurpose(tables[i]))
  {
    assert tables[..i + 1][..i] == tables[..i];
  }

  /** Describing keeps the keys distinct. */
  lemma {:induction false} DescribeUnique(d: Dict<string, string>, tables: seq<Table>)
    requires UniqueKeys(d)
    ensures UniqueKeys(Describe(d, tables))
  {
    if tables != [] {
      var init := tables[..|tables| - 1];
      var last := tables[|tables| - 1];
      DescribeUnique(d, init);
      SetKeepsUnique(Describe(d, init), last.name, TablePurpose(last));
    }
  }

  /** Entries of names no described table has are left as they were. */
  lemma {:induction false} DescribeKeepsOthers(d: Dict<string, string>, tables: seq<Table>, k: string)
    requires forall t :: t in tables ==> t.name != k
    ensures Get(Describe(d, tables), k) == Get(d, k)
  {
    if tables != [] {
      var init := tables[..|tables| - 1];
      var last := tables[|tables| - 1];
      assert forall t :: t in init ==> t in tables;
      DescribeKeepsOthers(d, init, k);
      GetSet(Describe(d, init), last.name, TablePurpose(last), k);
    }
  }

  /** A table's entry is the purpose of the last table of that name: a later table overwrites an earlier one. */
  lemma {:induction false} DescribeLastWins(d: Dict<string, string>, tables: seq<Table>, i: nat)
    requires i < |tables|
    requires forall j :: i < j < |tables| ==> tables[j].name != tables[i].name
    ensures Get(Describe(d, tables), tables[i].name) == Some(TablePurpose(tables[i]))
  {
    var init := tables[..|tables| - 1];
    var last := tables[|tables| - 1];
    GetSet(Describe(d, init), last.name, TablePurpose(last), tables[i].name);
    if i < |tables| - 1 {
      assert init[i] == tables[i];
      DescribeLastWins(d, init, i);
    }
  }

  // ---------------------------------------------------------------- system prompt

  function MainTableCount(tables: seq<Table>): (n: nat)
    ensures n <= |tables|
  {
    if tables == [] then 0
    else MainTableCount(tables[..|tables| - 1]) + (if StartsWith(tables[|tables| - 1].name, "T") then 0 else 1)
  }

  function CatalogTableCount(tables: seq<Table>): (n: nat)
    ensures n <= |tables|
  {
    if tables == [] then 0
    else CatalogTableCount(tables[..|tables| - 1]) + (if StartsWith(tables[|tables| - 1].name, "T") then 1 else 0)
  }

  /** Every table is either a main table or a catalogue table. */
  lemma {:induction false} MainPlusCatalog(tables: seq<Table>)
    ensures MainTableCount(tables) + CatalogTableCount(tables) == |tables|
  {
    if tables != [] {
      MainPlusCatalog(tables[..|tables| - 1]);
    }
  }

  const PromptIntro: string :=
    "Eres Alveolo, un asistente de inteligencia artificial especializado en la gestión de la clínica dental Rubio García.\n\n"
    + "**TU MISIÓN:**\nAyudar al personal de la clínica a consultar y gestionar información de pacientes, citas, tratamientos y presupuestos de manera eficiente y segura.\n\n"
    + "**BASE DE DATOS:**\nTienes acceso a una base de datos SQL Server llamada GELITE con "

  const PromptCapabilities: string :=
    "\n**CAPACIDADES:**\n"
    + "1. Consultar información de pacientes, citas, tratamientos y presupuestos\n"
    + "2. Generar consultas SQL optimizadas basadas en lenguaje natural\n"
    + "3. Validar datos antes de realizar operaciones de escritura\n"
    + "4. Proporcionar estadísticas y análisis de la clínica\n"
    + "5. Responder preguntas sobre el estado de pacientes y agenda\n\n"
    + "**REGLAS DE NEGOCIO DETECTADAS AUTOMÁTICAMENTE:**\n"

  const PromptInstructions: string :=
    " reglas de validación y negocio han sido identificadas en el esquema.\n\n"
    + "**INSTRUCCIONES:**\n"
    + "- Siempre valida los datos contra las reglas de negocio antes de escribir\n"
    + "- Usa prepared statements para prevenir inyección SQL\n"
    + "- Proporciona respuestas claras y profesionales en español\n"
    + "- Si no estás seguro de algo, pregunta antes de actuar\n"
    + "- Registra todas las operaciones importantes en el historial\n\n"
    + "**IDIOMA:** Español (España)\n"
    + "**TONO:** Profesional, amable y eficiente\n"

  function PromptHeader(tables: seq<Table>): string {
    PromptIntro + NatToString(|tables|) + " tablas:\n- "
    + NatToString(MainTableCount(tables)) + " tablas principales de datos\n- "
    + NatToString(CatalogTableCount(tables)) + " tablas de catálogo/configuración\n\n"
    + "**TABLAS PRINCIPALES:**\n"
  }

  function DescriptionLine(entry: (string, string)): string {
    "• " + entry.0 + ": " + entry.1 + "\n"
  }

  /** The entries that are listed: those not starting with `T`, in the given order. */
  function ListedEntries(entries: seq<(string, string)>): (r: seq<(string, string)>)
    ensures |r| <= |entries|
  {
    if entries == [] then []
    else
      var last := entries[|entries| - 1];
      ListedEntries(entries[..|entries| - 1]) + (if StartsWith(last.0, "T") then [] else [last])
  }

  /** The listing keeps exactly the entries whose name does not start with `T`. */
  lemma {:induction false} ListedEntriesMembers(entries: seq<(string, string)>)
    ensures forall e :: e in ListedEntries(entries) <==> e in entries && !StartsWith(e.0, "T")
  {
    if entries != [] {
      var init := entries[..|entries| - 1];
      var last := entries[|entries| - 1];
      ListedEntriesMembers(init);
      assert entries == init + [last];
    }
  }

  function Lines(entries: seq<(string, string)>): string {
    if entries == [] then "" else Lines(entries[..|entries| - 1]) + DescriptionLine(entries[|entries| - 1])
  }

  /** The entries the prompt lists: among the first 15 descriptions in name order, those not starting with `T`. */
  function PromptEntries(descriptions: Dict<string, string>): (r: seq<(string, string)>)
    ensures |r| <= 15
    ensures forall e :: e in r ==> e in descriptions && !StartsWith(e.0, "T")
  {
    var sorted := StringOrder.SortByKey(descriptions);
    var first := Prefix(sorted, 15);
    assert forall e :: e in first ==> e in multiset(sorted);
    ListedEntriesMembers(first);
    ListedEntries(first)
  }

  /** Dropping entries keeps key order. */
  lemma {:induction false} ListedSorted(entries: seq<(string, string)>)
    requires StringOrder.SortedByKey(entries)
    ensures StringOrder.SortedByKey(ListedEntries(entries))
  {
    if entries != [] {
      var init := entries[..|entries| - 1];
      var last := entries[|entries| - 1];
      ListedSorted(init);
      ListedEntriesMembers(init);
      var l := ListedEntries(init);
      assert forall e :: e in l ==> StringOrder.LessEq(e.0, last.0);
    }
  }

  /**
   * Which descriptions the prompt lists, without reference to the sort: with
   * distinct names (a dictionary's keys), an entry is listed exactly when its
   * name does not start with `T` and fewer than 15 names sort before it; the
   * listing is in name order.
   */
  lemma PromptEntriesChosen(descriptions: Dict<string, string>)
    requires UniqueKeys(descriptions)
    ensures forall e :: e in PromptEntries(descriptions) <==>
              e in descriptions && !StartsWith(e.0, "T") && StringOrder.CountBelow(descriptions, e.0) < 15
    ensures StringOrder.SortedByKey(PromptEntries(descriptions))
  {
    var first := Prefix(StringOrder.SortByKey(descriptions), 15);
    ListedEntriesMembers(first);
    forall e ensures e in first <==> e in descriptions && StringOrder.CountBelow(descriptions, e.0) < 15 {
      FirstByRank(descriptions, e);
    }
    ListedSorted(first);
  }

  /** An entry is among the first 15 in name order exactly when fewer than 15 names sort before it. */
  lemma FirstByRank(descriptions: Dict<string, string>, e: (string, string))
    requires UniqueKeys(descriptions)
    ensures e in Prefix(StringOrder.SortByKey(descriptions), 15) <==>
            e in descriptions && StringOrder.CountBelow(descriptions, e.0) < 15
  {
    var sorted := StringOrder.SortByKey(descriptions);
    var first := Prefix(sorted, 15);
    StringOrder.SortUnique(descriptions);
    StringOrder.CountBelowPerm(descriptions, sorted, e.0);
    if e in first {
      var i :| 0 <= i < |first| && first[i] == e;
      assert sorted[i] == e && e in multiset(sorted);
      StringOrder.SortedRank(sorted, i);
    } else if e in descriptions {
      assert e in multiset(sorted);
      var i :| 0 <= i < |sorted| && sorted[i] == e;
      StringOrder.SortedRank(sorted, i);
      assert i >= |first| && |first| == 15;
    }
  }

  /** The listing loop of `generate_system_prompt`: one line per entry whose name does not start with `T`. */
  method AppendListing(header: string, entries: seq<(string, string)>) returns (prompt: string)
    ensures prompt == header + Lines(ListedEntries(entries))
  {
    prompt := header;
    for i := 0 to |entries|
      invariant prompt == header + Lines(ListedEntries(entries[..i]))
    {
      ListingStep(entries, i);
      var (tableName, description) := entries[i];
      if !StartsWith(tableName, "T") {
        prompt := prompt + DescriptionLine((tableName, description));
      }
    }
    assert entries[..|entries|] == entries;
  }

  /** The whole prompt, from the schema, the descriptions and the number of rules found. */
  function SystemPrompt(tables: seq<Table>, descriptions: Dict<string, string>, ruleCount: nat): string {
    PromptHeader(tables) + Lines(PromptEntries(descriptions)) + PromptFooter(ruleCount)
  }

  /** The part of the template after the listing, with the number of rules. */
  function PromptFooter(ruleCount: nat): string {
    PromptCapabilities + NatToString(ruleCount) + PromptInstructions
  }

  /** One more entry adds its line to the listing exactly when its name does not start with `T`. */
  lemma ListingStep(entries: seq<(string, string)>, i: nat)
    requires i < |entries|
    ensures Lines(ListedEntries(entries[..i + 1]))
         == Lines(ListedEntries(entries[..i])) + (if StartsWith(entries[i].0, "T") then [] else DescriptionLine(entries[i]))
  {
    var prefix := entries[..i + 1];
    assert prefix[..i] == entries[..i] && prefix[i] == entries[i];
    var l := ListedEntries(entries[..i]);
    if StartsWith(entries[i].0, "T") {
      assert ListedEntries(prefix) == l + [];
      assert l + [] == l;
    } else {
      assert ListedEntries(prefix) == l + [entries[i]];
      assert (l + [entries[i]])[..|l|] == l;
    }
  }

  // ---------------------------------------------------------------- the engine

  /** What `save_discoveries` writes: metadata, prompt, descriptions and rules. */
  datatype DiscoveryResults = DiscoveryResults(
    discoveredAt: string, totalRules: nat, totalTablesAnalyzed: nat,
    systemPrompt: string, tableDescriptions: Dict<string, string>, businessRules: seq<Rule>)

  class DiscoveryEngine {
    const schema: Schema
    var discoveredRules: seq<Rule>
    var tableDescriptions: Dict<string, string>
    var systemPrompt: string

    predicate Valid()
      reads this
    {
      UniqueKeys(tableDescriptions)
    }

    /** The engine over an already loaded schema, with nothing discovered yet. */
    constructor(schema: Schema)
      ensures this.schema == schema
      ensures discoveredRules == [] && tableDescriptions == [] && systemPrompt == []
      ensures Valid()
    {
      this.schema := schema;
      discoveredRules := [];
      tableDescriptions := [];
      systemPrompt := [];
    }

    /**
     * `discover_all_rules`: describes every table and replaces the rule list with
     * the rules of the whole schema (so a second run leaves the same list).
     */
    method DiscoverAllRules() returns (allRules: seq<Rule>)
      requires Valid()
      modifies this
      ensures Valid()
      ensures allRules == AllRules(schema.tables) && discoveredRules == allRules
      ensures tableDescriptions == Describe(old(tableDescriptions), schema.tables)
      ensures systemPrompt == old(systemPrompt)
    {
      var tables := schema.tables;
      allRules := [];
      for i := 0 to |tables|
        invariant allRules == AllRules(tables[..i])
        invariant tableDescriptions == Describe(old(tableDescriptions), tables[..i])
        invariant UniqueKeys(tableDescriptions)
        invariant systemPrompt == old(systemPrompt)
      {
        var table := tables[i];
        assert tables[..i + 1][..i] == tables[..i];
        var purpose := TablePurpose(table);
        SetKeepsUnique(tableDescriptions, table.name, purpose);
        tableDescriptions := Set(tableDescriptions, table.name, purpose);

        ghost var before := allRules;
        allRules := AppendColumnRules(allRules, table);
        var relationshipRules := AnalyzeRelationships(table);
        allRules := allRules + relationshipRules;
        var constraintRules := AnalyzeConstraints(table);
        allRules := allRules + constraintRules;
        ghost var stamped := StampTable(ColumnRules(table.columns), table.name);
        ConcatAssoc(before, stamped, relationshipRules);
        ConcatAssoc(before, stamped + relationshipRules, constraintRules);
        AllRulesStep(tables, i);
        DescribeStep(old(tableDescriptions), tables, i);
      }
      assert tables[..|tables|] == tables;
      discoveredRules := allRules;
    }

    /** `generate_system_prompt`: the template, with the listing built line by line. */
    method GenerateSystemPrompt() returns (prompt: string)
      modifies this
      ensures prompt == SystemPrompt(schema.tables, tableDescriptions, |discoveredRules|)
      ensures systemPrompt == prompt
      ensures discoveredRules == old(discoveredRules) && tableDescriptions == old(tableDescriptions)
    {
      var tables := schema.tables;
      prompt := PromptHeader(tables);
      var first := Prefix(StringOrder.SortByKey(tableDescriptions), 15);
      prompt := AppendListing(prompt, first);
      prompt := prompt + PromptFooter(|discoveredRules|);
      systemPrompt := prompt;
    }

    /** `save_discoveries`, with the timestamp given instead of read from the clock. */
    function Results(discoveredAt: string): (r: DiscoveryResults)
      reads this
      ensures r.totalRules == |discoveredRules| && r.totalTablesAnalyzed == |schema.tables|
      ensures r.businessRules == discoveredRules && r.tableDescriptions == tableDescriptions
    {
      DiscoveryResults(discoveredAt, |discoveredRules|, |schema.tables|, systemPrompt, tableDescriptions, discoveredRules)
    }
  }
}
