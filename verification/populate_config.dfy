/**
 * Loading the discovery results into the CONFIG_SISTEMA table
 * (`ConfigSystemPopulator`). Every row is the seven-column record
 * (categoria, clave, valor, tipo_dato, prioridad, modificado_por, razon_cambio).
 * The database is outside the model: an insert either succeeds or raises, and
 * which attempts raise is given as a set of attempt indices. Each insert method
 * returns the rows that reached the table, in order.
 */
module PopulateConfig {
  import opened Wrappers
  import opened Text
  import opened Dicts
  import opened AutoDiscovery
  import opened RuleCodec
  import opened Inserts

  datatype ConfigRow = ConfigRow(
    category: string, key: string, value: string, dataType: string,
    priority: int, modifiedBy: string, reason: string)

  // ---------------------------------------------------------------- priorities

  /** The rule types with a fixed priority, from most to least important. */
  const KnownRuleTypes: seq<string> := [
    "INTEGRIDAD_REFERENCIAL", "CAMPO_OBLIGATORIO", "UNICIDAD", "VALIDACION_CHECK",
    "VALIDACION_CONTABLE", "VALIDACION_TEMPORAL", "VALIDACION_FORMATO", "MAQUINA_ESTADOS"]

  const Priorities: Dict<string, int> := [
    ("INTEGRIDAD_REFERENCIAL", 10), ("CAMPO_OBLIGATORIO", 20), ("UNICIDAD", 30),
    ("VALIDACION_CHECK", 40), ("VALIDACION_CONTABLE", 50), ("VALIDACION_TEMPORAL", 60),
    ("VALIDACION_FORMATO", 70), ("MAQUINA_ESTADOS", 80)]

  /** `_get_rule_priority`: the table's value, or 100 for a type it does not list. */
  function RulePriority(ruleType: string): int {
    Get(Priorities, ruleType).GetOr(100)
  }

  lemma PrioritiesKeys()
    ensures forall i :: 0 <= i < |Priorities| ==> Priorities[i] == (KnownRuleTypes[i], 10 * (i + 1))
  {
  }

  /** The i-th known type has priority 10 * (i + 1); every other type has 100. */
  lemma {:induction false} RulePriorityValues(ruleType: string)
    ensures forall i :: 0 <= i < |KnownRuleTypes| && KnownRuleTypes[i] == ruleType
                        ==> RulePriority(ruleType) == 10 * (i + 1)
    ensures ruleType !in KnownRuleTypes ==> RulePriority(ruleType) == 100
  {
    PrioritiesKeys();
    UniquePriorityKeys();
    forall i | 0 <= i < |KnownRuleTypes| && KnownRuleTypes[i] == ruleType
      ensures RulePriority(ruleType) == 10 * (i + 1)
    {
      GetUnique(Priorities, i);
    }
    if ruleType !in KnownRuleTypes {
      assert !HasKey(Priorities, ruleType);
    }
  }

  lemma UniquePriorityKeys()
    ensures UniqueKeys(Priorities)
  {
    PrioritiesKeys();
  }

  lemma {:induction false} GetUnique<V>(d: Dict<string, V>, i: nat)
    requires UniqueKeys(d) && i < |d|
    ensures Get(d, d[i].0) == Some(d[i].1)
  {
    if i > 0 {
      GetUnique(d[1..], i - 1);
    }
  }

  /** Every priority is one of 10, 20, ..., 80 or the default 100. */
  lemma RulePriorityRange(ruleType: string)
    ensures RulePriority(ruleType) in {10, 20, 30, 40, 50, 60, 70, 80, 100}
  {
    RulePriorityValues(ruleType);
  }

  // ---------------------------------------------------------------- row shapes

  const Discoverer: string := "AUTO_DESCUBRIMIENTO"

  /** The single row of `insert_system_prompt`. */
  function PromptRow(prompt: string): (r: ConfigRow)
    ensures r.category == "PROMPT" && r.key == "SISTEMA_BASE" && r.value == prompt
    ensures r.dataType == "TEXT" && r.priority == 1 && r.modifiedBy == Discoverer
  {
    ConfigRow("PROMPT", "SISTEMA_BASE", prompt, "TEXT", 1, Discoverer,
              "Prompt inicial generado automáticamente por análisis de esquema")
  }

  /** `f"{type}_{table or GLOBAL}_{column or GENERAL}_{i}"`. */
  function RuleKey(rule: Rule, i: nat): string {
    rule.ruleType + "_" + rule.table.GetOr("GLOBAL") + "_" + rule.column.GetOr("GENERAL") + "_" + NatToString(i)
  }

  /** The row `insert_business_rules` writes for the rule at index `i`. */
  function RuleRow(rule: Rule, i: nat): ConfigRow {
    ConfigRow("REGLA_NEGOCIO", RuleKey(rule, i), EncodeRule(rule), "JSON",
              RulePriority(rule.ruleType), Discoverer, "Regla deducida automáticamente: " + rule.ruleType)
  }

  function RuleRows(rules: seq<Rule>): (rows: seq<ConfigRow>)
    ensures |rows| == |rules|
    ensures forall i :: 0 <= i < |rules| ==> rows[i] == RuleRow(rules[i], i)
  {
    seq(|rules|, i requires 0 <= i < |rules| => RuleRow(rules[i], i))
  }

  /** A rule row stores the rule losslessly, with its type's priority, under category REGLA_NEGOCIO. */
  lemma RuleRowFacts(rule: Rule, i: nat)
    ensures DecodeRule(RuleRow(rule, i).value) == Some(rule)
    ensures RuleRow(rule, i).category == "REGLA_NEGOCIO" && RuleRow(rule, i).dataType == "JSON"
    ensures RuleRow(rule, i).priority == RulePriority(rule.ruleType)
  {
    RuleRoundTrip(rule);
  }

  /** The text after the last underscore (all of `s` when there is none). */
  function LastSegment(s: string): (r: string)
    ensures '_' !in r
  {
    if s == [] || s[|s| - 1] == '_' then [] else LastSegment(s[..|s| - 1]) + [s[|s| - 1]]
  }

  lemma {:induction false} LastSegmentOf(a: string, d: string)
    requires '_' !in d
    ensures LastSegment(a + "_" + d) == d
  {
    if d != [] {
      var d' := d[..|d| - 1];
      LastSegmentOf(a, d');
      assert (a + "_" + d)[..|a + "_" + d| - 1] == a + "_" + d';
    }
  }

  /** A key ends with the decimal index after an underscore, so the index can be read back. */
  lemma KeySuffixes(a: string, i: nat, b: string, j: nat)
    requires a + "_" + NatToString(i) == b + "_" + NatToString(j)
    ensures i == j
  {
    NoUnderscoreInDigits(i);
    NoUnderscoreInDigits(j);
    LastSegmentOf(a, NatToString(i));
    LastSegmentOf(b, NatToString(j));
    NatToStringInjective(i, j);
  }

  lemma NoUnderscoreInDigits(n: nat)
    ensures '_' !in NatToString(n)
  {
    var d := NatToString(n);
    forall k | 0 <= k < |d| ensures d[k] != '_' {
      assert IsDigit(d[k]);
    }
  }

  /** Keys of one rule list are pairwise distinct, whatever the rules are. */
  lemma RuleKeysDistinct(rules: seq<Rule>, i: nat, j: nat)
    requires i < |rules| && j < |rules| && i != j
    ensures RuleRows(rules)[i].key != RuleRows(rules)[j].key
  {
    var ri, rj := rules[i], rules[j];
    if RuleKey(ri, i) == RuleKey(rj, j) {
      KeySuffixes(ri.ruleType + "_" + ri.table.GetOr("GLOBAL") + "_" + ri.column.GetOr("GENERAL"), i,
                  rj.ruleType + "_" + rj.table.GetOr("GLOBAL") + "_" + rj.column.GetOr("GENERAL"), j);
    }
  }

  /** The row `insert_table_descriptions` writes for one description. */
  function DescriptionRow(entry: (string, string)): (r: ConfigRow)
    ensures r.category == "DESCRIPCION_TABLA" && r.key == entry.0 && r.value == entry.1
    ensures r.dataType == "TEXT" && r.priority == 50
  {
    ConfigRow("DESCRIPCION_TABLA", entry.0, entry.1, "TEXT", 50, Discoverer,
              "Descripción deducida automáticamente")
  }

  function DescriptionRows(descriptions: Dict<string, string>): (rows: seq<ConfigRow>)
    ensures |rows| == |descriptions|
    ensures forall i :: 0 <= i < |rows| ==> rows[i] == DescriptionRow(descriptions[i])
  {
    seq(|descriptions|, i requires 0 <= i < |descriptions| => DescriptionRow(descriptions[i]))
  }

  /** Descriptions with distinct table names give rows with distinct keys. */
  lemma DescriptionKeysDistinct(descriptions: Dict<string, string>)
    requires UniqueKeys(descriptions)
    ensures forall i, j :: 0 <= i < j < |descriptions| ==> DescriptionRows(descriptions)[i].key != DescriptionRows(descriptions)[j].key
  {
  }

  function MetadataRow(key: string, value: string, dataType: string, priority: int, reason: string): ConfigRow {
    ConfigRow("CONFIGURACION", key, value, dataType, priority, "SISTEMA", reason)
  }

  /** The six rows of `insert_metadata`, in their fixed order. */
  function MetadataRows(meta: DiscoveryResults): seq<ConfigRow> {
    [MetadataRow("VERSION_SISTEMA", "1.0.0", "TEXT", 10, "Versión inicial"),
     MetadataRow("FECHA_INICIALIZACION", meta.discoveredAt, "TEXT", 10, "Fecha de inicialización"),
     MetadataRow("TOTAL_TABLAS", NatToString(meta.totalTablesAnalyzed), "NUMBER", 10, "Total de tablas analizadas"),
     MetadataRow("TOTAL_REGLAS", NatToString(meta.totalRules), "NUMBER", 10, "Total de reglas deducidas"),
     MetadataRow("MODO_ESCRITURA", "false", "BOOLEAN", 5, "Modo de escritura desactivado por seguridad"),
     MetadataRow("IDIOMA", "es-ES", "TEXT", 10, "Idioma del sistema")]
  }

  /**
   * Exactly six CONFIGURACION rows; the counts are stored as their decimal text,
   * which reads back as the count, and write mode is stored as off.
   */
  lemma MetadataFacts(meta: DiscoveryResults)
    ensures |MetadataRows(meta)| == 6
    ensures forall i :: 0 <= i < 6 ==> MetadataRows(meta)[i].category == "CONFIGURACION"
    ensures MetadataRows(meta)[1].value == meta.discoveredAt
    ensures MetadataRows(meta)[2].key == "TOTAL_TABLAS" && DigitsValue(MetadataRows(meta)[2].value) == meta.totalTablesAnalyzed
    ensures MetadataRows(meta)[3].key == "TOTAL_REGLAS" && DigitsValue(MetadataRows(meta)[3].value) == meta.totalRules
    ensures MetadataRows(meta)[4].key == "MODO_ESCRITURA" && MetadataRows(meta)[4].value == "false"
  {
    var rows := MetadataRows(meta);
    DigitsValueOfNatToString(meta.totalTablesAnalyzed);
    DigitsValueOfNatToString(meta.totalRules);
    assert rows[2].value == NatToString(meta.totalTablesAnalyzed);
    assert rows[3].value == NatToString(meta.totalRules);
  }

  // ---------------------------------------------------------------- inserting

  /**
   * Attempt the rows one by one; an attempt that raises is reported and skipped.
   * `inserted` counts the attempts that succeeded.
   */
  method InsertRows(rows: seq<ConfigRow>, failed: set<nat>) returns (written: seq<ConfigRow>, inserted: nat)
    ensures written == Successful(rows, failed)
    ensures inserted == |written| == |rows| - FailedCount(|rows|, failed)
  {
    written := [];
    inserted := 0;
    for i := 0 to |rows|
      invariant written == Successful(rows[..i], failed)
      invariant inserted == |written|
    {
      SuccessfulStep(rows, failed, i);
      if i !in failed {
        written := written + [rows[i]];
        inserted := inserted + 1;
      }
    }
    assert rows[..|rows|] == rows;
    SuccessfulCount(rows, failed);
  }

  /** `insert_business_rules`: one row per rule, in list order; returns the rows written and their count. */
  method InsertBusinessRules(meta: DiscoveryResults, failed: set<nat>) returns (written: seq<ConfigRow>, inserted: nat)
    ensures written == Successful(RuleRows(meta.businessRules), failed)
    ensures inserted == |written| == |meta.businessRules| - FailedCount(|meta.businessRules|, failed)
  {
    written, inserted := InsertRows(RuleRows(meta.businessRules), failed);
  }

  /** `insert_table_descriptions`: one row per description entry, in dictionary order. */
  method InsertTableDescriptions(meta: DiscoveryResults, failed: set<nat>) returns (written: seq<ConfigRow>)
    ensures written == Successful(DescriptionRows(meta.tableDescriptions), failed)
  {
    var inserted;
    written, inserted := InsertRows(DescriptionRows(meta.tableDescriptions), failed);
  }

  /** `insert_metadata`: the six metadata rows, each attempted on its own. */
  method InsertMetadata(meta: DiscoveryResults, failed: set<nat>) returns (written: seq<ConfigRow>)
    ensures written == Successful(MetadataRows(meta), failed)
  {
    var inserted;
    written, inserted := InsertRows(MetadataRows(meta), failed);
  }

  /**
   * `populate_all` after the table exists: the prompt row, then rules,
   * descriptions and metadata. The prompt insert is not guarded, so when it
   * raises (`promptFails`) the whole run stops before any other row:
   * `completed` is false and nothing was written. Otherwise `table` holds the
   * rows now in the table, in insertion order.
   */
  method PopulateAll(meta: DiscoveryResults, promptFails: bool, failedRules: set<nat>, failedDescriptions: set<nat>,
                     failedMetadata: set<nat>) returns (completed: bool, table: seq<ConfigRow>)
    ensures completed == !promptFails
    ensures promptFails ==> table == []
    ensures !promptFails ==> table == [PromptRow(meta.systemPrompt)]
                                      + Successful(RuleRows(meta.businessRules), failedRules)
                                      + Successful(DescriptionRows(meta.tableDescriptions), failedDescriptions)
                                      + Successful(MetadataRows(meta), failedMetadata)
    ensures |table| <= 1 + |meta.businessRules| + |meta.tableDescriptions| + 6
  {
    if promptFails {
      return false, [];
    }
    table := [PromptRow(meta.systemPrompt)];
    var rules, _ := InsertBusinessRules(meta, failedRules);
    table := table + rules;
    var descriptions := InsertTableDescriptions(meta, failedDescriptions);
    table := table + descriptions;
    var metadata := InsertMetadata(meta, failedMetadata);
    table := table + metadata;
    completed := true;
  }
}
