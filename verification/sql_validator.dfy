/**
 * The safety gate that SQL text must pass before it is executed
 * (`SQLGenerator.validate_sql`). The source raises an exception on the first
 * failing gate; here a `Verdict` carries either the accepted text or the
 * exception's message. The four gates run in a fixed order: emptiness or an
 * error marker, the substring denylist, the SELECT-only read mode, and the
 * position of semicolons.
 */
module SqlValidator {
  import opened Wrappers
  import opened Text

  /** The denylist, in the order in which it is searched. */
  const DangerousKeywords: seq<string> := ["DROP", "TRUNCATE", "DELETE FROM", "ALTER TABLE", "EXEC"]

  const NoSqlMessage: string := "No se pudo generar SQL válido"
  const DangerousPrefix: string := "❌ SQL contiene operación peligrosa: "
  const ReadOnlyMessage: string := "❌ Solo se permiten consultas SELECT en modo lectura"
  const MultiStatementMessage: string := "❌ No se permiten múltiples statements SQL"

  datatype Verdict = Accepted(sql: string) | Rejected(message: string)

  /** The first keyword of `keywords`, in list order, that occurs in `upper`. */
  function FirstDangerous(upper: string, keywords: seq<string>): (r: Option<string>)
    ensures r.None? <==> forall k :: k in keywords ==> !Contains(upper, k)
    ensures r.Some? ==> exists i :: 0 <= i < |keywords| && keywords[i] == r.value
                                   && Contains(upper, keywords[i])
                                   && forall j :: 0 <= j < i ==> !Contains(upper, keywords[j])
  {
    if keywords == [] then None
    else if Contains(upper, keywords[0]) then
      assert keywords[0] in keywords;
      Some(keywords[0])
    else
      var r := FirstDangerous(upper, keywords[1..]);
      assert r.Some? ==> exists i :: 1 <= i < |keywords| && keywords[i] == r.value
                                    && Contains(upper, keywords[i])
                                    && forall j :: 0 <= j < i ==> !Contains(upper, keywords[j]) by {
        if r.Some? {
          var i :| 0 <= i < |keywords[1..]| && keywords[1..][i] == r.value
                   && Contains(upper, keywords[1..][i])
                   && forall j :: 0 <= j < i ==> !Contains(upper, keywords[1..][j]);
          assert forall j :: 0 <= j < i + 1 ==> !Contains(upper, keywords[j]) by {
            forall j | 0 <= j < i + 1 ensures !Contains(upper, keywords[j]) {
              if j > 0 {
                assert keywords[j] == keywords[1..][j - 1];
              }
            }
          }
        }
      }
      r
  }

  /** Gate 1: the text is empty or starts with the `--` error marker. */
  predicate NoSql(sql: string) {
    sql == [] || StartsWith(sql, "--")
  }

  /** Gate 3: the upper-cased, stripped text starts with SELECT. */
  predicate StartsWithSelect(sql: string) {
    StartsWith(Strip(Upper(sql)), "SELECT")
  }

  /** Gate 4: a semicolon appears somewhere other than at the (stripped) end. */
  predicate MultiStatement(sql: string) {
    ';' in sql && !EndsWith(Strip(sql), ";")
  }

  /** Everything an accepted text satisfies, stated without reference to the gate order. */
  predicate Safe(sql: string, allowWrite: bool) {
    sql != []
    && !StartsWith(sql, "--")
    && (forall k :: k in DangerousKeywords ==> !Contains(Upper(sql), k))
    && (allowWrite || StartsWithSelect(sql))
    && (';' in sql ==> EndsWith(Strip(sql), ";"))
  }

  /** `validate_sql(sql, allow_write)`: the first failing gate decides the message. */
  function ValidateSql(sql: string, allowWrite: bool): (r: Verdict)
    ensures r.Accepted? <==> Safe(sql, allowWrite)
    ensures r.Accepted? ==> r.sql == sql
    ensures NoSql(sql) ==> r == Rejected(NoSqlMessage)
    ensures !NoSql(sql) && FirstDangerous(Upper(sql), DangerousKeywords).Some? ==>
            r == Rejected(DangerousPrefix + FirstDangerous(Upper(sql), DangerousKeywords).value)
    ensures !NoSql(sql) && FirstDangerous(Upper(sql), DangerousKeywords).None? && !allowWrite && !StartsWithSelect(sql) ==>
            r == Rejected(ReadOnlyMessage)
    ensures (!NoSql(sql) && FirstDangerous(Upper(sql), DangerousKeywords).None? && (allowWrite || StartsWithSelect(sql))
             && MultiStatement(sql)) ==> r == Rejected(MultiStatementMessage)
  {
    if NoSql(sql) then Rejected(NoSqlMessage)
    else
      match FirstDangerous(Upper(sql), DangerousKeywords)
      case Some(k) => Rejected(DangerousPrefix + k)
      case None =>
        if !allowWrite && !StartsWithSelect(sql) then Rejected(ReadOnlyMessage)
        else if MultiStatement(sql) then Rejected(MultiStatementMessage)
        else Accepted(sql)
  }

  /**
   * A denylisted keyword is rejected even in write mode, and the reported keyword
   * is the first one of the list that occurs.
   */
  lemma DenylistBeatsWriteMode(sql: string, allowWrite: bool, i: nat)
    requires !NoSql(sql)
    requires i < |DangerousKeywords| && Contains(Upper(sql), DangerousKeywords[i])
    ensures exists j :: 0 <= j <= i && ValidateSql(sql, allowWrite) == Rejected(DangerousPrefix + DangerousKeywords[j])
                        && Contains(Upper(sql), DangerousKeywords[j])
                        && forall l :: 0 <= l < j ==> !Contains(Upper(sql), DangerousKeywords[l])
  {
    var r := FirstDangerous(Upper(sql), DangerousKeywords);
    assert DangerousKeywords[i] in DangerousKeywords;
    var j :| 0 <= j < |DangerousKeywords| && DangerousKeywords[j] == r.value
             && Contains(Upper(sql), DangerousKeywords[j])
             && forall l :: 0 <= l < j ==> !Contains(Upper(sql), DangerousKeywords[l]);
    assert j <= i;
  }

  /** The read-only gate only adds a check: whatever read mode accepts, write mode accepts too. */
  lemma ReadModeStricter(sql: string)
    ensures ValidateSql(sql, false).Accepted? ==> ValidateSql(sql, true).Accepted?
  {
  }

  /**
   * In read mode, a text whose stripped upper-cased form does not start with
   * SELECT is refused, with the read-only message once it has passed the first
   * two gates.
   */
  lemma ReadModeNeedsSelect(sql: string)
    requires !StartsWithSelect(sql)
    ensures ValidateSql(sql, false).Rejected?
    ensures !NoSql(sql) && FirstDangerous(Upper(sql), DangerousKeywords).None? ==>
            ValidateSql(sql, false) == Rejected(ReadOnlyMessage)
  {
  }

  /** The semicolon gate: one trailing semicolon is allowed, any other position is refused. */
  lemma SemicolonGate(sql: string, allowWrite: bool)
    requires !NoSql(sql) && FirstDangerous(Upper(sql), DangerousKeywords).None?
    requires allowWrite || StartsWithSelect(sql)
    ensures ValidateSql(sql, allowWrite).Rejected? <==> MultiStatement(sql)
    ensures MultiStatement(sql) ==> ValidateSql(sql, allowWrite) == Rejected(MultiStatementMessage)
  {
  }

  // ---------------------------------------------------------------- worked examples

  /** Text free of the letters D, U, B and X contains none of the denylisted keywords. */
  lemma NoDangerWithout(u: string)
    requires 'D' !in u && 'U' !in u && 'B' !in u && 'X' !in u
    ensures FirstDangerous(u, DangerousKeywords).None?
  {
    MissingCharNotContained(u, "DROP", 'D');
    MissingCharNotContained(u, "TRUNCATE", 'U');
    MissingCharNotContained(u, "DELETE FROM", 'D');
    MissingCharNotContained(u, "ALTER TABLE", 'B');
    MissingCharNotContained(u, "EXEC", 'X');
  }

  /** The four gates, each discharged separately, give acceptance. */
  lemma AcceptedWhen(sql: string, allowWrite: bool)
    requires sql != [] && sql[0] != '-'
    requires FirstDangerous(Upper(sql), DangerousKeywords).None?
    requires allowWrite || StartsWithSelect(sql)
    requires ';' !in sql || EndsWith(Strip(sql), ";")
    ensures ValidateSql(sql, allowWrite) == Accepted(sql)
  {
    assert !StartsWith(sql, "--") by {
      assert |sql| < 2 || sql[..2][0] == sql[0];
    }
  }

  lemma UpperSelectStar() ensures Upper("select *") == "SELECT *" {}
  lemma UpperFromPa() ensures Upper(" from Pa") == " FROM PA" {}
  lemma UpperTients() ensures Upper("tients") == "TIENTS" {}

  lemma UpperSelectFromPatients(sql: string)
    requires sql == "select *" + " from Pa" + "tients"
    ensures Upper(sql) == "SELECT *" + " FROM PA" + "TIENTS"
  {
    UpperSelectStar();
    UpperFromPa();
    UpperTients();
    UpperConcat3("select *", " from Pa", "tients");
  }

  lemma UpperPatientsFacts(u: string)
    requires u == "SELECT *" + " FROM PA" + "TIENTS"
    ensures FirstDangerous(u, DangerousKeywords).None?
    ensures StartsWith(Strip(u), "SELECT")
  {
    assert 'D' !in u && 'U' !in u && 'B' !in u && 'X' !in u;
    NoDangerWithout(u);
    StripUnpadded(u);
    assert StartsWith(u, "SELECT");
  }

  lemma LowercaseSelectFacts(sql: string)
    requires sql == "select *" + " from Pa" + "tients"
    ensures FirstDangerous(Upper(sql), DangerousKeywords).None?
    ensures StartsWithSelect(sql)
  {
    UpperSelectFromPatients(sql);
    UpperPatientsFacts(Upper(sql));
  }

  /** Lower-case SELECT passes read mode: `"select * from Patients"` is accepted unchanged. */
  lemma LowercaseSelectAccepted(sql: string)
    requires sql == "select *" + " from Pa" + "tients"
    ensures ValidateSql(sql, false) == Accepted(sql)
  {
    LowercaseSelectFacts(sql);
    assert ';' !in sql;
    AcceptedWhen(sql, false);
  }

  lemma UpperSelect1() ensures Upper("SELECT 1") == "SELECT 1" {}
  lemma UpperSemiSelect() ensures Upper("; SELECT") == "; SELECT" {}
  lemma UpperSpace2Semi() ensures Upper(" 2;") == " 2;" {}

  lemma UpperOfUpperSelects(sql: string)
    requires sql == "SELECT 1" + "; SELECT" + " 2;"
    ensures Upper(sql) == sql
  {
    UpperSelect1();
    UpperSemiSelect();
    UpperSpace2Semi();
    UpperConcat3("SELECT 1", "; SELECT", " 2;");
  }

  /** Several statements are allowed when the text ends in a semicolon: `"SELECT 1; SELECT 2;"` is accepted. */
  lemma TrailingSemicolonAccepted(sql: string, allowWrite: bool)
    requires sql == "SELECT 1" + "; SELECT" + " 2;"
    ensures ValidateSql(sql, allowWrite) == Accepted(sql)
  {
    SelectsNoDanger(sql);
    SelectsGates(sql);
    AcceptedWhen(sql, allowWrite);
  }

  lemma SelectsNoDanger(sql: string)
    requires sql == "SELECT 1" + "; SELECT" + " 2;"
    ensures Upper(sql) == sql
    ensures FirstDangerous(Upper(sql), DangerousKeywords).None?
  {
    UpperOfUpperSelects(sql);
    var a, b, c := "SELECT 1", "; SELECT", " 2;";
    assert 'D' !in a && 'U' !in a && 'B' !in a && 'X' !in a;
    assert 'D' !in b && 'U' !in b && 'B' !in b && 'X' !in b;
    assert 'D' !in c && 'U' !in c && 'B' !in c && 'X' !in c;
    assert sql == a + b + c;
    NoDangerWithout(sql);
  }

  lemma SelectsGates(sql: string)
    requires sql == "SELECT 1" + "; SELECT" + " 2;"
    requires Upper(sql) == sql
    ensures sql != [] && sql[0] != '-'
    ensures StartsWithSelect(sql) && EndsWith(Strip(sql), ";")
  {
    StripUnpadded(sql);
    assert StartsWith(sql, "SELECT");
    assert EndsWith(sql, ";");
  }

  /** `"SELECT * FROM A; SELECT * FROM B"` is refused in either mode: its semicolon is not at the end. */
  lemma InnerSemicolonRejected(sql: string, allowWrite: bool)
    requires sql == "SELECT * FROM A; SELECT * FROM B"
    ensures MultiStatement(sql)
    ensures ValidateSql(sql, allowWrite).Rejected?
  {
    StripUnpadded(sql);
    assert sql[15] == ';';
  }
}
