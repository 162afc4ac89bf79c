/**
 * The two guards of the Express API server: the start-up check that the database
 * credentials are configured, and the request guard of `POST /api/query`, which
 * forwards a query to the database only when its text starts with SELECT.
 */
module ServerGuards {
  import opened Wrappers
  import opened Text
  import SqlValidator

  /** A JavaScript value read from the environment or a request body is truthy when it is set and non-empty. */
  predicate Truthy(v: Option<string>) {
    v.Some? && v.value != []
  }

  /** The server starts only when user, password, server and database are all set. */
  function CredentialsConfigured(user: Option<string>, password: Option<string>,
                                 server: Option<string>, database: Option<string>): (ok: bool)
    ensures ok <==> forall v :: v in [user, password, server, database] ==> Truthy(v)
  {
    !(!Truthy(user) || !Truthy(password) || !Truthy(server) || !Truthy(database))
  }

  const QueryRequiredMessage: string := "Query is required"
  const ReadOnlyPhaseMessage: string := "POR SEGURIDAD, EN ESTA FASE SOLO SE PERMITEN CONSULTAS DE LECTURA (SELECT)."

  datatype GuardOutcome = Refuse(status: int, error: string) | Forward(query: string)

  /** The guard of `POST /api/query`: 400 without a query, 403 unless it is a SELECT. */
  function QueryGuard(query: Option<string>): (r: GuardOutcome)
    ensures r.Refuse? ==> r.status in {400, 403}
    ensures r.Refuse? && r.status == 400 <==> !Truthy(query)
    ensures r.Forward? <==> Truthy(query) && SqlValidator.StartsWithSelect(query.value)
    ensures r.Forward? ==> r.query == query.value
  {
    if !Truthy(query) then Refuse(400, QueryRequiredMessage)
    else if !StartsWith(Strip(Upper(query.value)), "SELECT") then Refuse(403, ReadOnlyPhaseMessage)
    else Forward(query.value)
  }

  /**
   * The guard is weaker than the read-mode validator: every text the validator
   * accepts in read mode is forwarded by the guard.
   */
  lemma ValidatorImpliesGuard(q: string)
    requires SqlValidator.ValidateSql(q, false).Accepted?
    ensures QueryGuard(Some(q)) == Forward(q)
  {
  }

  lemma {:induction false} UpperOfWhitespace(w: string)
    requires AllWhitespace(w)
    ensures Upper(w) == w
  {
    assert forall i :: 0 <= i < |w| ==> Upper(w)[i] == w[i];
  }

  /** The guard ignores letter case. */
  lemma GuardIgnoresCase(a: string, b: string)
    requires Upper(a) == Upper(b) && a != [] && b != []
    ensures QueryGuard(Some(a)).Forward? <==> QueryGuard(Some(b)).Forward?
    ensures QueryGuard(Some(a)).Refuse? ==> QueryGuard(Some(a)) == QueryGuard(Some(b))
  {
  }

  /** The guard ignores surrounding whitespace (for a query that is not itself empty). */
  lemma GuardIgnoresPadding(w1: string, q: string, w2: string)
    requires AllWhitespace(w1) && AllWhitespace(w2) && q != []
    ensures QueryGuard(Some(w1 + q + w2)).Forward? <==> QueryGuard(Some(q)).Forward?
  {
    UpperConcat3(w1, q, w2);
    UpperOfWhitespace(w1);
    UpperOfWhitespace(w2);
    StripPadded(w1, Upper(q), w2);
  }

  lemma UpperSelect1() ensures Upper("SELECT 1") == "SELECT 1" {}
  lemma UpperSemiDropT() ensures Upper("; DROP T") == "; DROP T" {}
  lemma UpperAbleX() ensures Upper("ABLE x") == "ABLE X" {}

  lemma UpperInjected(q: string)
    requires q == "SELECT 1" + "; DROP T" + "ABLE x"
    ensures Upper(q) == "SELECT 1" + "; DROP T" + "ABLE X"
  {
    UpperSelect1();
    UpperSemiDropT();
    UpperAbleX();
    UpperConcat3("SELECT 1", "; DROP T", "ABLE x");
  }

  lemma InjectedFacts(u: string)
    requires u == "SELECT 1" + "; DROP T" + "ABLE X"
    ensures StartsWith(Strip(u), "SELECT")
    ensures Contains(u, "DROP")
  {
    StripUnpadded(u);
    assert StartsWith(u, "SELECT");
    assert u == "SELECT 1; " + "DROP" + " TABLE X";
    ContainsInfix("SELECT 1; ", "DROP", " TABLE X");
  }

  /**
   * The guard has no denylist and no semicolon rule: `"SELECT 1; DROP TABLE x"`
   * is forwarded by the guard although the validator refuses it in either mode.
   */
  lemma GuardForwardsInjection(q: string, allowWrite: bool)
    requires q == "SELECT 1" + "; DROP T" + "ABLE x"
    ensures QueryGuard(Some(q)) == Forward(q)
    ensures SqlValidator.ValidateSql(q, allowWrite).Rejected?
  {
    UpperInjected(q);
    InjectedFacts(Upper(q));
    assert "DROP" in SqlValidator.DangerousKeywords;
  }
}
