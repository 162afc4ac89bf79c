/**
 * The scheduled-message service: the built-in message templates, filling a
 * template's `[KEY]` placeholders, and the in-memory queue of scheduled
 * messages with its retry counting. Clock readings, generated message ids,
 * the WhatsApp worker's answers and the appointment's date text are
 * parameters; browser storage and listeners are not part of this model.
 */
module Messaging {
  import opened Wrappers
  import opened Text
  import opened Dicts
  import opened Seqs

  datatype Channel = WhatsApp | Sms | Email
  datatype MessageType = Reminder | Followup | Consent | Questionnaire | Info | Custom

  /** A message template; `content` holds `[KEY]` placeholders. */
  datatype Template = Template(id: string, name: string, kind: MessageType, channel: Channel, content: string, variables: seq<string>)

  datatype Status = Pending | Sent | Failed | Cancelled

  /** A scheduled message; times are milliseconds since the epoch. */
  datatype ScheduledMessage = ScheduledMessage(
    id: string, templateId: Option<string>, recipientPhone: string, recipientName: string,
    content: string, channel: Channel, kind: MessageType, scheduledFor: int,
    status: Status, attempts: nat, lastAttempt: Option<int>, error: Option<string>)

  // The texts of the built-in templates.
  const Reminder24hText := "📅 *Recordatorio de Cita*\n\nHola [NOMBRE], le recordamos que tiene cita en *Rubio García Dental*:\n\n📆 Fecha: [FECHA_CITA]\n⏰ Hora: [HORA_CITA]\n👨‍⚕️ Doctor: [DOCTOR]\n💊 Tratamiento: [TRATAMIENTO]\n\n¿Confirma asistencia? Responda *SÍ* o *NO*"
  const Reminder1hText := "⏰ *Recordatorio Urgente*\n\nHola [NOMBRE], su cita es en *1 hora*:\n\n📍 Rubio García Dental\n⏰ [HORA_CITA]\n👨‍⚕️ [DOCTOR]\n\n¡Le esperamos!"
  const Followup48hText := "👋 Hola [NOMBRE],\n\nHan pasado 48 horas desde su tratamiento de *[TRATAMIENTO]*.\n\n¿Cómo se encuentra? ¿Tiene alguna molestia o pregunta?\n\nEstamos aquí para ayudarle. Puede responder a este mensaje o llamarnos.\n\n*Rubio García Dental*"
  const ConsentImplantText := "📋 *Consentimiento Informado*\n\nEstimado/a [NOMBRE],\n\nAntes de su cita de implantes, necesitamos su consentimiento informado.\n\n👉 Por favor, lea el documento y confirme con *ACEPTO*:\n\n[LINK_DOCUMENTO]\n\nSi tiene dudas, estaremos encantados de resolverlas en consulta."
  const QuestionnaireNewPatientText := "🏥 *Bienvenido a Rubio García Dental*\n\nHola [NOMBRE],\n\nPara poder atenderle de la mejor manera, necesitamos algunos datos.\n\nPor favor, complete nuestro cuestionario de salud:\n[LINK_CUESTIONARIO]\n\n🛡️ Sus datos están protegidos según RGPD."
  const InfoPreparationText := "ℹ️ *Instrucciones para su cita*\n\nHola [NOMBRE],\n\nPara su cita de *[TRATAMIENTO]*, tenga en cuenta:\n\n[INSTRUCCIONES]\n\nSi tiene alguna duda, no dude en contactarnos.\n\n📞 +34 912 345 678\n*Rubio García Dental*"

  const MessageTemplates: seq<Template> := [
    Template("reminder-24h", "Recordatorio 24h", Reminder, WhatsApp,
      Reminder24hText,
      ["NOMBRE", "FECHA_CITA", "HORA_CITA", "DOCTOR", "TRATAMIENTO"]),
    Template("reminder-1h", "Recordatorio 1h", Reminder, WhatsApp,
      Reminder1hText,
      ["NOMBRE", "HORA_CITA", "DOCTOR"]),
    Template("followup-48h", "Seguimiento 48h", Followup, WhatsApp,
      Followup48hText,
      ["NOMBRE", "TRATAMIENTO"]),
    Template("consent-implant", "Consentimiento Implantes", Consent, WhatsApp,
      ConsentImplantText,
      ["NOMBRE", "LINK_DOCUMENTO"]),
    Template("questionnaire-new-patient", "Cuestionario Nuevo Paciente", Questionnaire, WhatsApp,
      QuestionnaireNewPatientText,
      ["NOMBRE", "LINK_CUESTIONARIO"]),
    Template("info-preparation", "Preparación Pre-Cita", Info, WhatsApp,
      InfoPreparationText,
      ["NOMBRE", "TRATAMIENTO", "INSTRUCCIONES"])
  ]

  // ---------------------------------------------------------------- templates

  /** The first template of the catalogue with that id (`find`). */
  function FindTemplate(templates: seq<Template>, id: string): (r: Option<Template>)
    ensures r.Some? ==> r.value in templates && r.value.id == id
    ensures r.None? <==> forall t :: t in templates ==> t.id != id
  {
    if templates == [] then None
    else if templates[0].id == id then Some(templates[0])
    else
      var r := FindTemplate(templates[1..], id);
      assert forall t :: t in templates ==> t == templates[0] || t in templates[1..];
      r
  }

  /** The template found is the first with that id. */
  lemma {:induction false} FindTemplateFirst(templates: seq<Template>, id: string)
    requires FindTemplate(templates, id).Some?
    ensures exists i :: 0 <= i < |templates| && templates[i] == FindTemplate(templates, id).value
                        && forall j :: 0 <= j < i ==> templates[j].id != id
  {
    if templates[0].id != id {
      FindTemplateFirst(templates[1..], id);
      var i :| 0 <= i < |templates[1..]| && templates[1..][i] == FindTemplate(templates, id).value
                && forall j :: 0 <= j < i ==> templates[1..][j].id != id;
      assert templates[i + 1] == templates[1..][i];
      assert forall j :: 1 <= j < i + 1 ==> templates[j] == templates[1..][j - 1];
    } else {
      assert templates[0] == FindTemplate(templates, id).value;
    }
  }

  predicate OfKind(kind: MessageType, t: Template) {
    t.kind == kind
  }

  /** The templates of one type, in catalogue order. */
  function TemplatesOfType(templates: seq<Template>, kind: MessageType): (r: seq<Template>)
    ensures forall t :: t in r <==> t in templates && t.kind == kind
  {
    var r := Filter((t: Template) => OfKind(kind, t), templates);
    forall t ensures t in r <==> t in templates && t.kind == kind {
      FilterIff((t: Template) => OfKind(kind, t), templates, t);
    }
    r
  }

  /** Selecting by type keeps catalogue order: the selection of a joined catalogue is the joined selections. */
  lemma TemplatesOfTypeAppend(a: seq<Template>, b: seq<Template>, kind: MessageType)
    ensures TemplatesOfType(a + b, kind) == TemplatesOfType(a, kind) + TemplatesOfType(b, kind)
  {
    FilterAppend((t: Template) => OfKind(kind, t), a, b);
  }

  /** The catalogue holds both reminder templates. */
  predicate HasReminders(templates: seq<Template>) {
    FindTemplate(templates, "reminder-1h").Some? && FindTemplate(templates, "reminder-24h").Some?
  }

  /** The built-in catalogue has both reminder templates. */
  lemma ReminderTemplates()
    ensures HasReminders(MessageTemplates)
  {
    assert MessageTemplates[0].id == "reminder-24h";
    assert MessageTemplates[1].id == "reminder-1h";
    assert |"reminder-24h"| != |"reminder-1h"|;
  }

  // ---------------------------------------------------------------- placeholders

  /** The placeholder text of a key. */
  function Placeholder(key: string): (r: string)
    ensures |r| == |key| + 2
  {
    "[" + key + "]"
  }

  /** Every placeholder of each key replaced by its value, one key after the other in entry order. */
  function ReplaceVars(content: string, vars: Dict<string, string>): string {
    if vars == [] then content
    else
      var last := vars[|vars| - 1];
      ReplaceAll(ReplaceVars(content, vars[..|vars| - 1]), Placeholder(last.0), last.1)
  }

  /** `replaceVariables`. */
  method ReplaceVariables(content: string, vars: Dict<string, string>) returns (result: string)
    ensures result == ReplaceVars(content, vars)
  {
    result := content;
    for i := 0 to |vars|
      invariant result == ReplaceVars(content, vars[..i])
    {
      assert vars[..i + 1][..i] == vars[..i];
      var (key, value) := vars[i];
      result := ReplaceAll(result, Placeholder(key), value);
    }
    assert vars[..|vars|] == vars;
  }

  /** Text holding no placeholder of any supplied key is left as it is. */
  lemma {:induction false} ReplaceVarsAbsent(content: string, vars: Dict<string, string>)
    requires forall i :: 0 <= i < |vars| ==> !Contains(content, Placeholder(vars[i].0))
    ensures ReplaceVars(content, vars) == content
  {
    if vars != [] {
      var init := vars[..|vars| - 1];
      ReplaceVarsAbsent(content, init);
      ReplaceAllAbsent(content, Placeholder(vars[|vars| - 1].0), vars[|vars| - 1].1);
    }
  }

  /** A text holding neither `[` nor `]`, as the source's variable names are. */
  predicate BracketFree(s: string) {
    forall i :: 0 <= i < |s| ==> s[i] != '[' && s[i] != ']'
  }

  /** Text without `[` holds no placeholder. */
  lemma NoBracketNoPlaceholder(s: string, key: string)
    requires BracketFree(s)
    ensures !Contains(s, Placeholder(key))
  {
    assert Placeholder(key)[0] == '[';
    MissingCharNotContained(s, Placeholder(key), '[');
  }

  /** No placeholder occurrence runs across a `[` without starting at it. */
  lemma NoStraddleAtBracket(s: string, k: nat, key: string)
    requires k < |s| && s[k] == '[' && BracketFree(key)
    ensures NoCrossing(s, k, Placeholder(key))
  {
    forall j | 0 <= j < k < j + |key| + 2
      ensures !OccursAt(s, Placeholder(key), j)
    {
    }
  }

  /** A placeholder of another bracket-free key neither occurs in `[x]` nor runs out of it. */
  lemma PlaceholderApart(x: string, b: string, key: string)
    requires BracketFree(x) && BracketFree(key) && key != x
    ensures !Contains(Placeholder(x), Placeholder(key))
    ensures NoCrossing(Placeholder(x) + b, |x| + 2, Placeholder(key))
  {
    var p, q := Placeholder(key), Placeholder(x);
    forall j | 0 <= j < |q| < j + |p|
      ensures !OccursAt(q + b, p, j)
    {
      if j + |p| <= |q + b| {
        var w := (q + b)[j..j + |p|];
        if j == 0 {
          assert w[|x| + 1] == q[|x| + 1] == ']';
          assert p[|x| + 1] == key[|x|] != ']';
        } else {
          assert w[0] == q[j];
          if j <= |x| {
            assert q[j] == x[j - 1];
          }
          assert w[0] != p[0];
        }
        assert w != p;
      }
    }
    forall j | 0 <= j && j + |p| <= |q|
      ensures !OccursAt(q, p, j)
    {
      var w := q[j..j + |p|];
      if j > 0 {
        assert w[0] == q[j] != '[';
      } else if |key| < |x| {
        assert w[|key| + 1] == x[|key|] != ']';
      } else {
        assert w[1..|key| + 1] == x != key == p[1..|key| + 1];
      }
    }
    ContainsIff(q, p);
  }

  /** Replacing another key's placeholder keeps `[x]` at the front and goes on after it. */
  lemma ReplaceAfterPlaceholder(x: string, b: string, key: string, value: string)
    requires BracketFree(x) && BracketFree(key) && key != x
    ensures ReplaceAll(Placeholder(x) + b, Placeholder(key), value)
         == Placeholder(x) + ReplaceAll(b, Placeholder(key), value)
  {
    var p, q := Placeholder(key), Placeholder(x);
    PlaceholderApart(x, b, key);
    ReplaceAllSplit(q, b, p, value);
    ReplaceAllAbsent(q, p, value);
  }

  /**
   * Replacing the placeholder of one key leaves the placeholder of another
   * key in place, and works on each side of it on its own.
   */
  lemma ReplaceAround(a: string, x: string, b: string, key: string, value: string)
    requires BracketFree(x) && BracketFree(key) && key != x
    ensures ReplaceAll(a + Placeholder(x) + b, Placeholder(key), value)
         == ReplaceAll(a, Placeholder(key), value) + Placeholder(x) + ReplaceAll(b, Placeholder(key), value)
  {
    var p, q := Placeholder(key), Placeholder(x);
    var qb := q + b;
    assert (a + qb)[|a|] == qb[0] == '[';
    NoStraddleAtBracket(a + qb, |a|, key);
    ReplaceAllSplit(a, qb, p, value);
    ReplaceAfterPlaceholder(x, b, key, value);
    assert a + q + b == a + qb;
    assert ReplaceAll(a, p, value) + (q + ReplaceAll(b, p, value))
        == ReplaceAll(a, p, value) + q + ReplaceAll(b, p, value);
  }

  /**
   * A placeholder of a name that is not a supplied key survives the
   * replacement, when the names are free of brackets.
   */
  lemma {:induction false} ReplaceVarsKeeps(content: string, vars: Dict<string, string>, x: string)
    requires BracketFree(x) && Contains(content, Placeholder(x))
    requires forall i :: 0 <= i < |vars| ==> BracketFree(vars[i].0) && vars[i].0 != x
    ensures Contains(ReplaceVars(content, vars), Placeholder(x))
  {
    if vars != [] {
      var init := vars[..|vars| - 1];
      ReplaceVarsKeeps(content, init, x);
      var s := ReplaceVars(content, init);
      ContainsWitness(s, Placeholder(x));
      var i :| OccursAt(s, Placeholder(x), i);
      var a, b := s[..i], s[i + |x| + 2..];
      assert s == a + Placeholder(x) + b;
      var last := vars[|vars| - 1];
      ReplaceAround(a, x, b, last.0, last.1);
      ContainsInfix(ReplaceAll(a, Placeholder(last.0), last.1), Placeholder(x), ReplaceAll(b, Placeholder(last.0), last.1));
    }
  }

  /** Bracket-free text in front is kept, and the replacement goes on after it. */
  lemma ReplaceAfterPlain(u: string, rest: string, key: string, value: string)
    requires BracketFree(u)
    ensures ReplaceAll(u + rest, Placeholder(key), value) == u + ReplaceAll(rest, Placeholder(key), value)
  {
    var p := Placeholder(key);
    forall j | 0 <= j < |u| < j + |p|
      ensures !OccursAt(u + rest, p, j)
    {
      assert (u + rest)[j] == u[j];
    }
    assert NoCrossing(u + rest, |u|, p);
    ReplaceAllSplit(u, rest, p, value);
    NoBracketNoPlaceholder(u, key);
    ReplaceAllAbsent(u, p, value);
  }

  /** The first placeholder of a key after bracket-free text becomes its value. */
  lemma ReplaceFirstPlaceholder(a: string, key: string, rest: string, value: string)
    requires BracketFree(a) && BracketFree(key)
    ensures ReplaceAll(a + Placeholder(key) + rest, Placeholder(key), value)
         == a + value + ReplaceAll(rest, Placeholder(key), value)
  {
    var p := Placeholder(key);
    ReplaceAfterPlain(a, p + rest, key, value);
    assert (p + rest)[..|p|] == p && (p + rest)[|p|..] == rest;
    ReplaceAllMatch(p + rest, p, value);
    assert a + p + rest == a + (p + rest);
    assert a + (value + ReplaceAll(rest, p, value)) == a + value + ReplaceAll(rest, p, value);
  }

  /** The placeholder of a name that is no key stays, after bracket-free text, and the rest is filled in. */
  lemma {:induction false} ReplaceVarsSkips(a: string, x: string, b: string, vars: Dict<string, string>)
    requires BracketFree(a) && BracketFree(x)
    requires forall i :: 0 <= i < |vars| ==> BracketFree(vars[i].0) && vars[i].0 != x
    ensures ReplaceVars(a + Placeholder(x) + b, vars) == a + Placeholder(x) + ReplaceVars(b, vars)
  {
    if vars != [] {
      var init := vars[..|vars| - 1];
      var last := vars[|vars| - 1];
      ReplaceVarsSkips(a, x, b, init);
      var rest := ReplaceVars(b, init);
      ReplaceAround(a, x, rest, last.0, last.1);
      NoBracketNoPlaceholder(a, last.0);
      ReplaceAllAbsent(a, Placeholder(last.0), last.1);
    }
  }

  /**
   * Filling goes from left to right: the first placeholder after bracket-free
   * text becomes the value of the first entry with its key, and the text after
   * it is filled in the same way.
   */
  lemma {:induction false} ReplaceVarsFills(a: string, key: string, b: string, vars: Dict<string, string>, k: nat)
    requires BracketFree(a) && BracketFree(key)
    requires forall i :: 0 <= i < |vars| ==> BracketFree(vars[i].0)
    requires k < |vars| && vars[k].0 == key && BracketFree(vars[k].1)
    requires forall j :: 0 <= j < k ==> vars[j].0 != key
    ensures ReplaceVars(a + Placeholder(key) + b, vars) == a + vars[k].1 + ReplaceVars(b, vars)
  {
    var init := vars[..|vars| - 1];
    var last := vars[|vars| - 1];
    var rest := ReplaceVars(b, init);
    if k == |vars| - 1 {
      ReplaceVarsSkips(a, key, b, init);
      ReplaceFirstPlaceholder(a, key, rest, last.1);
    } else {
      ReplaceVarsFills(a, key, b, init, k);
      var u := a + vars[k].1;
      assert BracketFree(u) by {
        forall i | 0 <= i < |u|
          ensures u[i] != '[' && u[i] != ']'
        {
          if i < |a| {
            assert u[i] == a[i];
          } else {
            assert u[i] == vars[k].1[i - |a|];
          }
        }
      }
      ReplaceAfterPlain(u, rest, last.0, last.1);
    }
  }

  /** With bracket-free text and values, one placeholder of a supplied key becomes exactly its value. */
  lemma ReplaceVarsFillsOne(a: string, key: string, b: string, vars: Dict<string, string>, k: nat)
    requires BracketFree(a) && BracketFree(key) && BracketFree(b)
    requires forall i :: 0 <= i < |vars| ==> BracketFree(vars[i].0)
    requires k < |vars| && vars[k].0 == key && BracketFree(vars[k].1)
    requires forall j :: 0 <= j < k ==> vars[j].0 != key
    ensures ReplaceVars(a + Placeholder(key) + b, vars) == a + vars[k].1 + b
  {
    ReplaceVarsFills(a, key, b, vars, k);
    forall i | 0 <= i < |vars|
      ensures !Contains(b, Placeholder(vars[i].0))
    {
      NoBracketNoPlaceholder(b, vars[i].0);
    }
    ReplaceVarsAbsent(b, vars);
  }

  // ---------------------------------------------------------------- processing one message

  /** What the WhatsApp worker does with one message of a pass. */
  datatype Outcome =
    | NotConnected            // the status query reports another state than `connected`
    | Delivered               // the send succeeds
    | SendFailed(error: Option<string>)  // the send reports a failure
    | Threw(message: string)  // an exception is caught

  const MaxAttempts: nat := 3

  /** A message the pass picks up: pending and due. */
  predicate Due(m: ScheduledMessage, now: int) {
    m.status == Pending && m.scheduledFor <= now
  }

  /**
   * One attempt at a message: the attempt is counted and stamped; a delivered
   * message is sent; otherwise it fails once it has had three attempts and
   * stays pending before that.
   */
  function Attempt(m: ScheduledMessage, outcome: Outcome, now: int): (r: ScheduledMessage)
    requires m.status == Pending
    ensures r.attempts == m.attempts + 1 && r.lastAttempt == Some(now)
    ensures r.status == Sent <==> outcome.Delivered?
    ensures !outcome.Delivered? ==> (r.status == Failed <==> m.attempts + 1 >= MaxAttempts)
    ensures !outcome.Delivered? && m.attempts + 1 < MaxAttempts ==> r.status == Pending
    ensures r.id == m.id && r.content == m.content && r.scheduledFor == m.scheduledFor && r.recipientPhone == m.recipientPhone
  {
    var counted := m.(attempts := m.attempts + 1, lastAttempt := Some(now));
    var exhausted := counted.attempts >= MaxAttempts;
    match outcome
    case NotConnected =>
      if exhausted then counted.(status := Failed, error := Some("WhatsApp not available after 3 attempts")) else counted
    case Delivered => counted.(status := Sent)
    case SendFailed(e) => if exhausted then counted.(status := Failed, error := e) else counted
    case Threw(e) => if exhausted then counted.(status := Failed, error := Some(e)) else counted.(error := Some(e))
  }

  /** The queue after one pass: each due message attempted with its outcome, the others as they were. */
  function ProcessedQueue(q: seq<ScheduledMessage>, outcomeOf: nat -> Outcome, now: int): (r: seq<ScheduledMessage>)
    ensures |r| == |q|
    ensures forall i :: 0 <= i < |q| ==> r[i] == if Due(q[i], now) then Attempt(q[i], outcomeOf(i), now) else q[i]
  {
    seq(|q|, i requires 0 <= i < |q| => if Due(q[i], now) then Attempt(q[i], outcomeOf(i), now) else q[i])
  }

  // ---------------------------------------------------------------- the retry bound

  /**
   * The attempt count agrees with the state: a message still pending (or
   * cancelled while pending) has had fewer than three attempts, a failed one
   * exactly three, a sent one at least one.
   */
  predicate WellCounted(m: ScheduledMessage) {
    m.attempts <= MaxAttempts
    && (m.status == Pending || m.status == Cancelled ==> m.attempts < MaxAttempts)
    && (m.status == Failed ==> m.attempts == MaxAttempts)
    && (m.status == Sent ==> m.attempts >= 1)
  }

  predicate AllWellCounted(q: seq<ScheduledMessage>) {
    forall i :: 0 <= i < |q| ==> WellCounted(q[i])
  }

  /** A pass keeps every message well counted: no message is ever attempted more than three times. */
  lemma ProcessKeepsCounts(q: seq<ScheduledMessage>, outcomeOf: nat -> Outcome, now: int)
    requires AllWellCounted(q)
    ensures AllWellCounted(ProcessedQueue(q, outcomeOf, now))
  {
    var r := ProcessedQueue(q, outcomeOf, now);
    forall i | 0 <= i < |q| ensures WellCounted(r[i]) {
      if Due(q[i], now) {
        assert WellCounted(q[i]);
      }
    }
  }

  /** Sent, failed and cancelled messages are never touched by a pass. */
  lemma ProcessKeepsFinished(q: seq<ScheduledMessage>, outcomeOf: nat -> Outcome, now: int, i: nat)
    requires i < |q| && q[i].status != Pending
    ensures ProcessedQueue(q, outcomeOf, now)[i] == q[i]
  {
  }

  // ---------------------------------------------------------------- cancelling

  /** The index of the first message with that id (`findIndex`). */
  function FindMessage(q: seq<ScheduledMessage>, id: string): (r: Option<nat>)
    ensures r.Some? ==> r.value < |q| && q[r.value].id == id && forall j :: 0 <= j < r.value ==> q[j].id != id
    ensures r.None? ==> forall j :: 0 <= j < |q| ==> q[j].id != id
  {
    if q == [] then None
    else if q[0].id == id then Some(0)
    else
      var r := FindMessage(q[1..], id);
      if r.Some? then Some(r.value + 1) else None
  }

  /** The queue after `cancelMessage`, and its answer. */
  function Cancel(q: seq<ScheduledMessage>, id: string): (seq<ScheduledMessage>, bool) {
    var k := FindMessage(q, id);
    if k.Some? && q[k.value].status == Pending then (q[k.value := q[k.value].(status := Cancelled)], true)
    else (q, false)
  }

  /**
   * A cancel succeeds exactly when the first message with that id is pending;
   * it then changes only that message's state, and otherwise changes nothing.
   */
  lemma CancelEffect(q: seq<ScheduledMessage>, id: string)
    ensures var (q', ok) := Cancel(q, id);
            && |q'| == |q|
            && (ok <==> exists i :: 0 <= i < |q| && q[i].id == id && q[i].status == Pending
                                    && forall j :: 0 <= j < i ==> q[j].id != id)
            && (!ok ==> q' == q)
            && forall i :: 0 <= i < |q| && q'[i] != q[i] ==> q[i].status == Pending && q'[i] == q[i].(status := Cancelled)
  {
    var k := FindMessage(q, id);
    if k.None? {
      forall i | 0 <= i < |q| && q[i].id == id ensures false {
      }
    } else {
      forall i | 0 <= i < |q| && q[i].id == id && forall j :: 0 <= j < i ==> q[j].id != id
        ensures i == k.value
      {
      }
    }
  }

  /** Cancelling the same message a second time fails. */
  lemma CancelTwice(q: seq<ScheduledMessage>, id: string)
    ensures !Cancel(Cancel(q, id).0, id).1
  {
    var q' := Cancel(q, id).0;
    var k := FindMessage(q, id);
    if k.Some? && q[k.value].status == Pending {
      var k' := FindMessage(q', id);
      assert k'.Some? && k'.value == k.value by {
        assert forall j :: 0 <= j < |q| ==> q'[j].id == q[j].id;
      }
    }
  }

  /** Cancelling keeps every message well counted. */
  lemma CancelKeepsCounts(q: seq<ScheduledMessage>, id: string)
    requires AllWellCounted(q)
    ensures AllWellCounted(Cancel(q, id).0)
  {
  }

  /** A new message: pending, never attempted. */
  function NewMessage(id: string, templateId: Option<string>, phone: string, name: string, content: string,
                      channel: Channel, kind: MessageType, scheduledFor: int): (m: ScheduledMessage)
    ensures m.status == Pending && m.attempts == 0 && WellCounted(m)
  {
    ScheduledMessage(id, templateId, phone, name, content, channel, kind, scheduledFor, Pending, 0, None, None)
  }

  /** Milliseconds in an hour. */
  const HourMs: int := 3600000

  /** The reminder template for a lead time: the one-hour text up to two hours ahead. */
  function ReminderTemplateId(hoursBefore: int): string {
    if hoursBefore <= 2 then "reminder-1h" else "reminder-24h"
  }

  /** The five appointment details a reminder fills in, in the order the service lists them. */
  function ReminderVars(name: string, dateText: string, time: string, doctor: string, treatment: string): Dict<string, string> {
    [("NOMBRE", name), ("FECHA_CITA", dateText), ("HORA_CITA", time), ("DOCTOR", doctor), ("TRATAMIENTO", treatment)]
  }

  // ---------------------------------------------------------------- the queue

  /** The service's queue of scheduled messages (`messageQueue`). */
  class MessageQueue {
    /** The template catalogue the service looks templates up in. */
    const templates: seq<Template>
    var messages: seq<ScheduledMessage>

    /** Every message's attempt count agrees with its state. */
    predicate Valid()
      reads this
    {
      AllWellCounted(messages)
    }

    /** A service with an empty queue; the service proper uses the built-in `MessageTemplates`. */
    constructor(catalogue: seq<Template>)
      ensures templates == catalogue && messages == [] && Valid()
    {
      templates := catalogue;
      messages := [];
    }

    /** `getTemplate`: the catalogue's template with that id. */
    function GetTemplate(id: string): Option<Template> {
      FindTemplate(templates, id)
    }

    /** `getTemplatesByType`. */
    function TemplatesByType(kind: MessageType): (r: seq<Template>)
      ensures forall t :: t in r <==> t in templates && t.kind == kind
    {
      TemplatesOfType(templates, kind)
    }

    /** `scheduleMessage`: one new pending message at the end of the queue. */
    method ScheduleMessage(id: string, phone: string, name: string, content: string, scheduledFor: int, kind: MessageType)
      returns (m: ScheduledMessage)
      requires Valid()
      modifies this
      ensures m == NewMessage(id, None, phone, name, content, WhatsApp, kind, scheduledFor)
      ensures messages == old(messages) + [m] && Valid()
    {
      m := NewMessage(id, None, phone, name, content, WhatsApp, kind, scheduledFor);
      messages := messages + [m];
    }

    /**
     * `scheduleTemplateMessage`: an unknown template schedules nothing;
     * otherwise the filled-in template is scheduled with its channel and type.
     */
    method ScheduleTemplateMessage(templateId: string, id: string, phone: string, name: string,
                                   vars: Dict<string, string>, scheduledFor: int)
      returns (m: Option<ScheduledMessage>)
      requires Valid()
      modifies this
      ensures GetTemplate(templateId).None? ==> m.None? && messages == old(messages)
      ensures GetTemplate(templateId).Some? ==>
        var t := GetTemplate(templateId).value;
        && m == Some(NewMessage(id, Some(templateId), phone, name, ReplaceVars(t.content, vars), t.channel, t.kind, scheduledFor))
        && messages == old(messages) + [m.value]
      ensures Valid()
    {
      var template := GetTemplate(templateId);
      if template.None? {
        return None;
      }
      var t := template.value;
      var content := ReplaceVariables(t.content, vars);
      var message := NewMessage(id, Some(templateId), phone, name, content, t.channel, t.kind, scheduledFor);
      messages := messages + [message];
      m := Some(message);
    }

    /** `cancelMessage`. */
    method CancelMessage(messageId: string) returns (ok: bool)
      requires Valid()
      modifies this
      ensures (messages, ok) == Cancel(old(messages), messageId)
      ensures Valid()
    {
      CancelKeepsCounts(messages, messageId);
      var k := FindMessage(messages, messageId);
      if k.Some? && messages[k.value].status == Pending {
        messages := messages[k.value := messages[k.value].(status := Cancelled)];
        return true;
      }
      return false;
    }

    /** `getPendingMessages`. */
    function PendingMessages(): (r: seq<ScheduledMessage>)
      reads this
      ensures forall m :: m in r <==> m in messages && m.status == Pending
    {
      var r := Filter((m: ScheduledMessage) => m.status == Pending, messages);
      forall m ensures m in r <==> m in messages && m.status == Pending {
        FilterIff((m: ScheduledMessage) => m.status == Pending, messages, m);
      }
      r
    }

    /**
     * One pass of `processQueue` at time `now`: every message that was pending
     * and due is attempted once, with the worker's outcome for it.
     */
    method ProcessQueue(now: int, outcomeOf: nat -> Outcome)
      requires Valid()
      modifies this
      ensures messages == ProcessedQueue(old(messages), outcomeOf, now)
      ensures Valid()
    {
      ProcessKeepsCounts(messages, outcomeOf, now);
      ghost var q := messages;
      for i := 0 to |messages|
        invariant |messages| == |q|
        invariant forall j :: 0 <= j < i ==> messages[j] == ProcessedQueue(q, outcomeOf, now)[j]
        invariant forall j :: i <= j < |q| ==> messages[j] == q[j]
      {
        if Due(messages[i], now) {
          messages := messages[i := Attempt(messages[i], outcomeOf(i), now)];
        }
      }
    }

    /**
     * `scheduleAppointmentReminder`: nothing when the reminder time
     * (`hoursBefore` hours before the appointment) is already past; otherwise
     * the one-hour or the day-before template, filled with the appointment's
     * details, scheduled for that time. Hours are whole spans of `HourMs`;
     * local wall-clock hours across a summer-time change are not modelled.
     */
    method ScheduleAppointmentReminder(id: string, phone: string, name: string, appointment: int, dateText: string,
                                       time: string, doctor: string, treatment: string, hoursBefore: int, now: int)
      returns (m: Option<ScheduledMessage>)
      requires Valid()
      modifies this
      ensures appointment - hoursBefore * HourMs < now ==> m.None? && messages == old(messages)
      ensures appointment - hoursBefore * HourMs >= now && GetTemplate(ReminderTemplateId(hoursBefore)).None? ==>
        m.None? && messages == old(messages)
      ensures appointment - hoursBefore * HourMs >= now && GetTemplate(ReminderTemplateId(hoursBefore)).Some? ==>
        var t := GetTemplate(ReminderTemplateId(hoursBefore)).value;
        && m.Some? && m.value.templateId == Some(ReminderTemplateId(hoursBefore))
        && m.value.scheduledFor == appointment - hoursBefore * HourMs
        && m.value.status == Pending && m.value.recipientPhone == phone
        && m.value.content == ReplaceVars(t.content, ReminderVars(name, dateText, time, doctor, treatment))
        && m.value == NewMessage(id, Some(ReminderTemplateId(hoursBefore)), phone, name,
                                 ReplaceVars(t.content, ReminderVars(name, dateText, time, doctor, treatment)),
                                 t.channel, t.kind, appointment - hoursBefore * HourMs)
        && messages == old(messages) + [m.value]
      ensures Valid()
    {
      var reminderTime := appointment - hoursBefore * HourMs;
      if reminderTime < now {
        return None;
      }
      var templateId := if hoursBefore <= 2 then "reminder-1h" else "reminder-24h";
      var vars := [("NOMBRE", name), ("FECHA_CITA", dateText), ("HORA_CITA", time), ("DOCTOR", doctor), ("TRATAMIENTO", treatment)];
      assert vars == ReminderVars(name, dateText, time, doctor, treatment);
      m := ScheduleTemplateMessage(templateId, id, phone, name, vars, reminderTime);
    }
  }
}
