/**
 * The communication screen's small helpers: the relative-date label of a
 * conversation, the urgent flag of the selected contact, and the WhatsApp
 * status indicator. The day difference (whole days between now and the date)
 * and the worker's availability are parameters.
 */
module Communication {
  import opened Wrappers
  import opened Text
  import WhatsAppWorker

  // ---------------------------------------------------------------- relative dates

  /** The label for a day difference `d` (positive in the past, negative in the future). */
  function RelativeDay(d: int): (r: string)
    ensures d == 0 ==> r == "Hoy"
    ensures d == 1 ==> r == "Ayer"
    ensures 2 <= d < 7 ==> r == "Hace " + IntToString(d) + " días"
    ensures 7 <= d < 30 ==> r == "Hace " + IntToString(d / 7) + " semanas"
    ensures 30 <= d ==> r == "Hace " + IntToString(d / 30) + " meses"
    ensures d == -1 ==> r == "Mañana"
    ensures d < -1 ==> r == "En " + IntToString(-d) + " días"
  {
    if d < 0 then
      var futureDiff := -d;
      if futureDiff == 0 then "Hoy"
      else if futureDiff == 1 then "Mañana"
      else "En " + IntToString(futureDiff) + " días"
    else if d == 0 then "Hoy"
    else if d == 1 then "Ayer"
    else if d < 7 then "Hace " + IntToString(d) + " días"
    else if d < 30 then "Hace " + IntToString(d / 7) + " semanas"
    else "Hace " + IntToString(d / 30) + " meses"
  }

  /** `formatRelativeDate`: no label without a date. */
  function FormatRelativeDate(date: Option<string>, d: int): (r: string)
    ensures date.None? || date.value == "" ==> r == ""
    ensures date.Some? && date.value != "" ==> r == RelativeDay(d)
  {
    if date.None? || date.value == "" then "" else RelativeDay(d)
  }

  /**
   * `Hoy` is the label of today only: the future branch's own `Hoy` can never
   * be taken. Every label names its direction: past labels begin with `Hace`
   * or are `Ayer`, future ones are `Mañana` or begin with `En`.
   */
  lemma TodayOnly(d: int)
    ensures RelativeDay(d) == "Hoy" <==> d == 0
    ensures d < 0 ==> RelativeDay(d)[0] in "ME"
    ensures d > 0 ==> RelativeDay(d)[0] in "AH" && RelativeDay(d) != "Hoy"
  {
    var r := RelativeDay(d);
    if d < -1 {
      assert r[0] == 'E';
    } else if d > 1 {
      assert r[..5] == "Hace ";
      assert r[1] == 'a';
    }
  }

  // ---------------------------------------------------------------- urgent flag

  /** A contact of the chat list; `urgent` may be missing. */
  datatype Contact = Contact(id: string, name: string, phone: string, urgent: Option<bool>)

  /** `!c.urgent`: a missing flag counts as false. */
  function Flip(u: Option<bool>): (r: Option<bool>)
    ensures r.Some? && r.value == !(u.Some? && u.value)
  {
    Some(!(u.Some? && u.value))
  }

  /** `toggleUrgent`: flips the flag of every contact with the selected id. */
  function ToggleUrgent(chats: seq<Contact>, id: string): (r: seq<Contact>)
    ensures |r| == |chats|
    ensures forall i :: 0 <= i < |chats| && chats[i].id != id ==> r[i] == chats[i]
    ensures forall i :: 0 <= i < |chats| && chats[i].id == id ==> r[i] == chats[i].(urgent := Flip(chats[i].urgent))
  {
    seq(|chats|, i requires 0 <= i < |chats| => if chats[i].id == id then chats[i].(urgent := Flip(chats[i].urgent)) else chats[i])
  }

  /** A contact is urgent when its flag is present and true. */
  predicate Urgent(c: Contact) {
    c.urgent.Some? && c.urgent.value
  }

  /**
   * Toggling twice gives back every contact's urgency, and the very same
   * list when every selected contact had its flag set.
   */
  lemma ToggleTwice(chats: seq<Contact>, id: string)
    ensures var r := ToggleUrgent(ToggleUrgent(chats, id), id);
            |r| == |chats| && forall i :: 0 <= i < |chats| ==> Urgent(r[i]) == Urgent(chats[i])
    ensures (forall i :: 0 <= i < |chats| && chats[i].id == id ==> chats[i].urgent.Some?) ==>
            ToggleUrgent(ToggleUrgent(chats, id), id) == chats
  {
    var once := ToggleUrgent(chats, id);
    var r := ToggleUrgent(once, id);
    if forall i :: 0 <= i < |chats| && chats[i].id == id ==> chats[i].urgent.Some? {
      assert forall i :: 0 <= i < |chats| ==> r[i] == chats[i];
    }
  }

  /** The contact the screen then shows: the first one with the selected id. */
  function FindContact(chats: seq<Contact>, id: string): (r: Option<Contact>)
    ensures r.Some? ==> r.value in chats && r.value.id == id
    ensures r.None? ==> forall i :: 0 <= i < |chats| ==> chats[i].id != id
    ensures r.Some? ==> exists i :: 0 <= i < |chats| && chats[i] == r.value && forall j :: 0 <= j < i ==> chats[j].id != id
  {
    if chats == [] then None
    else if chats[0].id == id then Some(chats[0])
    else
      var r := FindContact(chats[1..], id);
      if r.Some? then
        var i :| 0 <= i < |chats| - 1 && chats[1..][i] == r.value && forall j :: 0 <= j < i ==> chats[1..][j].id != id;
        assert chats[i + 1] == r.value && forall j :: 0 <= j < i + 1 ==> chats[j].id != id;
        r
      else r
  }

  // ---------------------------------------------------------------- status indicator

  /** What the worker reports: its state and the connected user's id. */
  datatype WaStatus = WaStatus(status: WhatsAppWorker.Status, userId: Option<string>)

  /** The indicator's colours. */
  datatype Indicator = Gray | Lime | YellowPulse | BluePulse | Red

  /** The CSS classes of an indicator colour. */
  function ClassName(i: Indicator): string {
    match i
    case Gray => "bg-gray-400"
    case Lime => "bg-brand-lime"
    case YellowPulse => "bg-yellow-500 animate-pulse"
    case BluePulse => "bg-blue-500 animate-pulse"
    case Red => "bg-red-500"
  }

  /** `getStatusColor`; `available` is false while the worker's availability is unknown. */
  function StatusColor(available: bool, wa: Option<WaStatus>): (r: Indicator)
    ensures !available ==> r == Gray
  {
    if !available || wa.None? then Gray
    else match wa.value.status
      case Connected => Lime
      case Connecting => YellowPulse
      case Reconnecting => YellowPulse
      case QrReady => BluePulse
      case LoggedOut => Red
      case Failed => Red
      case Disconnected => Gray
  }

  /** `getStatusText`. */
  function StatusText(available: bool, wa: Option<WaStatus>): (r: string)
    ensures !available ==> r == "Worker offline"
  {
    if !available then "Worker offline"
    else if wa.None? then "Desconectado"
    else match wa.value.status
      case Connected =>
        var u := wa.value.userId;
        "Conectado" + (if u.Some? && u.value != "" then " (" + Before(u.value, '@') + ")" else "")
      case Connecting => "Conectando..."
      case Reconnecting => "Reconectando..."
      case QrReady => "Escanea el QR"
      case LoggedOut => "Sesión cerrada"
      case Failed => "Error"
      case Disconnected => "Desconectado"
  }

  /**
   * Colour and text agree: grey goes with `Worker offline` or `Desconectado`,
   * red with a closed session or an error, and lime with `Conectado`.
   */
  lemma StatusAgrees(available: bool, wa: Option<WaStatus>)
    ensures StatusColor(available, wa) == Gray ==>
      StatusText(available, wa) == "Worker offline" || StatusText(available, wa) == "Desconectado"
    ensures StatusColor(available, wa) == Red ==>
      StatusText(available, wa) == "Sesión cerrada" || StatusText(available, wa) == "Error"
    ensures available && wa.Some? && wa.value.status == WhatsAppWorker.Connected ==>
      StatusColor(available, wa) == Lime && StartsWith(StatusText(available, wa), "Conectado")
  {
  }
}
