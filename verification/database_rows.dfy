/**
 * How the front end's database service turns the rows the server returns into
 * appointments and patients: every missing or empty field takes a fixed
 * default, and the clinic's free-text appointment state is mapped onto the
 * four states the agenda knows. The HTTP requests themselves are not part of
 * this model; the rows arrive as data, with each field's text as
 * JavaScript's `String` would give it.
 */
module DatabaseRows {
  import opened Wrappers
  import opened Text

  /** The four states of an appointment; a mapped state is always one of them. */
  datatype AppointmentStatus = Confirmed | Pending | Cancelled | Completed

  const CompletedWords := ["realiz", "finaliz"]
  const ConfirmedWords := ["confirm", "sala", "gabinete"]
  const CancelledWords := ["anula", "fall"]

  /** `mapStatus`: lower-case the text (a missing one counts as empty) and test the word groups in order. */
  function MapStatus(status: Option<string>): AppointmentStatus {
    var lower := Lower(status.GetOr(""));
    if AnyKeyword(lower, CompletedWords) then Completed
    else if AnyKeyword(lower, ConfirmedWords) then Confirmed
    else if AnyKeyword(lower, CancelledWords) then Cancelled
    else Pending
  }

  /** Some word of the group occurs in the text. */
  predicate Mentions(s: string, words: seq<string>) {
    exists k :: k in words && Contains(s, k)
  }

  /**
   * The first group with a word in the lower-cased text decides: a completed
   * word wins over all others, a confirmed word over the cancelled ones, and a
   * text with none of the seven words is pending.
   */
  lemma MapStatusCases(status: Option<string>)
    ensures var lower := Lower(status.GetOr(""));
            && (MapStatus(status) == Completed <==> Mentions(lower, CompletedWords))
            && (MapStatus(status) == Confirmed <==> !Mentions(lower, CompletedWords) && Mentions(lower, ConfirmedWords))
            && (MapStatus(status) == Cancelled <==>
                  !Mentions(lower, CompletedWords) && !Mentions(lower, ConfirmedWords) && Mentions(lower, CancelledWords))
            && (MapStatus(status) == Pending <==>
                  !Mentions(lower, CompletedWords) && !Mentions(lower, ConfirmedWords) && !Mentions(lower, CancelledWords))
  {
    var lower := Lower(status.GetOr(""));
    AnyKeywordIff(lower, CompletedWords);
    AnyKeywordIff(lower, ConfirmedWords);
    AnyKeywordIff(lower, CancelledWords);
  }

  /** A missing or empty state is pending. */
  lemma MapStatusEmpty(status: Option<string>)
    requires status.None? || status.value == ""
    ensures MapStatus(status) == Pending
  {
    var lower := Lower(status.GetOr(""));
    assert lower == "";
    forall k | k in CompletedWords + ConfirmedWords + CancelledWords ensures !Contains(lower, k) {
      if Contains(lower, k) {
        ContainsIff(lower, k);
      }
    }
    MapStatusCases(status);
  }

  // ---------------------------------------------------------------- rows

  /** `value || fallback` for a text field: a missing or empty text takes the fallback. */
  function OrElse(value: Option<string>, fallback: string): (r: string)
    ensures value.Some? && value.value != "" ==> r == value.value
    ensures value.None? || value.value == "" ==> r == fallback
  {
    if value.Some? && value.value != "" then value.value else fallback
  }

  /** `value?.split('T')[0]`: the date part of a timestamp. */
  function DatePart(value: Option<string>): (r: Option<string>)
    ensures r.Some? <==> value.Some?
    ensures r.Some? ==> 'T' !in r.value && StartsWith(value.value, r.value)
  {
    if value.Some? then Some(Before(value.value, 'T')) else None
  }

  /** An appointment row as the server sends it. */
  datatype AppointmentRow = AppointmentRow(
    id: string, date: Option<string>, time: Option<string>, durationMinutes: Option<int>,
    patientName: Option<string>, phone: Option<string>, doctor: Option<string>,
    treatment: Option<string>, notes: Option<string>, status: Option<string>)

  /** An appointment as the agenda shows it. */
  datatype Appointment = Appointment(
    id: string, date: string, time: string, durationMinutes: int, duration: string,
    patientName: string, phone: string, doctor: string, treatment: string, notes: string,
    status: AppointmentStatus, urgent: bool)

  /** `apt.durationMinutes || 30`: a missing or zero length is thirty minutes. */
  function Minutes(value: Option<int>): (r: int)
    ensures value.None? || value.value == 0 ==> r == 30
    ensures value.Some? && value.value != 0 ==> r == value.value
    ensures r != 0
  {
    if value.Some? && value.value != 0 then value.value else 30
  }

  /** One row of `getAppointments`; `day` is the requested day's date text. */
  function MapAppointment(apt: AppointmentRow, day: string): (a: Appointment)
    ensures a.id == apt.id && a.status == MapStatus(apt.status) && !a.urgent
    ensures a.date == OrElse(DatePart(apt.date), day)
    ensures a.time == OrElse(apt.time, "00:00")
    ensures a.durationMinutes == Minutes(apt.durationMinutes) && a.duration == IntToString(a.durationMinutes) + " min"
    ensures a.patientName == OrElse(apt.patientName, "Sin nombre") && a.phone == OrElse(apt.phone, "")
    ensures a.doctor == OrElse(apt.doctor, "General") && a.treatment == OrElse(apt.treatment, "Consulta")
    ensures a.notes == OrElse(apt.notes, "")
  {
    var minutes := Minutes(apt.durationMinutes);
    Appointment(
      apt.id,
      OrElse(DatePart(apt.date), day),
      OrElse(apt.time, "00:00"),
      minutes,
      IntToString(minutes) + " min",
      OrElse(apt.patientName, "Sin nombre"),
      OrElse(apt.phone, ""),
      OrElse(apt.doctor, "General"),
      OrElse(apt.treatment, "Consulta"),
      OrElse(apt.notes, ""),
      MapStatus(apt.status),
      false)
  }

  /**
   * A row with nothing but its id shows on the requested day at midnight,
   * thirty minutes long, as a general consultation with an unnamed patient;
   * every shown appointment has a time, a length, a patient, a doctor and a
   * treatment.
   */
  lemma AppointmentDefaults(apt: AppointmentRow, day: string)
    ensures var a := MapAppointment(apt, day);
            a.time != [] && a.durationMinutes != 0 && a.patientName != [] && a.doctor != [] && a.treatment != []
    ensures var a := MapAppointment(apt, day);
            apt.date.None? && apt.time.None? && apt.durationMinutes.None? && apt.patientName.None?
            && apt.doctor.None? && apt.treatment.None? && apt.status.None? ==>
            a.date == day && a.time == "00:00" && a.duration == "30 min" && a.patientName == "Sin nombre"
            && a.doctor == "General" && a.treatment == "Consulta" && a.status == Pending
  {
    var a := MapAppointment(apt, day);
    if apt.durationMinutes.None? && apt.status.None? {
      assert IntToString(30) == "30" by {
        assert NatToString(30) == NatToString(3) + [DigitChar(0)];
      }
      MapStatusEmpty(apt.status);
    }
  }

  /** `getAppointments`: every row mapped, in order. */
  function MapAppointments(rows: seq<AppointmentRow>, day: string): (r: seq<Appointment>)
    ensures |r| == |rows| && forall i :: 0 <= i < |rows| ==> r[i] == MapAppointment(rows[i], day)
  {
    seq(|rows|, i requires 0 <= i < |rows| => MapAppointment(rows[i], day))
  }

  /** A patient row as the server sends it; `id` is its text. */
  datatype PatientRow = PatientRow(
    id: string, name: Option<string>, firstName: Option<string>, lastName: Option<string>,
    dni: Option<string>, recordNumber: Option<string>, phone: Option<string>, email: Option<string>,
    address: Option<string>, birthDate: Option<string>, registrationDate: Option<string>,
    status: Option<string>)

  /** A patient as the screens show it. */
  datatype Patient = Patient(
    id: string, name: string, firstName: Option<string>, lastName: Option<string>,
    dni: string, recordNumber: string, phone: string, email: string, address: string,
    birthDate: Option<string>, lastVisit: string, status: string,
    medicalHistory: seq<string>, alerts: seq<string>)

  /** A value placed in a template string: a missing one reads `undefined`. */
  function TemplateText(value: Option<string>): string {
    if value.Some? then value.value else "undefined"
  }

  /** One row of `getPatients`. */
  function MapPatient(p: PatientRow): (r: Patient)
    ensures r.id == p.id && r.name != [] && r.status != []
    ensures p.name.None? || p.name.value == "" ==> r.name == TemplateText(p.firstName) + " " + TemplateText(p.lastName)
    ensures p.recordNumber.None? || p.recordNumber.value == "" ==> r.recordNumber == "P-" + p.id
    ensures r.medicalHistory == [] && r.alerts == []
  {
    Patient(
      p.id,
      OrElse(p.name, TemplateText(p.firstName) + " " + TemplateText(p.lastName)),
      p.firstName,
      p.lastName,
      OrElse(p.dni, ""),
      OrElse(p.recordNumber, "P-" + p.id),
      OrElse(p.phone, ""),
      OrElse(p.email, ""),
      OrElse(p.address, ""),
      DatePart(p.birthDate),
      OrElse(DatePart(p.registrationDate), ""),
      OrElse(p.status, "active"),
      [],
      [])
  }

  /** `getPatients`: every row mapped, in order. */
  function MapPatients(rows: seq<PatientRow>): (r: seq<Patient>)
    ensures |r| == |rows| && forall i :: 0 <= i < |rows| ==> r[i] == MapPatient(rows[i])
  {
    seq(|rows|, i requires 0 <= i < |rows| => MapPatient(rows[i]))
  }

  /** A record number is never empty: the row's own, or `P-` and the id. */
  lemma RecordNumberPresent(p: PatientRow)
    ensures MapPatient(p).recordNumber != []
  {
    assert ("P-" + p.id)[0] == 'P';
  }
}
