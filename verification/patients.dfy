/**
 * The patients screen: the odontogram's tooth-state cycle, the patient
 * search, and the new-patient form's required fields. Each is a function of
 * the screen's state; the clock reading and today's date text are parameters.
 */
module Patients {
  import opened Wrappers
  import opened Text
  import opened Seqs
  import opened DatabaseRows

  // ---------------------------------------------------------------- the odontogram

  datatype ToothState = Healthy | Caries | Endo | Implant | Crown | Extracted | Filling

  /** The order a click walks the states in. */
  const Cycle: seq<ToothState> := [Healthy, Caries, Filling, Endo, Crown, Implant, Extracted]

  /** The odontogram: a state per clicked tooth number, and the selected tooth. */
  datatype Odontogram = Odontogram(teeth: map<int, ToothState>, selected: Option<int>)

  /** A tooth with no entry is healthy. */
  function StateOf(teeth: map<int, ToothState>, tooth: int): ToothState {
    if tooth in teeth then teeth[tooth] else Healthy
  }

  /** The position of a state in the cycle (`indexOf`); every state has one. */
  function CycleIndex(s: ToothState): (i: nat)
    ensures i < |Cycle| && Cycle[i] == s
  {
    match s
    case Healthy => 0
    case Caries => 1
    case Filling => 2
    case Endo => 3
    case Crown => 4
    case Implant => 5
    case Extracted => 6
  }

  /** The state after a click. */
  function Next(s: ToothState): ToothState {
    match s
    case Healthy => Caries
    case Caries => Filling
    case Filling => Endo
    case Endo => Crown
    case Crown => Implant
    case Implant => Extracted
    case Extracted => Healthy
  }

  /** A click takes the state after the current one in the cycle, wrapping round at its end. */
  lemma NextIsCycleStep(s: ToothState)
    ensures Next(s) == Cycle[(CycleIndex(s) + 1) % |Cycle|]
    ensures CycleIndex(Next(s)) == (CycleIndex(s) + 1) % |Cycle|
  {
  }

  /** `handleToothClick`: the tooth moves one step along the cycle and becomes the selected one. */
  function Click(o: Odontogram, tooth: int): (r: Odontogram)
    ensures r.selected == Some(tooth)
    ensures tooth in r.teeth && r.teeth[tooth] == Next(StateOf(o.teeth, tooth))
    ensures forall t :: t != tooth ==> StateOf(r.teeth, t) == StateOf(o.teeth, t)
    ensures r.teeth.Keys == o.teeth.Keys + {tooth}
  {
    Odontogram(o.teeth[tooth := Next(StateOf(o.teeth, tooth))], Some(tooth))
  }

  /** `n` clicks on the same tooth. */
  function Clicks(o: Odontogram, tooth: int, n: nat): Odontogram {
    if n == 0 then o else Click(Clicks(o, tooth, n - 1), tooth)
  }

  /** `n` steps along the cycle. */
  function Steps(s: ToothState, n: nat): ToothState {
    if n == 0 then s else Next(Steps(s, n - 1))
  }

  /** Clicking a tooth `n` times moves it `n` steps and leaves every other tooth as it was. */
  lemma {:induction false} ClicksSteps(o: Odontogram, tooth: int, n: nat)
    ensures StateOf(Clicks(o, tooth, n).teeth, tooth) == Steps(StateOf(o.teeth, tooth), n)
    ensures forall t :: t != tooth ==> StateOf(Clicks(o, tooth, n).teeth, t) == StateOf(o.teeth, t)
  {
    if n > 0 {
      ClicksSteps(o, tooth, n - 1);
    }
  }

  /** `n` steps move a state `n` places along the cycle. */
  lemma {:induction false} StepsIndex(s: ToothState, n: nat)
    ensures CycleIndex(Steps(s, n)) == (CycleIndex(s) + n) % |Cycle|
  {
    if n > 0 {
      StepsIndex(s, n - 1);
      NextIsCycleStep(Steps(s, n - 1));
      assert |Cycle| == 7;
      ModSucc(CycleIndex(s) + n - 1);
    }
  }

  /** One more step after reducing modulo seven is one more step before. */
  lemma ModSucc(k: nat)
    ensures (k % 7 + 1) % 7 == (k + 1) % 7
  {
  }

  /** A state comes back after a number of steps exactly when that number is a multiple of seven. */
  lemma StepsReturn(s: ToothState, n: nat)
    ensures Steps(s, n) == s <==> n % |Cycle| == 0
  {
    StepsIndex(s, n);
    var i := CycleIndex(s);
    if Steps(s, n) == s {
      assert (i + n) % 7 == i;
    } else {
      assert Cycle[CycleIndex(Steps(s, n))] != Cycle[i];
    }
  }

  /** Seven clicks bring a tooth back to the state it had, and fewer never do. */
  lemma SevenClicks(o: Odontogram, tooth: int, n: nat)
    ensures n == 7 ==> forall t :: StateOf(Clicks(o, tooth, n).teeth, t) == StateOf(o.teeth, t)
    ensures 0 < n < 7 ==> StateOf(Clicks(o, tooth, n).teeth, tooth) != StateOf(o.teeth, tooth)
  {
    ClicksSteps(o, tooth, n);
    StepsReturn(StateOf(o.teeth, tooth), n);
  }

  // ---------------------------------------------------------------- search

  /** The search term occurs, case-insensitively, in the name, record number, DNI, phone or e-mail. */
  predicate MatchesTerm(p: Patient, term: string) {
    var t := Lower(term);
    Contains(Lower(p.name), t) || Contains(Lower(p.recordNumber), t) || Contains(Lower(p.dni), t)
    || Contains(Lower(p.phone), t) || Contains(Lower(p.email), t)
  }

  /** `filteredPatients`: the patients the term matches, in list order. */
  function FilteredPatients(patients: seq<Patient>, term: string): (r: seq<Patient>)
    ensures forall p :: p in r <==> p in patients && MatchesTerm(p, term)
  {
    var r := Filter((p: Patient) => MatchesTerm(p, term), patients);
    forall p ensures p in r <==> p in patients && MatchesTerm(p, term) {
      FilterIff((p: Patient) => MatchesTerm(p, term), patients, p);
    }
    r
  }

  /** An empty search term keeps every patient. */
  lemma EmptyTermKeepsAll(patients: seq<Patient>)
    ensures FilteredPatients(patients, "") == patients
  {
    forall i | 0 <= i < |patients| ensures MatchesTerm(patients[i], "") {
      ContainsEmpty(Lower(patients[i].name));
    }
    FilterAll((p: Patient) => MatchesTerm(p, ""), patients);
  }

  // ---------------------------------------------------------------- new patients

  /** The new-patient form. */
  datatype PatientForm = PatientForm(name: string, firstName: string, lastName: string, dni: string,
                                     phone: string, email: string, address: string, birthDate: string)

  /** The form can be saved: first name, last name and phone are all filled in. */
  predicate Complete(f: PatientForm) {
    f.firstName != "" && f.lastName != "" && f.phone != ""
  }

  /** `s.slice(-6)`: the last six characters, or all of a shorter text. */
  function LastSix(s: string): (r: string)
    ensures |r| == if |s| < 6 then |s| else 6
    ensures r == s[|s| - |r|..]
  {
    if |s| <= 6 then s else s[|s| - 6..]
  }

  /**
   * The patient a complete form creates on day `today`. The clock is read
   * twice: `idMs` gives the id and the later `recordMs` the record number.
   * The form leaves the optional medical history and alerts unset; the empty
   * sequences stand for that, and nothing on this screen reads them.
   */
  function NewPatient(f: PatientForm, idMs: nat, recordMs: nat, today: string): (p: Patient)
    ensures p.id == NatToString(idMs) && p.recordNumber == "RG" + LastSix(NatToString(recordMs))
    ensures p.firstName == Some(f.firstName) && p.lastName == Some(f.lastName) && p.phone == f.phone
    ensures p.status == "active" && p.lastVisit == today
  {
    Patient(NatToString(idMs), f.name, Some(f.firstName), Some(f.lastName), f.dni, "RG" + LastSix(NatToString(recordMs)),
            f.phone, f.email, f.address, Some(f.birthDate), today, "active", [], [])
  }

  /**
   * When both readings fall in the same millisecond the record number is `RG`
   * and the id's last six digits; when they differ by less than a million
   * milliseconds the record number tells them apart, both for readings of six
   * or more digits (every real clock value) and for readings below a million.
   */
  lemma RecordNumberOfId(f: PatientForm, idMs: nat, recordMs: nat, today: string)
    ensures var p := NewPatient(f, idMs, recordMs, today);
            idMs == recordMs ==> p.recordNumber == "RG" + LastSix(p.id)
    ensures var p := NewPatient(f, idMs, recordMs, today);
            idMs != recordMs && idMs < 1000000 && recordMs < 1000000 ==> p.recordNumber != "RG" + LastSix(p.id)
    ensures var p := NewPatient(f, idMs, recordMs, today);
            idMs != recordMs && idMs >= 100000 && recordMs >= 100000 && idMs < recordMs + 1000000 && recordMs < idMs + 1000000 ==>
              p.recordNumber != "RG" + LastSix(p.id)
  {
    var p := NewPatient(f, idMs, recordMs, today);
    if idMs != recordMs && idMs < 1000000 && recordMs < 1000000 {
      ShortDigits(idMs);
      ShortDigits(recordMs);
      if p.recordNumber == "RG" + LastSix(p.id) {
        assert p.recordNumber[2..] == NatToString(recordMs);
        assert ("RG" + LastSix(p.id))[2..] == NatToString(idMs);
        NatToStringInjective(idMs, recordMs);
      }
    }
    if idMs != recordMs && idMs >= 100000 && recordMs >= 100000 && idMs < recordMs + 1000000 && recordMs < idMs + 1000000 {
      LongDigits(idMs);
      LongDigits(recordMs);
      if p.recordNumber == "RG" + LastSix(p.id) {
        assert p.recordNumber[2..] == LastSix(NatToString(recordMs));
        assert ("RG" + LastSix(p.id))[2..] == LastSix(NatToString(idMs));
        NearResidues(idMs, recordMs, 1000000);
      }
    }
  }

  /** From six digits on, `slice(-6)` keeps the digits of the number modulo a million. */
  lemma LongDigits(n: nat)
    requires n >= 100000
    ensures |LastSix(NatToString(n))| == 6
    ensures DigitsValue(LastSix(NatToString(n))) == n % 1000000
  {
    assert Pow10(6) == 1000000 && Pow10(5) == 100000 by {
      assert Pow10(1) == 10 && Pow10(2) == 100 && Pow10(3) == 1000 && Pow10(4) == 10000;
    }
    DigitsAtLeast(n, 5);
    SuffixValue(n, 6);
  }

  /** A number of at least `10^k` has more than `k` decimal digits. */
  lemma {:induction false} DigitsAtLeast(n: nat, k: nat)
    requires n >= Pow10(k)
    ensures |NatToString(n)| > k
  {
    if k > 0 {
      DigitsAtLeast(n / 10, k - 1);
      assert NatToString(n) == NatToString(n / 10) + [DigitChar(n % 10)];
    }
  }

  /** The last `k` digits of a decimal text spell the number modulo `10^k`. */
  lemma {:induction false} SuffixValue(n: nat, k: nat)
    requires k <= |NatToString(n)|
    ensures DigitsValue(NatToString(n)[|NatToString(n)| - k..]) == n % Pow10(k)
  {
    var s := NatToString(n);
    if k == 0 {
      assert s[|s|..] == [];
    } else if n < 10 {
      assert s[|s| - k..] == [DigitChar(n)];
      assert DigitsValue([DigitChar(n)]) == DigitsValue([]) * 10 + n;
    } else {
      var t := NatToString(n / 10);
      assert s == t + [DigitChar(n % 10)];
      var w := s[|s| - k..];
      assert w[..|w| - 1] == t[|t| - (k - 1)..];
      assert w[|w| - 1] == DigitChar(n % 10);
      SuffixValue(n / 10, k - 1);
      assert DigitsValue(w) == (n / 10 % Pow10(k - 1)) * 10 + n % 10;
      ModTen(n, Pow10(k - 1));
    }
  }

  /** Taking the last digit off and putting it back commutes with reduction modulo a power of ten. */
  lemma ModTen(n: nat, m: nat)
    requires m > 0
    ensures (n / 10 % m) * 10 + n % 10 == n % (10 * m)
  {
    var q := n / 10;
    var a := q / m;
    var b := q % m;
    var c := 10 * b + n % 10;
    assert n == (10 * m) * a + c;
    assert 0 <= c < 10 * m;
    Remainder(n, 10 * m, a, c);
  }

  /** A remainder is determined by any division with a remainder in range. */
  lemma Remainder(n: int, d: int, a: int, c: int)
    requires d > 0 && n == d * a + c && 0 <= c < d
    ensures n % d == c
  {
    var a' := n / d;
    var c' := n % d;
    assert n == d * a' + c';
    if a > a' {
      Distrib(d, a, a');
      AtLeastOnce(d, a - a');
    } else if a < a' {
      Distrib(d, a', a);
      AtLeastOnce(d, a' - a);
    }
  }

  /** Two different numbers less than `m` apart differ modulo `m`. */
  lemma NearResidues(x: nat, y: nat, m: nat)
    requires m > 0 && x != y && x < y + m && y < x + m
    ensures x % m != y % m
  {
    var qx := x / m;
    var qy := y / m;
    assert x == m * qx + x % m && y == m * qy + y % m;
    if x % m == y % m {
      if qx > qy {
        Distrib(m, qx, qy);
        AtLeastOnce(m, qx - qy);
      } else if qx < qy {
        Distrib(m, qy, qx);
        AtLeastOnce(m, qy - qx);
      }
    }
  }

  /** Multiplication distributes over a difference. */
  lemma Distrib(d: int, a: int, b: int)
    ensures d * a - d * b == d * (a - b)
  {
  }

  /** A positive number times a positive whole number is at least the number. */
  lemma {:induction false} AtLeastOnce(d: int, k: int)
    requires d > 0 && k >= 1
    ensures d * k >= d
    decreases k
  {
    if k > 1 {
      AtLeastOnce(d, k - 1);
      assert d * k == d * (k - 1) + d;
    }
  }

  /** Below a million the decimal text has at most six digits, so `slice(-6)` keeps all of it. */
  lemma ShortDigits(n: nat)
    requires n < 1000000
    ensures LastSix(NatToString(n)) == NatToString(n)
  {
    assert Pow10(6) == 1000000 by {
      assert Pow10(1) == 10 && Pow10(2) == 100 && Pow10(3) == 1000 && Pow10(4) == 10000 && Pow10(5) == 100000;
    }
    DigitsBound(n, 6);
  }

  function Pow10(k: nat): (p: nat)
    ensures p >= 1
  {
    if k == 0 then 1 else 10 * Pow10(k - 1)
  }

  /** A number below `10^k` has at most `k` decimal digits. */
  lemma {:induction false} DigitsBound(n: nat, k: nat)
    requires 1 <= k && n < Pow10(k)
    ensures |NatToString(n)| <= k
  {
    if n >= 10 {
      assert k != 1;
      DigitsBound(n / 10, k - 1);
    }
  }

  /** Saving the form: refused while a required field is empty, otherwise the new patient goes first. */
  function CreatePatient(patients: seq<Patient>, f: PatientForm, idMs: nat, recordMs: nat, today: string): (r: Option<seq<Patient>>)
    ensures r.None? <==> f.firstName == "" || f.lastName == "" || f.phone == ""
    ensures r.Some? ==> |r.value| == |patients| + 1 && r.value[0] == NewPatient(f, idMs, recordMs, today) && r.value[1..] == patients
  {
    if !Complete(f) then None else Some([NewPatient(f, idMs, recordMs, today)] + patients)
  }
}
