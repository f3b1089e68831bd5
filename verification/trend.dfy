/** The patient health summary of the clinic UI (`generateHealthSummary`):
    pick the patient, take that patient's vitals in stored order, and compare
    the last two readings. */
module Trend {
  import opened Wrappers
  import opened Seqs
  import opened JsStrings

  /** One object of `data.vitals`. Blood pressure is kept as the
      `"systolic/diastolic"` text the application stores. */
  datatype VitalsEntry = VitalsEntry(
    id: string,
    patientId: string,
    date: string,
    bloodPressure: string,
    heartRate: int,
    temperature: real,
    oxygenLevel: int,
    weight: real,
    notes: string)

  /** The two fields of a patient that the summary's lookup reads; a
      registered patient may lack an email, so it is optional. */
  datatype PatientRef = PatientRef(id: string, email: Option<string>)

  /** The patient the summary falls back to when the email does not match. */
  const FallbackPatientId: string := "P001"

  /** The summary's lookup accepts a patient whose email is the logged-in
      user's email, or the fallback patient. With nobody logged in the user's
      email is undefined, which equals a missing email. */
  predicate Selects(p: PatientRef, userEmail: Option<string>)
  {
    p.email == userEmail || p.id == FallbackPatientId
  }

  /** `patients.find(...)`: the first patient the lookup predicate accepts. */
  function FindPatient(patients: seq<PatientRef>, userEmail: Option<string>): (r: Option<PatientRef>)
    ensures r.None? <==> forall i :: 0 <= i < |patients| ==> !Selects(patients[i], userEmail)
    ensures r.Some? ==>
      exists i :: 0 <= i < |patients| && patients[i] == r.value && Selects(r.value, userEmail)
        && forall j :: 0 <= j < i ==> !Selects(patients[j], userEmail)
  {
    if |patients| == 0 then None
    else if Selects(patients[0], userEmail) then Some(patients[0])
    else
      FindPatient(patients[1..], userEmail)
  }

  /** The stored vitals entries whose patient id is the found patient's id,
      in stored order and each as often as it is stored. A missing patient
      selects nothing, because every stored entry carries a patient id. */
  function ReadingsOf(vitals: seq<VitalsEntry>, patientId: Option<string>): (r: seq<VitalsEntry>)
    ensures IsSubsequence(r, vitals)
    ensures forall i :: 0 <= i < |r| ==> Some(r[i].patientId) == patientId
    ensures forall v :: v in vitals && Some(v.patientId) == patientId ==> v in r
    ensures forall v :: multiset(r)[v] == if Some(v.patientId) == patientId then multiset(vitals)[v] else 0
  {
    if |vitals| == 0 then []
    else
      var rest := ReadingsOf(vitals[1..], patientId);
      assert vitals == [vitals[0]] + vitals[1..];
      assert multiset(vitals) == multiset{vitals[0]} + multiset(vitals[1..]);
      if Some(vitals[0].patientId) == patientId then
        assert multiset([vitals[0]] + rest) == multiset{vitals[0]} + multiset(rest);
        [vitals[0]] + rest
      else
        assert |rest| > 0 ==> rest[0] != vitals[0];
        rest
  }

  datatype BpTrend = BpImproved | BpStable
  {
    function Word(): string
    {
      if BpImproved? then "improved" else "stable"
    }
  }

  datatype HrTrend = HrStable | HrFluctuating
  {
    function Word(): string
    {
      if HrStable? then "stable" else "fluctuating"
    }
  }

  /** The summary's overall `trend` field; there is no negative outcome. */
  datatype Outlook = Positive | Steady
  {
    function Word(): string
    {
      if Positive? then "positive" else "stable"
    }
  }

  /** `latest < previous ? 'improved' : 'stable'` on the blood-pressure text:
      a string comparison, not a numeric one. */
  function CompareBloodPressure(latest: string, previous: string): (t: BpTrend)
    ensures t == BpImproved <==> LexLessByDefinition(latest, previous)
  {
    LexLessMeaning(latest, previous);
    if LexLess(latest, previous) then BpImproved else BpStable
  }

  function Abs(x: int): nat
  {
    if x < 0 then -x else x
  }

  /** `Math.abs(latest - previous) < 5 ? 'stable' : 'fluctuating'`. */
  function CompareHeartRate(latest: int, previous: int): (t: HrTrend)
    ensures t == HrStable <==> -5 < latest - previous < 5
  {
    if Abs(latest - previous) < 5 then HrStable else HrFluctuating
  }

  datatype HealthSummary = HealthSummary(
    title: string,
    message: string,
    trend: Outlook,
    recommendations: seq<string>)

  const Title: string := "Your Health Journey"

  /** The three recommendations every summary carries, whatever the readings. */
  const Recommendations: seq<string> := [
    "Continue monitoring your blood pressure daily",
    "Maintain regular exercise routine",
    "Stay hydrated and follow prescribed medication"
  ]

  function Narrative(previousDate: string, bp: BpTrend, hr: HrTrend): string
  {
    "Since your last check-in on " + previousDate + ", your blood pressure has " + bp.Word()
    + " and your heart rate is " + hr.Word()
    + ". Your vitals are looking good! Keep up the healthy habits."
  }

  /** The summary of one patient's readings (stored order): none with fewer
      than two readings, otherwise a comparison of the last stored reading
      with the one stored before it. The program first keeps only the last
      three readings; that never changes which two are compared. */
  function Summarize(readings: seq<VitalsEntry>): (r: Option<HealthSummary>)
    ensures r.None? <==> |readings| < 2
    ensures r.Some? ==>
      var latest, previous := readings[|readings| - 1], readings[|readings| - 2];
      var improved := LexLessByDefinition(latest.bloodPressure, previous.bloodPressure);
      var steadyPulse := -5 < latest.heartRate - previous.heartRate < 5;
      && r.value.title == Title
      && (r.value.trend == Positive <==> improved)
      && r.value.message == Narrative(previous.date,
           if improved then BpImproved else BpStable,
           if steadyPulse then HrStable else HrFluctuating)
      && r.value.recommendations == Recommendations
  {
    var recent := LastN(readings, 3);
    if |recent| > 1 then
      LastNKeepsTail(readings, 3, 2);
      assert recent[|recent| - 1] == recent[|recent| - 2..][1];
      assert recent[|recent| - 2] == recent[|recent| - 2..][0];
      var latest := recent[|recent| - 1];
      var previous := recent[|recent| - 2];
      var bp := CompareBloodPressure(latest.bloodPressure, previous.bloodPressure);
      var hr := CompareHeartRate(latest.heartRate, previous.heartRate);
      Some(HealthSummary(
        Title,
        Narrative(previous.date, bp, hr),
        if bp == BpImproved then Positive else Steady,
        Recommendations))
    else
      None
  }

  /** `generateHealthSummary`: look up the patient, then summarise that
      patient's readings. */
  function GenerateHealthSummary(patients: seq<PatientRef>, vitals: seq<VitalsEntry>, userEmail: Option<string>)
    : (r: Option<HealthSummary>)
    ensures
      var patient := FindPatient(patients, userEmail);
      var mine := ReadingsOf(vitals, if patient.Some? then Some(patient.value.id) else None);
      r.Some? <==> |mine| >= 2
  {
    var patient := FindPatient(patients, userEmail);
    Summarize(ReadingsOf(vitals, if patient.Some? then Some(patient.value.id) else None))
  }

  /** Only the last two stored readings matter: earlier history, however long,
      never changes the summary. */
  lemma SummaryDependsOnLastTwo(readings: seq<VitalsEntry>, earlier: seq<VitalsEntry>)
    requires |readings| >= 2
    ensures Summarize(earlier + readings) == Summarize(readings[|readings| - 2..])
  {
    var all := earlier + readings;
    var tail := readings[|readings| - 2..];
    assert all[|all| - 1] == tail[1] && all[|all| - 2] == tail[0];
    var a, b := Summarize(all).value, Summarize(tail).value;
    assert a.trend == b.trend;
    assert a.message == b.message;
    assert a == b;
  }

  /** Every summary carries the same three recommendations, in the same order. */
  lemma RecommendationsNeverChange(a: seq<VitalsEntry>, b: seq<VitalsEntry>)
    requires Summarize(a).Some? && Summarize(b).Some?
    ensures Summarize(a).value.recommendations == Summarize(b).value.recommendations
    ensures 1 <= |Summarize(a).value.recommendations| <= 5
  {
  }

  /** A heart-rate change of exactly 5 bpm, either way, is already fluctuating. */
  lemma HeartRateBoundary(previous: int)
    ensures CompareHeartRate(previous + 5, previous) == HrFluctuating
    ensures CompareHeartRate(previous - 5, previous) == HrFluctuating
    ensures CompareHeartRate(previous + 4, previous) == HrStable
  {
  }

  /** The text comparison disagrees with the numbers: "125/82" after
      "120/80" stays `stable`, and "120/80" after "99/60" counts as
      `improved` although the systolic value rose. */
  lemma BloodPressureIsComparedAsText()
    ensures CompareBloodPressure("125/82", "120/80") == BpStable
    ensures CompareBloodPressure("120/80", "99/60") == BpImproved
    ensures CompareBloodPressure("120/80", "120/80") == BpStable
  {
    assert LexLess("120/80", "99/60");
    LexLessIrreflexive("120/80");
  }

  /** The seed data of the application. */
  const SeedPatients: seq<PatientRef> := [PatientRef("P001", Some("patient@email.com"))]

  const SeedVitals: seq<VitalsEntry> := [
    VitalsEntry("V001", "P001", "2026-02-08", "120/80", 72, 98.6, 98, 165.0, "Normal readings"),
    VitalsEntry("V002", "P001", "2026-01-15", "125/82", 75, 98.4, 97, 167.0, "Slight improvement")
  ]

  /** On the seed data the stored order, not the dates, decides which reading
      is latest: V002 (dated earlier) is compared against V001, giving a
      stable blood pressure and a stable heart rate. */
  lemma SeedSummary()
    ensures GenerateHealthSummary(SeedPatients, SeedVitals, Some("patient@email.com"))
      == Some(HealthSummary(Title, Narrative("2026-02-08", BpStable, HrStable), Steady, Recommendations))
  {
    assert FindPatient(SeedPatients, Some("patient@email.com")) == Some(SeedPatients[0]);
    assert ReadingsOf(SeedVitals, Some("P001")) == SeedVitals;
    assert CompareBloodPressure("125/82", "120/80") == BpStable;
  }
}
