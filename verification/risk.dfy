/** The threshold rule of the live monitoring dashboard
    (`predict_health_status`): each abnormal vital adds a fixed weight to a
    score, the score picks a severity level, and the hypertension, fever and
    hypoxia findings are listed as possible indicators. Inputs are exact reals. */
module Risk {
  import opened Seqs

  datatype Level = Stable | Warning | Critical
  {
    /** The status text shown on the dashboard. */
    function Status(): string
    {
      match this
      case Stable => "Stable"
      case Warning => "Warning"
      case Critical => "Critical"
    }

    function Message(): string
    {
      match this
      case Stable => "Normal vitals detected."
      case Warning => "Minor fluctuations detected. Monitor closely."
      case Critical => "Immediate medical attention may be required."
    }

    function Color(): string
    {
      match this
      case Stable => "Green"
      case Warning => "Orange"
      case Critical => "Red"
    }

    /** Severity order: Stable below Warning below Critical. */
    function Rank(): nat
    {
      match this
      case Stable => 0
      case Warning => 1
      case Critical => 2
    }
  }

  datatype Indicator = HypertensionRisk | Pyrexia | HypoxiaWarning
  {
    function Name(): string
    {
      match this
      case HypertensionRisk => "Hypertension Risk"
      case Pyrexia => "Pyrexia (Fever)"
      case HypoxiaWarning => "Hypoxia Warning"
    }
  }

  /** The indicators in the order the rule checks them. */
  const Indicators: seq<Indicator> := [HypertensionRisk, Pyrexia, HypoxiaWarning]

  // Each test is strict: a value exactly on a threshold is normal.
  predicate AbnormalHeartRate(hr: real) { hr > 100.0 || hr < 60.0 }
  predicate Hypertensive(sys: real, dia: real) { sys > 140.0 || dia > 90.0 }
  predicate Febrile(temp: real) { temp > 100.4 }
  predicate Hypoxic(ox: real) { ox < 94.0 }

  /** The weighted count of abnormal findings: heart rate 1, blood pressure 2,
      temperature 1, oxygen 3. */
  function Score(hr: real, sys: real, dia: real, temp: real, ox: real): (s: nat)
    ensures s <= 7
    ensures s == 0 <==> !AbnormalHeartRate(hr) && !Hypertensive(sys, dia) && !Febrile(temp) && !Hypoxic(ox)
  {
    (if AbnormalHeartRate(hr) then 1 else 0)
    + (if Hypertensive(sys, dia) then 2 else 0)
    + (if Febrile(temp) then 1 else 0)
    + (if Hypoxic(ox) then 3 else 0)
  }

  function LevelFor(score: int): Level
  {
    if score == 0 then Stable else if score <= 2 then Warning else Critical
  }

  /** Score 0 is Stable/Green, 1 to 2 Warning/Orange, 3 and above Critical/Red. */
  lemma LevelBands(score: nat)
    ensures score == 0 ==> LevelFor(score).Status() == "Stable" && LevelFor(score).Color() == "Green"
    ensures 1 <= score <= 2 ==> LevelFor(score).Status() == "Warning" && LevelFor(score).Color() == "Orange"
    ensures score >= 3 ==> LevelFor(score).Status() == "Critical" && LevelFor(score).Color() == "Red"
  {
  }

  /** A higher score never gives a milder level. */
  lemma LevelMonotone(a: nat, b: nat)
    requires a <= b
    ensures LevelFor(a).Rank() <= LevelFor(b).Rank()
  {
  }

  datatype Assessment = Assessment(level: Level, possibilities: seq<Indicator>)

  /** `predict_health_status(hr, sys, dia, temp, ox)`. */
  function PredictHealthStatus(hr: real, sys: real, dia: real, temp: real, ox: real): (r: Assessment)
    ensures r.level == Stable <==>
      !AbnormalHeartRate(hr) && !Hypertensive(sys, dia) && !Febrile(temp) && !Hypoxic(ox)
    ensures r.level == Critical <==>
      Hypoxic(ox) || (Hypertensive(sys, dia) && (AbnormalHeartRate(hr) || Febrile(temp)))
    ensures HypertensionRisk in r.possibilities <==> Hypertensive(sys, dia)
    ensures Pyrexia in r.possibilities <==> Febrile(temp)
    ensures HypoxiaWarning in r.possibilities <==> Hypoxic(ox)
    ensures IsSubsequence(r.possibilities, Indicators)
  {
    var possibilities :=
      (if Hypertensive(sys, dia) then [HypertensionRisk] else [])
      + (if Febrile(temp) then [Pyrexia] else [])
      + (if Hypoxic(ox) then [HypoxiaWarning] else []);
    Assessment(LevelFor(Score(hr, sys, dia, temp, ox)), possibilities)
  }

  /** The indicator list never repeats an entry and has at most three. */
  lemma PossibilitiesAreDistinct(hr: real, sys: real, dia: real, temp: real, ox: real)
    ensures NoDuplicates(PredictHealthStatus(hr, sys, dia, temp, ox).possibilities)
    ensures |PredictHealthStatus(hr, sys, dia, temp, ox).possibilities| <= 3
  {
    SubsequenceKeepsNoDuplicates(PredictHealthStatus(hr, sys, dia, temp, ox).possibilities, Indicators);
  }

  /** Low oxygen on its own is already critical. */
  lemma HypoxiaAloneIsCritical(hr: real, sys: real, dia: real, temp: real, ox: real)
    requires Hypoxic(ox)
    ensures PredictHealthStatus(hr, sys, dia, temp, ox).level.Status() == "Critical"
  {
  }

  /** An abnormal heart rate raises the level but names no indicator. */
  lemma HeartRateAloneIsUnnamedWarning(hr: real, sys: real, dia: real, temp: real, ox: real)
    requires AbnormalHeartRate(hr)
    requires !Hypertensive(sys, dia) && !Febrile(temp) && !Hypoxic(ox)
    ensures PredictHealthStatus(hr, sys, dia, temp, ox) == Assessment(Warning, [])
  {
  }

  /** Values exactly on the thresholds count as normal. */
  lemma ThresholdsAreStrict()
    ensures PredictHealthStatus(60.0, 140.0, 90.0, 100.4, 94.0) == Assessment(Stable, [])
    ensures PredictHealthStatus(100.0, 140.0, 90.0, 100.4, 94.0) == Assessment(Stable, [])
  {
  }
}
