/** The rolling reading history of the live monitoring dashboard: created
    empty (and emptied again by the reset button), then fed one reading per
    refresh, keeping only the last 50. */
module History {
  import opened Wrappers
  import opened Seqs
  import Risk

  /** One simulated reading of the dashboard. */
  datatype Reading = Reading(
    timestamp: string,
    heartRate: real,
    systolic: real,
    diastolic: real,
    temperature: real,
    oxygen: real)

  /** The most readings the history keeps. */
  const Capacity: nat := 50

  /** The session-start step: a session without a history, or one whose
      reset button was pressed, gets an empty history; otherwise the
      history is kept as it is. */
  function Initialize(history: Option<seq<Reading>>, resetPressed: bool): (r: seq<Reading>)
    ensures |r| == 0 <==> history.None? || resetPressed || history.value == []
    ensures history.Some? && !resetPressed ==> r == history.value
  {
    if history.None? || resetPressed then [] else history.value
  }

  /** Append the new reading, then drop the oldest one if the history has
      grown beyond the capacity. */
  function Append(history: seq<Reading>, reading: Reading): (r: seq<Reading>)
    ensures |r| > 0 && r[|r| - 1] == reading
    ensures |history| <= Capacity ==> |r| <= Capacity
    ensures |history| < Capacity ==> r == history + [reading]
    ensures r == history + [reading] || r == history[1..] + [reading]
  {
    var grown := history + [reading];
    if |grown| > Capacity then
      assert grown[1..] == history[1..] + [reading];
      grown[1..]
    else
      grown
  }

  /** On a history within capacity, appending keeps exactly the last
      `Capacity` readings ever seen. */
  lemma AppendKeepsWindow(seen: seq<Reading>, reading: Reading)
    ensures Append(LastN(seen, Capacity), reading) == LastN(seen + [reading], Capacity)
  {
    var w := LastN(seen, Capacity);
    if |seen| >= Capacity {
      var all := seen + [reading];
      assert w == seen[|seen| - Capacity..];
      assert (w + [reading])[1..] == all[|all| - Capacity..];
    }
  }

  /** The risk rule applied to one reading. */
  function Assess(reading: Reading): Risk.Assessment
  {
    Risk.PredictHealthStatus(reading.heartRate, reading.systolic, reading.diastolic,
                             reading.temperature, reading.oxygen)
  }

  /** Appending the next reading of a stream to the window of what came
      before gives the window of everything up to that reading. */
  lemma StepKeepsWindow(history: seq<Reading>, stream: seq<Reading>, i: nat)
    requires i < |stream|
    ensures Append(LastN(history + stream[..i], Capacity), stream[i]) == LastN(history + stream[..i + 1], Capacity)
  {
    AppendKeepsWindow(history + stream[..i], stream[i]);
    assert history + stream[..i + 1] == (history + stream[..i]) + [stream[i]];
  }

  /** The monitoring loop over a given stream of readings: each reading is
      appended to the history and assessed. */
  method Monitor(history: seq<Reading>, stream: seq<Reading>)
    returns (final: seq<Reading>, assessments: seq<Risk.Assessment>)
    requires |history| <= Capacity
    ensures final == LastN(history + stream, Capacity)
    ensures |assessments| == |stream|
    ensures forall i :: 0 <= i < |stream| ==> assessments[i] == Assess(stream[i])
  {
    assessments := seq(|stream|, i requires 0 <= i < |stream| => Assess(stream[i]));
    final := history;
    var i := 0;
    assert history + stream[..0] == history;
    while i < |stream|
      invariant 0 <= i <= |stream|
      invariant final == LastN(history + stream[..i], Capacity)
    {
      StepKeepsWindow(history, stream, i);
      final := Append(final, stream[i]);
      i := i + 1;
    }
    assert stream[..i] == stream;
  }
}
