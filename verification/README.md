# Vital Tracker decision logic in Dafny

A functional model of the small pieces of decision logic inside the Vital
Tracker clinic demo: the React clinic UI (`nitya-nadi/src/healthcare-system.jsx`)
and the Streamlit live-monitoring dashboard (`evtG.py`). Everything else in
those files is rendering.

- **Health summary** (`generateHealthSummary`, module `Trend`): the patient is
  looked up (email match, or the fallback patient `P001`), that patient's vitals
  are taken in stored order, and the last two are compared. Blood pressure is
  compared as *text* with JavaScript's string `<`, so `improved` means
  "lexicographically smaller". Heart rate is `stable` when the change is
  strictly below 5 bpm. The overall trend is `positive` exactly when blood
  pressure improved. The three recommendations never change. With fewer than
  two readings there is no new summary (`None`); the UI then keeps showing
  whatever summary it had before.
- **Chat assistant** (`handleChatSubmit`, module `Chat`): a blank input
  (empty or only whitespace, as JavaScript's `trim` sees it) is ignored.
  Otherwise the raw input is posted and answered. The answer comes from the
  first keyword group that the lower-cased input contains, in this order:
  pain/headache, appointment/book, days/week, yes/please. With no match the
  answer is the greeting. The handler's if/else chain is also given as an
  ordered rule table and proved equal to it.
- **Record creation** (`registerPatient`, `bookAppointment`, `addVitals`,
  module `Records`): the caller's object is spread into a new record and the
  minted fields overwrite it. The record is appended to one collection of the
  store. The new id is the prefix followed by `count + 1` zero-padded to three
  digits (`P001`, `A002`, `V1000`). Module `Decimal` models `String(n)` and
  `padStart`. It also defines a decimal parser. The program never parses an
  id; the parser is the decoder against which the model states that an id
  determines the count it was minted from.
- **Risk rule** (`predict_health_status`, module `Risk`): weights 1 (heart
  rate outside 60–100), 2 (systolic above 140 or diastolic above 90),
  1 (temperature above 100.4), 3 (oxygen below 94). Score 0 is Stable, 1–2 is
  Warning, 3 and above is Critical. The indicator list names hypertension,
  fever and hypoxia, in that order.
- **Rolling history** (module `History`): the history starts empty and is
  emptied again by the reset button. Each reading is appended, and the oldest
  one is dropped once there are more than 50.

JavaScript's string operations are modelled in `JsStrings`: `<` (code-unit
lexicographic order, proved equal to the textbook definition and a strict total
order), `includes`, `trim` and `toLowerCase` for ASCII. Dafny's own `<` on
strings means "proper prefix", so it is not used.

Points where the program's behaviour is easy to misread, and how the model
states them:
- Blood pressure is compared as text, as in the program.
  `Trend.BloodPressureIsComparedAsText` shows inputs where this disagrees with
  a numeric comparison of the systolic values.
- There is no `worsened` blood-pressure trend and no `negative` overall trend.
- The readings compared are the last two in *stored* order, not date order.
  On the seed data the latest reading is dated earlier than the previous one
  (`Trend.SeedSummary`).
- `Chat.Classify("")` is the greeting, but `Chat.Submit` never classifies a
  blank input.
- The "yes/please" rule fires without any pending offer, as in the program.

The summary and the record store see vitals and patients in two separate
views. `Trend` uses typed entries (`Trend.VitalsEntry`, `Trend.PatientRef`)
holding only the fields the summary reads. `Records` uses JavaScript objects
(`Records.Record`), because the spread can add any field. The two are linked
only for the seed data, through `Records.VitalsObject`. No lemma relates a
store built by `Records.AddVitals` to the entries `Trend` reads.

Inputs the program gets from the outside world become parameters: today's
date (`today`), the logged-in user's email (`userEmail`), the stream of
dashboard readings (`stream`), and whether the reset button was pressed
(`resetPressed`).

## Model

| member | source | states |
|---|---|---|
| Seqs.LastN | nitya-nadi/src/healthcare-system.jsx:119 | `slice(-n)` keeps the last min(n, length) elements of the list, in order |
| Seqs.LastNKeepsTail | nitya-nadi/src/healthcare-system.jsx:119-123 | keeping the last three readings never changes which are the last two |
| Seqs.SubsequenceKeepsNoDuplicates | evtG.py:24-32 | an order-preserving selection from a duplicate-free list is duplicate-free and no longer than it |
| JsStrings.LexLessMeaning | nitya-nadi/src/healthcare-system.jsx:125 | JavaScript string `<` holds exactly when the first differing code unit is smaller, or the left string is a proper prefix of the right |
| JsStrings.LexLessIrreflexive | nitya-nadi/src/healthcare-system.jsx:125 | a blood-pressure text is never less than itself, so equal readings are `stable` |
| JsStrings.LexLessTransitive | nitya-nadi/src/healthcare-system.jsx:125 | string `<` is transitive |
| JsStrings.LexLessTotal | nitya-nadi/src/healthcare-system.jsx:125 | of two different strings one is less than the other, so "not improved" means the latest text is the same or greater |
| JsStrings.ContainsMeaning | nitya-nadi/src/healthcare-system.jsx:156-162 | `includes(p)` holds exactly when `p` occurs at some position of the text |
| JsStrings.TrimStart | nitya-nadi/src/healthcare-system.jsx:146 | removes exactly the longest whitespace prefix: what is dropped is whitespace and what is left does not start with whitespace |
| JsStrings.TrimEnd | nitya-nadi/src/healthcare-system.jsx:146 | removes exactly the longest whitespace suffix |
| JsStrings.BlankMeansAllWhitespace | nitya-nadi/src/healthcare-system.jsx:146 | `!input.trim()` holds exactly when every character is whitespace, the empty input included |
| JsStrings.ToLower | nitya-nadi/src/healthcare-system.jsx:154 | lower-casing maps A..Z to a..z, keeps every other character and the length, and leaves no ASCII capital |
| JsStrings.ToLowerIdempotent | nitya-nadi/src/healthcare-system.jsx:154 | lower-casing an already lower-cased text changes nothing |
| Decimal.ToDecimal | nitya-nadi/src/healthcare-system.jsx:178 | `String(n)` is a non-empty digit string without a leading zero, one digit exactly when n < 10 |
| Decimal.ValueOfToDecimal | nitya-nadi/src/healthcare-system.jsx:178 | reading the digits of `String(n)` back gives n |
| Decimal.PadStart | nitya-nadi/src/healthcare-system.jsx:178 | `padStart(w, '0')` has length max(len, w), ends with the original text and is filled with zeros in front |
| Decimal.LeadingZerosIgnored | nitya-nadi/src/healthcare-system.jsx:178 | zeros in front of a digit string do not change its value |
| Decimal.Parse | nitya-nadi/src/healthcare-system.jsx:178 | the decoder used to state the id round trip (the program never parses an id) succeeds exactly on non-empty digit strings |
| Decimal.ParsePadded | nitya-nadi/src/healthcare-system.jsx:178 | the digits `String(n).padStart(width, '0')` produces decode back to n, whatever the width |
| Records.MintId | nitya-nadi/src/healthcare-system.jsx:178 | a new id starts with the prefix, parses back to count + 1, and is prefix plus exactly three digits while count + 1 < 1000 |
| Records.ToDecimalShort | nitya-nadi/src/healthcare-system.jsx:178 | numbers below 1000 print with at most three digits, so padding to three fixes the id length |
| Records.MintIdInjective | nitya-nadi/src/healthcare-system.jsx:178 | different record counts give different ids |
| Records.SequentialIdsAreUnique | nitya-nadi/src/healthcare-system.jsx:178 | a collection whose records carry the ids minted for their positions has no two records with the same id |
| Records.AppendSpread | nitya-nadi/src/healthcare-system.jsx:182 | `[...records, {...data, ...minted}]` keeps every old record in place and adds one record with the minted value on every minted key and the caller's value on every other key |
| Records.AppendKeepsSequentialIds | nitya-nadi/src/healthcare-system.jsx:182 | appending a record with the next minted id keeps the ids sequential |
| Records.ExtendKeepsSequentialIds | nitya-nadi/src/healthcare-system.jsx:182 | any one-record extension that keeps the earlier records and gives the new one the next minted id keeps the ids sequential |
| Records.RegisterPatient | nitya-nadi/src/healthcare-system.jsx:175-183 | a new patient is appended last with minted id, today's registration date and empty history overriding the caller's fields; no other collection changes |
| Records.BookAppointment | nitya-nadi/src/healthcare-system.jsx:186-193 | a new appointment is appended last with minted id and status `scheduled` overriding the caller's fields; no other collection changes |
| Records.AddVitals | nitya-nadi/src/healthcare-system.jsx:196-202 | a new reading is appended last with minted id and today's date overriding the caller's fields; no other collection changes |
| Records.RunKeepsIdsUnique | nitya-nadi/src/healthcare-system.jsx:175-202 | after any sequence of registrations, bookings and readings, patient, appointment and vitals ids are still sequential and unique |
| Records.MintIdExamples | nitya-nadi/src/healthcare-system.jsx:178 | the first ids minted are P001, A001, V001 and V002 |
| Records.SeedIsWellMinted | nitya-nadi/src/healthcare-system.jsx:5-79 | the seed data already follows the minting scheme for patients, appointments and vitals |
| Trend.FindPatient | nitya-nadi/src/healthcare-system.jsx:118 | `find` returns nothing exactly when no patient matches the email or the id P001, and otherwise the first patient that does |
| Trend.ReadingsOf | nitya-nadi/src/healthcare-system.jsx:119 | the filter keeps exactly the patient's readings, in stored order, each as many times as it is stored, and nothing else |
| Trend.CompareBloodPressure | nitya-nadi/src/healthcare-system.jsx:125 | blood pressure is `improved` exactly when the latest text is lexicographically less than the previous one, and `stable` otherwise |
| Trend.CompareHeartRate | nitya-nadi/src/healthcare-system.jsx:126 | heart rate is `stable` exactly when the change is strictly between -5 and 5 |
| Trend.Summarize | nitya-nadi/src/healthcare-system.jsx:119-137 | no summary for fewer than two readings; otherwise the summary compares the last and second-to-last stored readings, is `positive` exactly when blood pressure improved, names the previous date and carries the fixed recommendations |
| Trend.GenerateHealthSummary | nitya-nadi/src/healthcare-system.jsx:117-141 | a summary exists exactly when the looked-up patient has at least two readings |
| Trend.SummaryDependsOnLastTwo | nitya-nadi/src/healthcare-system.jsx:119-123 | earlier readings, however many, never change the summary |
| Trend.RecommendationsNeverChange | nitya-nadi/src/healthcare-system.jsx:132-136 | every summary carries the same three recommendations in the same order |
| Trend.HeartRateBoundary | nitya-nadi/src/healthcare-system.jsx:126 | a change of exactly 5 bpm either way is `fluctuating`, a change of 4 is `stable` |
| Trend.BloodPressureIsComparedAsText | nitya-nadi/src/healthcare-system.jsx:125 | "125/82" after "120/80" is `stable`, "120/80" after "99/60" is `improved` although the systolic value rose, equal readings are `stable` |
| Trend.SeedSummary | nitya-nadi/src/healthcare-system.jsx:55-78 | on the seed data the summary compares V002 with V001 by stored order and reports stable blood pressure and stable heart rate |
| Chat.FirstMatchWins | nitya-nadi/src/healthcare-system.jsx:156-163 | the earliest matching keyword group decides the reply, whatever later groups match |
| Chat.NoMatchGivesDefault | nitya-nadi/src/healthcare-system.jsx:164-166 | with no keyword group matching, the reply is the greeting |
| Chat.ClassifyFollowsTable | nitya-nadi/src/healthcare-system.jsx:154-166 | the handler's if/else chain is first-match-wins over the ordered keyword table applied to the lower-cased input |
| Chat.ClassifyIgnoresCase | nitya-nadi/src/healthcare-system.jsx:154 | the reply depends only on the lower-cased input |
| Chat.SymptomRuleComesFirst | nitya-nadi/src/healthcare-system.jsx:156-157 | any input containing "pain" or "headache" gets the symptom questions, whatever else it contains |
| Chat.PainAndBookingExample | nitya-nadi/src/healthcare-system.jsx:156-159 | "I have pain and want to book" gets the symptom questions, not the booking offer |
| Chat.BookingExample | nitya-nadi/src/healthcare-system.jsx:158-159 | "Book" gets the booking offer |
| Chat.EmptyInputExample | nitya-nadi/src/healthcare-system.jsx:164-165 | the empty text classifies as the greeting |
| Chat.Submit | nitya-nadi/src/healthcare-system.jsx:144-172 | a blank input changes nothing, not even the input box; otherwise the raw input is appended as the user's message, followed by the assistant message holding the reply the classifier picks for that input, and the input box is cleared |
| Chat.PairedByExtend | nitya-nadi/src/healthcare-system.jsx:148-168 | appending one question with its answer to a transcript of exchanges gives a transcript of exchanges |
| Chat.SubmitKeepsPairing | nitya-nadi/src/healthcare-system.jsx:146-168 | every accepted input is answered exactly once, right after it, by the reply its text selects |
| Risk.Score | evtG.py:19-32 | the score lies between 0 and 7 and is 0 exactly when every vital is within its threshold |
| Risk.LevelBands | evtG.py:34-39 | score 0 is Stable/Green, 1 to 2 Warning/Orange, 3 and above Critical/Red |
| Risk.LevelMonotone | evtG.py:34-39 | a higher score never gives a milder level |
| Risk.PredictHealthStatus | evtG.py:15-39 | Stable exactly when all vitals are normal; Critical exactly when oxygen is low or blood pressure is high together with an abnormal heart rate or fever; each indicator is listed exactly when its finding holds, in the rule's order |
| Risk.PossibilitiesAreDistinct | evtG.py:24-32 | the indicator list has no repeated entry and at most three |
| Risk.HypoxiaAloneIsCritical | evtG.py:30-39 | oxygen below 94 alone already gives Critical |
| Risk.HeartRateAloneIsUnnamedWarning | evtG.py:23-37 | an abnormal heart rate alone gives Warning with an empty indicator list |
| Risk.ThresholdsAreStrict | evtG.py:23-31 | heart rate 60 or 100, systolic 140, diastolic 90, temperature 100.4 and oxygen 94 add nothing |
| History.Initialize | evtG.py:68-69 | a missing history or a pressed reset gives an empty history; otherwise the history is kept |
| History.Append | evtG.py:81-85 | the new reading is last, at most the single oldest reading is dropped, nothing is dropped below capacity, and a history within 50 stays within 50 |
| History.AppendKeepsWindow | evtG.py:81-85 | appending to the last 50 readings seen gives the last 50 readings including the new one |
| History.StepKeepsWindow | evtG.py:78-85 | feeding the next reading of a stream to the window of the readings before it gives the window of everything up to it |
| History.Monitor | evtG.py:78-99 | after a stream of readings the history is the last 50 of everything seen, and each reading gets the risk rule's assessment |

## Left out

- Rendering, CSS, navigation and view routing of the clinic UI, and the Streamlit layout, charts and metrics: presentation only.
- Login (`handleLogin`): a plain lookup over stored plaintext credentials. The seed users are kept without their credentials.
- The OCR upload stub: it returns fixed values whatever the file is.
- The `setTimeout` delays. `Chat.Submit` delivers the reply at once. In the program, two inputs submitted within one second post both user messages before both replies, and `Chat.SubmitKeepsPairing` does not cover that interleaving.
- React state timing: the summary computed in `addVitals` sees the store before the new reading, and the one computed at login sees no logged-in user. `Trend.GenerateHealthSummary` takes the store and the user's email as explicit arguments instead.
- The clock: today's date is the parameter `today` instead of `new Date().toISOString()`. Date parsing and sorting in the dashboards are left out.
- Form fields coerced from text to numbers. Heart rate is an integer in `Trend.VitalsEntry`.
- JsStrings.ToLower: lower-cases ASCII letters only; JavaScript's `toLowerCase` also maps other Unicode letters.
- JsStrings.LexLess: compares Dafny characters, which equal UTF-16 code units only inside the Basic Multilingual Plane; blood-pressure texts are ASCII.
- Trend.ReadingsOf: a vitals entry always has a patient id. In the program, if no patient is found, the filter would also select entries that have no `patientId`, and no writer creates such entries.
- Risk.PredictHealthStatus: inputs are exact reals, so IEEE rounding right at a threshold is not modelled.
- Random data generation (`random.gauss`), `time.sleep` and the endless refresh loop of the dashboard. `History.Monitor` runs over a given finite stream.
- The pandas DataFrame is modelled as a sequence of readings. Its index, columns and dtype handling are left out.
- `evt2.py` (random data and display only) and `nitya-nadi/src/main.jsx` (React bootstrap) are not part of this model.
