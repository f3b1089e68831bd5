/** Record creation in the clinic UI's in-memory store (`registerPatient`,
    `bookAppointment`, `addVitals`): the caller's object is spread into a new
    record, minted fields overwrite it, and the record is appended to one
    collection of the store. */
module Records {
  import opened Wrappers
  import opened Decimal
  import Trend

  /** A JavaScript value as held in the store's objects. */
  datatype Value =
    | Str(s: string)
    | Num(n: real)
    | Arr(items: seq<Value>)
    | Obj(fields: map<string, Value>)

  /** A JavaScript object: its own enumerable properties and their values. */
  type Record = map<string, Value>

  /** The application's `data` object. */
  datatype Store = Store(
    users: seq<Record>,
    patients: seq<Record>,
    appointments: seq<Record>,
    prescriptions: seq<Record>,
    vitals: seq<Record>)

  // ---------------------------------------------------------------------
  // Identifiers
  // ---------------------------------------------------------------------

  /** Reads the number back out of an identifier with the given prefix. */
  function ParseId(prefix: string, id: string): Option<nat>
  {
    if |prefix| <= |id| && id[..|prefix|] == prefix then Parse(id[|prefix|..]) else None
  }

  /** The identifier of the next record of a collection holding `count`
      records: `prefix` followed by `count + 1` zero-padded to at least three
      digits, so "P001" for the first patient and "P1000" for the thousandth. */
  function MintId(prefix: string, count: nat): (id: string)
    ensures |id| >= |prefix| + 3 && id[..|prefix|] == prefix
    ensures ParseId(prefix, id) == Some(count + 1)
    ensures count + 1 < 1000 ==> |id| == |prefix| + 3
  {
    var digits := PadStart(ToDecimal(count + 1), 3, '0');
    ParsePadded(count + 1, 3);
    assert count + 1 < 1000 ==> |ToDecimal(count + 1)| <= 3 by {
      if count + 1 < 1000 {
        ToDecimalShort(count + 1);
      }
    }
    assert (prefix + digits)[|prefix|..] == digits;
    prefix + digits
  }

  /** Numbers below 1000 have at most three decimal digits. */
  lemma {:induction false} ToDecimalShort(n: nat)
    requires n < 1000
    ensures |ToDecimal(n)| <= 3
  {
    if n >= 10 {
      ToDecimalShort(n / 10);
      if n / 10 >= 10 {
        assert |ToDecimal(n / 10 / 10)| == 1;
      }
    }
  }

  /** Different counts give different identifiers. */
  lemma MintIdInjective(prefix: string, a: nat, b: nat)
    requires MintId(prefix, a) == MintId(prefix, b)
    ensures a == b
  {
    assert ParseId(prefix, MintId(prefix, a)) == Some(a + 1);
    assert ParseId(prefix, MintId(prefix, b)) == Some(b + 1);
  }

  /** `rec` carries the identifier minted when its collection held `count`
      records. */
  ghost predicate HasMintedId(rec: Record, prefix: string, count: nat)
  {
    "id" in rec && rec["id"] == Str(MintId(prefix, count))
  }

  /** Record `i` of the collection carries the identifier minted when the
      collection held `i` records. */
  ghost predicate SequentialIds(records: seq<Record>, prefix: string)
  {
    forall i :: 0 <= i < |records| ==> HasMintedId(records[i], prefix, i)
  }

  ghost predicate UniqueIds(records: seq<Record>)
  {
    forall i, j :: 0 <= i < j < |records| && "id" in records[i] && "id" in records[j]
      ==> records[i]["id"] != records[j]["id"]
  }

  lemma SequentialIdsAreUnique(records: seq<Record>, prefix: string)
    requires SequentialIds(records, prefix)
    ensures UniqueIds(records)
  {
    forall i, j | 0 <= i < j < |records| && "id" in records[i] && "id" in records[j]
      ensures records[i]["id"] != records[j]["id"]
    {
      assert HasMintedId(records[i], prefix, i) && HasMintedId(records[j], prefix, j);
      assert ParseId(prefix, MintId(prefix, i)) != ParseId(prefix, MintId(prefix, j));
    }
  }

  // ---------------------------------------------------------------------
  // Appending a new record
  // ---------------------------------------------------------------------

  /** `after` is `before` with one record added at the end, built as
      `{ ...data, ...minted }`: it has the keys of both objects, the minted
      value wherever `minted` has the key, and the caller's value elsewhere. */
  ghost predicate AppendsSpread(before: seq<Record>, after: seq<Record>, data: Record, minted: Record)
  {
    && |after| == |before| + 1
    && after[..|before|] == before
    && var added := after[|before|];
    && added.Keys == data.Keys + minted.Keys
    && (forall k :: k in minted ==> added[k] == minted[k])
    && (forall k :: k in data && k !in minted ==> added[k] == data[k])
  }

  /** Appends `{ ...data, ...minted }` to `records`. */
  function AppendSpread(records: seq<Record>, data: Record, minted: Record): (r: seq<Record>)
    ensures AppendsSpread(records, r, data, minted)
  {
    var r := records + [data + minted];
    assert r[..|records|] == records;
    r
  }

  /** Appending a record that carries the next minted identifier keeps a
      collection's identifiers sequential. */
  lemma AppendKeepsSequentialIds(records: seq<Record>, prefix: string, data: Record, minted: Record)
    requires HasMintedId(minted, prefix, |records|)
    ensures SequentialIds(records, prefix) ==> SequentialIds(AppendSpread(records, data, minted), prefix)
  {
    var r := AppendSpread(records, data, minted);
    assert r[|records|]["id"] == minted["id"];
    ExtendKeepsSequentialIds(records, r, prefix);
  }

  /** Extending a collection by one record that carries the next minted
      identifier keeps every earlier identifier where it was. */
  lemma ExtendKeepsSequentialIds(before: seq<Record>, after: seq<Record>, prefix: string)
    requires |after| == |before| + 1 && after[..|before|] == before
    requires HasMintedId(after[|before|], prefix, |before|)
    ensures SequentialIds(before, prefix) ==> SequentialIds(after, prefix)
  {
    if SequentialIds(before, prefix) {
      forall i | 0 <= i < |after| ensures HasMintedId(after[i], prefix, i) {
        if i < |before| {
          KeptRecordKeepsId(before, after, prefix, i);
        }
      }
    }
  }

  /** One earlier record of `ExtendKeepsSequentialIds`, kept in place. */
  lemma KeptRecordKeepsId(before: seq<Record>, after: seq<Record>, prefix: string, i: nat)
    requires i < |before| <= |after| && after[..|before|] == before
    requires HasMintedId(before[i], prefix, i)
    ensures HasMintedId(after[i], prefix, i)
  {
    assert after[i] == after[..|before|][i];
  }

  /** `registerPatient`, with today's date (from the clock) as a parameter. */
  function RegisterPatient(store: Store, patientData: Record, today: string): (r: Store)
    ensures AppendsSpread(store.patients, r.patients, patientData, map["id" := Str(MintId("P", |store.patients|)), "registrationDate" := Str(today), "medicalHistory" := Arr([])])
    ensures r.users == store.users && r.appointments == store.appointments
      && r.prescriptions == store.prescriptions && r.vitals == store.vitals
    ensures SequentialIds(store.patients, "P") ==> SequentialIds(r.patients, "P")
  {
    var minted := map["id" := Str(MintId("P", |store.patients|)), "registrationDate" := Str(today), "medicalHistory" := Arr([])];
    assert HasMintedId(minted, "P", |store.patients|);
    AppendKeepsSequentialIds(store.patients, "P", patientData, minted);
    store.(patients := AppendSpread(store.patients, patientData, minted))
  }

  /** `bookAppointment`: every new appointment starts out scheduled. */
  function BookAppointment(store: Store, appointmentData: Record): (r: Store)
    ensures AppendsSpread(store.appointments, r.appointments, appointmentData,
      map["id" := Str(MintId("A", |store.appointments|)), "status" := Str("scheduled")])
    ensures r.users == store.users && r.patients == store.patients
      && r.prescriptions == store.prescriptions && r.vitals == store.vitals
    ensures SequentialIds(store.appointments, "A") ==> SequentialIds(r.appointments, "A")
  {
    var minted := map["id" := Str(MintId("A", |store.appointments|)), "status" := Str("scheduled")];
    assert HasMintedId(minted, "A", |store.appointments|);
    AppendKeepsSequentialIds(store.appointments, "A", appointmentData, minted);
    store.(appointments := AppendSpread(store.appointments, appointmentData, minted))
  }

  /** `addVitals`, with today's date (from the clock) as a parameter. */
  function AddVitals(store: Store, vitalsData: Record, today: string): (r: Store)
    ensures AppendsSpread(store.vitals, r.vitals, vitalsData, map["id" := Str(MintId("V", |store.vitals|)), "date" := Str(today)])
    ensures r.users == store.users && r.patients == store.patients
      && r.appointments == store.appointments && r.prescriptions == store.prescriptions
    ensures SequentialIds(store.vitals, "V") ==> SequentialIds(r.vitals, "V")
  {
    var minted := map["id" := Str(MintId("V", |store.vitals|)), "date" := Str(today)];
    assert HasMintedId(minted, "V", |store.vitals|);
    AppendKeepsSequentialIds(store.vitals, "V", vitalsData, minted);
    store.(vitals := AppendSpread(store.vitals, vitalsData, minted))
  }

  // ---------------------------------------------------------------------
  // Every reachable store keeps its identifiers unique
  // ---------------------------------------------------------------------

  datatype Action =
    | Register(patientData: Record, today: string)
    | Book(appointmentData: Record)
    | AddReading(vitalsData: Record, today: string)

  function Apply(store: Store, action: Action): Store
  {
    match action
    case Register(d, today) => RegisterPatient(store, d, today)
    case Book(d) => BookAppointment(store, d)
    case AddReading(d, today) => AddVitals(store, d, today)
  }

  function Run(store: Store, actions: seq<Action>): Store
    decreases |actions|
  {
    if |actions| == 0 then store else Run(Apply(store, actions[0]), actions[1..])
  }

  /** Patients, appointments and vitals each carry their minted identifiers. */
  ghost predicate WellMinted(store: Store)
  {
    && SequentialIds(store.patients, "P")
    && SequentialIds(store.appointments, "A")
    && SequentialIds(store.vitals, "V")
  }

  /** Any sequence of registrations, bookings and readings keeps the minted
      identifiers in place, so no two patients, appointments or readings
      share an identifier. */
  lemma {:induction false} RunKeepsIdsUnique(store: Store, actions: seq<Action>)
    requires WellMinted(store)
    ensures WellMinted(Run(store, actions))
    ensures UniqueIds(Run(store, actions).patients)
    ensures UniqueIds(Run(store, actions).appointments)
    ensures UniqueIds(Run(store, actions).vitals)
    decreases |actions|
  {
    var end := Run(store, actions);
    if |actions| > 0 {
      RunKeepsIdsUnique(Apply(store, actions[0]), actions[1..]);
    }
    SequentialIdsAreUnique(end.patients, "P");
    SequentialIdsAreUnique(end.appointments, "A");
    SequentialIdsAreUnique(end.vitals, "V");
  }

  // ---------------------------------------------------------------------
  // The seed data
  // ---------------------------------------------------------------------

  /** A stored vitals entry as the object the store holds. */
  function VitalsObject(v: Trend.VitalsEntry): Record
  {
    map[
      "id" := Str(v.id), "patientId" := Str(v.patientId), "date" := Str(v.date),
      "bloodPressure" := Str(v.bloodPressure), "heartRate" := Num(v.heartRate as real),
      "temperature" := Num(v.temperature), "oxygenLevel" := Num(v.oxygenLevel as real),
      "weight" := Num(v.weight), "notes" := Str(v.notes)]
  }

  /** The store the application starts with. Users are kept without their
      credentials. */
  function SeedStore(): Store
  {
    Store(
      [ map["id" := Num(1.0), "role" := Str("doctor"), "name" := Str("Dr. Sarah Johnson"),
            "specialty" := Str("General Medicine")],
        map["id" := Num(2.0), "role" := Str("patient"), "name" := Str("John Doe"),
            "age" := Num(35.0), "gender" := Str("Male")] ],
      [ map["id" := Str("P001"), "name" := Str("John Doe"), "age" := Num(35.0), "gender" := Str("Male"),
            "email" := Str("patient@email.com"), "phone" := Str("+1-555-0123"),
            "address" := Str("123 Health St, Medical City"), "bloodType" := Str("O+"),
            "allergies" := Arr([Str("Penicillin")]),
            "emergencyContact" := Str("Jane Doe - 555-0124"), "registrationDate" := Str("2024-01-15"),
            "medicalHistory" := Arr([
              Obj(map["date" := Str("2024-01-20"), "condition" := Str("Hypertension"),
                      "notes" := Str("Prescribed medication")]),
              Obj(map["date" := Str("2023-12-10"), "condition" := Str("Annual Checkup"),
                      "notes" := Str("All clear")])])] ],
      [ map["id" := Str("A001"), "patientId" := Str("P001"), "patientName" := Str("John Doe"),
            "doctorId" := Num(1.0), "doctorName" := Str("Dr. Sarah Johnson"), "date" := Str("2026-02-10"),
            "time" := Str("10:00 AM"), "status" := Str("scheduled"), "reason" := Str("Follow-up consultation")] ],
      [ map["id" := Str("RX001"), "patientId" := Str("P001"), "patientName" := Str("John Doe"),
            "doctorName" := Str("Dr. Sarah Johnson"), "date" := Str("2024-01-20"),
            "medications" := Arr([
              Obj(map["name" := Str("Lisinopril"), "dosage" := Str("10mg"), "frequency" := Str("Once daily"),
                      "duration" := Str("30 days")])]),
            "diagnosis" := Str("Hypertension")] ],
      [ VitalsObject(Trend.SeedVitals[0]), VitalsObject(Trend.SeedVitals[1]) ])
  }

  lemma MintIdExamples()
    ensures MintId("P", 0) == "P001"
    ensures MintId("A", 0) == "A001"
    ensures MintId("V", 0) == "V001" && MintId("V", 1) == "V002"
  {
    assert ToDecimal(1) == "1" && ToDecimal(2) == "2";
    assert PadStart("1", 3, '0') == "001";
    assert PadStart("2", 3, '0') == "002";
  }

  /** The seed data already follows the minting scheme, so identifiers stay
      unique from the first start of the application on. */
  lemma SeedIsWellMinted()
    ensures WellMinted(SeedStore())
  {
    MintIdExamples();
  }
}
