/**
 * What the SQL script `combined_sql` of lambda/lambda_function.py does to
 * the warehouse: from the staged records of one hour it inserts new rows
 * into the patient, hospital and device dimensions and into `vitals_fact`.
 * Every step only appends; each reads the tables as the previous one left them.
 */
module EtlScript {
  import opened Wrappers
  import opened Decimal

  // ---------------------------------------------------------------------------
  // Rows
  // ---------------------------------------------------------------------------

  /** One row of `staging_vitals`, its 23 columns in table order. */
  datatype StagingRecord = StagingRecord(
    patientId: string, patientName: string, age: int, gender: string,
    hospitalId: string, hospitalName: string, roomNumber: int,
    deviceId: string, deviceType: string, department: string,
    heartRate: int, spo2: int, bpSys: int, bpDia: int, temp: real,
    respRate: int, bloodSugar: real, oxygenFlowRate: real, ecgLeadIi: real,
    timestamp: string, eventType: string, alertFlag: int, ingestionTime: string)

  /** The column list of `CREATE TEMP TABLE staging_vitals`. */
  const StagingColumns: seq<string> := [
    "patient_id", "patient_name", "age", "gender",
    "hospital_id", "hospital_name", "room_number",
    "device_id", "device_type", "department",
    "heart_rate", "spo2", "bp_sys", "bp_dia", "temp",
    "resp_rate", "blood_sugar", "oxygen_flow_rate", "ecg_lead_ii",
    "timestamp", "event_type", "alert_flag", "ingestion_time"]

  datatype PatientRow = PatientRow(patientId: int, patientName: string, age: int, gender: string)

  /** `room_number` is stored as its VARCHAR rendering. */
  datatype HospitalRow = HospitalRow(hospitalId: int, hospitalName: string, roomNumber: string, department: string)

  datatype DeviceRow = DeviceRow(deviceId: int, deviceType: string)

  datatype FactRow = FactRow(
    patientId: int, hospitalId: int, deviceId: int,
    timestamp: int, heartRate: int, respRate: int, spo2: int,
    bpSys: int, bpDia: int, bloodSugar: int, temp: real,
    oxygenFlowRate: real, ecgLeadIi: real, ingestionTime: int,
    eventType: string, alertFlag: string)

  /**
   * The conversions the engine performs and this model does not interpret:
   * ISO timestamp text to epoch milliseconds, and the numeric casts
   * `CAST(x AS INTEGER)`, `NUMERIC(4,1)` and `NUMERIC(4,2)`.
   */
  datatype Casts = Casts(epochMs: string -> int, toInteger: real -> int,
                         toNumeric41: real -> real, toNumeric42: real -> real)

  // ---------------------------------------------------------------------------
  // Natural keys and projections
  // ---------------------------------------------------------------------------

  /** `REPLACE(s, letter, '')`: every occurrence of the letter goes, wherever it stands. */
  function StripLetter(s: string, letter: char): (r: string)
    ensures letter !in r
    ensures forall c :: c != letter ==> multiset(r)[c] == multiset(s)[c]
  {
    if s == [] then []
    else
      assert s == [s[0]] + s[1..];
      (if s[0] == letter then [] else [s[0]]) + StripLetter(s[1..], letter)
  }

  /**
   * `REPLACE` keeps the order of what it keeps: stripping a concatenation
   * strips each part, and one character is dropped exactly when it is the letter.
   */
  lemma {:induction false} StripLetterConcat(a: string, b: string, letter: char)
    ensures StripLetter(a + b, letter) == StripLetter(a, letter) + StripLetter(b, letter)
    ensures |a| == 1 ==> StripLetter(a, letter) == if a[0] == letter then [] else a
  {
    if a != [] {
      var head := if a[0] == letter then [] else [a[0]];
      assert (a + b)[0] == a[0] && (a + b)[1..] == a[1..] + b;
      StripLetterConcat(a[1..], b, letter);
      assert StripLetter(a + b, letter) == head + StripLetter(a[1..] + b, letter);
      assert StripLetter(a, letter) == head + StripLetter(a[1..], letter);
      assert head + (StripLetter(a[1..], letter) + StripLetter(b, letter))
          == (head + StripLetter(a[1..], letter)) + StripLetter(b, letter);
      if |a| == 1 {
        assert a[1..] == [] && a == [a[0]];
      }
    } else {
      assert a + b == b;
    }
  }

  lemma {:induction false} StripOnlyLetters(s: string, letter: char)
    ensures (forall i :: 0 <= i < |s| ==> s[i] == letter) ==> StripLetter(s, letter) == []
  {
    if s != [] {
      StripOnlyLetters(s[1..], letter);
    }
  }

  /** `CAST(REPLACE(naturalKey, letter, '') AS INTEGER)`; None is the cast error that fails the script. */
  function SurrogateKey(naturalKey: string, letter: char): (r: Option<int>)
    ensures r.Some? ==> IntMin <= r.value <= IntMax
    ensures (forall i :: 0 <= i < |naturalKey| ==> naturalKey[i] == letter) ==> r.None?
  {
    StripOnlyLetters(naturalKey, letter);
    ParseInt(StripLetter(naturalKey, letter))
  }

  lemma {:induction false} StripAbsentLetter(s: string, letter: char)
    requires letter !in s
    ensures StripLetter(s, letter) == s
  {
    if s != [] {
      StripAbsentLetter(s[1..], letter);
    }
  }

  /** A natural key written as the letter then the number, as the producer writes it, maps to that number. */
  lemma SurrogateKeyOfNaturalKey(letter: char, n: nat)
    requires !IsDigit(letter) && n <= IntMax
    ensures SurrogateKey([letter] + NatToString(n), letter) == Some(n)
  {
    var digits := NatToString(n);
    assert letter !in digits by {
      forall i | 0 <= i < |digits| ensures digits[i] != letter {
        assert IsDigit(digits[i]);
      }
    }
    StripAbsentLetter(digits, letter);
    var key := [letter] + digits;
    assert key[0] == letter && key[1..] == digits;
    assert StripLetter(key, letter) == digits;
    ParseIntRoundTrip(n);
  }

  /** `CASE WHEN alert_flag = 1 THEN 'Yes' ELSE 'No' END`. */
  function AlertLabel(flag: int): (text: string)
    ensures text == "Yes" <==> flag == 1
    ensures text == "No" <==> flag != 1
  {
    if flag == 1 then "Yes" else "No"
  }

  /** A row of step 2's SELECT: the stripped, cast patient id and the staged attributes. */
  function PatientOf(s: StagingRecord): (r: Option<PatientRow>)
    ensures r.Some? <==> SurrogateKey(s.patientId, 'P').Some?
    ensures r.Some? ==> && r.value.patientId == SurrogateKey(s.patientId, 'P').value
                        && r.value.patientName == s.patientName
                        && r.value.age == s.age
                        && r.value.gender == s.gender
  {
    match SurrogateKey(s.patientId, 'P')
    case None => None
    case Some(id) => Some(PatientRow(id, s.patientName, s.age, s.gender))
  }

  /** A row of step 3's SELECT; `room_number` goes through `CAST(... AS VARCHAR(50))`. */
  function HospitalOf(s: StagingRecord): (r: Option<HospitalRow>)
    ensures r.Some? <==> SurrogateKey(s.hospitalId, 'H').Some?
    ensures r.Some? ==> && r.value.hospitalId == SurrogateKey(s.hospitalId, 'H').value
                        && r.value.hospitalName == s.hospitalName
                        && r.value.roomNumber == IntToString(s.roomNumber)
                        && r.value.department == s.department
  {
    match SurrogateKey(s.hospitalId, 'H')
    case None => None
    case Some(id) => Some(HospitalRow(id, s.hospitalName, IntToString(s.roomNumber), s.department))
  }

  /** A row of step 4's SELECT. */
  function DeviceOf(s: StagingRecord): (r: Option<DeviceRow>)
    ensures r.Some? <==> SurrogateKey(s.deviceId, 'D').Some?
    ensures r.Some? ==> && r.value.deviceId == SurrogateKey(s.deviceId, 'D').value
                        && r.value.deviceType == s.deviceType
  {
    match SurrogateKey(s.deviceId, 'D')
    case None => None
    case Some(id) => Some(DeviceRow(id, s.deviceType))
  }

  /** The fact row of step 5's SELECT for one staged record. */
  function FactOf(casts: Casts, s: StagingRecord): (r: Option<FactRow>)
    ensures r.Some? <==> && SurrogateKey(s.patientId, 'P').Some?
                         && SurrogateKey(s.hospitalId, 'H').Some?
                         && SurrogateKey(s.deviceId, 'D').Some?
    ensures r.Some? ==> && FactKey(r.value) == (SurrogateKey(s.patientId, 'P').value, casts.epochMs(s.timestamp))
                        && r.value.hospitalId == SurrogateKey(s.hospitalId, 'H').value
                        && r.value.deviceId == SurrogateKey(s.deviceId, 'D').value
                        && r.value.alertFlag == AlertLabel(s.alertFlag)
    ensures r.Some? ==> && r.value.ingestionTime == casts.epochMs(s.ingestionTime)
                        && r.value.heartRate == s.heartRate && r.value.respRate == s.respRate
                        && r.value.spo2 == s.spo2 && r.value.bpSys == s.bpSys && r.value.bpDia == s.bpDia
                        && r.value.bloodSugar == casts.toInteger(s.bloodSugar)
                        && r.value.temp == casts.toNumeric41(s.temp)
                        && r.value.oxygenFlowRate == casts.toNumeric41(s.oxygenFlowRate)
                        && r.value.ecgLeadIi == casts.toNumeric42(s.ecgLeadIi)
                        && r.value.eventType == s.eventType
  {
    match (SurrogateKey(s.patientId, 'P'), SurrogateKey(s.hospitalId, 'H'), SurrogateKey(s.deviceId, 'D'))
    case (Some(p), Some(h), Some(d)) =>
      Some(FactRow(p, h, d, casts.epochMs(s.timestamp), s.heartRate, s.respRate, s.spo2,
                   s.bpSys, s.bpDia, casts.toInteger(s.bloodSugar), casts.toNumeric41(s.temp),
                   casts.toNumeric41(s.oxygenFlowRate), casts.toNumeric42(s.ecgLeadIi),
                   casts.epochMs(s.ingestionTime), s.eventType, AlertLabel(s.alertFlag)))
    case _ => None
  }

  function PatientKey(r: PatientRow): int { r.patientId }
  function HospitalKey(r: HospitalRow): int { r.hospitalId }
  function DeviceKey(r: DeviceRow): int { r.deviceId }

  /** The anti-join key of `vitals_fact`: patient id and epoch-millisecond timestamp. */
  function FactKey(r: FactRow): (int, int) { (r.patientId, r.timestamp) }

  // ---------------------------------------------------------------------------
  // Set operations behind the INSERT ... SELECT statements
  // ---------------------------------------------------------------------------

  /**
   * The staging table under a projection; None when the projection fails on
   * any record, since a failing CAST fails the whole statement.
   */
  function ProjectAll<R>(staging: seq<StagingRecord>, project: StagingRecord -> Option<R>): (r: Option<seq<R>>)
    ensures r.Some? <==> forall i :: 0 <= i < |staging| ==> project(staging[i]).Some?
    ensures r.Some? ==> |r.value| == |staging| && forall i :: 0 <= i < |staging| ==> project(staging[i]) == Some(r.value[i])
  {
    if staging == [] then Some([])
    else
      match (project(staging[0]), ProjectAll(staging[1..], project))
      case (Some(x), Some(rest)) =>
        assert forall i :: 1 <= i < |staging| ==> staging[i] == staging[1..][i - 1];
        Some([x] + rest)
      case (None, _) => None
      case (_, None) =>
        assert forall i :: 1 <= i < |staging| ==> staging[i] == staging[1..][i - 1];
        None
  }

  function KeySet<R(==), K(==)>(rows: seq<R>, key: R -> K): set<K> {
    set r | r in rows :: key(r)
  }

  /** The rows whose key is not in `present`, in order and with their multiplicity. */
  function WithoutKeys<R(==,!new), K(==)>(rows: seq<R>, key: R -> K, present: set<K>): (r: seq<R>)
    ensures forall x :: multiset(r)[x] == if key(x) in present then 0 else multiset(rows)[x]
  {
    if rows == [] then []
    else
      assert rows == [rows[0]] + rows[1..];
      (if key(rows[0]) in present then [] else [rows[0]]) + WithoutKeys(rows[1..], key, present)
  }

  predicate NoDuplicates<R(==)>(s: seq<R>) {
    forall i, j :: 0 <= i < j < |s| ==> s[i] != s[j]
  }

  /** `SELECT DISTINCT`: each row once, at its first occurrence. */
  function Distinct<R(==,!new)>(s: seq<R>): (r: seq<R>)
    ensures forall x :: x in r <==> x in s
    ensures NoDuplicates(r)
  {
    if s == [] then []
    else
      var init := Distinct(s[..|s| - 1]);
      assert s == s[..|s| - 1] + [s[|s| - 1]];
      if s[|s| - 1] in init then init else init + [s[|s| - 1]]
  }

  /**
   * One dimension step: `INSERT INTO dim SELECT DISTINCT <tuple> FROM staging
   * WHERE <id> NOT IN (SELECT id FROM dim)`. The rows it inserts, or None
   * when an id fails to cast.
   */
  function DimensionStep<R(==,!new)>(table: seq<R>, staging: seq<StagingRecord>,
                                project: StagingRecord -> Option<R>, id: R -> int): (r: Option<seq<R>>)
    ensures r.Some? <==> forall i :: 0 <= i < |staging| ==> project(staging[i]).Some?
    ensures r.Some? ==> NoDuplicates(r.value)
  {
    match ProjectAll(staging, project)
    case None => None
    case Some(candidates) => Some(Distinct(WithoutKeys(candidates, id, KeySet(table, id))))
  }

  /** The rows of step 5's SELECT, one per staged record. */
  function FactRows(staging: seq<StagingRecord>, casts: Casts): Option<seq<FactRow>> {
    ProjectAll(staging, s => FactOf(casts, s))
  }

  /**
   * Step 5: every staged record whose (patient id, timestamp) key is absent
   * from `vitals_fact` as it stood before the step (the LEFT JOIN ... IS NULL
   * anti-join); no DISTINCT. None when an id fails to cast.
   */
  function FactStep(facts: seq<FactRow>, staging: seq<StagingRecord>, casts: Casts): (r: Option<seq<FactRow>>)
    ensures r.Some? <==> forall i :: 0 <= i < |staging| ==> FactOf(casts, staging[i]).Some?
    ensures r.Some? ==> forall x :: x in r.value ==> FactKey(x) !in KeySet(facts, FactKey)
  {
    match FactRows(staging, casts)
    case None => None
    case Some(rows) =>
      WithoutKeysMembers(rows, FactKey, KeySet(facts, FactKey));
      Some(WithoutKeys(rows, FactKey, KeySet(facts, FactKey)))
  }

  // ---------------------------------------------------------------------------
  // The whole script on table values
  // ---------------------------------------------------------------------------

  datatype Tables = Tables(patients: seq<PatientRow>, hospitals: seq<HospitalRow>,
                           devices: seq<DeviceRow>, facts: seq<FactRow>)

  datatype Step = PatientInsert | HospitalInsert | DeviceInsert | FactInsert

  /** The script ran to the end, or the step whose CAST failed ended it. */
  datatype ScriptOutcome = Completed | CastFailed(step: Step)

  /** Steps 2 to 5 in order, stopping at the first one that fails. */
  function RunScript(t: Tables, staging: seq<StagingRecord>, casts: Casts): (r: (Tables, ScriptOutcome))
    ensures t.patients <= r.0.patients && t.hospitals <= r.0.hospitals
    ensures t.devices <= r.0.devices && t.facts <= r.0.facts
  {
    match DimensionStep(t.patients, staging, PatientOf, PatientKey)
    case None => (t, CastFailed(PatientInsert))
    case Some(newPatients) =>
      var t1 := t.(patients := t.patients + newPatients);
      match DimensionStep(t1.hospitals, staging, HospitalOf, HospitalKey)
      case None => (t1, CastFailed(HospitalInsert))
      case Some(newHospitals) =>
        var t2 := t1.(hospitals := t1.hospitals + newHospitals);
        match DimensionStep(t2.devices, staging, DeviceOf, DeviceKey)
        case None => (t2, CastFailed(DeviceInsert))
        case Some(newDevices) =>
          var t3 := t2.(devices := t2.devices + newDevices);
          match FactStep(t3.facts, staging, casts)
          case None => (t3, CastFailed(FactInsert))
          case Some(newFacts) => (t3.(facts := t3.facts + newFacts), Completed)
  }

  // ---------------------------------------------------------------------------
  // The warehouse, changed in place statement by statement
  // ---------------------------------------------------------------------------

  class Warehouse {
    var patients: seq<PatientRow>
    var hospitals: seq<HospitalRow>
    var devices: seq<DeviceRow>
    var facts: seq<FactRow>

    function State(): Tables
      reads this
    {
      Tables(patients, hospitals, devices, facts)
    }

    constructor (initial: Tables)
      ensures State() == initial
    {
      patients := initial.patients;
      hospitals := initial.hospitals;
      devices := initial.devices;
      facts := initial.facts;
    }

    /** Step 2, the patient dimension. */
    method InsertPatients(staging: seq<StagingRecord>) returns (ok: bool)
      modifies this
      ensures var step := DimensionStep(old(patients), staging, PatientOf, PatientKey);
              && ok == step.Some?
              && patients == old(patients) + (if ok then step.value else [])
      ensures hospitals == old(hospitals) && devices == old(devices) && facts == old(facts)
    {
      var step := DimensionStep(patients, staging, PatientOf, PatientKey);
      ok := step.Some?;
      if ok {
        patients := patients + step.value;
      }
    }

    /** Step 3, the hospital dimension. */
    method InsertHospitals(staging: seq<StagingRecord>) returns (ok: bool)
      modifies this
      ensures var step := DimensionStep(old(hospitals), staging, HospitalOf, HospitalKey);
              && ok == step.Some?
              && hospitals == old(hospitals) + (if ok then step.value else [])
      ensures patients == old(patients) && devices == old(devices) && facts == old(facts)
    {
      var step := DimensionStep(hospitals, staging, HospitalOf, HospitalKey);
      ok := step.Some?;
      if ok {
        hospitals := hospitals + step.value;
      }
    }

    /** Step 4, the device dimension. */
    method InsertDevices(staging: seq<StagingRecord>) returns (ok: bool)
      modifies this
      ensures var step := DimensionStep(old(devices), staging, DeviceOf, DeviceKey);
              && ok == step.Some?
              && devices == old(devices) + (if ok then step.value else [])
      ensures patients == old(patients) && hospitals == old(hospitals) && facts == old(facts)
    {
      var step := DimensionStep(devices, staging, DeviceOf, DeviceKey);
      ok := step.Some?;
      if ok {
        devices := devices + step.value;
      }
    }

    /** Step 5, the fact table. */
    method InsertFacts(staging: seq<StagingRecord>, casts: Casts) returns (ok: bool)
      modifies this
      ensures var step := FactStep(old(facts), staging, casts);
              && ok == step.Some?
              && facts == old(facts) + (if ok then step.value else [])
      ensures patients == old(patients) && hospitals == old(hospitals) && devices == old(devices)
    {
      var step := FactStep(facts, staging, casts);
      ok := step.Some?;
      if ok {
        facts := facts + step.value;
      }
    }

    /** Runs steps 2 to 5 against the staged records, stopping at the first failing step. */
    method Run(staging: seq<StagingRecord>, casts: Casts) returns (outcome: ScriptOutcome)
      modifies this
      ensures (State(), outcome) == RunScript(old(State()), staging, casts)
    {
      ghost var t := State();
      ghost var newPatients := DimensionStep(t.patients, staging, PatientOf, PatientKey);
      var ok := InsertPatients(staging);
      if !ok {
        assert State() == t && newPatients.None?;
        return CastFailed(PatientInsert);
      }
      ghost var t1 := State();
      assert t1 == t.(patients := t.patients + newPatients.value);
      ghost var newHospitals := DimensionStep(t1.hospitals, staging, HospitalOf, HospitalKey);
      ok := InsertHospitals(staging);
      if !ok {
        assert State() == t1 && newHospitals.None?;
        return CastFailed(HospitalInsert);
      }
      ghost var t2 := State();
      assert t2 == t1.(hospitals := t1.hospitals + newHospitals.value);
      ghost var newDevices := DimensionStep(t2.devices, staging, DeviceOf, DeviceKey);
      ok := InsertDevices(staging);
      if !ok {
        assert State() == t2 && newDevices.None?;
        return CastFailed(DeviceInsert);
      }
      ghost var t3 := State();
      assert t3 == t2.(devices := t2.devices + newDevices.value);
      ghost var newFacts := FactStep(t3.facts, staging, casts);
      ok := InsertFacts(staging, casts);
      // Step 5 casts only ids that steps 2 to 4 have already cast.
      assert ok;
      assert State() == t3.(facts := t3.facts + newFacts.value);
      return Completed;
    }
  }

  // ---------------------------------------------------------------------------
  // What the steps insert, and running the script twice
  // ---------------------------------------------------------------------------

  /**
   * A dimension step inserts exactly the distinct tuples drawn from staging
   * whose id is not in the table as it stood before the step, each once.
   * Distinctness is over the whole tuple, not over the id.
   */
  lemma DimensionStepInsertsExactly<R(!new)>(table: seq<R>, staging: seq<StagingRecord>,
                                                project: StagingRecord -> Option<R>, id: R -> int)
    requires DimensionStep(table, staging, project, id).Some?
    ensures var inserted := DimensionStep(table, staging, project, id).value;
            && NoDuplicates(inserted)
            && forall x :: x in inserted <==>
                 (exists i :: 0 <= i < |staging| && project(staging[i]) == Some(x)) && id(x) !in KeySet(table, id)
  {
    var candidates := ProjectAll(staging, project).value;
    ProjectAllMembers(staging, project);
    WithoutKeysMembers(candidates, id, KeySet(table, id));
  }

  /** The rows of a projection that succeeded are exactly the projections of staged records. */
  lemma ProjectAllMembers<R(!new)>(staging: seq<StagingRecord>, project: StagingRecord -> Option<R>)
    requires ProjectAll(staging, project).Some?
    ensures forall x :: x in ProjectAll(staging, project).value <==>
                          exists i :: 0 <= i < |staging| && project(staging[i]) == Some(x)
  {
    var rows := ProjectAll(staging, project).value;
    forall x | x in rows ensures exists i :: 0 <= i < |staging| && project(staging[i]) == Some(x) {
      var i :| 0 <= i < |rows| && rows[i] == x;
      assert project(staging[i]) == Some(x);
    }
    forall x, i | 0 <= i < |staging| && project(staging[i]) == Some(x) ensures x in rows {
      assert rows[i] == x;
    }
  }

  /**
   * Two staged records with the same id but different attributes both become
   * dimension rows when the id is new: the table gets two rows with that id.
   */
  lemma DimensionIdsNotUnique<R(!new)>(table: seq<R>, staging: seq<StagingRecord>,
                                          project: StagingRecord -> Option<R>, id: R -> int, i: int, j: int)
    requires DimensionStep(table, staging, project, id).Some?
    requires 0 <= i < |staging| && 0 <= j < |staging|
    requires project(staging[i]).Some? && project(staging[j]).Some?
    requires project(staging[i]) != project(staging[j])
    requires id(project(staging[i]).value) == id(project(staging[j]).value)
    requires id(project(staging[i]).value) !in KeySet(table, id)
    ensures var after := table + DimensionStep(table, staging, project, id).value;
            exists k, l :: 0 <= k < l < |after| && after[k] != after[l] && id(after[k]) == id(after[l])
  {
    DimensionStepInsertsExactly(table, staging, project, id);
    var inserted := DimensionStep(table, staging, project, id).value;
    var a, b := project(staging[i]).value, project(staging[j]).value;
    assert a in inserted && b in inserted;
    TwoRowsSharingId(table + inserted, id, a, b);
  }

  /** Two different rows with the same id, both in `rows`, sit at two positions of it. */
  lemma TwoRowsSharingId<R>(rows: seq<R>, id: R -> int, a: R, b: R)
    requires a in rows && b in rows && a != b && id(a) == id(b)
    ensures exists k, l :: 0 <= k < l < |rows| && rows[k] != rows[l] && id(rows[k]) == id(rows[l])
  {
    var k :| 0 <= k < |rows| && rows[k] == a;
    var l :| 0 <= l < |rows| && rows[l] == b;
    if k < l {
      assert rows[k] != rows[l] && id(rows[k]) == id(rows[l]);
    } else {
      assert rows[l] != rows[k] && id(rows[l]) == id(rows[k]);
    }
  }

  /**
   * Step 5 inserts every projected staged row whose (patient id, timestamp)
   * key is absent from `vitals_fact` as it stood before the step, as many
   * times as it was staged, and no other row.
   */
  lemma FactStepInsertsExactly(facts: seq<FactRow>, staging: seq<StagingRecord>, casts: Casts)
    requires FactStep(facts, staging, casts).Some?
    ensures FactRows(staging, casts).Some?
    ensures var inserted := FactStep(facts, staging, casts).value;
            forall row :: multiset(inserted)[row]
                          == if FactKey(row) in KeySet(facts, FactKey) then 0 else multiset(FactRows(staging, casts).value)[row]
  {
  }

  /** Two identical staged records whose key is new both become fact rows: there is no DISTINCT. */
  lemma FactStepKeepsDuplicates(facts: seq<FactRow>, staging: seq<StagingRecord>, casts: Casts, i: int, j: int)
    requires FactStep(facts, staging, casts).Some?
    requires 0 <= i < j < |staging| && staging[i] == staging[j]
    requires FactOf(casts, staging[i]).Some? && FactKey(FactOf(casts, staging[i]).value) !in KeySet(facts, FactKey)
    ensures multiset(FactStep(facts, staging, casts).value)[FactOf(casts, staging[i]).value] >= 2
  {
    var rows := FactRows(staging, casts).value;
    var row := FactOf(casts, staging[i]).value;
    assert rows[i] == row && rows[j] == row;
    RepeatedElementCount(rows, i, j);
  }

  lemma RepeatedElementCount<T>(s: seq<T>, i: int, j: int)
    requires 0 <= i < j < |s| && s[i] == s[j]
    ensures multiset(s)[s[i]] >= 2
  {
    var front, back := s[..j], s[j..];
    assert s == front + back;
    assert front[i] == s[i] && back[0] == s[i];
    assert multiset(front)[s[i]] >= 1 && multiset(back)[s[i]] >= 1;
  }

  predicate UniqueKeys<R, K(==)>(rows: seq<R>, key: R -> K) {
    forall i, j :: 0 <= i < j < |rows| ==> key(rows[i]) != key(rows[j])
  }

  lemma WithoutKeysMembers<R(!new), K>(rows: seq<R>, key: R -> K, present: set<K>)
    ensures forall x :: x in WithoutKeys(rows, key, present) <==> x in rows && key(x) !in present
  {
    var r := WithoutKeys(rows, key, present);
    forall x ensures x in r <==> x in rows && key(x) !in present {
      assert x in r <==> multiset(r)[x] > 0;
      assert x in rows <==> multiset(rows)[x] > 0;
    }
  }

  lemma {:induction false} WithoutKeysKeepsUnique<R(!new), K>(rows: seq<R>, key: R -> K, present: set<K>)
    requires UniqueKeys(rows, key)
    ensures UniqueKeys(WithoutKeys(rows, key, present), key)
  {
    if rows != [] {
      var tail := rows[1..];
      assert UniqueKeys(tail, key) by {
        forall i, j | 0 <= i < j < |tail| ensures key(tail[i]) != key(tail[j]) {
          assert tail[i] == rows[i + 1] && tail[j] == rows[j + 1];
        }
      }
      WithoutKeysKeepsUnique(tail, key, present);
      if key(rows[0]) !in present {
        var rest := WithoutKeys(tail, key, present);
        WithoutKeysMembers(tail, key, present);
        HeadKeyIsNew(rows, key, rest);
      }
    }
  }

  /** Putting back the head of a key-unique sequence in front of rows drawn from its tail keeps keys unique. */
  lemma HeadKeyIsNew<R, K>(rows: seq<R>, key: R -> K, rest: seq<R>)
    requires rows != [] && UniqueKeys(rows, key) && UniqueKeys(rest, key)
    requires forall x :: x in rest ==> x in rows[1..]
    ensures UniqueKeys([rows[0]] + rest, key)
  {
    var r := [rows[0]] + rest;
    forall j | 0 <= j < |rest| ensures key(rows[0]) != key(rest[j]) {
      assert rest[j] in rows[1..];
      var m :| 0 <= m < |rows[1..]| && rows[1..][m] == rest[j];
      assert rows[m + 1] == rest[j];
    }
    forall i, j | 0 <= i < j < |r| ensures key(r[i]) != key(r[j]) {
      assert r[j] == rest[j - 1];
      if i > 0 {
        assert r[i] == rest[i - 1];
      }
    }
  }

  /**
   * `vitals_fact` stays unique on (patient id, timestamp) when it was unique
   * before and the staged records carry pairwise different keys; with
   * repeated staged keys it need not (FactStepKeepsDuplicates).
   */
  lemma FactKeysStayUnique(facts: seq<FactRow>, staging: seq<StagingRecord>, casts: Casts)
    requires FactStep(facts, staging, casts).Some?
    requires UniqueKeys(facts, FactKey)
    requires UniqueKeys(FactRows(staging, casts).value, FactKey)
    ensures UniqueKeys(facts + FactStep(facts, staging, casts).value, FactKey)
  {
    var rows := FactRows(staging, casts).value;
    var inserted := FactStep(facts, staging, casts).value;
    WithoutKeysKeepsUnique(rows, FactKey, KeySet(facts, FactKey));
    WithoutKeysMembers(rows, FactKey, KeySet(facts, FactKey));
    var after := facts + inserted;
    forall i, j | 0 <= i < j < |after| ensures FactKey(after[i]) != FactKey(after[j]) {
      if j >= |facts| {
        assert after[j] == inserted[j - |facts|];
        if i < |facts| {
          assert after[i] in facts;
        } else {
          assert after[i] == inserted[i - |facts|];
        }
      }
    }
  }

  /**
   * Once a step's rows are appended, running the same step over the same
   * rows finds every key present and inserts nothing.
   */
  lemma RerunFindsEveryKey<R(!new), K>(table: seq<R>, rows: seq<R>, key: R -> K, added: seq<R>)
    requires forall x :: x in added <==> x in WithoutKeys(rows, key, KeySet(table, key))
    ensures WithoutKeys(rows, key, KeySet(table + added, key)) == []
  {
    WithoutKeysMembers(rows, key, KeySet(table, key));
    forall x | x in rows ensures key(x) in KeySet(table + added, key) {
      if key(x) !in KeySet(table, key) {
        assert x in added;
      } else {
        var y :| y in table && key(y) == key(x);
        assert y in table + added;
      }
    }
    WithoutKeysAllPresent(rows, key, KeySet(table + added, key));
  }

  lemma {:induction false} WithoutKeysAllPresent<R(!new), K>(rows: seq<R>, key: R -> K, present: set<K>)
    requires forall x :: x in rows ==> key(x) in present
    ensures WithoutKeys(rows, key, present) == []
  {
    if rows != [] {
      WithoutKeysAllPresent(rows[1..], key, present);
    }
  }

  /**
   * Idempotence: right after a run, whether it completed or stopped at a
   * failing cast, running the script again over the same staged records ends
   * the same way and leaves every table as the first run left it.
   */
  lemma RerunInsertsNothing(t: Tables, staging: seq<StagingRecord>, casts: Casts)
    ensures RunScript(RunScript(t, staging, casts).0, staging, casts) == RunScript(t, staging, casts)
  {
    RunScriptOutcome(t, staging, casts);
    if RunScript(t, staging, casts).1 == Completed {
      RerunAfterCompletion(t, staging, casts);
    } else if RunScript(t, staging, casts).1 == CastFailed(HospitalInsert) {
      RerunAfterHospitalFailure(t, staging, casts);
    } else if RunScript(t, staging, casts).1 == CastFailed(DeviceInsert) {
      RerunAfterDeviceFailure(t, staging, casts);
    } else {
      RunScriptStops(t, staging, casts);
    }
  }

  lemma RerunAfterHospitalFailure(t: Tables, staging: seq<StagingRecord>, casts: Casts)
    requires PatientIdsCast(staging) && !HospitalIdsCast(staging)
    ensures RunScript(RunScript(t, staging, casts).0, staging, casts) == RunScript(t, staging, casts)
  {
    StepsSucceedIff(t, staging, casts);
    var np := DimensionStep(t.patients, staging, PatientOf, PatientKey).value;
    RunScriptStopsAtHospitals(t, staging, casts, np);
    var after := t.(patients := t.patients + np);
    DimensionRerun(t.patients, staging, PatientOf, PatientKey);
    assert after.hospitals == t.hospitals;
    RunScriptStopsAtHospitals(after, staging, casts, []);
    assert after.patients + [] == after.patients;
  }

  lemma RerunAfterDeviceFailure(t: Tables, staging: seq<StagingRecord>, casts: Casts)
    requires PatientIdsCast(staging) && HospitalIdsCast(staging) && !DeviceIdsCast(staging)
    ensures RunScript(RunScript(t, staging, casts).0, staging, casts) == RunScript(t, staging, casts)
  {
    StepsSucceedIff(t, staging, casts);
    var np := DimensionStep(t.patients, staging, PatientOf, PatientKey).value;
    var nh := DimensionStep(t.hospitals, staging, HospitalOf, HospitalKey).value;
    RunScriptStopsAtDevices(t, staging, casts, np, nh);
    var after := t.(patients := t.patients + np, hospitals := t.hospitals + nh);
    DimensionRerun(t.patients, staging, PatientOf, PatientKey);
    DimensionRerun(t.hospitals, staging, HospitalOf, HospitalKey);
    RunScriptStopsAtDevices(after, staging, casts, [], []);
    assert after.patients + [] == after.patients && after.hospitals + [] == after.hospitals;
  }

  lemma RunScriptStopsAtHospitals(t: Tables, staging: seq<StagingRecord>, casts: Casts, np: seq<PatientRow>)
    requires DimensionStep(t.patients, staging, PatientOf, PatientKey) == Some(np)
    requires DimensionStep(t.hospitals, staging, HospitalOf, HospitalKey).None?
    ensures RunScript(t, staging, casts) == (t.(patients := t.patients + np), CastFailed(HospitalInsert))
  {
  }

  lemma RunScriptStopsAtDevices(t: Tables, staging: seq<StagingRecord>, casts: Casts,
                                np: seq<PatientRow>, nh: seq<HospitalRow>)
    requires DimensionStep(t.patients, staging, PatientOf, PatientKey) == Some(np)
    requires DimensionStep(t.hospitals, staging, HospitalOf, HospitalKey) == Some(nh)
    requires DimensionStep(t.devices, staging, DeviceOf, DeviceKey).None?
    ensures RunScript(t, staging, casts)
            == (t.(patients := t.patients + np, hospitals := t.hospitals + nh), CastFailed(DeviceInsert))
  {
  }

  lemma RerunAfterCompletion(t: Tables, staging: seq<StagingRecord>, casts: Casts)
    requires RunScript(t, staging, casts).1 == Completed
    ensures RunScript(RunScript(t, staging, casts).0, staging, casts) == (RunScript(t, staging, casts).0, Completed)
  {
    CompletedStepsSucceeded(t, staging, casts);
    var np := DimensionStep(t.patients, staging, PatientOf, PatientKey).value;
    var nh := DimensionStep(t.hospitals, staging, HospitalOf, HospitalKey).value;
    var nd := DimensionStep(t.devices, staging, DeviceOf, DeviceKey).value;
    var nf := FactStep(t.facts, staging, casts).value;
    RunScriptCompletes(t, staging, casts, np, nh, nd, nf);
    var after := Tables(t.patients + np, t.hospitals + nh, t.devices + nd, t.facts + nf);
    DimensionRerun(t.patients, staging, PatientOf, PatientKey);
    DimensionRerun(t.hospitals, staging, HospitalOf, HospitalKey);
    DimensionRerun(t.devices, staging, DeviceOf, DeviceKey);
    FactRerun(t.facts, staging, casts);
    RunScriptCompletes(after, staging, casts, [], [], [], []);
    assert after.patients + [] == after.patients && after.hospitals + [] == after.hospitals;
    assert after.devices + [] == after.devices && after.facts + [] == after.facts;
  }

  /** Every staged patient id casts to INTEGER. */
  predicate PatientIdsCast(staging: seq<StagingRecord>) {
    forall i :: 0 <= i < |staging| ==> SurrogateKey(staging[i].patientId, 'P').Some?
  }

  /** Every staged hospital id casts to INTEGER. */
  predicate HospitalIdsCast(staging: seq<StagingRecord>) {
    forall i :: 0 <= i < |staging| ==> SurrogateKey(staging[i].hospitalId, 'H').Some?
  }

  /** Every staged device id casts to INTEGER. */
  predicate DeviceIdsCast(staging: seq<StagingRecord>) {
    forall i :: 0 <= i < |staging| ==> SurrogateKey(staging[i].deviceId, 'D').Some?
  }

  /** Each step fails exactly when one of the ids its SELECT casts does not cast. */
  lemma StepsSucceedIff(t: Tables, staging: seq<StagingRecord>, casts: Casts)
    ensures DimensionStep(t.patients, staging, PatientOf, PatientKey).Some? <==> PatientIdsCast(staging)
    ensures DimensionStep(t.hospitals, staging, HospitalOf, HospitalKey).Some? <==> HospitalIdsCast(staging)
    ensures DimensionStep(t.devices, staging, DeviceOf, DeviceKey).Some? <==> DeviceIdsCast(staging)
    ensures (FactStep(t.facts, staging, casts).Some?)
              <==> (PatientIdsCast(staging) && HospitalIdsCast(staging) && DeviceIdsCast(staging))
  {
    assert forall i :: 0 <= i < |staging| ==>
             (PatientOf(staging[i]).Some? <==> SurrogateKey(staging[i].patientId, 'P').Some?);
    assert forall i :: 0 <= i < |staging| ==>
             (HospitalOf(staging[i]).Some? <==> SurrogateKey(staging[i].hospitalId, 'H').Some?);
    assert forall i :: 0 <= i < |staging| ==>
             (DeviceOf(staging[i]).Some? <==> SurrogateKey(staging[i].deviceId, 'D').Some?);
  }

  /**
   * When the script stops: it completes exactly when every staged patient,
   * hospital and device id casts; otherwise it stops at the first step whose
   * ids do not all cast. Step 5 never fails on an id cast, since it casts
   * only ids the earlier steps already cast; its timestamp and measurement
   * conversions are total here.
   */
  lemma RunScriptOutcome(t: Tables, staging: seq<StagingRecord>, casts: Casts)
    ensures (RunScript(t, staging, casts).1 == Completed)
              <==> (PatientIdsCast(staging) && HospitalIdsCast(staging) && DeviceIdsCast(staging))
    ensures RunScript(t, staging, casts).1 == CastFailed(PatientInsert) <==> !PatientIdsCast(staging)
    ensures (RunScript(t, staging, casts).1 == CastFailed(HospitalInsert))
              <==> (PatientIdsCast(staging) && !HospitalIdsCast(staging))
    ensures (RunScript(t, staging, casts).1 == CastFailed(DeviceInsert))
              <==> (PatientIdsCast(staging) && HospitalIdsCast(staging) && !DeviceIdsCast(staging))
    ensures RunScript(t, staging, casts).1 != CastFailed(FactInsert)
  {
    StepsSucceedIff(t, staging, casts);
  }

  /**
   * What a run that stops leaves behind: the failing step and every step
   * after it add nothing, while the steps before it keep their rows.
   */
  lemma RunScriptStops(t: Tables, staging: seq<StagingRecord>, casts: Casts)
    ensures !PatientIdsCast(staging) ==> RunScript(t, staging, casts).0 == t
    ensures PatientIdsCast(staging) && !HospitalIdsCast(staging) ==>
              RunScript(t, staging, casts).0
                == t.(patients := t.patients + DimensionStep(t.patients, staging, PatientOf, PatientKey).value)
    ensures PatientIdsCast(staging) && HospitalIdsCast(staging) && !DeviceIdsCast(staging) ==>
              RunScript(t, staging, casts).0
                == t.(patients := t.patients + DimensionStep(t.patients, staging, PatientOf, PatientKey).value,
                      hospitals := t.hospitals + DimensionStep(t.hospitals, staging, HospitalOf, HospitalKey).value)
  {
    StepsSucceedIff(t, staging, casts);
  }

  /** A run that completed had every step succeed. */
  lemma CompletedStepsSucceeded(t: Tables, staging: seq<StagingRecord>, casts: Casts)
    requires RunScript(t, staging, casts).1 == Completed
    ensures DimensionStep(t.patients, staging, PatientOf, PatientKey).Some?
    ensures DimensionStep(t.hospitals, staging, HospitalOf, HospitalKey).Some?
    ensures DimensionStep(t.devices, staging, DeviceOf, DeviceKey).Some?
    ensures FactStep(t.facts, staging, casts).Some?
  {
  }

  /** Step 5 run again over the fact table it extended inserts nothing. */
  lemma FactRerun(facts: seq<FactRow>, staging: seq<StagingRecord>, casts: Casts)
    requires FactStep(facts, staging, casts).Some?
    ensures FactStep(facts + FactStep(facts, staging, casts).value, staging, casts) == Some([])
  {
    RerunFindsEveryKey(facts, FactRows(staging, casts).value, FactKey, FactStep(facts, staging, casts).value);
  }

  /** A dimension step run again over the table it extended inserts nothing. */
  lemma DimensionRerun<R(!new)>(table: seq<R>, staging: seq<StagingRecord>,
                                project: StagingRecord -> Option<R>, id: R -> int)
    requires DimensionStep(table, staging, project, id).Some?
    ensures DimensionStep(table + DimensionStep(table, staging, project, id).value, staging, project, id) == Some([])
  {
    var rows := ProjectAll(staging, project).value;
    RerunFindsEveryKey(table, rows, id, DimensionStep(table, staging, project, id).value);
    assert Distinct<R>([]) == [];
  }

  /** `REPLACE` removes the letter everywhere, not only in front: 'P1P2' maps to 12. */
  lemma StripRemovesEveryOccurrence()
    ensures SurrogateKey("P1P2", 'P') == Some(12)
  {
    StripP1P2();
    var digits := "12";
    assert AllDigits(digits);
    assert digits[..1] == "1" && "1"[..0] == [];
    assert DigitsValue(digits) == 12;
    ParseIntOfSignedDigits("", digits);
    assert "" + digits == digits;
  }

  lemma StripP1P2()
    ensures StripLetter("P1P2", 'P') == "12"
  {
    var p, one, two := "P", "1", "2";
    assert "P1P2" == p + (one + (p + two));
    StripLetterConcat(p, two, 'P');
    assert StripLetter(p + two, 'P') == two;
    StripLetterConcat(one, p + two, 'P');
    assert StripLetter(one + (p + two), 'P') == one + two;
    StripLetterConcat(p, one + (p + two), 'P');
    assert one + two == "12";
  }

  /**
   * One staged record for patient P1500 at hospital H12 on device D1800,
   * flagged as an alert, loaded into empty tables: one row in each dimension
   * under ids 1500, 12 and 1800, and one fact row keyed by patient 1500 and
   * the record's epoch-millisecond timestamp, with alert 'Yes'.
   */
  lemma SingleRecordScenario(rec: StagingRecord, casts: Casts)
    requires rec.patientId == "P1500" && rec.hospitalId == "H12" && rec.deviceId == "D1800"
    requires rec.alertFlag == 1
    ensures var (t, outcome) := RunScript(Tables([], [], [], []), [rec], casts);
            && outcome == Completed
            && t.patients == [PatientRow(1500, rec.patientName, rec.age, rec.gender)]
            && t.hospitals == [HospitalRow(12, rec.hospitalName, IntToString(rec.roomNumber), rec.department)]
            && t.devices == [DeviceRow(1800, rec.deviceType)]
            && |t.facts| == 1
            && FactKey(t.facts[0]) == (1500, casts.epochMs(rec.timestamp))
            && t.facts[0].hospitalId == 12 && t.facts[0].deviceId == 1800
            && t.facts[0].alertFlag == "Yes"
  {
    ScenarioKeys(rec);
    SingleRecordRun(rec, casts, 1500, 12, 1800);
  }

  /** Loading one staged record whose three keys cast to `p`, `h` and `d` into empty tables. */
  lemma SingleRecordRun(rec: StagingRecord, casts: Casts, p: int, h: int, d: int)
    requires SurrogateKey(rec.patientId, 'P') == Some(p)
    requires SurrogateKey(rec.hospitalId, 'H') == Some(h)
    requires SurrogateKey(rec.deviceId, 'D') == Some(d)
    ensures RunScript(Tables([], [], [], []), [rec], casts)
            == (Tables([PatientRow(p, rec.patientName, rec.age, rec.gender)],
                       [HospitalRow(h, rec.hospitalName, IntToString(rec.roomNumber), rec.department)],
                       [DeviceRow(d, rec.deviceType)],
                       [FactOf(casts, rec).value]),
                Completed)
  {
    var t0 := Tables([], [], [], []);
    var patient := PatientRow(p, rec.patientName, rec.age, rec.gender);
    var hospital := HospitalRow(h, rec.hospitalName, IntToString(rec.roomNumber), rec.department);
    var device := DeviceRow(d, rec.deviceType);
    var fact := FactOf(casts, rec).value;
    assert PatientOf(rec) == Some(patient);
    assert HospitalOf(rec) == Some(hospital);
    assert DeviceOf(rec) == Some(device);
    SingleRowStep([], rec, PatientOf, PatientKey);
    SingleRowStep([], rec, HospitalOf, HospitalKey);
    SingleRowStep([], rec, DeviceOf, DeviceKey);
    SingleFactStep(rec, casts);
    RunScriptCompletes(t0, [rec], casts, [patient], [hospital], [device], [fact]);
    assert [] + [patient] == [patient];
    assert [] + [hospital] == [hospital];
    assert [] + [device] == [device];
    assert [] + [fact] == [fact];
  }

  /** When every step succeeds, the script appends each step's rows to its table. */
  lemma RunScriptCompletes(t: Tables, staging: seq<StagingRecord>, casts: Casts,
                           np: seq<PatientRow>, nh: seq<HospitalRow>, nd: seq<DeviceRow>, nf: seq<FactRow>)
    requires DimensionStep(t.patients, staging, PatientOf, PatientKey) == Some(np)
    requires DimensionStep(t.hospitals, staging, HospitalOf, HospitalKey) == Some(nh)
    requires DimensionStep(t.devices, staging, DeviceOf, DeviceKey) == Some(nd)
    requires FactStep(t.facts, staging, casts) == Some(nf)
    ensures RunScript(t, staging, casts)
            == (Tables(t.patients + np, t.hospitals + nh, t.devices + nd, t.facts + nf), Completed)
  {
  }

  lemma SingleFactStep(rec: StagingRecord, casts: Casts)
    requires FactOf(casts, rec).Some?
    ensures FactStep([], [rec], casts) == Some([FactOf(casts, rec).value])
  {
    var fact := FactOf(casts, rec).value;
    var rows := FactRows([rec], casts).value;
    assert |rows| == 1 && rows[0] == fact;
    assert rows == [fact];
    assert KeySet([], FactKey) == {};
    assert WithoutKeys([fact], FactKey, {}) == [fact];
  }

  lemma ScenarioKeys(rec: StagingRecord)
    requires rec.patientId == "P1500" && rec.hospitalId == "H12" && rec.deviceId == "D1800"
    ensures SurrogateKey(rec.patientId, 'P') == Some(1500)
    ensures SurrogateKey(rec.hospitalId, 'H') == Some(12)
    ensures SurrogateKey(rec.deviceId, 'D') == Some(1800)
  {
    PatientKeyP1500();
    HospitalKeyH12();
    DeviceKeyD1800();
  }

  lemma Rendering1500()
    ensures NatToString(1500) == "1500"
  {
    assert NatToString(1) == "1";
    assert NatToString(15) == "15";
    assert NatToString(150) == "150";
  }

  lemma Rendering1800()
    ensures NatToString(1800) == "1800"
  {
    assert NatToString(1) == "1";
    assert NatToString(18) == "18";
    assert NatToString(180) == "180";
  }

  lemma PatientKeyP1500()
    ensures SurrogateKey("P1500", 'P') == Some(1500)
  {
    Rendering1500();
    SurrogateKeyOfNaturalKey('P', 1500);
    assert ['P'] + "1500" == "P1500";
  }

  lemma HospitalKeyH12()
    ensures SurrogateKey("H12", 'H') == Some(12)
  {
    assert NatToString(12) == "12" by {
      assert NatToString(1) == "1";
    }
    SurrogateKeyOfNaturalKey('H', 12);
    assert ['H'] + "12" == "H12";
  }

  lemma DeviceKeyD1800()
    ensures SurrogateKey("D1800", 'D') == Some(1800)
  {
    Rendering1800();
    SurrogateKeyOfNaturalKey('D', 1800);
    assert ['D'] + "1800" == "D1800";
  }

  /** A dimension step over one staged record and an empty table inserts that record's row. */
  lemma SingleRowStep<R(!new)>(table: seq<R>, rec: StagingRecord, project: StagingRecord -> Option<R>, id: R -> int)
    requires table == [] && project(rec).Some?
    ensures DimensionStep(table, [rec], project, id) == Some([project(rec).value])
  {
    var row := project(rec).value;
    var rows := ProjectAll([rec], project).value;
    assert |rows| == 1 && rows[0] == row;
    assert rows == [row];
    assert KeySet(table, id) == {};
    assert WithoutKeys([row], id, {}) == [row];
    assert Distinct([row]) == [row];
  }
}
