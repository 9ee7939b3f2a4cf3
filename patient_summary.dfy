/** The patients-with-appointments screen's data: each patient's
    appointments with their doctor, the number still to come, and the date of
    the last completed visit; plus the clinic-wide patient statistics. */
module PatientSummary {
  import opened Common
  import Records
  import Status

  // ---------------------------------------------------------------------------
  // extractDoctorData

  /** The fields of a joined doctor, each possibly missing. */
  datatype DoctorFields = DoctorFields(
    id: Option<int>,
    name: Option<string>,
    specialty: Option<string>,
    avatar: Option<string>)

  /** What the join hands back for an appointment's doctor: nothing, one
      object, or an array of them. */
  datatype DoctorJoin = NoDoctor | OneDoctor(doctor: DoctorFields) | DoctorList(doctors: seq<DoctorFields>)

  datatype DoctorData = DoctorData(id: int, name: string, specialty: string, avatar: string)

  const UnknownDoctorData := DoctorData(0, Records.UnknownDoctor, "", Records.DefaultAvatar)

  /** Each field of a joined doctor with its own fallback. */
  function WithFallbacks(d: DoctorFields): (r: DoctorData)
    ensures r.id == if TruthyNumber(d.id) then d.id.value else 0
    ensures r.name == OrElse(d.name, Records.UnknownDoctor)
    ensures r.specialty == OrElse(d.specialty, "")
    ensures r.avatar == OrElse(d.avatar, Records.DefaultAvatar)
  {
    DoctorData(if TruthyNumber(d.id) then d.id.value else 0, OrElse(d.name, Records.UnknownDoctor),
               OrElse(d.specialty, ""), OrElse(d.avatar, Records.DefaultAvatar))
  }

  /** `extractDoctorData`: no doctor gives the unknown doctor; an array stands
      for its first element, and an empty one for a doctor with every field
      missing. */
  function ExtractDoctorData(join: DoctorJoin): (r: DoctorData)
    ensures join.NoDoctor? ==> r == UnknownDoctorData
    ensures join.OneDoctor? ==> r == WithFallbacks(join.doctor)
    ensures join.DoctorList? && |join.doctors| > 0 ==> r == WithFallbacks(join.doctors[0])
    ensures join.DoctorList? && |join.doctors| == 0 ==> r == UnknownDoctorData
  {
    match join
    case NoDoctor => UnknownDoctorData
    case OneDoctor(d) => WithFallbacks(d)
    case DoctorList(ds) =>
      WithFallbacks(if |ds| > 0 then ds[0] else DoctorFields(None, None, None, None))
  }

  /** A missing doctor, an empty array and an object with every field falsy
      all read as the unknown doctor. */
  lemma UnknownDoctorCases()
    ensures ExtractDoctorData(NoDoctor) == UnknownDoctorData
    ensures ExtractDoctorData(DoctorList([])) == UnknownDoctorData
    ensures ExtractDoctorData(OneDoctor(DoctorFields(Some(0), Some(""), Some(""), Some("")))) == UnknownDoctorData
  {
  }

  // ---------------------------------------------------------------------------
  // Per-patient summary

  /** An appointment row as the per-patient query returns it. */
  datatype JoinedAppointmentRow = JoinedAppointmentRow(
    id: int,
    appointmentDate: string,
    timeStart: string,
    timeEnd: string,
    appointmentType: string,
    status: string,
    comment: Option<string>,
    doctors: DoctorJoin)

  datatype DoctorBrief = DoctorBrief(id: int, name: string, specialty: string)

  /** An entry of a patient's appointment list. */
  datatype AppointmentEntry = AppointmentEntry(
    id: int,
    date: string,
    timeStart: string,
    timeEnd: string,
    appointmentType: string,
    status: string,
    comment: Option<string>,
    doctor: DoctorBrief)

  function ToEntry(row: JoinedAppointmentRow): (e: AppointmentEntry)
    ensures e.id == row.id && e.date == row.appointmentDate && e.status == row.status
    ensures e.comment == row.comment
    ensures var d := ExtractDoctorData(row.doctors);
            e.doctor == DoctorBrief(d.id, d.name, d.specialty)
  {
    var d := ExtractDoctorData(row.doctors);
    AppointmentEntry(row.id, row.appointmentDate, row.timeStart, row.timeEnd, row.appointmentType,
                     row.status, row.comment, DoctorBrief(d.id, d.name, d.specialty))
  }

  /** Still to come: dated today or later, and not cancelled. */
  predicate IsUpcoming(e: AppointmentEntry, today: string) {
    !LexLess(e.date, today) && e.status != Status.Label(Status.Cancelled)
  }

  /** A visit that took place: dated before today and completed. */
  predicate IsPastVisit(e: AppointmentEntry, today: string) {
    LexLess(e.date, today) && e.status == Status.Label(Status.Completed)
  }

  /** The number of upcoming appointments in a list. */
  function UpcomingCount(entries: seq<AppointmentEntry>, today: string): (n: nat)
    ensures n <= |entries|
    ensures n == 0 <==> forall e :: e in entries ==> !IsUpcoming(e, today)
    decreases |entries|
  {
    if entries == [] then 0
    else
      var rest := UpcomingCount(entries[1..], today);
      assert forall e :: e in entries[1..] ==> e in entries;
      assert forall e :: e in entries ==> e == entries[0] || e in entries[1..];
      (if IsUpcoming(entries[0], today) then 1 else 0) + rest
  }

  /** The date of the latest past visit: what sorting the past visits by date,
      newest first, and taking the first one's date gives; None when there
      is no past visit. */
  function LastVisit(entries: seq<AppointmentEntry>, today: string): (r: Option<string>)
    ensures r.None? <==> forall e :: e in entries ==> !IsPastVisit(e, today)
    ensures r.Some? ==> exists e :: e in entries && IsPastVisit(e, today) && e.date == r.value
    ensures r.Some? ==> forall e :: e in entries && IsPastVisit(e, today) ==> !LexLess(r.value, e.date)
    ensures r.Some? ==> LexLess(r.value, today)
    decreases |entries|
  {
    if entries == [] then None
    else
      var rest := LastVisit(entries[1..], today);
      var head := entries[0];
      assert forall e :: e in entries[1..] ==> e in entries;
      assert forall e :: e in entries ==> e == head || e in entries[1..];
      if !IsPastVisit(head, today) then rest
      else if rest.None? then
        LexLessIrreflexive(head.date);
        Some(head.date)
      else if LexLess(rest.value, head.date) then
        LaterThanAll(entries[1..], today, rest.value, head.date);
        LexLessIrreflexive(head.date);
        Some(head.date)
      else
        LexLessTrichotomy(rest.value, head.date);
        LexLessIrreflexive(head.date);
        rest
  }

  /** A date later than the latest past visit is later than every one. */
  lemma LaterThanAll(entries: seq<AppointmentEntry>, today: string, latest: string, later: string)
    requires forall e :: e in entries && IsPastVisit(e, today) ==> !LexLess(latest, e.date)
    requires LexLess(latest, later)
    ensures forall e :: e in entries && IsPastVisit(e, today) ==> !LexLess(later, e.date)
  {
    forall e | e in entries && IsPastVisit(e, today)
      ensures !LexLess(later, e.date)
    {
      LexLessTrichotomy(latest, e.date);
      if LexLess(later, e.date) {
        LexLessTransitive(latest, later, e.date);
      }
    }
  }

  /** A patient row as the list query returns it. */
  datatype SummaryPatientRow = SummaryPatientRow(
    id: int,
    name: string,
    phone: string,
    email: Option<string>,
    birthDate: Option<string>,
    notes: Option<string>,
    createdAt: string,
    updatedAt: string)

  datatype PatientWithAppointments = PatientWithAppointments(
    id: int,
    name: string,
    phone: string,
    email: Option<string>,
    birthDate: Option<string>,
    notes: Option<string>,
    createdAt: string,
    updatedAt: string,
    appointments: seq<AppointmentEntry>,
    upcomingAppointments: nat,
    totalAppointments: nat,
    lastVisit: Option<string>)

  /** One patient with its appointments (the rows of its own query, empty
      after an error) and the counts drawn from them. */
  function Summarize(patient: SummaryPatientRow, rows: seq<JoinedAppointmentRow>, today: string)
    : (s: PatientWithAppointments)
    ensures s.id == patient.id && s.phone == patient.phone
    ensures |s.appointments| == |rows| == s.totalAppointments
    ensures forall i :: 0 <= i < |rows| ==> s.appointments[i] == ToEntry(rows[i])
    ensures s.upcomingAppointments == UpcomingCount(s.appointments, today)
    ensures s.upcomingAppointments <= s.totalAppointments
    ensures s.lastVisit == LastVisit(s.appointments, today)
  {
    var entries := seq(|rows|, i requires 0 <= i < |rows| => ToEntry(rows[i]));
    PatientWithAppointments(patient.id, patient.name, patient.phone, patient.email, patient.birthDate,
                            patient.notes, patient.createdAt, patient.updatedAt, entries,
                            UpcomingCount(entries, today), |entries|, LastVisit(entries, today))
  }

  /** `getPatientsWithAppointments` given the answers of its queries: the
      patients query's, and for each patient row its appointment query's.
      A failed patients query gives nothing; no patients, or an exception in
      any query, gives the sample patients. */
  function GetPatientsWithAppointments(
    patients: Fetch<SummaryPatientRow>,
    appointmentsOf: SummaryPatientRow -> Fetch<JoinedAppointmentRow>,
    today: string): (r: seq<PatientWithAppointments>)
    ensures patients.QueryError? ==> r == []
    ensures patients.Thrown? || patients.NoRows? || patients == Data([]) ==> r == MockPatients
    ensures patients.Data? && patients.rows != [] && (exists p :: p in patients.rows && appointmentsOf(p).Thrown?) ==>
              r == MockPatients
    ensures patients.Data? && patients.rows != [] && (forall p :: p in patients.rows ==> !appointmentsOf(p).Thrown?) ==>
              && |r| == |patients.rows|
              && forall i :: 0 <= i < |r| ==>
                   r[i] == Summarize(patients.rows[i], RowsOr(appointmentsOf(patients.rows[i])), today)
  {
    if patients.QueryError? then []
    else if patients.Thrown? || RowsOr(patients) == [] then MockPatients
    else
      var rows := patients.rows;
      if exists p :: p in rows && appointmentsOf(p).Thrown? then MockPatients
      else seq(|rows|, i requires 0 <= i < |rows| => Summarize(rows[i], RowsOr(appointmentsOf(rows[i])), today))
  }

  /** The built-in sample patients. */
  const MockPatients: seq<PatientWithAppointments> := [
    PatientWithAppointments(
      1, "Анна Иванова", "996550001234", Some("anna@example.com"), Some("1990-05-15"),
      Some("Регулярный пациент"), "2025-01-15T10:00:00Z", "2025-08-10T14:30:00Z",
      [AppointmentEntry(1, "2025-08-15", "14:00", "15:00", "Лечение", "Записан", Some("Плановый осмотр"),
                        DoctorBrief(1, "Рустам Торогелдие", "Терапевт Имплантолог")),
       AppointmentEntry(2, "2025-08-05", "11:00", "12:00", "Консультация", "Завершен",
                        Some("Первичная консультация"),
                        DoctorBrief(1, "Рустам Торогелдие", "Терапевт Имплантолог"))],
      1, 2, Some("2025-08-05")),
    PatientWithAppointments(
      2, "Ринат Иманкулов", "996555123456", Some("rinat@example.com"), Some("1985-03-22"),
      Some(""), "2025-02-01T09:00:00Z", "2025-08-08T16:00:00Z",
      [AppointmentEntry(3, "2025-08-12", "15:30", "16:30", "Консультация", "Записан",
                        Some("Повторная консультация"),
                        DoctorBrief(2, "Элеш Асанов", "Терапевт Имплантолог Ортопед"))],
      1, 1, None),
    PatientWithAppointments(
      3, "Мария Петрова", "996700123456", Some("maria@example.com"), Some("1992-11-08"),
      Some("Аллергия на анестезию"), "2024-12-10T11:00:00Z", "2025-08-05T13:45:00Z",
      [AppointmentEntry(4, "2025-08-05", "10:00", "11:00", "Лечение", "Завершен", Some("Установка пломбы"),
                        DoctorBrief(2, "Элеш Асанов", "Терапевт Имплантолог Ортопед"))],
      0, 1, Some("2025-08-05"))]

  // ---------------------------------------------------------------------------
  // Clinic-wide statistics

  /** The number of distinct values in a list (`new Set(list).size`). */
  function DistinctCount(values: seq<string>): (n: nat)
    ensures n == |set v | v in values|
  {
    |set v | v in values|
  }

  /** No value occurs twice. */
  predicate NoRepeats(values: seq<string>) {
    forall i, j :: 0 <= i < j < |values| ==> values[i] != values[j]
  }

  /** No more distinct values than entries, and as many exactly when no value
      repeats. */
  lemma {:induction false} DistinctCountBound(values: seq<string>)
    ensures DistinctCount(values) <= |values|
    ensures DistinctCount(values) == |values| <==> NoRepeats(values)
    decreases |values|
  {
    if values != [] {
      var tail := values[1..];
      DistinctCountBound(tail);
      assert (set v | v in values) == {values[0]} + (set v | v in tail) by {
        assert forall v :: v in values <==> v == values[0] || v in tail;
      }
      if values[0] in tail {
        assert (set v | v in values) == (set v | v in tail);
        var k :| 0 <= k < |tail| && tail[k] == values[0];
        assert values[k + 1] == values[0];
      } else {
        ConsNoRepeats(values);
      }
    }
  }

  /** A first value that does not recur adds no repeat. */
  lemma ConsNoRepeats(values: seq<string>)
    requires values != [] && values[0] !in values[1..]
    ensures NoRepeats(values) <==> NoRepeats(values[1..])
  {
    var tail := values[1..];
    if NoRepeats(tail) {
      forall i, j | 0 <= i < j < |values|
        ensures values[i] != values[j]
      {
        assert values[j] == tail[j - 1];
        if i == 0 {
          assert values[j] in tail;
        } else {
          assert values[i] == tail[i - 1];
        }
      }
    }
    if NoRepeats(values) {
      forall i, j | 0 <= i < j < |tail|
        ensures tail[i] != tail[j]
      {
        assert tail[i] == values[i + 1] && tail[j] == values[j + 1];
      }
    }
  }

  datatype PatientStats = PatientStats(
    totalPatients: int,
    activePatients: nat,
    patientsWithUpcomingAppointments: nat,
    newPatientsThisMonth: int,
    appointmentsToday: int,
    appointmentsThisWeek: int)

  const MockPatientStats := PatientStats(3, 2, 2, 1, 0, 2)

  /** The answers of the statistics queries: the counts (null when missing)
      and the phone numbers of the active and of the upcoming appointments
      (None when the data field is null). */
  datatype StatsAnswers = StatsAnswers(
    totalPatients: Option<int>,
    activePhones: Option<seq<string>>,
    newPatientsThisMonth: Option<int>,
    appointmentsToday: Option<int>,
    appointmentsThisWeek: Option<int>,
    upcomingPhones: Option<seq<string>>)

  /** A count read with `count || 0`. */
  function CountOrZero(count: Option<int>): (n: int)
    ensures count.Some? ==> n == count.value
    ensures count.None? ==> n == 0
  {
    if count.Some? then count.value else 0
  }

  /** `getPatientAppointmentStats` given its answers (None when a query
      threw): the sample statistics after an exception or a null patient
      count; otherwise the counts, and the numbers of distinct phones. */
  function GetPatientStats(answers: Option<StatsAnswers>): (r: PatientStats)
    ensures answers.None? || answers.value.totalPatients.None? ==> r == MockPatientStats
    ensures answers.Some? && answers.value.totalPatients.Some? ==>
              && r.totalPatients == answers.value.totalPatients.value
              && r.activePatients == DistinctCount(OrEmpty(answers.value.activePhones))
              && r.patientsWithUpcomingAppointments == DistinctCount(OrEmpty(answers.value.upcomingPhones))
              && r.newPatientsThisMonth == CountOrZero(answers.value.newPatientsThisMonth)
              && r.appointmentsToday == CountOrZero(answers.value.appointmentsToday)
              && r.appointmentsThisWeek == CountOrZero(answers.value.appointmentsThisWeek)
  {
    if answers.None? || answers.value.totalPatients.None? then MockPatientStats
    else
      var a := answers.value;
      PatientStats(a.totalPatients.value, DistinctCount(OrEmpty(a.activePhones)),
                   DistinctCount(OrEmpty(a.upcomingPhones)), CountOrZero(a.newPatientsThisMonth),
                   CountOrZero(a.appointmentsToday), CountOrZero(a.appointmentsThisWeek))
  }

  function OrEmpty(values: Option<seq<string>>): seq<string> {
    if values.Some? then values.value else []
  }
}
