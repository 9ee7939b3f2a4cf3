/** The doctors query: every doctor row becomes a doctor carrying the day's
    appointments booked with it; a failure or an empty answer falls back to
    the two built-in sample doctors. */
module DoctorApi {
  import opened Common
  import opened Records

  /** A row of the `doctors` table. */
  datatype DoctorRow = DoctorRow(id: int, name: string, specialty: string, avatar: Option<string>)

  /** The appointment rows booked with one doctor, in row order. */
  function RowsFor(rows: seq<AppointmentRow>, doctorId: int): (r: seq<AppointmentRow>)
    ensures |r| <= |rows|
    ensures forall row :: row in r <==> row in rows && row.doctorId == doctorId
    decreases |rows|
  {
    if rows == [] then []
    else (if rows[0].doctorId == doctorId then [rows[0]] else []) + RowsFor(rows[1..], doctorId)
  }

  /** Selecting works piece by piece, so the selected rows keep their order. */
  lemma {:induction false} RowsForConcat(a: seq<AppointmentRow>, b: seq<AppointmentRow>, doctorId: int)
    ensures RowsFor(a + b, doctorId) == RowsFor(a, doctorId) + RowsFor(b, doctorId)
    decreases |a|
  {
    if a == [] {
      assert a + b == b;
    } else {
      assert (a + b)[1..] == a[1..] + b;
      RowsForConcat(a[1..], b, doctorId);
    }
  }

  /** A doctor row with its appointments: the rows booked with it, mapped to
      appointments; a falsy avatar becomes the default one. */
  function ToDoctor(row: DoctorRow, appointments: seq<AppointmentRow>): (d: Doctor)
    ensures d.id == row.id && d.name == row.name && d.specialty == row.specialty
    ensures d.avatar == OrElse(row.avatar, DefaultAvatar) && d.avatar != ""
    ensures |d.appointments| == |RowsFor(appointments, row.id)|
    ensures forall i :: 0 <= i < |d.appointments| ==>
              d.appointments[i] == ToAppointment(RowsFor(appointments, row.id)[i])
  {
    var mine := RowsFor(appointments, row.id);
    Doctor(row.id, row.name, row.specialty, OrElse(row.avatar, DefaultAvatar),
           seq(|mine|, i requires 0 <= i < |mine| => ToAppointment(mine[i])))
  }

  /** The built-in sample doctors. */
  const MockDoctors: seq<Doctor> := [
    Doctor(1, "Рустам Торогелдие", "Терапевт Имплантолог", DefaultAvatar, [
      Appointment(1, "11:30", "12:30", "Анна Иванова", "996550002342", "Пришел", "Лечение",
                  Some("Плановый осмотр")),
      Appointment(2, "15:00", "16:30", "Ринат Иманкулов", "996555123456", "Записан", "Консультация",
                  Some("просто комментарий"))]),
    Doctor(2, "Элеш Асанов", "Терапевт Имплантолог Ортопед", DefaultAvatar, [
      Appointment(3, "10:00", "11:00", "Мария Петрова", "996700123456", "Завершен", "Лечение",
                  Some("Установка пломбы"))])]

  /** `getDoctors` given the answers of its two queries. A failed doctors
      query, an exception in either query, or no doctor rows give the sample
      doctors; a failed appointments query leaves every doctor without
      appointments. */
  function GetDoctors(doctors: Fetch<DoctorRow>, appointments: Fetch<AppointmentRow>): (r: seq<Doctor>)
    ensures |r| > 0
    ensures doctors.QueryError? || doctors.Thrown? || appointments.Thrown? || RowsOr(doctors) == [] ==>
              r == MockDoctors
    ensures !(doctors.QueryError? || doctors.Thrown? || appointments.Thrown?) && RowsOr(doctors) != [] ==>
              && |r| == |RowsOr(doctors)|
              && forall i :: 0 <= i < |r| ==> r[i] == ToDoctor(RowsOr(doctors)[i], RowsOr(appointments))
  {
    if doctors.QueryError? || doctors.Thrown? || appointments.Thrown? then MockDoctors
    else
      var rows := RowsOr(doctors);
      var result := seq(|rows|, i requires 0 <= i < |rows| => ToDoctor(rows[i], RowsOr(appointments)));
      if |result| > 0 then result else MockDoctors
  }

  /** One doctor per doctor row, in row order, each holding exactly the
      appointments whose doctor_id is its id, in row order. */
  lemma DoctorsFollowRows(doctors: seq<DoctorRow>, appointments: Fetch<AppointmentRow>, i: nat)
    requires !appointments.Thrown? && i < |doctors|
    ensures var r := GetDoctors(Data(doctors), appointments);
            && |r| == |doctors|
            && r[i].id == doctors[i].id
            && |r[i].appointments| == |RowsFor(RowsOr(appointments), doctors[i].id)|
            && forall a :: a in r[i].appointments <==>
                 exists row :: row in RowsOr(appointments) && row.doctorId == doctors[i].id && a == ToAppointment(row)
  {
    var r := GetDoctors(Data(doctors), appointments);
    var mine := RowsFor(RowsOr(appointments), doctors[i].id);
    forall a | a in r[i].appointments
      ensures exists row :: row in RowsOr(appointments) && row.doctorId == doctors[i].id && a == ToAppointment(row)
    {
      var k :| 0 <= k < |r[i].appointments| && r[i].appointments[k] == a;
      assert mine[k] in mine;
    }
    forall a | exists row :: row in RowsOr(appointments) && row.doctorId == doctors[i].id && a == ToAppointment(row)
      ensures a in r[i].appointments
    {
      var row :| row in RowsOr(appointments) && row.doctorId == doctors[i].id && a == ToAppointment(row);
      var k :| 0 <= k < |mine| && mine[k] == row;
      assert r[i].appointments[k] == a;
    }
  }

  /** With distinct doctor ids a row is booked under at most one doctor, and
      a row whose doctor_id matches no doctor is under none. */
  lemma RowUnderOneDoctor(doctors: seq<DoctorRow>, rows: seq<AppointmentRow>, row: AppointmentRow, i: nat, j: nat)
    requires i < |doctors| && j < |doctors|
    requires forall p, q :: 0 <= p < q < |doctors| ==> doctors[p].id != doctors[q].id
    requires row in RowsFor(rows, doctors[i].id) && row in RowsFor(rows, doctors[j].id)
    ensures i == j
  {
  }

  lemma UnmatchedRowNowhere(doctors: seq<DoctorRow>, rows: seq<AppointmentRow>, row: AppointmentRow, i: nat)
    requires i < |doctors| && forall d :: d in doctors ==> d.id != row.doctorId
    ensures row !in RowsFor(rows, doctors[i].id)
  {
    assert doctors[i] in doctors;
  }

  /** A failed appointments query gives every doctor an empty list. */
  lemma FailedAppointmentsLeaveDoctorsEmpty(doctors: seq<DoctorRow>, i: nat)
    requires i < |doctors|
    ensures var r := GetDoctors(Data(doctors), QueryError);
            |r| == |doctors| && r[i].appointments == []
  {
  }
}
