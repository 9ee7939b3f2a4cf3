/** The appointment endpoints: the row a booking inserts, the columns an
    update writes, the patient search's gate, and the records read back. */
module AppointmentApi {
  import opened Common
  import opened Records
  import Status

  /** The status text a newly booked appointment is stored with. */
  const Booked := Status.Label(Status.Scheduled)

  datatype CreateAppointmentRequest = CreateAppointmentRequest(
    doctorId: int,
    date: string,
    timeStart: string,
    timeEnd: string,
    patient: string,
    phone: string,
    appointmentType: string,
    comment: Option<string>)

  /** The row `createAppointment` inserts (the table assigns the id). */
  datatype NewAppointmentRow = NewAppointmentRow(
    doctorId: int,
    appointmentDate: string,
    timeStart: string,
    timeEnd: string,
    patientName: string,
    patientPhone: string,
    appointmentType: string,
    comment: Option<string>,
    status: string)

  /** A new booking is always stored as Записан, with a falsy comment stored
      as null; the other fields are copied from the request. */
  function InsertRow(req: CreateAppointmentRequest): (row: NewAppointmentRow)
    ensures row.status == Booked
    ensures row.comment.Some? <==> Truthy(req.comment)
    ensures row.comment.Some? ==> row.comment == req.comment
    ensures row.doctorId == req.doctorId && row.appointmentDate == req.date
    ensures row.timeStart == req.timeStart && row.timeEnd == req.timeEnd
    ensures row.patientName == req.patient && row.patientPhone == req.phone
    ensures row.appointmentType == req.appointmentType
  {
    NewAppointmentRow(req.doctorId, req.date, req.timeStart, req.timeEnd, req.patient, req.phone,
                      req.appointmentType, OrAbsent(req.comment), Booked)
  }

  /** The stored form of an inserted row, under the id the table gave it. */
  function Stored(row: NewAppointmentRow, id: int): AppointmentRow {
    AppointmentRow(id, row.doctorId, row.appointmentDate, row.timeStart, row.timeEnd,
                   row.patientName, row.patientPhone, row.appointmentType, row.status, row.comment)
  }

  /** The outcome of a mutation given the row `.single()` returned (None for
      an error or an exception). */
  function AppointmentResult(returned: Option<AppointmentRow>): (r: ApiResult<Appointment>)
    ensures returned.None? <==> r.FetchError?
    ensures returned.Some? ==> r == Ok(ToAppointment(returned.value))
  {
    if returned.Some? then Ok(ToAppointment(returned.value)) else FetchError
  }

  /** Booking round trip: when the table stores the inserted row, the
      appointment read back is the request's, booked, with a falsy comment
      absent. */
  lemma CreateRoundTrip(req: CreateAppointmentRequest, id: int)
    ensures AppointmentResult(Some(Stored(InsertRow(req), id))) ==
            Ok(Appointment(id, req.timeStart, req.timeEnd, req.patient, req.phone,
                           Booked, req.appointmentType, OrAbsent(req.comment)))
  {
  }

  datatype UpdateAppointmentRequest = UpdateAppointmentRequest(
    id: int,
    status: Option<string>,
    timeStart: Option<string>,
    timeEnd: Option<string>,
    patient: Option<string>,
    phone: Option<string>,
    appointmentType: Option<string>,
    comment: Option<string>)

  /** The `updateData` object `updateAppointment` sends: a column is present
      when its field is `Some`. It has no id column: the id only selects the
      row. */
  datatype AppointmentUpdate = AppointmentUpdate(
    status: Option<string>,
    timeStart: Option<string>,
    timeEnd: Option<string>,
    patientName: Option<string>,
    patientPhone: Option<string>,
    appointmentType: Option<string>,
    comment: Option<string>,
    updatedAt: Option<string>)

  /** `updateData` built column by column from the request; `now` stands for
      the clock's ISO timestamp. The six text columns are sent only for a
      truthy field, the comment whenever it is defined ("" included). */
  method UpdatePayload(req: UpdateAppointmentRequest, now: string) returns (payload: AppointmentUpdate)
    ensures payload.status == OrAbsent(req.status)
    ensures payload.timeStart == OrAbsent(req.timeStart)
    ensures payload.timeEnd == OrAbsent(req.timeEnd)
    ensures payload.patientName == OrAbsent(req.patient)
    ensures payload.patientPhone == OrAbsent(req.phone)
    ensures payload.appointmentType == OrAbsent(req.appointmentType)
    ensures payload.comment == req.comment
    ensures payload.updatedAt == Some(now)
  {
    payload := AppointmentUpdate(None, None, None, None, None, None, None, None);
    if Truthy(req.status) {
      payload := payload.(status := req.status);
    }
    if Truthy(req.timeStart) {
      payload := payload.(timeStart := req.timeStart);
    }
    if Truthy(req.timeEnd) {
      payload := payload.(timeEnd := req.timeEnd);
    }
    if Truthy(req.patient) {
      payload := payload.(patientName := req.patient);
    }
    if Truthy(req.phone) {
      payload := payload.(patientPhone := req.phone);
    }
    if Truthy(req.appointmentType) {
      payload := payload.(appointmentType := req.appointmentType);
    }
    if req.comment.Some? {
      payload := payload.(comment := req.comment);
    }
    payload := payload.(updatedAt := Some(now));
  }

  /** A search row: the appointment row and its joined doctor's name, if the
      join found one. */
  datatype SearchRow = SearchRow(row: AppointmentRow, doctorName: Option<string>)

  /** A search hit, with "Неизвестный врач" when the doctor's name is missing. */
  function ToSearchResult(s: SearchRow): (r: SearchResult)
    ensures r.appointment == ToAppointment(s.row)
    ensures Truthy(s.doctorName) ==> r.doctor == s.doctorName.value
    ensures !Truthy(s.doctorName) ==> r.doctor == UnknownDoctor
  {
    SearchResult(ToAppointment(s.row), OrElse(s.doctorName, UnknownDoctor))
  }

  /** `searchPatients` runs its query only for terms of two or more characters. */
  predicate SearchQueried(searchTerm: string) {
    |searchTerm| >= 2
  }

  /** `searchPatients` given the query's answer: nothing for a short term, and
      nothing after an error or an exception; otherwise one hit per row, in
      row order. */
  function SearchPatients(searchTerm: string, response: Fetch<SearchRow>): (r: seq<SearchResult>)
    ensures !SearchQueried(searchTerm) ==> r == []
    ensures response.QueryError? || response.Thrown? || response.NoRows? ==> r == []
    ensures SearchQueried(searchTerm) ==>
              |r| == |RowsOr(response)| &&
              forall i :: 0 <= i < |r| ==> r[i] == ToSearchResult(RowsOr(response)[i])
  {
    if !SearchQueried(searchTerm) then []
    else
      var rows := RowsOr(response);
      seq(|rows|, i requires 0 <= i < |rows| => ToSearchResult(rows[i]))
  }

  /** A one-character term never reaches the database. */
  lemma ShortTermsGiveNothing(response: Fetch<SearchRow>)
    ensures SearchPatients("", response) == [] && SearchPatients("a", response) == []
  {
  }
}
