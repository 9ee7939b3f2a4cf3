/** The patient endpoints: the list query's plan and the records it reads,
    the row a new patient inserts, and the columns an update writes. */
module PatientApi {
  import opened Common
  import opened Records

  /** A row of the `patients` table. */
  datatype PatientRow = PatientRow(
    id: int,
    name: string,
    phone: string,
    email: Option<string>,
    birthDate: Option<string>,
    notes: Option<string>,
    createdAt: Option<string>,
    updatedAt: Option<string>)

  /** The patient a row reads as: falsy email, birth date and notes become
      absent; the rest is copied. */
  function ToPatient(row: PatientRow): (p: Patient)
    ensures p.id == row.id && p.name == row.name && p.phone == row.phone
    ensures p.email == OrAbsent(row.email) && p.birthDate == OrAbsent(row.birthDate)
    ensures p.notes == OrAbsent(row.notes)
    ensures p.createdAt == row.createdAt && p.updatedAt == row.updatedAt
  {
    Patient(row.id, row.name, row.phone, OrAbsent(row.email), OrAbsent(row.birthDate),
            OrAbsent(row.notes), row.createdAt, row.updatedAt)
  }

  const DefaultLimit := 50

  /** What `getPatients` asks of the table: a row limit and, maybe, a text
      to look for in name, phone and email. */
  datatype PatientQuery = PatientQuery(limit: int, search: Option<string>)

  /** The query `getPatients` sends: the limit defaults to 50 when not given,
      and the search filter is added only for a term of two or more
      characters. */
  function PatientsQuery(search: Option<string>, limit: Option<int>): (q: PatientQuery)
    ensures q.limit == if limit.Some? then limit.value else DefaultLimit
    ensures q.search.Some? <==> search.Some? && |search.value| >= 2
    ensures q.search.Some? ==> q.search == search
  {
    PatientQuery(if limit.Some? then limit.value else DefaultLimit,
                 if Truthy(search) && |search.value| >= 2 then search else None)
  }

  /** `getPatients` given the query's answer: one patient per row, in row
      order; nothing after an error, an exception or a null answer. */
  function GetPatients(response: Fetch<PatientRow>): (r: seq<Patient>)
    ensures !response.Data? ==> r == []
    ensures response.Data? ==>
              |r| == |response.rows| &&
              forall i :: 0 <= i < |r| ==> r[i] == ToPatient(response.rows[i])
  {
    var rows := RowsOr(response);
    seq(|rows|, i requires 0 <= i < |rows| => ToPatient(rows[i]))
  }

  datatype CreatePatientRequest = CreatePatientRequest(
    name: string,
    phone: string,
    email: Option<string>,
    birthDate: Option<string>,
    notes: Option<string>)

  /** The row `createPatient` inserts (the table fills in id and times). */
  datatype NewPatientRow = NewPatientRow(
    name: string,
    phone: string,
    email: Option<string>,
    birthDate: Option<string>,
    notes: Option<string>)

  /** Empty email, birth date and notes are stored as null. */
  function InsertPatientRow(req: CreatePatientRequest): (row: NewPatientRow)
    ensures row.name == req.name && row.phone == req.phone
    ensures row.email.Some? <==> Truthy(req.email)
    ensures row.birthDate.Some? <==> Truthy(req.birthDate)
    ensures row.notes.Some? <==> Truthy(req.notes)
    ensures row.email.Some? ==> row.email == req.email
    ensures row.birthDate.Some? ==> row.birthDate == req.birthDate
    ensures row.notes.Some? ==> row.notes == req.notes
  {
    NewPatientRow(req.name, req.phone, OrAbsent(req.email), OrAbsent(req.birthDate), OrAbsent(req.notes))
  }

  /** The stored form of an inserted row. */
  function StoredPatient(row: NewPatientRow, id: int, createdAt: string): PatientRow {
    PatientRow(id, row.name, row.phone, row.email, row.birthDate, row.notes, Some(createdAt), Some(createdAt))
  }

  /** The outcome of a patient mutation given the row `.single()` returned
      (None for an error or an exception). */
  function PatientResult(returned: Option<PatientRow>): (r: ApiResult<Patient>)
    ensures returned.None? <==> r.FetchError?
    ensures returned.Some? ==> r == Ok(ToPatient(returned.value))
  {
    if returned.Some? then Ok(ToPatient(returned.value)) else FetchError
  }

  /** Registration round trip: when the table stores the inserted row, the
      patient read back has the request's name and phone, and exactly its
      truthy optional fields. */
  lemma CreatePatientRoundTrip(req: CreatePatientRequest, id: int, createdAt: string)
    ensures PatientResult(Some(StoredPatient(InsertPatientRow(req), id, createdAt))) ==
            Ok(Patient(id, req.name, req.phone, OrAbsent(req.email), OrAbsent(req.birthDate),
                       OrAbsent(req.notes), Some(createdAt), Some(createdAt)))
  {
  }

  datatype UpdatePatientRequest = UpdatePatientRequest(
    id: int,
    name: Option<string>,
    phone: Option<string>,
    email: Option<string>,
    birthDate: Option<string>,
    notes: Option<string>)

  /** The `updateData` object `updatePatient` sends: a column is present when
      its field is `Some`. It has no id column: the id only selects the row. */
  datatype PatientUpdate = PatientUpdate(
    name: Option<string>,
    phone: Option<string>,
    email: Option<string>,
    birthDate: Option<string>,
    notes: Option<string>,
    updatedAt: Option<string>)

  /** `updateData` built column by column: name and phone only when truthy,
      email, birth date and notes whenever defined ("" included, which clears
      them); `now` stands for the clock's ISO timestamp. */
  method UpdatePatientPayload(req: UpdatePatientRequest, now: string) returns (payload: PatientUpdate)
    ensures payload.name == OrAbsent(req.name)
    ensures payload.phone == OrAbsent(req.phone)
    ensures payload.email == req.email
    ensures payload.birthDate == req.birthDate
    ensures payload.notes == req.notes
    ensures payload.updatedAt == Some(now)
  {
    payload := PatientUpdate(None, None, None, None, None, None);
    if Truthy(req.name) {
      payload := payload.(name := req.name);
    }
    if Truthy(req.phone) {
      payload := payload.(phone := req.phone);
    }
    if req.email.Some? {
      payload := payload.(email := req.email);
    }
    if req.birthDate.Some? {
      payload := payload.(birthDate := req.birthDate);
    }
    if req.notes.Some? {
      payload := payload.(notes := req.notes);
    }
    payload := payload.(updatedAt := Some(now));
  }
}
