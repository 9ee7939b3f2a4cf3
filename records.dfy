/** The records the screens and stores pass around, and the database rows
    they are read from. */
module Records {
  import opened Common

  /** An appointment as a doctor's column shows it. Status and type are the
      stored texts, passed through unchecked. */
  datatype Appointment = Appointment(
    id: int,
    timeStart: string,
    timeEnd: string,
    patient: string,
    phone: string,
    status: string,
    appointmentType: string,
    comment: Option<string>)

  datatype Doctor = Doctor(
    id: int,
    name: string,
    specialty: string,
    avatar: string,
    appointments: seq<Appointment>)

  /** A search hit: the appointment and the name of its doctor. */
  datatype SearchResult = SearchResult(appointment: Appointment, doctor: string)

  datatype Patient = Patient(
    id: int,
    name: string,
    phone: string,
    email: Option<string>,
    birthDate: Option<string>,
    notes: Option<string>,
    createdAt: Option<string>,
    updatedAt: Option<string>)

  /** A row of the `appointments` table. */
  datatype AppointmentRow = AppointmentRow(
    id: int,
    doctorId: int,
    appointmentDate: string,
    timeStart: string,
    timeEnd: string,
    patientName: string,
    patientPhone: string,
    appointmentType: string,
    status: string,
    comment: Option<string>)

  /** The `Appointment` a row reads as: a falsy comment becomes absent. */
  function ToAppointment(row: AppointmentRow): (a: Appointment)
    ensures a.id == row.id && a.timeStart == row.timeStart && a.timeEnd == row.timeEnd
    ensures a.patient == row.patientName && a.phone == row.patientPhone
    ensures a.status == row.status && a.appointmentType == row.appointmentType
    ensures a.comment.Some? <==> Truthy(row.comment)
    ensures a.comment.Some? ==> a.comment == row.comment
  {
    Appointment(row.id, row.timeStart, row.timeEnd, row.patientName, row.patientPhone,
                row.status, row.appointmentType, OrAbsent(row.comment))
  }

  /** The doctor avatar used when none is stored: U+1F468 U+200D U+2695
      U+FE0F, the health-worker emoji. */
  const DefaultAvatar := "\U{1F468}\U{200D}\U{2695}\U{FE0F}"

  const UnknownDoctor := "Неизвестный врач"
}
