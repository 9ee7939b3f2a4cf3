/** The booking form's check of a draft appointment: one optional error
    message per field group, collected into a record. */
module Validation {
  import opened Common
  import opened Phone

  /** A partially filled `CreateAppointmentRequest`: every field may be
      missing. */
  datatype AppointmentDraft = AppointmentDraft(
    doctorId: Option<int>,
    date: Option<string>,
    timeStart: Option<string>,
    timeEnd: Option<string>,
    patient: Option<string>,
    phone: Option<string>,
    appointmentType: Option<string>,
    comment: Option<string>)

  /** `ValidationErrors`: an absent field has no error. */
  datatype ValidationErrors = ValidationErrors(
    doctorId: Option<string>,
    patient: Option<string>,
    phone: Option<string>,
    timeRange: Option<string>,
    appointmentType: Option<string>)

  const NoErrors := ValidationErrors(None, None, None, None, None)

  const ChooseDoctor := "Выберите врача"
  const EnterPatient := "Введите имя пациента (минимум 2 символа)"
  const EnterPhone := "Введите номер телефона"
  const BadPhone := "Некорректный номер телефона"
  const ChooseTime := "Выберите время"
  const ChooseType := "Выберите тип приема"

  /** A draft the form may submit: a doctor, a patient name of at least two
      characters, a phone number the pattern accepts, both times, and a type. */
  predicate DraftComplete(data: AppointmentDraft) {
    && TruthyNumber(data.doctorId)
    && data.patient.Some? && |data.patient.value| >= 2
    && data.phone.Some? && ValidatePhone(data.phone.value)
    && Truthy(data.timeStart) && Truthy(data.timeEnd)
    && Truthy(data.appointmentType)
  }

  /** `validateAppointment`: start from an empty record and set the message
      of every field group that fails its test. */
  method ValidateAppointment(data: AppointmentDraft) returns (errors: ValidationErrors)
    ensures errors.doctorId.Some? <==> !TruthyNumber(data.doctorId)
    ensures errors.doctorId.Some? ==> errors.doctorId.value == ChooseDoctor
    ensures errors.patient.Some? <==> data.patient.None? || |data.patient.value| < 2
    ensures errors.patient.Some? ==> errors.patient.value == EnterPatient
    ensures errors.phone == Some(EnterPhone) <==> !Truthy(data.phone)
    ensures errors.phone == Some(BadPhone) <==> Truthy(data.phone) && !ValidatePhone(data.phone.value)
    ensures errors.phone.None? <==> data.phone.Some? && ValidatePhone(data.phone.value)
    ensures errors.timeRange.Some? <==> !Truthy(data.timeStart) || !Truthy(data.timeEnd)
    ensures errors.timeRange.Some? ==> errors.timeRange.value == ChooseTime
    ensures errors.appointmentType.Some? <==> !Truthy(data.appointmentType)
    ensures errors.appointmentType.Some? ==> errors.appointmentType.value == ChooseType
    ensures errors == NoErrors <==> DraftComplete(data)
  {
    errors := NoErrors;
    if !TruthyNumber(data.doctorId) {
      errors := errors.(doctorId := Some(ChooseDoctor));
    }
    if !Truthy(data.patient) || |data.patient.value| < 2 {
      errors := errors.(patient := Some(EnterPatient));
    }
    if !Truthy(data.phone) {
      errors := errors.(phone := Some(EnterPhone));
    } else if !ValidatePhone(data.phone.value) {
      errors := errors.(phone := Some(BadPhone));
    }
    if !Truthy(data.timeStart) || !Truthy(data.timeEnd) {
      errors := errors.(timeRange := Some(ChooseTime));
    }
    if !Truthy(data.appointmentType) {
      errors := errors.(appointmentType := Some(ChooseType));
    }
    if data.phone == Some("") {
      LengthBounds("");
    }
  }
}
