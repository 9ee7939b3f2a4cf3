/** The appointment entity's store: the selected appointment, the create and
    update flags, and the status, date-range and doctor filters. */
module AppointmentStore {
  import opened Common
  import opened Status

  /** A `[from, to]` pair of dates. */
  datatype DateRange = DateRange(from: string, to: string)

  datatype AppointmentFilters = AppointmentFilters(
    status: Option<AppointmentStatus>,
    dateRange: Option<DateRange>,
    doctorId: Option<int>)

  const InitialFilters := AppointmentFilters(None, None, None)

  class AppointmentStore {
    var selectedAppointmentId: Option<int>
    var isCreatingAppointment: bool
    var isUpdatingAppointment: bool
    var filters: AppointmentFilters

    constructor ()
      ensures selectedAppointmentId == None
      ensures !isCreatingAppointment && !isUpdatingAppointment
      ensures filters == InitialFilters
    {
      selectedAppointmentId := None;
      isCreatingAppointment := false;
      isUpdatingAppointment := false;
      filters := InitialFilters;
    }

    method SetSelectedAppointmentId(id: Option<int>)
      modifies this`selectedAppointmentId
      ensures selectedAppointmentId == id
    {
      selectedAppointmentId := id;
    }

    method SetIsCreatingAppointment(creating: bool)
      modifies this`isCreatingAppointment
      ensures isCreatingAppointment == creating
    {
      isCreatingAppointment := creating;
    }

    method SetIsUpdatingAppointment(updating: bool)
      modifies this`isUpdatingAppointment
      ensures isUpdatingAppointment == updating
    {
      isUpdatingAppointment := updating;
    }

    method SetStatusFilter(status: Option<AppointmentStatus>)
      modifies this`filters
      ensures filters == old(filters).(status := status)
    {
      filters := filters.(status := status);
    }

    method SetDateRangeFilter(range: Option<DateRange>)
      modifies this`filters
      ensures filters == old(filters).(dateRange := range)
    {
      filters := filters.(dateRange := range);
    }

    method SetDoctorFilter(doctorId: Option<int>)
      modifies this`filters
      ensures filters == old(filters).(doctorId := doctorId)
    {
      filters := filters.(doctorId := doctorId);
    }

    method ClearFilters()
      modifies this`filters
      ensures filters == InitialFilters
    {
      filters := InitialFilters;
    }
  }
}
