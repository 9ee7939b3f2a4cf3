/** Appointment statuses and the status-changer's cycle: Записан (booked) ->
    Пришел (arrived) -> Завершен (completed) -> Записан, with Отменен
    (cancelled) also going back to Записан; plus the small store that records
    an update in flight. */
module Status {
  import opened Common

  datatype AppointmentStatus = Scheduled | Arrived | Completed | Cancelled

  /** The text the application stores and shows for each status. */
  function Label(s: AppointmentStatus): string {
    match s
    case Scheduled => "Записан"
    case Arrived => "Пришел"
    case Completed => "Завершен"
    case Cancelled => "Отменен"
  }

  /** The status a stored text names, if any. */
  function FromLabel(text: string): (r: Option<AppointmentStatus>)
    ensures r.Some? ==> Label(r.value) == text
  {
    if text == "Записан" then Some(Scheduled)
    else if text == "Пришел" then Some(Arrived)
    else if text == "Завершен" then Some(Completed)
    else if text == "Отменен" then Some(Cancelled)
    else None
  }

  /** Every status reads back from its text, so texts name statuses one to one. */
  lemma LabelRoundTrip(s: AppointmentStatus)
    ensures FromLabel(Label(s)) == Some(s)
  {
  }

  lemma LabelInjective(s: AppointmentStatus, t: AppointmentStatus)
    ensures Label(s) == Label(t) <==> s == t
  {
    LabelRoundTrip(s);
    LabelRoundTrip(t);
  }

  /** The `statusCycle` table. */
  function NextStatus(s: AppointmentStatus): (r: AppointmentStatus)
    ensures r != Cancelled
    ensures s == Cancelled ==> r == Scheduled
  {
    match s
    case Scheduled => Arrived
    case Arrived => Completed
    case Completed => Scheduled
    case Cancelled => Scheduled
  }

  /** `getNextStatus`: the table entry of a known status text, and "Записан"
      for any other text (every table entry is a non-empty, truthy string). */
  function GetNextStatus(currentStatus: string): (r: string)
    ensures FromLabel(r).Some? && FromLabel(r).value != Cancelled
    ensures FromLabel(currentStatus).None? ==> r == "Записан"
    ensures FromLabel(currentStatus).Some? ==> r == Label(NextStatus(FromLabel(currentStatus).value))
  {
    match FromLabel(currentStatus)
    case Some(s) =>
      var next := NextStatus(s);
      LabelRoundTrip(next);
      Label(next)
    case None => "Записан"
  }

  /** Three steps bring Записан, Пришел and Завершен back to themselves. */
  lemma CycleOfThree(s: AppointmentStatus)
    requires s != Cancelled
    ensures NextStatus(NextStatus(NextStatus(s))) == s
  {
  }

  /** At the text level: three clicks on a booked, arrived or completed
      appointment return it to its status. */
  lemma TextCycleOfThree(currentStatus: string)
    requires currentStatus in {"Записан", "Пришел", "Завершен"}
    ensures GetNextStatus(GetNextStatus(GetNextStatus(currentStatus))) == currentStatus
  {
    var s := FromLabel(currentStatus).value;
    var a := GetNextStatus(currentStatus);
    LabelRoundTrip(NextStatus(s));
    var b := GetNextStatus(a);
    LabelRoundTrip(NextStatus(NextStatus(s)));
    LabelRoundTrip(NextStatus(NextStatus(NextStatus(s))));
  }

  /** The four entries of the table. */
  lemma StatusTable()
    ensures GetNextStatus("Записан") == "Пришел"
    ensures GetNextStatus("Пришел") == "Завершен"
    ensures GetNextStatus("Завершен") == "Записан"
    ensures GetNextStatus("Отменен") == "Записан"
  {
  }

  /** The update-in-flight flags of the status changer. */
  class UpdateAppointmentStore {
    var isUpdating: bool
    var lastUpdatedId: Option<int>

    constructor ()
      ensures !isUpdating && lastUpdatedId == None
    {
      isUpdating := false;
      lastUpdatedId := None;
    }

    method SetIsUpdating(loading: bool)
      modifies this`isUpdating
      ensures isUpdating == loading
    {
      isUpdating := loading;
    }

    method SetLastUpdatedId(id: Option<int>)
      modifies this`lastUpdatedId
      ensures lastUpdatedId == id
    {
      lastUpdatedId := id;
    }
  }
}
