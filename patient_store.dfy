/** The patient entity's store: the selected patient, a search term and
    flag, and the ten most recently opened patients, distinct by id. */
module PatientStore {
  import opened Common
  import opened Records
  import opened Recency

  const RecentLimit := 10

  function PatientId(p: Patient): int { p.id }

  /** `addRecentPatient` on the list itself: the patient first, then the
      others whose id differs from it, at most ten in all. */
  function AddRecent(recent: seq<Patient>, patient: Patient): (r: seq<Patient>)
    ensures 1 <= |r| <= RecentLimit && r[0] == patient
  {
    Touch(recent, PatientId, patient, RecentLimit)
  }

  /** No other entry carries the patient's id, so a stale record of the same
      patient is replaced; the others keep their order; distinct ids stay
      distinct; adding the same patient twice is adding it once. */
  lemma AddRecentProperties(recent: seq<Patient>, patient: Patient)
    ensures var r := AddRecent(recent, patient);
            var rest := Without(recent, PatientId, patient.id);
            && (forall i :: 1 <= i < |r| ==> r[i].id != patient.id)
            && r[1..] == (if |rest| < RecentLimit then rest else rest[..RecentLimit - 1])
            && (UniqueKeys(recent, PatientId) ==> UniqueKeys(r, PatientId))
            && AddRecent(r, patient) == r
  {
    TouchShape(recent, PatientId, patient, RecentLimit);
    var r := AddRecent(recent, patient);
    forall i | 1 <= i < |r|
      ensures r[i].id != patient.id
    {
      assert PatientId(r[i]) != PatientId(patient);
    }
    if UniqueKeys(recent, PatientId) {
      TouchUnique(recent, PatientId, patient, RecentLimit);
    }
    TouchTwice(recent, PatientId, patient, RecentLimit);
  }

  class PatientStore {
    var selectedPatient: Option<Patient>
    var searchTerm: string
    var isSearching: bool
    var recentPatients: seq<Patient>

    constructor ()
      ensures selectedPatient == None && searchTerm == "" && !isSearching && recentPatients == []
    {
      selectedPatient := None;
      searchTerm := "";
      isSearching := false;
      recentPatients := [];
    }

    method SetSelectedPatient(patient: Option<Patient>)
      modifies this`selectedPatient
      ensures selectedPatient == patient
    {
      selectedPatient := patient;
    }

    method SetSearchTerm(term: string)
      modifies this`searchTerm
      ensures searchTerm == term
    {
      searchTerm := term;
    }

    method SetIsSearching(searching: bool)
      modifies this`isSearching
      ensures isSearching == searching
    {
      isSearching := searching;
    }

    method SetRecentPatients(patients: seq<Patient>)
      modifies this`recentPatients
      ensures recentPatients == patients
    {
      recentPatients := patients;
    }

    method AddRecentPatient(patient: Patient)
      modifies this`recentPatients
      ensures recentPatients == AddRecent(old(recentPatients), patient)
      ensures recentPatients[0] == patient && |recentPatients| <= RecentLimit
    {
      recentPatients := AddRecent(recentPatients, patient);
    }

    method ClearSelection()
      modifies this`selectedPatient
      ensures selectedPatient == None
    {
      selectedPatient := None;
    }

    /** Resets the term and the flag; the selection and the recent list stay. */
    method ClearSearch()
      modifies this`searchTerm, this`isSearching
      ensures searchTerm == "" && !isSearching
    {
      searchTerm := "";
      isSearching := false;
    }
  }
}
