/** The patient-search widget's store: the term, the hits, the selected hit,
    a busy flag, and the five most recent distinct search terms. */
module SearchStore {
  import opened Common
  import opened Records
  import opened Recency

  const HistoryLimit := 5

  /** `addToSearchHistory` on the history itself: the term first, then the
      older terms other than it, at most five in all. */
  function AddToHistory(history: seq<string>, term: string): (r: seq<string>)
    ensures 1 <= |r| <= HistoryLimit && r[0] == term
  {
    Touch(history, Self<string>, term, HistoryLimit)
  }

  /** The term occurs once, at the front; the rest are the older terms other
      than it, in their old order, cut to four; a history without repeats
      stays without repeats; adding a term twice is adding it once. */
  lemma AddToHistoryProperties(history: seq<string>, term: string)
    ensures var r := AddToHistory(history, term);
            var rest := Without(history, Self<string>, term);
            && (forall i :: 1 <= i < |r| ==> r[i] != term)
            && r[1..] == (if |rest| < HistoryLimit then rest else rest[..HistoryLimit - 1])
            && (UniqueKeys(history, Self<string>) ==> UniqueKeys(r, Self<string>))
            && AddToHistory(r, term) == r
  {
    TouchShape(history, Self<string>, term, HistoryLimit);
    var r := AddToHistory(history, term);
    forall i | 1 <= i < |r|
      ensures r[i] != term
    {
      assert Self(r[i]) != Self(term);
    }
    if UniqueKeys(history, Self<string>) {
      TouchUnique(history, Self<string>, term, HistoryLimit);
    }
    TouchTwice(history, Self<string>, term, HistoryLimit);
  }

  class PatientSearchStore {
    var searchTerm: string
    var searchResults: seq<SearchResult>
    var isSearching: bool
    var selectedPatient: Option<SearchResult>
    var searchHistory: seq<string>

    constructor ()
      ensures searchTerm == "" && searchResults == [] && !isSearching
      ensures selectedPatient == None && searchHistory == []
    {
      searchTerm := "";
      searchResults := [];
      isSearching := false;
      selectedPatient := None;
      searchHistory := [];
    }

    method SetSearchTerm(term: string)
      modifies this`searchTerm
      ensures searchTerm == term
    {
      searchTerm := term;
    }

    method SetSearchResults(results: seq<SearchResult>)
      modifies this`searchResults
      ensures searchResults == results
    {
      searchResults := results;
    }

    method SetIsSearching(loading: bool)
      modifies this`isSearching
      ensures isSearching == loading
    {
      isSearching := loading;
    }

    method SetSelectedPatient(patient: Option<SearchResult>)
      modifies this`selectedPatient
      ensures selectedPatient == patient
    {
      selectedPatient := patient;
    }

    method AddToSearchHistory(term: string)
      modifies this`searchHistory
      ensures searchHistory == AddToHistory(old(searchHistory), term)
      ensures searchHistory[0] == term && |searchHistory| <= HistoryLimit
    {
      searchHistory := AddToHistory(searchHistory, term);
    }

    /** Resets the search, keeping the history. */
    method ClearSearch()
      modifies this`searchTerm, this`searchResults, this`selectedPatient, this`isSearching
      ensures searchTerm == "" && searchResults == [] && selectedPatient == None && !isSearching
    {
      searchTerm := "";
      searchResults := [];
      selectedPatient := None;
      isSearching := false;
    }

    method ClearHistory()
      modifies this`searchHistory
      ensures searchHistory == []
    {
      searchHistory := [];
    }
  }
}
