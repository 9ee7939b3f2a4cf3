/** The doctor entity's store: the selected doctor, the favourite doctors'
    ids, and the specialty and availability filters. */
module DoctorStore {
  import opened Common
  import opened Recency

  datatype DoctorFilters = DoctorFilters(specialty: Option<string>, availability: bool)

  const InitialFilters := DoctorFilters(None, true)

  /** `toggleFavoriteDoctor` on the list: a favourite id is removed wherever
      it occurs, any other id is appended. */
  function Toggled(favorites: seq<int>, id: int): (r: seq<int>)
    ensures id in r <==> id !in favorites
    ensures forall other :: other != id ==> (other in r <==> other in favorites)
    ensures id !in favorites ==> r == favorites + [id]
    ensures id in favorites ==> r == Without(favorites, Self<int>, id)
  {
    if id in favorites then Without(favorites, Self<int>, id) else favorites + [id]
  }

  /** Apart from the toggled id the list is unchanged, order included. */
  lemma ToggleKeepsOthers(favorites: seq<int>, id: int)
    ensures Without(Toggled(favorites, id), Self<int>, id) == Without(favorites, Self<int>, id)
  {
    if id in favorites {
      WithoutAbsent(Without(favorites, Self<int>, id), Self<int>, id);
    } else {
      WithoutConcat(favorites, [id], Self<int>, id);
      assert Without([id], Self<int>, id) == [] by {
        assert [id][1..] == [];
      }
    }
  }

  /** A list without repeated ids stays so. */
  lemma ToggleKeepsUnique(favorites: seq<int>, id: int)
    requires UniqueKeys(favorites, Self<int>)
    ensures UniqueKeys(Toggled(favorites, id), Self<int>)
  {
    if id in favorites {
      WithoutUnique(favorites, Self<int>, id);
    } else {
      var r := favorites + [id];
      forall i, j | 0 <= i < j < |r|
        ensures Self(r[i]) != Self(r[j])
      {
        if j < |favorites| {
          assert r[i] == favorites[i] && r[j] == favorites[j];
        } else {
          assert r[i] == favorites[i] && favorites[i] in favorites;
        }
      }
    }
  }

  /** Toggling twice restores the set of favourites; an id that was not a
      favourite leaves the list exactly as it was. */
  lemma ToggleTwice(favorites: seq<int>, id: int)
    ensures var r := Toggled(Toggled(favorites, id), id);
            forall x :: x in r <==> x in favorites
    ensures id !in favorites ==> Toggled(Toggled(favorites, id), id) == favorites
  {
    if id !in favorites {
      var once := favorites + [id];
      assert id in once;
      WithoutConcat(favorites, [id], Self<int>, id);
      WithoutAbsent(favorites, Self<int>, id);
      assert Without([id], Self<int>, id) == [] by {
        assert [id][1..] == [];
      }
    }
  }

  /** Toggling a favourite off and on moves it to the end of the list. */
  lemma ToggleTwiceExample()
    ensures Toggled(Toggled([1, 2], 1), 1) == [2, 1]
  {
    assert 1 in [1, 2];
    assert [1, 2][1..] == [2];
    assert [2][1..] == [];
    assert Without([1, 2], Self<int>, 1) == [2];
  }

  class DoctorStore {
    var selectedDoctorId: Option<int>
    var favoriteDoctors: seq<int>
    var filters: DoctorFilters

    constructor ()
      ensures selectedDoctorId == None && favoriteDoctors == [] && filters == InitialFilters
    {
      selectedDoctorId := None;
      favoriteDoctors := [];
      filters := InitialFilters;
    }

    method SetSelectedDoctorId(id: Option<int>)
      modifies this`selectedDoctorId
      ensures selectedDoctorId == id
    {
      selectedDoctorId := id;
    }

    method ToggleFavoriteDoctor(id: int)
      modifies this`favoriteDoctors
      ensures favoriteDoctors == Toggled(old(favoriteDoctors), id)
      ensures id in favoriteDoctors <==> id !in old(favoriteDoctors)
    {
      favoriteDoctors := Toggled(favoriteDoctors, id);
    }

    method SetSpecialtyFilter(specialty: Option<string>)
      modifies this`filters
      ensures filters == old(filters).(specialty := specialty)
    {
      filters := filters.(specialty := specialty);
    }

    method SetAvailabilityFilter(availability: bool)
      modifies this`filters
      ensures filters == old(filters).(availability := availability)
    {
      filters := filters.(availability := availability);
    }

    method ClearFilters()
      modifies this`filters
      ensures filters == InitialFilters
    {
      filters := InitialFilters;
    }
  }
}
