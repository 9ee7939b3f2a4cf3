/** The calendar grid store: the slot list, selection and drag state, grid
    width, and a memo table of block positions keyed by "start-end". */
module GridStore {
  import opened Common
  import opened TimeText
  import opened GridTime

  /** The memo key of an appointment: `${timeStart}-${timeEnd}`. */
  function CacheKey(timeStart: string, timeEnd: string): string {
    timeStart + "-" + timeEnd
  }

  /** An entry of the memo table holds the position of the interval its key
      names. */
  predicate EntryCoherent(key: string, p: AppointmentPosition) {
    var i := IndexOf(key, '-');
    && 0 <= i
    && WellFormedTime(key[..i]) && WellFormedTime(key[i + 1..])
    && p == CalculateAppointmentPosition(key[..i], key[i + 1..])
  }

  /** Times contain no '-', so the key splits back into its two times. */
  lemma KeySplits(timeStart: string, timeEnd: string)
    requires WellFormedTime(timeStart) && WellFormedTime(timeEnd)
    ensures var key := CacheKey(timeStart, timeEnd);
            IndexOf(key, '-') == |timeStart| &&
            key[..|timeStart|] == timeStart && key[|timeStart| + 1..] == timeEnd
  {
    var key := CacheKey(timeStart, timeEnd);
    forall j | 0 <= j < |timeStart|
      ensures timeStart[j] != '-'
    {
      TimeHasNoDash(timeStart, j);
    }
    assert key[|timeStart|] == '-';
    assert key[..|timeStart|] == timeStart;
    assert key[|timeStart| + 1..] == timeEnd;
  }

  lemma TimeHasNoDash(t: string, j: nat)
    requires WellFormedTime(t) && j < |t|
    ensures t[j] != '-'
  {
    var i := IndexOf(t, ':');
    if j < i {
      assert t[..i][j] == t[j];
      assert IsDigit(t[..i][j]);
    } else if j > i {
      assert t[i + 1..][j - i - 1] == t[j];
      assert IsDigit(t[i + 1..][j - i - 1]);
    }
  }

  /** The freshly computed position of an interval is a coherent entry under
      its key. */
  lemma FreshEntryCoherent(timeStart: string, timeEnd: string)
    requires WellFormedTime(timeStart) && WellFormedTime(timeEnd)
    ensures EntryCoherent(CacheKey(timeStart, timeEnd), CalculateAppointmentPosition(timeStart, timeEnd))
  {
    KeySplits(timeStart, timeEnd);
  }

  class CalendarGridStore {
    var timeSlots: seq<string>
    var selectedTimeSlot: Option<string>
    var draggedAppointment: Option<int>
    var isLoading: bool
    var gridColumns: int
    var positionCache: map<string, AppointmentPosition>

    /** The slot list is the working day's half-hour slots. */
    predicate Valid()
      reads this
    {
      timeSlots == WorkingSlots()
    }

    /** Every memoized position is the one its key's interval has. */
    predicate CacheCoherent()
      reads this
    {
      forall key :: key in positionCache ==> EntryCoherent(key, positionCache[key])
    }

    constructor ()
      ensures Valid() && CacheCoherent()
      ensures selectedTimeSlot == None && draggedAppointment == None
      ensures !isLoading && gridColumns == 1 && positionCache == map[]
    {
      var slots := GenerateTimeSlots();
      timeSlots := slots;
      selectedTimeSlot := None;
      draggedAppointment := None;
      isLoading := false;
      gridColumns := 1;
      positionCache := map[];
    }

    method SetSelectedTimeSlot(timeSlot: Option<string>)
      modifies this`selectedTimeSlot
      ensures selectedTimeSlot == timeSlot
    {
      selectedTimeSlot := timeSlot;
    }

    method SetDraggedAppointment(appointmentId: Option<int>)
      modifies this`draggedAppointment
      ensures draggedAppointment == appointmentId
    {
      draggedAppointment := appointmentId;
    }

    method SetIsLoading(loading: bool)
      modifies this`isLoading
      ensures isLoading == loading
    {
      isLoading := loading;
    }

    method SetGridColumns(columns: int)
      modifies this`gridColumns
      ensures gridColumns == columns
    {
      gridColumns := columns;
    }

    /** `calculateAppointmentPosition` of the store: a hit returns the memoized
        value and leaves the table alone (a position object is always truthy);
        a miss computes the position and memoizes it under the key. With a
        coherent table the answer is always the pure function's. */
    method CalculateAppointmentPosition(timeStart: string, timeEnd: string)
      returns (position: AppointmentPosition)
      requires WellFormedTime(timeStart) && WellFormedTime(timeEnd)
      modifies this`positionCache
      ensures var key := CacheKey(timeStart, timeEnd);
              key in old(positionCache) ==>
                position == old(positionCache)[key] && positionCache == old(positionCache)
      ensures var key := CacheKey(timeStart, timeEnd);
              key !in old(positionCache) ==>
                position == GridTime.CalculateAppointmentPosition(timeStart, timeEnd) &&
                positionCache == old(positionCache)[key := position]
      ensures CacheKey(timeStart, timeEnd) in positionCache
      ensures old(CacheCoherent()) ==>
                CacheCoherent() && position == GridTime.CalculateAppointmentPosition(timeStart, timeEnd)
    {
      var key := CacheKey(timeStart, timeEnd);
      FreshEntryCoherent(timeStart, timeEnd);
      var cached := GetCachedPosition(key);
      if cached.Some? {
        return cached.value;
      }
      position := GridTime.CalculateAppointmentPosition(timeStart, timeEnd);
      SetCachedPosition(key, position);
    }

    function GetTimeSlots(): (slots: seq<string>)
      reads this
      requires Valid()
      ensures slots == WorkingSlots() && |slots| == SlotCount
    {
      timeSlots
    }

    method ClearPositionCache()
      modifies this`positionCache
      ensures positionCache == map[] && CacheCoherent()
    {
      positionCache := map[];
    }

    /** `positionCache.get(key)`: the memoized position, if any. */
    function GetCachedPosition(key: string): (r: Option<AppointmentPosition>)
      reads this
      ensures r.Some? <==> key in positionCache
      ensures r.Some? ==> r.value == positionCache[key]
    {
      if key in positionCache then Some(positionCache[key]) else None
    }

    /** `setCachedPosition`: a copy of the table with one entry set. Coherence
        survives exactly when the new entry is itself coherent. */
    method SetCachedPosition(key: string, position: AppointmentPosition)
      modifies this`positionCache
      ensures positionCache == old(positionCache)[key := position]
      ensures old(CacheCoherent()) && EntryCoherent(key, position) ==> CacheCoherent()
    {
      positionCache := positionCache[key := position];
    }

    /** `isValidTimeSlot`: inside working hours and in the slot list, which
        for the store's own slot list is the same as being a slot. */
    predicate IsValidTimeSlot(time: string)
      reads this
      requires WellFormedTime(time)
    {
      IsTimeInWorkingHours(time) && time in timeSlots
    }

    /** `canDropAppointment`: only the working-hours test; the doctor plays no part. */
    predicate CanDropAppointment(time: string, doctorId: int)
      requires WellFormedTime(time)
    {
      IsTimeInWorkingHours(time)
    }

    lemma ValidTimeSlotIsSlot(time: string)
      requires Valid() && WellFormedTime(time)
      ensures IsValidTimeSlot(time) <==> time in WorkingSlots()
    {
      if time in WorkingSlots() {
        var i :| 0 <= i < SlotCount && WorkingSlots()[i] == time;
        SlotIsAligned(i);
      }
    }
  }

  /** `canDropAppointment` holds exactly for times from 09:00 to 19:00, and
      does not depend on the doctor. */
  lemma CanDropExactlyWorkingHours(store: CalendarGridStore, time: string, doctorA: int, doctorB: int)
    requires WellFormedTime(time)
    ensures store.CanDropAppointment(time, doctorA) <==> WorkStart <= ParseTime(time) <= WorkEnd
    ensures store.CanDropAppointment(time, doctorA) == store.CanDropAppointment(time, doctorB)
  {
  }

  /** Every block the grid draws has top >= 0, so the grid's "negative position"
      warning branch is never taken. */
  lemma NoNegativeTop(timeStart: string, timeEnd: string)
    requires WellFormedTime(timeStart) && WellFormedTime(timeEnd)
    ensures !(GridTime.CalculateAppointmentPosition(timeStart, timeEnd).top < 0)
  {
  }
}
