/** The shared date helpers' copy of the time engine: its own slot generator,
    working-hours test and slot rounding (which builds the "HH:MM" text
    directly), and the slot index of a time. */
module DateUtils {
  import opened Common
  import opened TimeText
  import opened GridTime

  /** `generateTimeSlots` with the hours written as the literals 9 and 19. */
  method GenerateTimeSlots() returns (slots: seq<string>)
    ensures slots == WorkingSlots()
  {
    slots := [];
    var hour := 9;
    while hour <= 19
      invariant 9 <= hour <= 20
      invariant |slots| == if hour <= 19 then 2 * (hour - 9) else SlotCount
      invariant slots == WorkingSlots()[..|slots|]
    {
      SlotOnTheHour(|slots|, hour);
      ExtendSlots(slots);
      slots := slots + [PadStart2(Decimal(hour)) + ":00"];
      if hour < 19 {
        SlotOnTheHalfHour(|slots|, hour);
        ExtendSlots(slots);
        slots := slots + [PadStart2(Decimal(hour)) + ":30"];
      }
      hour := hour + 1;
    }
  }

  /** `isTimeInWorkingHours` with the bounds written as 9 * 60 and 19 * 60. */
  predicate IsTimeInWorkingHours(time: string)
    requires WellFormedTime(time)
  {
    var minutes := ParseTime(time);
    minutes >= 9 * 60 && minutes <= 19 * 60
  }

  lemma WorkingHoursAgree(time: string)
    requires WellFormedTime(time)
    ensures IsTimeInWorkingHours(time) <==> 540 <= ParseTime(time) <= 1140
    ensures IsTimeInWorkingHours(time) == GridTime.IsTimeInWorkingHours(time)
  {
  }

  /** `normalizeTimeToSlot`, assembling the padded hour and minute itself. */
  function NormalizeTimeToSlot(time: string): string
    requires WellFormedTime(time)
  {
    var minutes := ParseTime(time);
    var hour := minutes / 60;
    var minute := minutes % 60;
    var normalizedMinute := if minute < 15 then 0 else if minute < 45 then 30 else 60;
    if normalizedMinute == 60 then PadStart2(Decimal(hour + 1)) + ":00"
    else PadStart2(Decimal(hour)) + ":" + PadStart2(Decimal(normalizedMinute))
  }

  /** The two rounding functions give the same text for every time, "24:00"
      for 23:45-23:59 included. */
  lemma NormalizeAgrees(time: string)
    requires WellFormedTime(time)
    ensures NormalizeTimeToSlot(time) == GridTime.NormalizeTimeToSlot(time)
  {
    var minutes := ParseTime(time);
    var hour, minute := minutes / 60, minutes % 60;
    RoundToSlotCases(minutes);
    var k := RoundToSlot(minutes);
    if minute < 15 {
      MinutesToTimeParts(k, hour, 0);
    } else if minute < 45 {
      MinutesToTimeParts(k, hour, 30);
    } else {
      MinutesToTimeParts(k, hour + 1, 0);
      ZeroText();
      HalfHourSuffixes(PadStart2(Decimal(hour + 1)));
    }
  }

  /** The slot index `getSlotIndex` finds: the position of the rounded time in
      the slot list, or -1 when it rounds to before 09:00 or after 19:00. */
  function SlotIndexOf(time: string): (idx: int)
    requires WellFormedTime(time)
    ensures -1 <= idx < SlotCount
  {
    var k := RoundToSlot(ParseTime(time));
    RoundToSlotBounds(ParseTime(time));
    if WorkStart <= k <= WorkEnd then (k - WorkStart) / SlotDuration else -1
  }

  /** `getSlotIndex`: build the slot list, round the time, and search. */
  method GetSlotIndex(time: string) returns (idx: int)
    requires WellFormedTime(time)
    ensures idx == SlotIndexOf(time)
    ensures -1 <= idx < SlotCount
    ensures 0 <= idx ==> WorkingSlots()[idx] == GridTime.NormalizeTimeToSlot(time)
  {
    var slots := GenerateTimeSlots();
    var normalizedTime := NormalizeTimeToSlot(time);
    NormalizeAgrees(time);
    SlotSearch(time);
    idx := IndexOf(slots, normalizedTime);
  }

  /** Searching the slot list for the rounded time finds it at SlotIndexOf,
      and only there. */
  lemma SlotSearch(time: string)
    requires WellFormedTime(time)
    ensures IndexOf(WorkingSlots(), GridTime.NormalizeTimeToSlot(time)) == SlotIndexOf(time)
  {
    var k := RoundToSlot(ParseTime(time));
    RoundToSlotBounds(ParseTime(time));
    assert GridTime.NormalizeTimeToSlot(time) == MinutesToTime(k);
    SearchHalfHour(k);
  }

  /** The slot list holds the text of a half-hour minute count k exactly at
      index (k - 540) / 30 when 540 <= k <= 1140, and nowhere otherwise. */
  lemma SearchHalfHour(k: nat)
    requires k % SlotDuration == 0
    ensures IndexOf(WorkingSlots(), MinutesToTime(k)) ==
            if WorkStart <= k <= WorkEnd then (k - WorkStart) / SlotDuration else -1
  {
    if WorkStart <= k <= WorkEnd {
      SearchFinds(k);
    } else {
      SearchMisses(k);
    }
  }

  lemma SearchFinds(k: nat)
    requires k % SlotDuration == 0 && WorkStart <= k <= WorkEnd
    ensures IndexOf(WorkingSlots(), MinutesToTime(k)) == (k - WorkStart) / SlotDuration
  {
    var i := (k - WorkStart) / SlotDuration;
    SlotIndexArithmetic(k, i);
    assert WorkingSlots()[i] == SlotAt(i);
    assert SlotAt(i) == MinutesToTime(k);
    var r := IndexOf(WorkingSlots(), MinutesToTime(k));
    SlotMinutes(r, k);
  }

  lemma SearchMisses(k: nat)
    requires !(WorkStart <= k <= WorkEnd)
    ensures IndexOf(WorkingSlots(), MinutesToTime(k)) == -1
  {
    var r := IndexOf(WorkingSlots(), MinutesToTime(k));
    if 0 <= r {
      SlotMinutes(r, k);
      assert false;
    }
  }

  /** A slot whose text is that of minute count k sits k minutes into the day. */
  lemma SlotMinutes(i: nat, k: nat)
    requires i < SlotCount && WorkingSlots()[i] == MinutesToTime(k)
    ensures k == WorkStart + SlotDuration * i
  {
    assert WorkingSlots()[i] == SlotAt(i);
    MinutesToTimeInjective(WorkStart + SlotDuration * i, k);
  }

  lemma At0850()
    ensures Canonical("08:50") && WellFormedTime("08:50") && ParseTime("08:50") == 530
  {
    CanonicalValue("08:50");
  }

  lemma At1910()
    ensures Canonical("19:10") && WellFormedTime("19:10") && ParseTime("19:10") == 1150
  {
    CanonicalValue("19:10");
  }

  lemma At1920()
    ensures Canonical("19:20") && WellFormedTime("19:20") && ParseTime("19:20") == 1160
  {
    CanonicalValue("19:20");
  }

  /** "08:50" rounds up into the first slot, "19:10" down into the last, and
      "19:20" rounds to "19:30", which is not a slot. */
  lemma SlotIndexExamples()
    ensures WellFormedTime("08:50") && SlotIndexOf("08:50") == 0
    ensures WellFormedTime("19:10") && SlotIndexOf("19:10") == 20
    ensures WellFormedTime("19:20") && SlotIndexOf("19:20") == -1
  {
    At0850();
    assert RoundToSlot(530) == 540;
    At1910();
    assert RoundToSlot(1150) == 1140;
    At1920();
    assert RoundToSlot(1160) == 1170;
  }
}
