/** The calendar grid's time and position engine: the working-day slot list,
    working-hours test, rounding to a slot, pixel geometry of an appointment
    block and its inverse, and the interval-overlap test
    (`timeUtils` and `positionUtils` of the calendar grid store). */
module GridTime {
  import opened TimeText

  const SlotHeight := 60
  const StartHour := 9
  const EndHour := 19
  const SlotDuration := 30
  const MinimumAppointmentHeight := 30
  const AppointmentMargin := 8
  const AppointmentZIndex := 10

  const WorkStart := StartHour * 60
  const WorkEnd := EndHour * 60
  /** SLOT_HEIGHT / SLOT_DURATION: exactly 2 pixels per minute. */
  const PixelsPerMinute := SlotHeight / SlotDuration
  /** Half-hour slots from 09:00 to 19:00 inclusive. */
  const SlotCount := (EndHour - StartHour) * 2 + 1

  /** The i-th half-hour slot of the working day. */
  function SlotAt(i: nat): string {
    MinutesToTime(WorkStart + SlotDuration * i)
  }

  /** The slot list the grid shows, one row per slot. */
  function WorkingSlots(): (s: seq<string>)
    ensures |s| == SlotCount
  {
    seq(SlotCount, i requires 0 <= i => SlotAt(i))
  }

  lemma HalfHourSuffixes(h: string)
    ensures h + ":" + "00" == h + ":00" && h + ":" + "30" == h + ":30"
  {
  }

  /** The slot text of an index, from the hour and minute it falls on. */
  lemma SlotText(i: nat, hour: nat, minute: nat)
    requires minute < 60 && WorkStart + SlotDuration * i == 60 * hour + minute
    ensures SlotAt(i) == PadStart2(Decimal(hour)) + ":" + PadStart2(Decimal(minute))
  {
    MinutesToTimeParts(WorkStart + SlotDuration * i, hour, minute);
  }

  /** The slot on the hour: "HH:00". */
  lemma SlotOnTheHour(i: nat, hour: nat)
    requires i == 2 * (hour - StartHour)
    ensures SlotAt(i) == PadStart2(Decimal(hour)) + ":00"
  {
    SlotText(i, hour, 0);
    ZeroText();
    HalfHourSuffixes(PadStart2(Decimal(hour)));
  }

  /** The slot on the half hour: "HH:30". */
  lemma SlotOnTheHalfHour(i: nat, hour: nat)
    requires i == 2 * (hour - StartHour) + 1
    ensures SlotAt(i) == PadStart2(Decimal(hour)) + ":30"
  {
    SlotText(i, hour, 30);
    ThirtyText();
    HalfHourSuffixes(PadStart2(Decimal(hour)));
  }

  /** `generateTimeSlots`: for each hour from 9 to 19 push "HH:00", and "HH:30"
      for every hour but the last. */
  method GenerateTimeSlots() returns (slots: seq<string>)
    ensures slots == WorkingSlots()
  {
    slots := [];
    var hour := StartHour;
    while hour <= EndHour
      invariant StartHour <= hour <= EndHour + 1
      invariant |slots| == if hour <= EndHour then 2 * (hour - StartHour) else SlotCount
      invariant slots == WorkingSlots()[..|slots|]
    {
      SlotOnTheHour(|slots|, hour);
      ExtendSlots(slots);
      slots := slots + [PadStart2(Decimal(hour)) + ":00"];
      if hour < EndHour {
        SlotOnTheHalfHour(|slots|, hour);
        ExtendSlots(slots);
        slots := slots + [PadStart2(Decimal(hour)) + ":30"];
      }
      hour := hour + 1;
    }
  }

  /** One more slot extends a prefix of the slot list. */
  lemma ExtendSlots(slots: seq<string>)
    requires |slots| < SlotCount && slots == WorkingSlots()[..|slots|]
    ensures slots + [SlotAt(|slots|)] == WorkingSlots()[..|slots| + 1]
  {
    assert WorkingSlots()[|slots|] == SlotAt(|slots|);
  }

  /** `isTimeInWorkingHours`: between 09:00 and 19:00, both ends included. */
  predicate IsTimeInWorkingHours(t: string)
    requires WellFormedTime(t)
  {
    var minutes := ParseTime(t);
    minutes >= WorkStart && minutes <= WorkEnd
  }

  /** `normalizeTimeToSlot`: minutes 0-14 of an hour round down to ":00",
      15-44 to ":30", 45-59 up to the next hour's ":00". The closed form says
      this is rounding half up to a multiple of 30 minutes. */
  function NormalizeTimeToSlot(t: string): (r: string)
    requires WellFormedTime(t)
    ensures r == MinutesToTime(RoundToSlot(ParseTime(t)))
  {
    var minutes := ParseTime(t);
    var hour := minutes / 60;
    var minute := minutes % 60;
    var normalizedMinute := if minute < 15 then 0 else if minute < 45 then 30 else 60;
    RoundToSlotCases(minutes);
    if normalizedMinute == 60 then MinutesToTime((hour + 1) * 60)
    else MinutesToTime(hour * 60 + normalizedMinute)
  }

  datatype AppointmentPosition = AppointmentPosition(top: int, height: int, zIndex: int)

  function Max(a: int, b: int): int {
    if a >= b then a else b
  }

  /** `calculateAppointmentPosition`: the block starts 2 px per minute below
      09:00 (never above the grid) and is 2 px per minute tall less an 8 px
      margin, but at least 30 px. */
  function CalculateAppointmentPosition(timeStart: string, timeEnd: string): (p: AppointmentPosition)
    requires WellFormedTime(timeStart) && WellFormedTime(timeEnd)
    ensures p.top >= 0
    ensures p.height >= MinimumAppointmentHeight
    ensures p.zIndex == AppointmentZIndex
  {
    var startMinutes := ParseTime(timeStart);
    var endMinutes := ParseTime(timeEnd);
    var duration := endMinutes - startMinutes;
    var minutesFromStart := startMinutes - WorkStart;
    AppointmentPosition(
      Max(0, minutesFromStart * PixelsPerMinute),
      Max(MinimumAppointmentHeight, duration * PixelsPerMinute - AppointmentMargin),
      AppointmentZIndex)
  }

  /** `Math.round(y / d)` for a positive integer d: the nearest integer to the
      exact quotient, halves rounding up. */
  function RoundQuotient(y: int, d: int): (q: int)
    requires d > 0
    ensures 2 * d * q - d <= 2 * y < 2 * d * q + d
  {
    (2 * y + d) / (2 * d)
  }

  /** `calculateTimeFromPosition`: the time shown at a vertical pixel offset,
      to the nearest minute. Offsets more than 1080 px above the grid would
      give a negative minute count, which `minutesToTime` does not print. */
  function CalculateTimeFromPosition(y: int): (t: string)
    requires WorkStart + RoundQuotient(y, PixelsPerMinute) >= 0
    ensures WellFormedTime(t)
    ensures t == MinutesToTime(ParseTime(t))
    ensures 2 * (ParseTime(t) - WorkStart) - 1 <= y <= 2 * (ParseTime(t) - WorkStart)
  {
    var minutesFromStart := RoundQuotient(y, PixelsPerMinute);
    var totalMinutes := WorkStart + minutesFromStart;
    ParseMinutesToTime(totalMinutes);
    MinutesToTime(totalMinutes)
  }

  /** Minute x lies in the half-open interval [lo, hi). */
  predicate InSpan(x: int, lo: int, hi: int) {
    lo <= x < hi
  }

  /** `doAppointmentsOverlap`: start1 < end2 and end1 > start2. */
  predicate DoAppointmentsOverlap(start1: string, end1: string, start2: string, end2: string)
    requires WellFormedTime(start1) && WellFormedTime(end1)
    requires WellFormedTime(start2) && WellFormedTime(end2)
  {
    ParseTime(start1) < ParseTime(end2) && ParseTime(end1) > ParseTime(start2)
  }

  // ---------------------------------------------------------------------------
  // Clock readings of the times used in the examples below

  lemma At0859()
    ensures Canonical("08:59") && WellFormedTime("08:59") && ParseTime("08:59") == 539
  {
    CanonicalValue("08:59");
  }

  lemma At0900()
    ensures Canonical("09:00") && WellFormedTime("09:00") && ParseTime("09:00") == 540
  {
    CanonicalValue("09:00");
  }

  lemma At0910()
    ensures Canonical("09:10") && WellFormedTime("09:10") && ParseTime("09:10") == 550
  {
    CanonicalValue("09:10");
  }

  lemma At0930()
    ensures Canonical("09:30") && WellFormedTime("09:30") && ParseTime("09:30") == 570
  {
    CanonicalValue("09:30");
  }

  lemma At1000()
    ensures Canonical("10:00") && WellFormedTime("10:00") && ParseTime("10:00") == 600
  {
    CanonicalValue("10:00");
  }

  lemma At1030()
    ensures Canonical("10:30") && WellFormedTime("10:30") && ParseTime("10:30") == 630
  {
    CanonicalValue("10:30");
  }

  lemma At1100()
    ensures Canonical("11:00") && WellFormedTime("11:00") && ParseTime("11:00") == 660
  {
    CanonicalValue("11:00");
  }

  lemma At1400()
    ensures Canonical("14:00") && WellFormedTime("14:00") && ParseTime("14:00") == 840
  {
    CanonicalValue("14:00");
  }

  lemma At1500()
    ensures Canonical("15:00") && WellFormedTime("15:00") && ParseTime("15:00") == 900
  {
    CanonicalValue("15:00");
  }

  lemma At1900()
    ensures Canonical("19:00") && WellFormedTime("19:00") && ParseTime("19:00") == 1140
  {
    CanonicalValue("19:00");
  }

  lemma At1901()
    ensures Canonical("19:01") && WellFormedTime("19:01") && ParseTime("19:01") == 1141
  {
    CanonicalValue("19:01");
  }

  lemma At2350()
    ensures Canonical("23:50") && WellFormedTime("23:50") && ParseTime("23:50") == 1430
  {
    CanonicalValue("23:50");
  }

  // ---------------------------------------------------------------------------
  // The slot list

  /** The list holds 21 times, "09:00" first and "19:00" last, each 30 minutes
      after the one before. */
  lemma SlotListShape()
    ensures |WorkingSlots()| == 21
    ensures WorkingSlots()[0] == "09:00" && WorkingSlots()[20] == "19:00"
    ensures forall i :: 0 <= i < SlotCount ==>
              WellFormedTime(WorkingSlots()[i]) && ParseTime(WorkingSlots()[i]) == WorkStart + 30 * i
    ensures forall i :: 0 <= i < SlotCount - 1 ==>
              ParseTime(WorkingSlots()[i + 1]) == ParseTime(WorkingSlots()[i]) + 30
  {
    forall i | 0 <= i < SlotCount
      ensures WellFormedTime(WorkingSlots()[i]) && ParseTime(WorkingSlots()[i]) == WorkStart + 30 * i
    {
      assert WorkingSlots()[i] == SlotAt(i);
      SlotValue(i);
    }
    FirstAndLastSlot();
  }

  lemma FirstAndLastSlot()
    ensures SlotAt(0) == "09:00" && SlotAt(20) == "19:00"
  {
    MinutesToTimeParts(WorkStart, 9, 0);
    MinutesToTimeParts(WorkStart + SlotDuration * 20, 19, 0);
    ZeroText();
    assert Decimal(9) == "9";
    assert Decimal(19) == Decimal(1) + [DigitChar(9)];
  }

  /** Every slot is inside working hours, and a canonical time is a slot exactly
      when it is inside working hours and falls on a half hour. */
  lemma SlotsAreAlignedWorkingTimes(t: string)
    requires Canonical(t)
    ensures WellFormedTime(t)
    ensures t in WorkingSlots() <==> IsTimeInWorkingHours(t) && ParseTime(t) % SlotDuration == 0
  {
    CanonicalValue(t);
    if t in WorkingSlots() {
      var i :| 0 <= i < SlotCount && WorkingSlots()[i] == t;
      SlotIsAligned(i);
    }
    if IsTimeInWorkingHours(t) && ParseTime(t) % SlotDuration == 0 {
      AlignedIsSlot(t);
    }
  }

  lemma SlotIsAligned(i: nat)
    requires i < SlotCount
    ensures WellFormedTime(WorkingSlots()[i])
    ensures IsTimeInWorkingHours(WorkingSlots()[i]) && ParseTime(WorkingSlots()[i]) % SlotDuration == 0
  {
    assert WorkingSlots()[i] == SlotAt(i);
    SlotValue(i);
    SlotIndexArithmetic(ParseTime(SlotAt(i)), i);
  }

  lemma AlignedIsSlot(t: string)
    requires Canonical(t)
    requires WellFormedTime(t) && IsTimeInWorkingHours(t) && ParseTime(t) % SlotDuration == 0
    ensures t in WorkingSlots()
  {
    CanonicalRoundTrip(t);
    var m := ParseTime(t);
    var i := (m - WorkStart) / SlotDuration;
    SlotIndexArithmetic(m, i);
    assert 0 <= i < SlotCount && WorkStart + SlotDuration * i == m;
    assert SlotAt(i) == MinutesToTime(m);
    assert WorkingSlots()[i] == t;
  }

  /** Minute counts of the working day on the half hour are exactly those of
      the slot indexes 0..20. */
  lemma SlotIndexArithmetic(m: int, i: int)
    ensures 0 <= i < SlotCount && m == WorkStart + SlotDuration * i ==>
            WorkStart <= m <= WorkEnd && m % SlotDuration == 0
    ensures WorkStart <= m <= WorkEnd && m % SlotDuration == 0 && i == (m - WorkStart) / SlotDuration ==>
            0 <= i < SlotCount && m == WorkStart + SlotDuration * i
  {
  }

  lemma SlotValue(i: nat)
    ensures WellFormedTime(SlotAt(i)) && ParseTime(SlotAt(i)) == WorkStart + SlotDuration * i
  {
    var m := WorkStart + SlotDuration * i;
    assert SlotAt(i) == MinutesToTime(m);
    ParseMinutesToTime(m);
  }

  /** Every slot passes the working-hours test. */
  lemma SlotsInWorkingHours()
    ensures forall t :: t in WorkingSlots() ==> WellFormedTime(t) && IsTimeInWorkingHours(t)
  {
    SlotListShape();
  }

  /** The edges of the working day: "09:00" and "19:00" are inside, "08:59"
      and "19:01" are not. */
  lemma WorkingHoursEdges()
    ensures WellFormedTime("09:00") && IsTimeInWorkingHours("09:00")
    ensures WellFormedTime("19:00") && IsTimeInWorkingHours("19:00")
    ensures WellFormedTime("08:59") && !IsTimeInWorkingHours("08:59")
    ensures WellFormedTime("19:01") && !IsTimeInWorkingHours("19:01")
  {
    At0900();
    At1900();
    At0859();
    At1901();
  }

  // ---------------------------------------------------------------------------
  // Rounding to a slot

  /** The rounded time falls on ":00" or ":30", lies within 15 minutes of the
      input (at most 14 below, at most 15 above), and rounding again changes
      nothing. */
  lemma NormalizeTimeToSlotProperties(t: string)
    requires WellFormedTime(t)
    ensures WellFormedTime(NormalizeTimeToSlot(t))
    ensures var n := ParseTime(NormalizeTimeToSlot(t));
            n % SlotDuration == 0 && ParseTime(t) - 15 < n <= ParseTime(t) + 15
    ensures MinuteText(NormalizeTimeToSlot(t)) in {"00", "30"}
    ensures NormalizeTimeToSlot(NormalizeTimeToSlot(t)) == NormalizeTimeToSlot(t)
  {
    var k := RoundToSlot(ParseTime(t));
    RoundToSlotBounds(ParseTime(t));
    RoundToSlotBounds(k);
    ParseMinutesToTime(k);
    HalfHourMinuteText(k);
  }

  /** Minutes rounded half up to a multiple of 30. */
  function RoundToSlot(m: nat): nat {
    SlotDuration * ((m + 15) / SlotDuration)
  }

  /** The closed form agrees with the source's case split on the minute. */
  lemma RoundToSlotCases(m: nat)
    ensures var h, mi := m / 60, m % 60;
            RoundToSlot(m) == if mi < 15 then 60 * h else if mi < 45 then 60 * h + 30 else (h + 1) * 60
  {
    var h, mi := m / 60, m % 60;
    assert m == 60 * h + mi;
  }

  lemma RoundToSlotBounds(m: nat)
    ensures RoundToSlot(m) % SlotDuration == 0
    ensures m - 15 < RoundToSlot(m) <= m + 15
    ensures m % SlotDuration == 0 ==> RoundToSlot(m) == m
  {
    var q := (m + 15) / SlotDuration;
    assert m + 15 - 30 < 30 * q <= m + 15;
    if m % SlotDuration == 0 {
      assert m == 30 * (m / 30);
      assert q == m / 30;
    }
  }

  /** A half-hour minute count prints with ":00" or ":30". */
  lemma HalfHourMinuteText(k: nat)
    requires k % SlotDuration == 0
    ensures WellFormedTime(MinutesToTime(k))
    ensures MinuteText(MinutesToTime(k)) in {"00", "30"}
  {
    MinuteTextOf(k);
    if k % 60 == 0 {
      ZeroText();
    } else {
      assert k % 60 == 30;
      ThirtyText();
    }
  }

  lemma MinuteTextOf(k: nat)
    ensures WellFormedTime(MinutesToTime(k))
    ensures MinuteText(MinutesToTime(k)) == PadStart2(Decimal(k % 60))
  {
    var h, r := k / 60, k % 60;
    MinutesToTimeParts(k, h, r);
    PadValue(Decimal(h));
    PadValue(Decimal(r));
    SplitTime(PadStart2(Decimal(h)), PadStart2(Decimal(r)));
  }

  /** Times from 23:45 on round up to "24:00", past the end of the day. */
  lemma NormalizeLateEvening()
    ensures Canonical("23:50") && WellFormedTime("23:50") && NormalizeTimeToSlot("23:50") == "24:00"
  {
    At2350();
    assert RoundToSlot(1430) == 1440;
    MinutesToTimeParts(1440, 24, 0);
    assert Decimal(24) == Decimal(2) + [DigitChar(4)];
    ZeroText();
  }

  // ---------------------------------------------------------------------------
  // Block geometry

  /** The block of a 09:00-10:00 appointment is at the top of the grid and 112 px
      tall: two 60 px slots less the 8 px margin. */
  lemma FirstHourPosition()
    ensures WellFormedTime("09:00") && WellFormedTime("10:00")
    ensures CalculateAppointmentPosition("09:00", "10:00") == AppointmentPosition(0, 112, 10)
  {
    At0900();
    At1000();
    PositionOf("09:00", "10:00");
  }

  /** A 14:00 start is 600 px down the grid: ten slots of 60 px. */
  lemma AfternoonPosition()
    ensures WellFormedTime("14:00") && WellFormedTime("15:00")
    ensures CalculateAppointmentPosition("14:00", "15:00").top == (840 - WorkStart) / SlotDuration * SlotHeight
  {
    At1400();
    At1500();
    TopOf("14:00", "15:00");
    assert 2 * (840 - WorkStart) == (840 - WorkStart) / SlotDuration * SlotHeight;
  }

  /** A block starting at or after 09:00 sits two pixels down per minute past 09:00. */
  lemma TopOf(timeStart: string, timeEnd: string)
    requires WellFormedTime(timeStart) && WellFormedTime(timeEnd)
    requires WorkStart <= ParseTime(timeStart)
    ensures CalculateAppointmentPosition(timeStart, timeEnd).top == 2 * (ParseTime(timeStart) - WorkStart)
  {
  }

  /** The block of an appointment in terms of its start and end minute counts. */
  lemma PositionOf(timeStart: string, timeEnd: string)
    requires WellFormedTime(timeStart) && WellFormedTime(timeEnd)
    ensures var s, e := ParseTime(timeStart), ParseTime(timeEnd);
            CalculateAppointmentPosition(timeStart, timeEnd) ==
            AppointmentPosition(Max(0, 2 * (s - WorkStart)), Max(30, 2 * (e - s) - 8), 10)
  {
  }

  /** Dropping at the top edge of a block gives back the block's start time,
      for every appointment starting at or after 09:00; earlier starts are
      clamped to the top of the grid and read back as 09:00. */
  lemma TimeFromPositionInvertsTop(timeStart: string, timeEnd: string)
    requires WellFormedTime(timeStart) && WellFormedTime(timeEnd)
    ensures var top := CalculateAppointmentPosition(timeStart, timeEnd).top;
            WorkStart + RoundQuotient(top, PixelsPerMinute) >= 0 &&
            ParseTime(CalculateTimeFromPosition(top)) == Max(WorkStart, ParseTime(timeStart))
  {
    var k := Max(0, ParseTime(timeStart) - WorkStart);
    PositionOf(timeStart, timeEnd);
    assert CalculateAppointmentPosition(timeStart, timeEnd).top == 2 * k;
    TimeAtEvenOffset(k);
  }

  /** An even offset of 2k pixels reads back as exactly k minutes past 09:00. */
  lemma TimeAtEvenOffset(k: nat)
    ensures WorkStart + RoundQuotient(2 * k, PixelsPerMinute) >= 0
    ensures ParseTime(CalculateTimeFromPosition(2 * k)) == WorkStart + k
  {
    assert RoundQuotient(2 * k, PixelsPerMinute) == k;
    var t := CalculateTimeFromPosition(2 * k);
    assert 2 * (ParseTime(t) - WorkStart) - 1 <= 2 * k <= 2 * (ParseTime(t) - WorkStart);
  }

  /** Blocks of appointments that do not overlap do not collide on screen, as
      long as the earlier one lasts at least 16 minutes: its bottom edge stays
      above the next block's top. */
  lemma SeparateAppointmentsSeparateBlocks(s1: string, e1: string, s2: string, e2: string)
    requires WellFormedTime(s1) && WellFormedTime(e1) && WellFormedTime(s2) && WellFormedTime(e2)
    requires WorkStart <= ParseTime(s1) && ParseTime(s1) + 16 <= ParseTime(e1)
    requires ParseTime(s1) <= ParseTime(s2) && ParseTime(s2) < ParseTime(e2)
    requires !DoAppointmentsOverlap(s1, e1, s2, e2)
    ensures var p1, p2 := CalculateAppointmentPosition(s1, e1), CalculateAppointmentPosition(s2, e2);
            p1.top + p1.height < p2.top
  {
    var a1, b1, a2 := ParseTime(s1), ParseTime(e1), ParseTime(s2);
    PositionOf(s1, e1);
    PositionOf(s2, e2);
    assert b1 <= a2;
    assert Max(30, 2 * (b1 - a1) - 8) < 2 * (b1 - a1);
  }

  /** The 30 px minimum height can make a short block reach into the next one:
      09:00-09:10 followed by 09:10-10:00 draws a 30 px block above one that
      starts 20 px down. */
  lemma ShortBlockReachesNext()
    ensures WellFormedTime("09:00") && WellFormedTime("09:10") && WellFormedTime("10:00")
    ensures !DoAppointmentsOverlap("09:00", "09:10", "09:10", "10:00")
    ensures var p1, p2 := CalculateAppointmentPosition("09:00", "09:10"),
                          CalculateAppointmentPosition("09:10", "10:00");
            p1.top + p1.height > p2.top
  {
    At0900();
    At0910();
    At1000();
  }

  // ---------------------------------------------------------------------------
  // Overlap

  /** The overlap test holds exactly when some minute lies in both half-open
      intervals. */
  lemma OverlapMeansSharedMinute(start1: string, end1: string, start2: string, end2: string)
    requires WellFormedTime(start1) && WellFormedTime(end1)
    requires WellFormedTime(start2) && WellFormedTime(end2)
    requires ParseTime(start1) < ParseTime(end1) && ParseTime(start2) < ParseTime(end2)
    ensures DoAppointmentsOverlap(start1, end1, start2, end2) <==>
            exists x :: InSpan(x, ParseTime(start1), ParseTime(end1)) &&
                        InSpan(x, ParseTime(start2), ParseTime(end2))
  {
    var s1, s2 := ParseTime(start1), ParseTime(start2);
    if DoAppointmentsOverlap(start1, end1, start2, end2) {
      var x := Max(s1, s2);
      assert InSpan(x, s1, ParseTime(end1)) && InSpan(x, s2, ParseTime(end2));
    }
  }

  /** Overlap does not depend on which appointment comes first. */
  lemma OverlapSymmetric(start1: string, end1: string, start2: string, end2: string)
    requires WellFormedTime(start1) && WellFormedTime(end1)
    requires WellFormedTime(start2) && WellFormedTime(end2)
    ensures DoAppointmentsOverlap(start1, end1, start2, end2) ==
            DoAppointmentsOverlap(start2, end2, start1, end1)
  {
  }

  /** 09:00-10:00 overlaps 09:30-10:30 but not 10:00-11:00: touching ends do
      not overlap. */
  lemma OverlapExamples()
    ensures WellFormedTime("09:00") && WellFormedTime("10:00") && WellFormedTime("09:30")
    ensures WellFormedTime("10:30") && WellFormedTime("11:00")
    ensures DoAppointmentsOverlap("09:00", "10:00", "09:30", "10:30")
    ensures !DoAppointmentsOverlap("09:00", "10:00", "10:00", "11:00")
  {
    At0900();
    At1000();
    At0930();
    At1030();
    At1100();
  }
}
