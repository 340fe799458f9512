/** Office-hour time blocks: a block is a day of the working week with a start
    and an end hour, or `None` for "no block". Overlap is tested on the hours
    alone or on the hours and the day, and one fixed query asks for a long
    Thursday block that avoids a Thursday 9-11 block. */
module OfficeHours {

  datatype Day = Monday | Tuesday | Wednesday | Thursday | Friday

  datatype TimeBlock = TimeBlock(day: Day, startTime: int, endTime: int) | None

  /** The values a z3 model gives to the accessors `day`, `starttime` and `endtime`
      applied to `none`: z3 leaves them unspecified, so each model fixes its own. */
  datatype NoneFields = NoneFields(day: Day, startTime: int, endTime: int)

  function DayOf(tb: TimeBlock, u: NoneFields): Day
  {
    if tb.TimeBlock? then tb.day else u.day
  }

  function StartOf(tb: TimeBlock, u: NoneFields): int
  {
    if tb.TimeBlock? then tb.startTime else u.startTime
  }

  function EndOf(tb: TimeBlock, u: NoneFields): int
  {
    if tb.TimeBlock? then tb.endTime else u.endTime
  }

  /** A block that is not `None` and does not end before it starts. */
  predicate WellFormed(tb: TimeBlock)
  {
    tb.TimeBlock? && tb.startTime <= tb.endTime
  }

  /** The hours of `tb1` and `tb2` overlap, regardless of their days: one block starts
      inside the other, endpoints included. For well-formed blocks this is the single
      test `start1 <= end2 && start2 <= end1`. */
  function Overlap(tb1: TimeBlock, tb2: TimeBlock, u: NoneFields): (r: bool)
    ensures StartOf(tb1, u) <= EndOf(tb2, u) && StartOf(tb2, u) <= EndOf(tb1, u) ==> r
    ensures WellFormed(tb1) && WellFormed(tb2) ==>
      (r <==> tb1.startTime <= tb2.endTime && tb2.startTime <= tb1.endTime)
  {
    var overlap1 := StartOf(tb1, u) <= StartOf(tb2, u) && StartOf(tb2, u) <= EndOf(tb1, u);
    var overlap2 := StartOf(tb2, u) <= StartOf(tb1, u) && StartOf(tb1, u) <= EndOf(tb2, u);
    overlap1 || overlap2
  }

  lemma OverlapSymmetric(tb1: TimeBlock, tb2: TimeBlock, u: NoneFields)
    ensures Overlap(tb1, tb2, u) == Overlap(tb2, tb1, u)
  {
  }

  /** A well-formed block overlaps a block that starts where it ends, and overlaps itself. */
  lemma TouchingAndSelfOverlap(tb1: TimeBlock, tb2: TimeBlock, u: NoneFields)
    requires WellFormed(tb1) && tb2.TimeBlock?
    ensures tb1.endTime == tb2.startTime ==> Overlap(tb1, tb2, u)
    ensures Overlap(tb1, tb1, u)
  {
  }

  /** The blocks overlap and fall on the same day. */
  function OverlapSameDay(tb1: TimeBlock, tb2: TimeBlock, u: NoneFields): (r: bool)
    ensures DayOf(tb1, u) != DayOf(tb2, u) ==> !r
    ensures WellFormed(tb1) && WellFormed(tb2) ==>
      (r <==> tb1.day == tb2.day && tb1.startTime <= tb2.endTime && tb2.startTime <= tb1.endTime)
  {
    Overlap(tb1, tb2, u) && DayOf(tb1, u) == DayOf(tb2, u)
  }

  /** The block the query must avoid: Thursday from 9 to 11. */
  const FIXED_BLOCK := TimeBlock(Thursday, 9, 11)

  /** The query: `tb` is a block, longer than 3 hours, starting after 8, on Thursday, and
      not overlapping `FIXED_BLOCK` on the same day. */
  predicate ThursdayQuery(tb: TimeBlock, u: NoneFields)
  {
    && tb != None
    && EndOf(tb, u) - StartOf(tb, u) > 3
    && StartOf(tb, u) > 8
    && DayOf(tb, u) == Thursday
    && !OverlapSameDay(tb, FIXED_BLOCK, u)
  }

  /** The answers to the query are exactly the Thursday blocks of at least 4 hours that
      start at 12 or later, whatever the model says about `None`. */
  lemma ThursdayQueryAnswers(tb: TimeBlock, u: NoneFields)
    ensures ThursdayQuery(tb, u) <==>
      tb.TimeBlock? && tb.day == Thursday && tb.startTime >= 12 && tb.endTime - tb.startTime >= 4
  {
  }

  lemma ThursdayQuerySatisfiable(u: NoneFields)
    ensures ThursdayQuery(TimeBlock(Thursday, 12, 16), u)
  {
  }
}
