/** The scheduler's interval compatibility and the office-hours overlap test
    describe the same relation on well-formed intervals: compatible means not
    overlapping. */
module Agreement {
  import Scheduler
  import opened OfficeHours

  /** The hours of a block as a scheduler interval. */
  function AsInterval(tb: TimeBlock): (iv: Scheduler.Interval)
    requires tb.TimeBlock?
    ensures Scheduler.WellFormed(iv) <==> WellFormed(tb)
  {
    Scheduler.Interval(tb.startTime as real, tb.endTime as real)
  }

  lemma CompatIsNoOverlap(tb1: TimeBlock, tb2: TimeBlock, u: NoneFields)
    requires WellFormed(tb1) && WellFormed(tb2)
    ensures Scheduler.Compat(AsInterval(tb1), AsInterval(tb2)) == !Overlap(tb1, tb2, u)
  {
  }

  /** Without well-formedness the two tests differ: `[0, 5]` and the reversed `[7, 1]`
      are incompatible, as 1 lies inside `[0, 5]`, yet neither starts inside the other. */
  lemma MalformedBlocksDisagree(u: NoneFields)
    ensures !Scheduler.Compat(AsInterval(TimeBlock(Monday, 0, 5)), AsInterval(TimeBlock(Monday, 7, 1)))
    ensures !Overlap(TimeBlock(Monday, 0, 5), TimeBlock(Monday, 7, 1), u)
  {
  }
}
