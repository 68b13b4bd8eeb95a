/** Store-local business days with a closing cutoff (app/time.py). */
module BusinessDay {
  import opened Common

  /** Days since the epoch. */
  type Day = int

  const SEOUL_OFFSET: int := 9 * HOUR

  /** How a store states its clock; None is a zone name or cutoff text that does not parse. */
  datatype Clock = Clock(zone: Option<int>, cutoff: Option<int>) {
    predicate Valid() {
      cutoff.Some? ==> 0 <= cutoff.value < DAY
    }

    function Offset(): int {
      if zone.Some? then zone.value else SEOUL_OFFSET
    }

    function Cutoff(): int {
      if cutoff.Some? then cutoff.value else 0
    }
  }

  /** The business date of an instant: the local date, or the day before until the cutoff is reached. */
  function BusinessDate(t: Time, clock: Clock): Day {
    var local := t + clock.Offset();
    if local % DAY < clock.Cutoff() then local / DAY - 1 else local / DAY
  }

  /** The instant at which a business day closes. */
  function BusinessDayEnd(d: Day, clock: Clock): Time {
    (d + 1) * DAY + clock.Cutoff() - clock.Offset()
  }

  /**
   * Business days partition time: an instant has date d exactly when it lies between the close of day d - 1,
   * inclusive, and the close of day d, exclusive.
   */
  lemma BusinessDatePartition(t: Time, d: Day, clock: Clock)
    requires clock.Valid()
    ensures BusinessDate(t, clock) == d <==> BusinessDayEnd(d - 1, clock) <= t < BusinessDayEnd(d, clock)
  {
    var local := t + clock.Offset();
    assert local == local / DAY * DAY + local % DAY && 0 <= local % DAY < DAY;
  }

  /**
   * On the store's own clock a day closes on the next date, at the cutoff; a clock that does not parse is Seoul's, with
   * midnight as its cutoff.
   */
  lemma ClosesAtCutoff(d: Day, clock: Clock)
    requires clock.Valid()
    ensures var local := BusinessDayEnd(d, clock) + if clock.zone.Some? then clock.zone.value else 9 * 60 * 60 * SECOND;
            local / DAY == d + 1 && local % DAY == if clock.cutoff.Some? then clock.cutoff.value else 0
  {
    var local := (d + 1) * DAY + clock.Cutoff();
    assert local / DAY == d + 1;
  }

  /** The close of a day is the first instant of the next one, and closes follow each other by exactly one day. */
  lemma CloseOpensNextDay(d: Day, clock: Clock)
    requires clock.Valid()
    ensures BusinessDate(BusinessDayEnd(d, clock), clock) == d + 1
    ensures BusinessDate(BusinessDayEnd(d, clock) - 1, clock) == d
    ensures BusinessDayEnd(d + 1, clock) == BusinessDayEnd(d, clock) + DAY
  {
    BusinessDatePartition(BusinessDayEnd(d, clock), d + 1, clock);
    BusinessDatePartition(BusinessDayEnd(d, clock) - 1, d, clock);
  }
}
