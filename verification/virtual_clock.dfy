/** The virtual NTP clock: a reference time from the NTP server together with
    the local instant at which it was captured. Times are integer epoch
    seconds; the lock that guards the two globals in DCTimer.py is not needed
    in this sequential model. */
module VirtualClock {
  import opened Wrappers

  /** Both halves are stored together or not at all, so DCTimer.py's
      "either global is None" test becomes the `Unseeded` case. */
  datatype Clock = Unseeded | Seeded(reference: int, capturedAt: int)

  /** update_ntp_reference: store the new reference and the current instant,
      replacing whatever was there. */
  function Update(c: Clock, reference: int, instant: int): (r: Clock)
    ensures Now(r, instant) == Some(reference)
    ensures forall later :: Now(r, later) == Some(reference + (later - instant))
  {
    Seeded(reference, instant)
  }

  /** get_virtual_ntp_time read at local instant `instant`: nothing before the
      first update, otherwise the reference advanced by the local time that
      has passed since it was captured. */
  function Now(c: Clock, instant: int): (r: Option<int>)
    ensures r.None? <==> c.Unseeded?
    ensures r.Some? ==> r.value - instant == c.reference - c.capturedAt
  {
    match c
    case Unseeded => None
    case Seeded(reference, capturedAt) => Some(reference + (instant - capturedAt))
  }

  /** Reading right after an update: the reference itself at the capture
      instant, and the reference plus the elapsed time later on; the previous
      contents of the clock play no part. */
  lemma NowAfterUpdate(c: Clock, reference: int, captured: int, instant: int)
    ensures Now(Update(c, reference, captured), captured) == Some(reference)
    ensures Now(Update(c, reference, captured), instant) == Some(reference + (instant - captured))
  {
  }

  /** Between two updates the virtual time never runs backwards and advances
      exactly as fast as the local clock. */
  lemma NowMonotone(c: Clock, i: int, j: int)
    requires c.Seeded? && i <= j
    ensures Now(c, i).value <= Now(c, j).value
    ensures Now(c, j).value - Now(c, i).value == j - i
  {
  }
}
