/** A Wi-Fi pass row of the FastAPI back end and every transition the code makes on it. */
module WifiPass {
  import opened Common

  datatype PassStatus = Issued | Activating | Active | ExpiringSoon | Expired | Blocked | Cancelled | Failed

  datatype Pass = Pass(
    status: PassStatus,
    issuedAt: Time,
    activatedAt: Option<Time>,
    expiresAt: Time,
    version: int,
    reference: Option<Id>)

  predicate Terminal(s: PassStatus) {
    s.Expired? || Closed(s)
  }

  /** Statuses from which nothing brings a pass back. */
  predicate Closed(s: PassStatus) {
    s.Blocked? || s.Cancelled? || s.Failed?
  }

  function Issue(minutes: int, now: Time): Pass {
    Pass(Issued, now, None, now + minutes * MINUTE, 1, None)
  }

  /** An additional order or an administrator adds time; lapsed time is not made up for. */
  function Extend(p: Pass, minutes: int, now: Time): Pass {
    p.(expiresAt := Max(p.expiresAt, now) + minutes * MINUTE,
       version := p.version + 1,
       status := if p.status == Expired then Active else p.status)
  }

  datatype Reclaimed = Reclaimed(pass: Pass, removed: int, revokes: bool)

  /** A refund takes unexpired time back, and ends the pass when none remains. */
  function Reclaim(p: Pass, minutes: int, now: Time): Reclaimed {
    if minutes <= 0 || Terminal(p.status) || p.expiresAt <= now then Reclaimed(p, 0, false)
    else
      var next := Max(now, p.expiresAt - minutes * MINUTE);
      var removed := (p.expiresAt - next + MINUTE - 1) / MINUTE;
      if next == p.expiresAt then Reclaimed(p, 0, false)
      else
        var q := p.(expiresAt := next, version := p.version + 1);
        if next <= now then Reclaimed(q.(status := Expired, reference := None), removed, true)
        else Reclaimed(q, removed, false)
  }

  /** The expiry loop's selection and what it does to a selected pass. */
  predicate Due(p: Pass, now: Time) {
    (p.status.Active? || p.status.ExpiringSoon?) && p.expiresAt <= now
  }

  function Close(p: Pass, status: PassStatus): Pass {
    p.(status := status, reference := None, version := p.version + 1)
  }

  predicate Activatable(p: Pass) {
    p.status.Issued? || p.status.Activating?
  }

  function Activate(p: Pass, session: Id, now: Time): Pass {
    p.(status := Active, activatedAt := Some(now), reference := Some(session))
  }

  function ApplyDayPass(p: Pass, dayEnd: Time): Pass {
    p.(expiresAt := Max(p.expiresAt, dayEnd), version := p.version + 1)
  }
}
