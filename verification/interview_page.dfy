/**
 * The lifecycle check the interview page runs on entry: a scheduled interview
 * may only be entered from its scheduled time until five minutes after it;
 * entering in that window moves it to "in-progress", arriving later marks it
 * "incomplete".
 */
module InterviewPage {
  import opened Wrappers
  import opened Types
  import opened GeneralAction
  import ScheduledInterviewCard

  /** Where the page sends the visitor. */
  datatype Entry = Redirect(to: string) | Admitted

  const HomePath := "/"
  const TooEarlyPath := "/?error=too-early"
  const ExpiredPath := "/?error=expired"

  /** What the entry check decides for the stored record, before any write. */
  datatype Gate =
    | NotFound        // no such record
    | Unscheduled     // not "scheduled", or without a time: no check
    | TooEarly        // the scheduled time is still ahead
    | Expire          // more than five minutes late: mark "incomplete"
    | Begin           // within the window: mark "in-progress"

  function GateFor(rec: Option<Interview>, now: int): (g: Gate)
    ensures g == NotFound <==> rec.None?
    ensures g == Unscheduled <==>
              rec.Some? && (rec.value.status != Some(Scheduled) || rec.value.scheduledFor.None?)
    ensures g == TooEarly <==>
              rec.Some? && rec.value.status == Some(Scheduled) && rec.value.scheduledFor.Some?
              && now < rec.value.scheduledFor.value
    ensures g == Expire <==>
              rec.Some? && rec.value.status == Some(Scheduled) && rec.value.scheduledFor.Some?
              && PastStartWindow(rec.value.scheduledFor.value, now)
    ensures g == Begin <==>
              rec.Some? && rec.value.status == Some(Scheduled) && rec.value.scheduledFor.Some?
              && 0 <= now - rec.value.scheduledFor.value <= FiveMinutesMs
  {
    match rec
    case None => NotFound
    case Some(r) =>
      if r.status != Some(Scheduled) || r.scheduledFor.None? then Unscheduled
      else if now - r.scheduledFor.value < 0 then TooEarly
      else if PastStartWindow(r.scheduledFor.value, now) then Expire
      else Begin
  }

  function EntryFor(g: Gate): Entry {
    match g
    case NotFound => Redirect(HomePath)
    case TooEarly => Redirect(TooEarlyPath)
    case Expire => Redirect(ExpiredPath)
    case _ => Admitted
  }

  /**
   * The page's entry check against the store. `writeOk` says whether the status
   * write succeeds; the page does not look at the outcome, so the visitor is
   * admitted in the window even when the "in-progress" write fails.
   */
  method EnterInterview(db: AdminDb, id: string, now: int, writeOk: bool) returns (entry: Entry)
    modifies db
    ensures var g := GateFor(old(db.GetInterviewById(id)), now);
            && entry == EntryFor(g)
            && db.feedback == old(db.feedback)
            && db.interviews ==
                 if g == Expire && writeOk then old(db.interviews)[id := WithStatus(old(db.interviews)[id], Incomplete, now)]
                 else if g == Begin && writeOk then old(db.interviews)[id := WithStatus(old(db.interviews)[id], InProgress, now)]
                 else old(db.interviews)
  {
    var g := GateFor(db.GetInterviewById(id), now);
    if g == Expire {
      var _ := db.UpdateInterviewStatus(id, Incomplete, now, writeOk);
    } else if g == Begin {
      var _ := db.UpdateInterviewStatus(id, InProgress, now, writeOk);
    }
    entry := EntryFor(g);
  }

  /**
   * The page and the sweep apply the same rule: a scheduled record is turned
   * away as expired exactly when the sweep would mark it "incomplete".
   */
  lemma EntryExpiresAsSweep(rec: Interview, now: int)
    requires rec.status == Some(Scheduled)
    ensures GateFor(Some(rec), now) == Expire <==> Expires(rec, rec.userId, now)
  {
  }

  /**
   * A scheduled record is admitted exactly from its scheduled time until five
   * minutes after it; the outcome of the status write plays no part, since
   * `EntryFor` sees only the gate.
   */
  lemma AdmittedInWindow(rec: Interview, now: int)
    requires rec.status == Some(Scheduled) && rec.scheduledFor.Some?
    ensures EntryFor(GateFor(Some(rec), now)) == Admitted <==> 0 <= now - rec.scheduledFor.value <= FiveMinutesMs
  {
  }

  /**
   * The card's Start button and the page disagree for the last minute: from
   * five to six minutes after the scheduled time the card offers Start, and
   * the page that button leads to marks the record "incomplete" and redirects.
   * Within the first five minutes, Start leads to admission.
   */
  lemma StartButtonOutcome(rec: Interview, now: int)
    requires rec.status == Some(Scheduled)
    requires ScheduledInterviewCard.CardFooter(rec, now) == Some(ScheduledInterviewCard.StartButton)
    ensures rec.scheduledFor.Some?
    ensures GateFor(Some(rec), now) == Expire <==> now - rec.scheduledFor.value > FiveMinutesMs
    ensures GateFor(Some(rec), now) == Begin <==> now - rec.scheduledFor.value <= FiveMinutesMs
  {
    ScheduledInterviewCard.CanStartWindow(rec.scheduledFor.value, now);
  }

  /**
   * Entering again after a successful admission writes nothing: the record is
   * "in-progress" now, so the check no longer applies.
   */
  lemma SecondEntryNoChange(rec: Interview, now: int, later: int)
    requires GateFor(Some(rec), now) == Begin
    ensures GateFor(Some(WithStatus(rec, InProgress, now)), later) == Unscheduled
    ensures EntryFor(GateFor(Some(WithStatus(rec, InProgress, now)), later)) == Admitted
  {
  }

  /**
   * At the scheduled instant itself the page admits, while the card shows
   * "Available" rather than Start.
   */
  lemma OnTimeEntry(rec: Interview, now: int)
    requires rec.status == Some(Scheduled) && rec.scheduledFor == Some(now)
    ensures GateFor(Some(rec), now) == Begin
    ensures ScheduledInterviewCard.CardFooter(rec, now) == Some(ScheduledInterviewCard.AvailableLater)
  {
  }
}
