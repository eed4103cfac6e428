/**
 * The dashboard card of a scheduled interview: whether it offers "Start", says
 * the window expired, or says the interview is available later; where "Start"
 * leads; and how many technology chips it shows. Time differences follow dayjs:
 * `isAfter` compares milliseconds strictly and `diff(…, "minute")` counts whole
 * minutes, truncated toward zero.
 */
module ScheduledInterviewCard {
  import opened Wrappers
  import opened Types
  import GeneralAction

  const MinuteMs: int := 60 * 1000

  /** At most this many technologies are shown as chips. */
  const TechChipLimit: nat := 5

  /** The whole minutes in `ms`, truncated toward zero. */
  function WholeMinutes(ms: int): (m: int)
    ensures ms >= 0 ==> 0 <= m && m * MinuteMs <= ms < (m + 1) * MinuteMs
    ensures ms < 0 ==> m <= 0 && (m - 1) * MinuteMs < ms <= m * MinuteMs
  {
    if ms >= 0 then ms / MinuteMs else -((-ms) / MinuteMs)
  }

  /** `now.diff(scheduledTime, "minute")`. */
  function MinutesSince(scheduledFor: int, now: int): int {
    WholeMinutes(now - scheduledFor)
  }

  /** `canStart`: now is after the scheduled time and at most five whole minutes have passed. */
  predicate CanStart(scheduledFor: int, now: int) {
    now > scheduledFor && MinutesSince(scheduledFor, now) <= 5
  }

  /** `isPast`: more than five whole minutes have passed. */
  predicate IsPast(scheduledFor: int, now: int) {
    MinutesSince(scheduledFor, now) > 5
  }

  /** In milliseconds, "Start" is offered from just after the scheduled time until six minutes have passed. */
  lemma CanStartWindow(scheduledFor: int, now: int)
    ensures CanStart(scheduledFor, now) <==> 0 < now - scheduledFor < 6 * MinuteMs
  {
  }

  /** In milliseconds, the card calls the window expired from six minutes on. */
  lemma IsPastWindow(scheduledFor: int, now: int)
    ensures IsPast(scheduledFor, now) <==> now - scheduledFor >= 6 * MinuteMs
  {
  }

  /** The footer of the card. */
  datatype Footer = StartButton | WindowExpired | AvailableLater

  /**
   * The card's footer: none when the interview has no `scheduledFor` (the card
   * renders nothing); otherwise "Start" if `canStart`, else "expired" if
   * `isPast`, else "Available".
   */
  function CardFooter(interview: Interview, now: int): (r: Option<Footer>)
    ensures r.None? <==> interview.scheduledFor.None?
    ensures r == Some(StartButton) <==>
              interview.scheduledFor.Some? && 0 < now - interview.scheduledFor.value < 6 * MinuteMs
    ensures r == Some(WindowExpired) <==>
              interview.scheduledFor.Some? && now - interview.scheduledFor.value >= 6 * MinuteMs
    ensures r == Some(AvailableLater) <==>
              interview.scheduledFor.Some? && now <= interview.scheduledFor.value
  {
    match interview.scheduledFor
    case None => None
    case Some(s) =>
      CanStartWindow(s, now);
      IsPastWindow(s, now);
      if CanStart(s, now) then Some(StartButton)
      else if IsPast(s, now) then Some(WindowExpired)
      else Some(AvailableLater)
  }

  /** `canStart` and `isPast` never hold together. */
  lemma StartAndExpiredExclusive(scheduledFor: int, now: int)
    ensures !(CanStart(scheduledFor, now) && IsPast(scheduledFor, now))
  {
    CanStartWindow(scheduledFor, now);
    IsPastWindow(scheduledFor, now);
  }

  /**
   * `handleStartInterview`: the page "Start" navigates to, only when the
   * interview can start.
   */
  function StartTarget(interview: Doc, now: int): (r: Option<string>)
    ensures r.Some? <==> CardFooter(interview.data, now) == Some(StartButton)
    ensures r.Some? ==> r.value == "/interview/" + interview.id
  {
    match interview.data.scheduledFor
    case None => None
    case Some(s) => if CanStart(s, now) then Some("/interview/" + interview.id) else None
  }

  /** The technology chips: the first few entries, and the count behind "+N more". */
  datatype TechChips = TechChips(shown: seq<string>, more: Option<nat>)

  function TechStackChips(techstack: seq<string>): (r: TechChips)
    ensures |r.shown| == if |techstack| < TechChipLimit then |techstack| else TechChipLimit
    ensures r.shown <= techstack
    ensures r.more.Some? <==> |techstack| > TechChipLimit
    ensures r.more.Some? ==> r.more.value == |techstack| - TechChipLimit
    ensures |r.shown| + r.more.GetOr(0) == |techstack|
  {
    var shown := if |techstack| < TechChipLimit then techstack else techstack[..TechChipLimit];
    TechChips(shown, if |techstack| > TechChipLimit then Some(|techstack| - TechChipLimit) else None)
  }

  /**
   * The card and the sweep disagree on the same record: when between five and
   * six minutes have passed, the card still offers "Start" while the sweep
   * (and the interview page) treat the window as over. Outside that interval
   * they agree.
   */
  lemma StartOfferedWhileSweepExpires(scheduledFor: int, now: int)
    ensures (CanStart(scheduledFor, now) && GeneralAction.PastStartWindow(scheduledFor, now))
            <==> 5 * MinuteMs < now - scheduledFor < 6 * MinuteMs
    ensures IsPast(scheduledFor, now) ==> GeneralAction.PastStartWindow(scheduledFor, now)
  {
    CanStartWindow(scheduledFor, now);
    IsPastWindow(scheduledFor, now);
  }

  /** A concrete instance: five and a half minutes after the scheduled time. */
  lemma HalfMinuteGapExample(rec: Interview, userId: string, now: int)
    requires rec.userId == userId && rec.status == Some(GeneralAction.Scheduled)
    requires rec.scheduledFor == Some(now - 330000)
    ensures CardFooter(rec, now) == Some(StartButton)
    ensures GeneralAction.Expires(rec, userId, now)
  {
  }
}
