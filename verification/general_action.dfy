/**
 * The server actions of the interview application: feedback creation, the
 * interview queries behind the dashboard, the status update and the expiry
 * sweep. The document store is the class `AdminDb`, whose two collections are
 * maps from document id to record; its failures are boolean parameters. The
 * read queries are functions of a collection listed as the store lists it
 * (by document id when no order is requested), and their in-memory sorts are
 * `SortBy` with the application's own comparators.
 */
module GeneralAction {
  import opened Wrappers
  import opened Seqs
  import opened Types

  /** The start window of a scheduled interview, in milliseconds. */
  const FiveMinutesMs: int := 5 * 60 * 1000

  /** `getLatestInterviews` fetches this many finalized records unless told otherwise. */
  const DefaultLatestLimit: nat := 20

  const Scheduled: string := "scheduled"
  const InProgress: string := "in-progress"
  const Incomplete: string := "incomplete"

  // ---------------------------------------------------------------------------
  // Transcript formatting

  /** One turn of the voice conversation. */
  datatype Turn = Turn(role: string, content: string)

  /** The line a turn contributes to the prompt. */
  function TranscriptLine(turn: Turn): string {
    "- " + turn.role + ": " + turn.content + "\n"
  }

  /** The transcript as the prompt shows it: one line per turn, in order, joined with "". */
  function FormatTranscript(transcript: seq<Turn>): (r: string)
    ensures r == "" <==> transcript == []
    ensures |r| >= 5 * |transcript|
  {
    if transcript == [] then "" else TranscriptLine(transcript[0]) + FormatTranscript(transcript[1..])
  }

  /** Formatting distributes over concatenation of transcripts. */
  lemma {:induction false} FormatTranscriptAppend(a: seq<Turn>, b: seq<Turn>)
    ensures FormatTranscript(a + b) == FormatTranscript(a) + FormatTranscript(b)
  {
    if a == [] {
      assert a + b == b;
    } else {
      assert (a + b)[1..] == a[1..] + b;
      FormatTranscriptAppend(a[1..], b);
    }
  }

  /** Turn `i` appears intact right after the lines of the turns before it. */
  lemma FormatTranscriptTurn(transcript: seq<Turn>, i: nat)
    requires i < |transcript|
    ensures var start := |FormatTranscript(transcript[..i])|;
            var line := TranscriptLine(transcript[i]);
            start + |line| <= |FormatTranscript(transcript)| &&
            FormatTranscript(transcript)[start..start + |line|] == line
  {
    var before, rest := transcript[..i], transcript[i + 1..];
    assert transcript == before + ([transcript[i]] + rest);
    FormatTranscriptAppend(before, [transcript[i]] + rest);
    FormatTranscriptAppend([transcript[i]], rest);
    assert [transcript[i]][1..] == [];
  }

  // ---------------------------------------------------------------------------
  // Feedback

  /** What `createFeedback` returns: `feedbackId` only on success. */
  datatype CreateFeedbackResult = CreateFeedbackResult(success: bool, feedbackId: Option<string>)

  /**
   * The document `createFeedback` writes: the caller's `feedbackId` when it is a
   * non-empty string (a JavaScript truthy value), otherwise a fresh id the store
   * generates.
   */
  function FeedbackTarget(feedbackId: Option<string>, freshId: string): (id: string)
    ensures feedbackId.Some? && feedbackId.value != "" ==> id == feedbackId.value
    ensures feedbackId.None? || feedbackId.value == "" ==> id == freshId
  {
    if feedbackId.Some? && feedbackId.value != "" then feedbackId.value else freshId
  }

  /** The record `createFeedback` stores for a generated assessment. */
  function NewFeedback(interviewId: string, userId: string, a: Assessment, now: int): Feedback {
    Feedback(interviewId, userId, a.totalScore, a.categoryScores, a.strengths,
             a.areasForImprovement, a.finalAssessment, now)
  }

  /**
   * Writing feedback is an upsert: with a `feedbackId` the collection keeps its
   * size when that document exists and gains exactly that key otherwise; without
   * one it gains exactly one new document under the fresh id.
   */
  lemma FeedbackWriteKeys(store: map<string, Feedback>, feedbackId: Option<string>, freshId: string, fb: Feedback)
    requires freshId !in store
    ensures feedbackId.Some? && feedbackId.value != "" && feedbackId.value in store ==>
              |store[FeedbackTarget(feedbackId, freshId) := fb]| == |store|
    ensures feedbackId.None? || feedbackId.value == "" ==>
              FeedbackTarget(feedbackId, freshId) !in store
              && |store[FeedbackTarget(feedbackId, freshId) := fb]| == |store| + 1
    ensures feedbackId.Some? && feedbackId.value != "" && feedbackId.value !in store ==>
              store[FeedbackTarget(feedbackId, freshId) := fb].Keys == store.Keys + {feedbackId.value}
  {
  }

  /**
   * `getFeedbackByInterviewId`: the first feedback document (in store order) of
   * this interview and user, or none.
   */
  function GetFeedbackByInterviewId(collection: seq<FeedbackDoc>, interviewId: string, userId: string): (r: Option<FeedbackDoc>)
    ensures r.Some? <==> exists i :: 0 <= i < |collection| && IsFeedbackFor(collection[i], interviewId, userId)
    ensures r.Some? ==> exists i :: 0 <= i < |collection| && collection[i] == r.value
                                    && IsFeedbackFor(r.value, interviewId, userId)
                                    && forall j :: 0 <= j < i ==> !IsFeedbackFor(collection[j], interviewId, userId)
  {
    if collection == [] then None
    else if IsFeedbackFor(collection[0], interviewId, userId) then Some(collection[0])
    else
      var r := GetFeedbackByInterviewId(collection[1..], interviewId, userId);
      assert forall i :: 1 <= i < |collection| ==> collection[i] == collection[1..][i - 1];
      r
  }

  predicate IsFeedbackFor(d: FeedbackDoc, interviewId: string, userId: string) {
    d.data.interviewId == interviewId && d.data.userId == userId
  }

  // ---------------------------------------------------------------------------
  // Interview queries

  predicate IsFinalized(d: Doc) { d.data.finalized }

  function NotOwnedBy(userId: string): Doc -> bool {
    (d: Doc) => d.data.userId != userId
  }

  function OwnedBy(userId: string): Doc -> bool {
    (d: Doc) => d.data.userId == userId
  }

  function OwnedWithStatus(userId: string, status: string): Doc -> bool {
    (d: Doc) => d.data.userId == userId && d.data.status == Some(status)
  }

  /** Newest first: the comparator `dateB - dateA`. */
  function ByCreatedAtDesc(a: Doc, b: Doc): int {
    b.data.createdAt - a.data.createdAt
  }

  /** Soonest first; 0 (keep order) when either side has no `scheduledFor`. */
  function ByScheduledForAsc(a: Doc, b: Doc): int {
    if a.data.scheduledFor.None? || b.data.scheduledFor.None? then 0
    else a.data.scheduledFor.value - b.data.scheduledFor.value
  }

  /** Latest first; 0 (keep order) when either side has no `scheduledFor`. */
  function ByScheduledForDesc(a: Doc, b: Doc): int {
    if a.data.scheduledFor.None? || b.data.scheduledFor.None? then 0
    else b.data.scheduledFor.value - a.data.scheduledFor.value
  }

  function NegCreatedAt(d: Doc): int { -d.data.createdAt }
  function ScheduledAt(d: Doc): int { d.data.scheduledFor.GetOr(0) }
  function NegScheduledAt(d: Doc): int { -d.data.scheduledFor.GetOr(0) }

  /**
   * `getLatestInterviews`: fetch at most `limit` finalized records (20 by
   * default), drop the caller's own, and sort newest first.
   */
  function GetLatestInterviews(collection: seq<Doc>, userId: string, limit: Option<nat>): seq<Doc> {
    var fetched := Take(Filter(collection, IsFinalized), limit.GetOr(DefaultLatestLimit));
    SortBy(Filter(fetched, NotOwnedBy(userId)), ByCreatedAtDesc)
  }

  /**
   * The public feed holds only finalized records of other users, at most
   * `limit` of them, newest first, and is a permutation of the other users'
   * records among the first `limit` finalized ones.
   */
  lemma GetLatestInterviewsSpec(collection: seq<Doc>, userId: string, limit: Option<nat>)
    ensures var r := GetLatestInterviews(collection, userId, limit);
            var fetched := Take(Filter(collection, IsFinalized), limit.GetOr(DefaultLatestLimit));
            && |r| <= limit.GetOr(DefaultLatestLimit)
            && (forall i :: 0 <= i < |r| ==> r[i] in collection && r[i].data.finalized && r[i].data.userId != userId)
            && (forall i, j :: 0 <= i < j < |r| ==> r[i].data.createdAt >= r[j].data.createdAt)
            && multiset(r) == multiset(Filter(fetched, NotOwnedBy(userId)))
  {
    var n := limit.GetOr(DefaultLatestLimit);
    var finalized := Filter(collection, IsFinalized);
    var fetched := Take(finalized, n);
    var others := Filter(fetched, NotOwnedBy(userId));
    var r := SortBy(others, ByCreatedAtDesc);
    assert |r| == |multiset(r)| == |multiset(others)| == |others|;
    forall i | 0 <= i < |r|
      ensures r[i] in collection && r[i].data.finalized && r[i].data.userId != userId
    {
      SortByMembers(others, ByCreatedAtDesc, r[i]);
      FilterMember(fetched, NotOwnedBy(userId), r[i]);
      assert r[i] in finalized;
      FilterMember(collection, IsFinalized, r[i]);
    }
    SortByOrdered(others, ByCreatedAtDesc, NegCreatedAt);
    assert OrderedBy(r, NegCreatedAt);
  }

  /** `getInterviewsByUserId`: the user's records, newest first (a store-side order). */
  function GetInterviewsByUserId(collection: seq<Doc>, userId: string): seq<Doc> {
    SortBy(Filter(collection, OwnedBy(userId)), ByCreatedAtDesc)
  }

  /** The user's history is a permutation of the user's records, newest first. */
  lemma GetInterviewsByUserIdSpec(collection: seq<Doc>, userId: string)
    ensures var r := GetInterviewsByUserId(collection, userId);
            && multiset(r) == multiset(Filter(collection, OwnedBy(userId)))
            && (forall d :: d in r <==> d in collection && d.data.userId == userId)
            && (forall i, j :: 0 <= i < j < |r| ==> r[i].data.createdAt >= r[j].data.createdAt)
  {
    var mine := Filter(collection, OwnedBy(userId));
    forall d
      ensures d in GetInterviewsByUserId(collection, userId) <==> d in collection && d.data.userId == userId
    {
      SortByMembers(mine, ByCreatedAtDesc, d);
      FilterMember(collection, OwnedBy(userId), d);
    }
    SortByOrdered(mine, ByCreatedAtDesc, NegCreatedAt);
  }

  /** `getScheduledInterviews`: the user's `scheduled` records, soonest first. */
  function GetScheduledInterviews(collection: seq<Doc>, userId: string): seq<Doc> {
    SortBy(Filter(collection, OwnedWithStatus(userId, Scheduled)), ByScheduledForAsc)
  }

  /** `getIncompleteInterviews`: the user's `incomplete` records, latest first. */
  function GetIncompleteInterviews(collection: seq<Doc>, userId: string): seq<Doc> {
    SortBy(Filter(collection, OwnedWithStatus(userId, Incomplete)), ByScheduledForDesc)
  }

  /** Every record of `userId` with `status` has a `scheduledFor`. */
  ghost predicate AllScheduled(collection: seq<Doc>, userId: string, status: string) {
    forall i :: 0 <= i < |collection| && OwnedWithStatus(userId, status)(collection[i]) ==>
      collection[i].data.scheduledFor.Some?
  }

  /** The user's records with `status`, each of which has a `scheduledFor`. */
  lemma OwnedWithStatusScheduled(collection: seq<Doc>, userId: string, status: string)
    requires AllScheduled(collection, userId, status)
    ensures forall d :: d in Filter(collection, OwnedWithStatus(userId, status)) ==>
              d.data.userId == userId && d.data.status == Some(status) && d.data.scheduledFor.Some?
  {
    var p := OwnedWithStatus(userId, status);
    forall d | d in Filter(collection, p)
      ensures d.data.userId == userId && d.data.status == Some(status) && d.data.scheduledFor.Some?
    {
      FilterMember(collection, p, d);
      var k :| 0 <= k < |collection| && collection[k] == d;
      assert p(collection[k]);
    }
  }

  /** Once every record has a `scheduledFor`, both comparators order by it. */
  lemma ScheduledComparatorsOrder(mine: seq<Doc>)
    requires forall d :: d in mine ==> d.data.scheduledFor.Some?
    ensures OrderedBy(SortBy(mine, ByScheduledForAsc), ScheduledAt)
    ensures OrderedBy(SortBy(mine, ByScheduledForDesc), NegScheduledAt)
  {
    assert ComparesByKey(mine, ByScheduledForAsc, ScheduledAt);
    SortByOrdered(mine, ByScheduledForAsc, ScheduledAt);
    assert ComparesByKey(mine, ByScheduledForDesc, NegScheduledAt);
    SortByOrdered(mine, ByScheduledForDesc, NegScheduledAt);
  }

  /**
   * When each of them has a `scheduledFor`, the scheduled list is a
   * permutation of the user's `scheduled` records, ascending by `scheduledFor`.
   */
  lemma GetScheduledInterviewsSpec(collection: seq<Doc>, userId: string)
    requires AllScheduled(collection, userId, Scheduled)
    ensures var r := GetScheduledInterviews(collection, userId);
            && multiset(r) == multiset(Filter(collection, OwnedWithStatus(userId, Scheduled)))
            && (forall i :: 0 <= i < |r| ==> r[i].data.userId == userId && r[i].data.status == Some(Scheduled)
                                              && r[i].data.scheduledFor.Some?)
            && (forall i, j :: 0 <= i < j < |r| ==> r[i].data.scheduledFor.value <= r[j].data.scheduledFor.value)
  {
    var mine := Filter(collection, OwnedWithStatus(userId, Scheduled));
    var r := SortBy(mine, ByScheduledForAsc);
    OwnedWithStatusScheduled(collection, userId, Scheduled);
    forall i | 0 <= i < |r|
      ensures r[i] in mine
    {
      SortByMembers(mine, ByScheduledForAsc, r[i]);
    }
    ScheduledComparatorsOrder(mine);
    assert OrderedBy(r, ScheduledAt);
  }

  /**
   * When each of them has a `scheduledFor`, the incomplete list is a
   * permutation of the user's `incomplete` records, descending by `scheduledFor`.
   */
  lemma GetIncompleteInterviewsSpec(collection: seq<Doc>, userId: string)
    requires AllScheduled(collection, userId, Incomplete)
    ensures var r := GetIncompleteInterviews(collection, userId);
            && multiset(r) == multiset(Filter(collection, OwnedWithStatus(userId, Incomplete)))
            && (forall i :: 0 <= i < |r| ==> r[i].data.userId == userId && r[i].data.status == Some(Incomplete)
                                              && r[i].data.scheduledFor.Some?)
            && (forall i, j :: 0 <= i < j < |r| ==> r[i].data.scheduledFor.value >= r[j].data.scheduledFor.value)
  {
    var mine := Filter(collection, OwnedWithStatus(userId, Incomplete));
    var r := SortBy(mine, ByScheduledForDesc);
    OwnedWithStatusScheduled(collection, userId, Incomplete);
    forall i | 0 <= i < |r|
      ensures r[i] in mine
    {
      SortByMembers(mine, ByScheduledForDesc, r[i]);
    }
    ScheduledComparatorsOrder(mine);
    assert OrderedBy(r, NegScheduledAt);
  }

  // ---------------------------------------------------------------------------
  // Status changes and the expiry sweep

  /** More than five minutes have passed since `scheduledFor` (the float test `minutesPassed > 5`). */
  predicate PastStartWindow(scheduledFor: int, now: int) {
    now - scheduledFor > FiveMinutesMs
  }

  /** The update `updateInterviewStatus` applies to one record. */
  function WithStatus(rec: Interview, status: string, now: int): (r: Interview)
    ensures r.status == Some(status)
    ensures r.startedAt.Some? <==> status == InProgress
    ensures r.startedAt.Some? ==> r.startedAt.value == now
    ensures r.(status := rec.status, startedAt := rec.startedAt) == rec
  {
    rec.(status := Some(status), startedAt := if status == InProgress then Some(now) else None)
  }

  /** The sweep marks this record: the user's, `scheduled`, with a `scheduledFor` more than five minutes ago. */
  predicate Expires(rec: Interview, userId: string, now: int) {
    && rec.userId == userId
    && rec.status == Some(Scheduled)
    && rec.scheduledFor.Some?
    && PastStartWindow(rec.scheduledFor.value, now)
  }

  function StaleIds(interviews: map<string, Interview>, userId: string, now: int): set<string> {
    set id | id in interviews && Expires(interviews[id], userId, now)
  }

  /** Committing a batch of `{status: "incomplete"}` updates to the ids in `batch`. */
  function MarkIncomplete(interviews: map<string, Interview>, batch: set<string>): map<string, Interview> {
    map id | id in interviews :: if id in batch then interviews[id].(status := Some(Incomplete)) else interviews[id]
  }

  /** The collection after a successful sweep for `userId` at `now`. */
  function ExpireStale(interviews: map<string, Interview>, userId: string, now: int): map<string, Interview> {
    MarkIncomplete(interviews, StaleIds(interviews, userId, now))
  }

  /**
   * The sweep marks `incomplete` exactly the expiring records, changes nothing
   * else in them, and leaves every other record as it was.
   */
  lemma ExpireStaleExactly(interviews: map<string, Interview>, userId: string, now: int)
    ensures var after := ExpireStale(interviews, userId, now);
            && after.Keys == interviews.Keys
            && (forall id :: id in interviews && Expires(interviews[id], userId, now) ==>
                  after[id] == interviews[id].(status := Some(Incomplete)))
            && (forall id :: id in interviews && !Expires(interviews[id], userId, now) ==>
                  after[id] == interviews[id])
            && (forall id :: id in interviews ==>
                  (after[id] != interviews[id] <==> Expires(interviews[id], userId, now)))
  {
  }

  /** Sweeping twice at the same instant changes nothing more. */
  lemma {:induction false} ExpireStaleIdempotent(interviews: map<string, Interview>, userId: string, now: int)
    ensures ExpireStale(ExpireStale(interviews, userId, now), userId, now) == ExpireStale(interviews, userId, now)
  {
    var once := ExpireStale(interviews, userId, now);
    assert StaleIds(once, userId, now) == {} by {
      forall id | id in once
        ensures !Expires(once[id], userId, now)
      {
        if Expires(interviews[id], userId, now) {
          assert once[id].status == Some(Incomplete);
        } else {
          assert once[id] == interviews[id];
        }
      }
    }
    assert MarkIncomplete(once, {}) == once;
  }

  // ---------------------------------------------------------------------------
  // The store

  /** The document store: the `interviews` and `feedback` collections. */
  class AdminDb {
    var interviews: map<string, Interview>
    var feedback: map<string, Feedback>

    constructor (interviews: map<string, Interview>, feedback: map<string, Feedback>)
      ensures this.interviews == interviews && this.feedback == feedback
    {
      this.interviews := interviews;
      this.feedback := feedback;
    }

    /** `getInterviewById`: the stored data, or none. */
    function GetInterviewById(id: string): (r: Option<Interview>)
      reads this
      ensures r.Some? <==> id in interviews
      ensures r.Some? ==> r.value == interviews[id]
    {
      if id in interviews then Some(interviews[id]) else None
    }

    /**
     * `createFeedback`: format the transcript, hand it to the generator, and,
     * only if that produced an assessment, write one feedback document.
     * `generate` stands for the language-model call (none is a failure),
     * `freshId` for the id the store would generate, `writeOk` for whether
     * the write succeeds.
     */
    method CreateFeedback(interviewId: string, userId: string, transcript: seq<Turn>,
                          feedbackId: Option<string>, generate: string -> Option<Assessment>,
                          freshId: string, now: int, writeOk: bool)
      returns (r: CreateFeedbackResult)
      requires freshId !in feedback
      modifies this`feedback
      ensures var outcome := generate(FormatTranscript(transcript));
              var id := FeedbackTarget(feedbackId, freshId);
              if outcome.Some? && writeOk then
                && r == CreateFeedbackResult(true, Some(id))
                && feedback == old(feedback)[id := NewFeedback(interviewId, userId, outcome.value, now)]
              else
                && r == CreateFeedbackResult(false, None)
                && feedback == old(feedback)
      ensures r.success && feedbackId.Some? && feedbackId.value != "" ==> r.feedbackId == feedbackId
      ensures r.success && (feedbackId.None? || feedbackId.value == "") ==>
                r.feedbackId == Some(freshId) && freshId !in old(feedback) && |feedback| == |old(feedback)| + 1
    {
      var formatted := FormatTranscript(transcript);
      var outcome := generate(formatted);
      if outcome.None? {
        return CreateFeedbackResult(false, None);
      }
      var fb := NewFeedback(interviewId, userId, outcome.value, now);
      var id := FeedbackTarget(feedbackId, freshId);
      if !writeOk {
        return CreateFeedbackResult(false, None);
      }
      feedback := feedback[id := fb];
      r := CreateFeedbackResult(true, Some(id));
    }

    /**
     * `updateInterviewStatus`: set `status`, and `startedAt` to `now` for
     * "in-progress" and to null otherwise. Updating a missing document fails,
     * as does a failing write; a failure changes nothing.
     */
    method UpdateInterviewStatus(interviewId: string, status: string, now: int, writeOk: bool)
      returns (success: bool)
      modifies this`interviews
      ensures success <==> writeOk && interviewId in old(interviews)
      ensures interviews == if success then old(interviews)[interviewId := WithStatus(old(interviews)[interviewId], status, now)]
                            else old(interviews)
    {
      if !writeOk || interviewId !in interviews {
        return false;
      }
      interviews := interviews[interviewId := WithStatus(interviews[interviewId], status, now)];
      success := true;
    }

    /**
     * `checkAndUpdateExpiredInterviews`: read the user's `scheduled` records,
     * collect in one batch an update to "incomplete" for each whose
     * `scheduledFor` lies more than five minutes before `now`, and commit the
     * batch at once. A store failure (`storeOk` false) aborts the sweep with
     * nothing changed; either way nothing is returned.
     */
    method CheckAndUpdateExpiredInterviews(userId: string, now: int, storeOk: bool)
      modifies this`interviews
      ensures interviews == if storeOk then ExpireStale(old(interviews), userId, now) else old(interviews)
    {
      if !storeOk {
        return;
      }
      var snapshot := set id | id in interviews && interviews[id].userId == userId
                                                && interviews[id].status == Some(Scheduled);
      var batch: set<string> := {};
      var pending := snapshot;
      while pending != {}
        invariant pending <= snapshot
        invariant forall id :: id in batch <==>
                    id in snapshot && id !in pending && Expires(interviews[id], userId, now)
        decreases pending
      {
        var id :| id in pending;
        var rec := interviews[id];
        if rec.scheduledFor.Some? && PastStartWindow(rec.scheduledFor.value, now) {
          batch := batch + {id};
        }
        pending := pending - {id};
      }
      assert batch == StaleIds(interviews, userId, now);
      interviews := MarkIncomplete(interviews, batch);
    }
  }
}
