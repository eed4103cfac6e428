# Mock-interview platform: scheduling, store access and UI rules in Dafny

This project models the logic of an AI mock-interview web application. It
does not model the rendering, the AI calls or the database SDK. What it
models:

- **The scheduled-interview time window.** A scheduled interview card
  offers "Start" until the truncated minute difference since `scheduledFor`
  exceeds five. The entry page and the expiry sweep use the exact test
  "more than 300 000 ms late". The entry page admits, marks "in-progress"
  or marks "incomplete".
- **The store.** The `interviews` and `feedback` collections are maps held
  by a class, `AdminDb`. It has three operations that change them:
  - `createFeedback`, an upsert by optional id;
  - `updateInterviewStatus`;
  - `checkAndUpdateExpiredInterviews`, the expiry sweep: a loop that
    collects one batch and commits it all at once.
- **Query post-processing.** Reads are pure functions over the collection
  in store order. They cover filtering, limiting, and the in-memory sorts by
  `createdAt` descending and by `scheduledFor` ascending and descending.
  `Array.prototype.sort` is modelled as a stable insertion sort with the same
  JavaScript comparator.
- **The `GET /api/interviews` endpoint**: status 400 / 500 / 200, and at most
  one item, which is the latest.
- **The interview form**: the validation schema, the default values, and the
  `isGenerating` / `generatedInterview` state.
- **The navigation**: path-prefix highlighting, the fixed link lists of the
  sidebar and the mobile menu, and the mobile menu's open/closed state.
- **The environment checker script**: which required variables are
  missing, how present values are masked, the counts and the exit status.

Timestamps are integer milliseconds and the current time is a parameter
(`now`). The language-model call, the store's generated ids and store
failures are also parameters (`generate`, `freshId`, `writeOk` / `storeOk`).

Modules:

| module | file | models |
|---|---|---|
| `Wrappers` | wrappers.dfy | `Option` |
| `Seqs` | seqs.dfy | `limit`/`slice`, order-keeping `filter`, stable comparator sort |
| `Types` | types.dfy | interview and feedback records |
| `GeneralAction` | general_action.dfy | lib/actions/general.action.ts |
| `ScheduledInterviewCard` | scheduled_interview_card.dfy | components/ScheduledInterviewCard.tsx |
| `InterviewsRoute` | interviews_route.dfy | app/api/interviews/route.ts |
| `InterviewForm` | interview_form.dfy | components/InterviewForm.tsx |
| `NavLinks` | nav_links.dfy | the `isActive` rule and the `\|\|` fallback shared by both navigations |
| `Sidebar` | sidebar.dfy | components/Sidebar.tsx |
| `MobileNav` | mobile_nav.dfy | components/MobileNav.tsx |
| `CheckEnv` | check_env.dfy | scripts/check-env.js |
| `InterviewPage` | interview_page.dfy | the entry check in app/(root)/interview/[id]/page.tsx |

### The two time tests

The code decides a scheduled interview's window in two places, and the two
tests disagree at the edges:

- The card compares the truncated minute difference, so it offers "Start"
  whenever 0 < elapsed < 6 min. Exactly at `scheduledFor` it shows
  "Available", because `isAfter` is strict.
- The entry page and the sweep expire a record at elapsed > 5 min exactly,
  and the page admits from elapsed = 0.

`ScheduledInterviewCard.StartOfferedWhileSweepExpires`,
`InterviewPage.StartButtonOutcome` and `InterviewPage.OnTimeEntry` state the
resulting gaps. The page also ignores the result of its "in-progress" write:
`InterviewPage.EnterInterview` admits whatever `writeOk` is.

## Model

| member | source | states |
|---|---|---|
| GeneralAction.FormatTranscript | lib/actions/general.action.ts:13-18 | the formatted transcript is empty exactly when there are no turns, and has at least five characters per turn |
| GeneralAction.FormatTranscriptAppend | lib/actions/general.action.ts:13-18 | formatting a concatenation of turn lists is the concatenation of their formattings (a `map` then `join("")`) |
| GeneralAction.FormatTranscriptTurn | lib/actions/general.action.ts:13-18 | turn i's line `"- " + role + ": " + content + "\n"` appears intact, right after the lines of turns 0..i-1 |
| GeneralAction.FeedbackWriteKeys | lib/actions/general.action.ts:55-61 | with an existing `feedbackId` the feedback collection keeps its size (overwrite); with a new one it gains exactly that key; without one it gains exactly one new document, under an id not used before |
| GeneralAction.AdminDb.GetInterviewById | lib/actions/general.action.ts:70-75 | some record iff the id is stored, and then the stored record |
| GeneralAction.AdminDb.CreateFeedback | lib/actions/general.action.ts:9-68 | success with the target id and exactly that document set to the new feedback iff generation produced an assessment and the write succeeded; otherwise `success: false`, no id, and the feedback collection unchanged. On success the returned id is the caller's non-empty `feedbackId`, or else the fresh id, which was unused, the collection growing by one |
| GeneralAction.GetFeedbackByInterviewId | lib/actions/general.action.ts:77-94 | a document is found iff one matches both `interviewId` and `userId`; it is the first such document in store order |
| GeneralAction.GetLatestInterviewsSpec | lib/actions/general.action.ts:96-125 | at most `limit` (default 20) results; each is a finalized record of another user from the collection; newest `createdAt` first; exactly the other users' records among the first `limit` finalized ones, as a multiset |
| GeneralAction.GetInterviewsByUserIdSpec | lib/actions/general.action.ts:127-141 | a permutation of the user's records, newest `createdAt` first |
| GeneralAction.ScheduledComparatorsOrder | lib/actions/general.action.ts:159-184 | once every record has `scheduledFor`, the two in-memory sorts order ascending and descending by it |
| GeneralAction.GetScheduledInterviewsSpec | lib/actions/general.action.ts:143-163 | when each of the user's `scheduled` records has `scheduledFor`: a permutation of exactly those records, ascending by `scheduledFor` |
| GeneralAction.GetIncompleteInterviewsSpec | lib/actions/general.action.ts:165-185 | when each of the user's `incomplete` records has `scheduledFor`: a permutation of exactly those records, descending by `scheduledFor` |
| GeneralAction.WithStatus | lib/actions/general.action.ts:193-196 | the record gets the new `status`; `startedAt` is set, to `now`, exactly for "in-progress" and null otherwise; no other field changes |
| GeneralAction.AdminDb.UpdateInterviewStatus | lib/actions/general.action.ts:187-202 | success iff the write goes through and the document exists; on success only that record changes, as `WithStatus`; on failure nothing changes |
| GeneralAction.ExpireStaleExactly | lib/actions/general.action.ts:212-230 | a sweep keeps the same ids, turns exactly the user's `scheduled` records more than five minutes past `scheduledFor` into `incomplete` (no other field), and leaves every other record as it was |
| GeneralAction.ExpireStaleIdempotent | lib/actions/general.action.ts:204-236 | sweeping twice at the same `now` equals sweeping once |
| GeneralAction.AdminDb.CheckAndUpdateExpiredInterviews | lib/actions/general.action.ts:204-236 | the loop over the user's `scheduled` records collects one batch; after the commit the collection is exactly the swept collection, or unchanged when the store fails (all or nothing) |
| Seqs.SortByOrdered | lib/actions/general.action.ts:118-122 | a stable comparator sort whose comparator is a key difference orders its result by that key (with `SortBy`'s own contract: the sorted permutation) |
| ScheduledInterviewCard.WholeMinutes | components/ScheduledInterviewCard.tsx:27-28 | the minute difference truncates toward zero, for negative differences as well |
| ScheduledInterviewCard.CanStartWindow | components/ScheduledInterviewCard.tsx:27 | `canStart` iff 0 < now − scheduledFor < 6 minutes |
| ScheduledInterviewCard.IsPastWindow | components/ScheduledInterviewCard.tsx:28 | `isPast` iff now − scheduledFor ≥ 6 minutes |
| ScheduledInterviewCard.StartAndExpiredExclusive | components/ScheduledInterviewCard.tsx:27-28 | `canStart` and `isPast` never hold together |
| ScheduledInterviewCard.CardFooter | components/ScheduledInterviewCard.tsx:106-125 | nothing is rendered iff `scheduledFor` is missing; otherwise exactly one of Start (elapsed in (0, 6 min)), expired (elapsed ≥ 6 min) or "Available" (at or before `scheduledFor`) |
| ScheduledInterviewCard.StartTarget | components/ScheduledInterviewCard.tsx:30-34 | the start handler navigates, to `/interview/<id>`, exactly when the Start button is offered |
| ScheduledInterviewCard.TechStackChips | components/ScheduledInterviewCard.tsx:79-91 | exactly min(5, n) chips for n entries, a prefix of the tech stack; a "+k more" chip iff n > 5, with k = n − 5 |
| ScheduledInterviewCard.StartOfferedWhileSweepExpires | components/ScheduledInterviewCard.tsx:27-28 | the card offers Start while the sweep's test says expired exactly when 5 min < elapsed < 6 min; whenever the card says expired, so does the sweep |
| ScheduledInterviewCard.HalfMinuteGapExample | components/ScheduledInterviewCard.tsx:27-28 | 5.5 minutes after `scheduledFor` the card shows Start and the sweep expires the record |
| InterviewsRoute.Get | app/api/interviews/route.ts:4-30 | 400 "userId is required" iff the parameter is missing or empty; 500 "Failed to fetch interviews" when the store fails; status 200 iff a list is returned; the list has at most one item |
| InterviewsRoute.MissingUserIdIgnoresStore | app/api/interviews/route.ts:8-10 | without a `userId` the answer is the 400 whatever the store holds or does |
| InterviewsRoute.GetReturnsLatest | app/api/interviews/route.ts:13-25 | with a `userId` and a working store: status 200; one item iff the user owns an interview; that item is the user's document, with its id, of greatest `createdAt` |
| InterviewForm.Validate | components/InterviewForm.tsx:14-20 | field by field: an issue for role iff it has < 2 chars, for level and type iff outside their enums, for techstack iff < 2 chars, for amount iff empty; each issue carries its field's schema message; no issues iff the values conform; at most one issue per field |
| InterviewForm.DefaultValuesIssues | components/InterviewForm.tsx:34-40 | the defaults fail exactly on role and techstack; filling in those two makes them valid |
| InterviewForm.GeneratedShowsLatest | components/InterviewForm.tsx:58-66 | after a successful generation the form shows the user's latest interview when there is one, and keeps what it showed otherwise |
| InterviewForm.FailuresKeepShown | components/InterviewForm.tsx:58-72 | failed generation, a thrown request and an error answer never change the shown interview |
| InterviewForm.FormState.constructor | components/InterviewForm.tsx:29-30 | not generating, nothing shown |
| InterviewForm.FormState.Submit | components/InterviewForm.tsx:43-44 | submission starts (and sets `isGenerating`) iff the values pass the schema |
| InterviewForm.FormState.Settle | components/InterviewForm.tsx:56-75 | `isGenerating` is false afterwards whatever the outcome; the shown interview is the first fetched item on success with a non-empty list, otherwise unchanged; after a non-empty list "Start Voice Interview" leads to `/interview/<first id>`, after a failure it leads where it did before |
| InterviewForm.FormState.CreateAnother | components/InterviewForm.tsx:131-132 | the shown interview is reset to none, so "Start Voice Interview" leads nowhere |
| NavLinks.StartsWith | components/Sidebar.tsx:64 | `startsWith` holds iff the href is a prefix of the pathname |
| NavLinks.IsActiveIff | components/Sidebar.tsx:62-65 | "/" is active iff the pathname is "/"; any other href iff it is a prefix of the pathname |
| NavLinks.FragmentLinkInactive | components/MobileNav.tsx:37-40 | an href containing '#' is never active for a pathname without '#' |
| NavLinks.ActiveLabels | components/Sidebar.tsx:102-104 | a caption is listed iff some entry with that caption is active on the pathname; no more highlighted links than links |
| NavLinks.UnrelatedLinksExclusive | components/Sidebar.tsx:62-65 | distinct hrefs of which no non-root one is a prefix of another are never active together |
| NavLinks.ExclusiveAtMostOneActive | components/Sidebar.tsx:102-104 | pairwise-exclusive links highlight at most one item |
| NavLinks.OrFallback | components/Sidebar.tsx:90-93 | `value \|\| fallback`: a non-empty value is shown as it is; the fallback is shown iff the value is missing, empty or equal to it; never blank when the fallback is not |
| Sidebar.SidebarHrefsUnrelated | components/Sidebar.tsx:29-60 | five items; their hrefs, used as keys, are non-empty and pairwise distinct, and no non-root one is a prefix of another |
| Sidebar.SidebarAtMostOneActive | components/Sidebar.tsx:29-65 | for every pathname at most one sidebar link is highlighted |
| Sidebar.SidebarActiveExamples | components/Sidebar.tsx:29-65 | on "/" only Home is highlighted; "/interview/abc" and "/interviewx" highlight only New Interview |
| Sidebar.FragmentLinksNeverActive | components/Sidebar.tsx:43-65 | Scheduled ("/#scheduled") and History ("/#history") are never highlighted on a router pathname |
| Sidebar.ShownIdentityNeverBlank | components/Sidebar.tsx:90-93 | with the fallbacks "User" and "user@example.com", neither the name nor the email shown is ever blank |
| MobileNav.MobileAtMostOneActive | components/MobileNav.tsx:30-40 | four items; for every pathname at most one is highlighted |
| MobileNav.Menu.constructor | components/MobileNav.tsx:16 | the menu starts closed |
| MobileNav.Menu.ToggleButton | components/MobileNav.tsx:52 | the button flips `isOpen` |
| MobileNav.Menu.ClickOverlay | components/MobileNav.tsx:64-69 | the overlay exists only while open, and clicking it closes the menu |
| MobileNav.Menu.ClickLink | components/MobileNav.tsx:103-105 | following any link navigates to its href and closes the menu |
| CheckEnv.Includes | scripts/check-env.js:47 | `includes` holds iff the part occurs at some index |
| CheckEnv.DisplayValue | scripts/check-env.js:47-51 | a KEY/TOKEN value shows exactly its first 10 characters plus "...", a value of at most 10 characters in full plus "..."; another value longer than 30 shows its first 30 plus "..."; anything else as it is |
| CheckEnv.PresentKeyIff | scripts/check-env.js:41-45 | a checked name is among the present names iff its value is set and non-empty |
| CheckEnv.PartitionOfChecked | scripts/check-env.js:38-45 | each checked variable is missing iff it is unset or empty, and present otherwise; the two counts add up to the number checked |
| CheckEnv.CheckStep | scripts/check-env.js:38-54 | checking one more variable appends it to exactly one of the two lists |
| CheckEnv.CheckEnvironment | scripts/check-env.js:35-79 | the loop yields the missing variables and the present names (with their displayed values), in list order, as the order-keeping filters of the checked list; present + missing = number checked; exit status 1 iff something is missing, else 0 |
| CheckEnv.SecretRequiredKeys | scripts/check-env.js:8-31 | there are 13 required variables; the private key, the two API keys and the Vapi token are masked |
| InterviewPage.GateFor | lib/actions/general.action.ts:220-227 | the entry decision of the interview page (lines 20-43 of app/(root)/interview/[id]/page.tsx), which repeats the sweep's status check and exact "more than 5 minutes" test: exactly one of: not found; no check (not "scheduled" or no time); too early (before `scheduledFor`); expire (more than 5 minutes late); begin (0 to 5 minutes, both ends included) |
| InterviewPage.EnterInterview | lib/actions/general.action.ts:187-202 | the page's entry check, writing through `updateInterviewStatus`: redirects to "/", "/?error=too-early" or "/?error=expired", or admits; writes "incomplete" on expire and "in-progress" on begin when the write succeeds; admits in the window even when the write fails |
| InterviewPage.EntryExpiresAsSweep | lib/actions/general.action.ts:220-227 | the page turns a scheduled record away as expired exactly when the sweep would mark it |
| InterviewPage.AdmittedInWindow | lib/actions/general.action.ts:224-227 | the page's complement of the sweep's test: a scheduled record with a time is admitted iff 0 ≤ elapsed ≤ 5 minutes |
| InterviewPage.StartButtonOutcome | components/ScheduledInterviewCard.tsx:27-34 | when the card offers Start, the page expires the record iff more than 5 minutes have passed, and begins it otherwise |
| InterviewPage.SecondEntryNoChange | lib/actions/general.action.ts:193-196 | after a successful admission the record is no longer checked, so entering again admits without a write |
| InterviewPage.OnTimeEntry | components/ScheduledInterviewCard.tsx:27 | exactly at `scheduledFor` the page admits while the card shows "Available" |

## Left out

- The language-model call (`generateObject`, the prompt, the feedback schema): a parameter `generate` that returns an assessment or nothing.
- The Firestore and Firebase admin SDK (query execution, `batch`, `doc().set`, lazy initialisation). Collections are maps in `AdminDb`. Queries read the collection as a sequence in store order. A failure is a boolean parameter.
- GeneralAction.AdminDb.CreateFeedback: the store-generated id is a parameter `freshId` that must not already be in use. Whether a caller-supplied id is a valid document path is not modelled.
- Wall-clock time and date strings (`new Date()`, ISO parsing, `toISOString`): integer milliseconds and a `now` parameter.
- Floating-point minutes: `minutesPassed > 5` and `< 0` become the integer tests elapsed > 300 000 ms and elapsed < 0.
- dayjs display helpers (`fromNow`, `format`) and all rendering, icons, descriptions, CSS, toasts, logout and `console` output.
- GeneralAction.GetScheduledInterviewsSpec: the order of records without `scheduledFor` is not stated. The comparator returns 0 for them, which is not a consistent order, so the engine's sort decides. The model's insertion sort is one such order.
- GeneralAction.GetIncompleteInterviewsSpec: the same restriction to records that all have `scheduledFor`.
- `Array.prototype.sort` in place: modelled on values as a stable sort over a sequence. Aliasing of the sorted array is not captured.
- GeneralAction.GetLatestInterviewsSpec: a negative or fractional `limit` is not modelled; `limit` is a natural number.
- GeneralAction.GetInterviewsByUserIdSpec: the store's tie-break between equal `createdAt` values is taken to be store order.
- InterviewForm.Validate: lengths count Dafny characters (Unicode scalar values), whereas the schema's `min` counts UTF-16 code units, so a role or tech stack of one character outside the Basic Multilingual Plane passes the schema but fails here.
- CheckEnv.CheckEnvironment: runs over the list it is given (the script passes `RequiredEnvVars`), so its contract speaks of that list. Lengths count characters, not UTF-16 code units.
- components/FormField.tsx is not part of this model; it only renders.
- Concurrency: parallel reads and the unguarded read-decide-write of the entry check.
