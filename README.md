# TrelloWatcher poll engine

A Dafny model of the background worker of TrelloWatcher (`js/worker.js`). The
worker watches a list of Trello lists. Every poll pass fetches each list's
cards. It drops divider and placeholder cards by keyword and records the ids of
the remaining ("active") cards per list. It raises at most one alarm per pass
for a card that was not in its list's previous set, then posts a stats
snapshot. The page drives it with `start` and `stop` commands.

Files:

- `wrappers.dfy`: `Option`, standing for JavaScript's `undefined`/`null` versus a present value.
- `js_string.dfy` (module `JsString`): the string built-ins the worker uses.
  These are `trim` (the full ECMAScript whitespace set), `toLowerCase`,
  `includes`, and the decimal rendering of a number in a template literal.
- `filter.dfy` (module `Filter`): `IGNORED_KEYWORDS` and `shouldIgnore`.
- `poll.dfy` (module `Poll`): cards, targets, fetch outcomes, notifications.
  It holds `trelloFetch`'s classification of a response and the pieces of one
  iteration (`filter`, `new Set(...map(...))`, `find`). It also defines the
  whole pass, `Poll.Pass`, as a left fold over the targets.
- `pass_properties.dfy` (module `PassProperties`): what a pass promises,
  proved of `Poll.Pass`. Each property is checked against a separate, direct
  description of the expected outcome: expected membership, expected alarm,
  expected logs, expected buckets.
- `worker.dfy` (module `Worker`): the worker's module-level variables as the
  fields of the class `TrelloWorker`. `checkLists` is a loop method that
  updates `listStates` in place and is proved equal to `Poll.Pass`. The class
  also holds the `start`, tick and `stop` handlers.

Each fetch is an input: the caller passes one `Fetched` outcome per target,
either `Ok(cards)` or `Threw(message)`. `Poll.Classify` shows how
`trelloFetch` turns a response into one. Status 401 throws `Unauthorized`.
Any other status outside 200-299 throws `API Error: <status>`. Otherwise the
parsed body is used. The notifications a handler posts are returned as a
sequence of `Message` values, in posting order.

The timer is modelled by handles. `intervalId` holds the last handle armed,
or nothing. `armed` is the set of handles whose callback still fires.
`nextHandle` is the handle `setInterval` will return next.
`TrelloWorker.Valid` states that at most one interval is armed, and that it
is the one `intervalId` holds. Every handler keeps this invariant.

Behaviour of the code worth knowing:

- Auth failure in the first pass: `startLoop` arms the interval once
  `checkLists(true)` returns, whatever that pass did (js/worker.js:132-137),
  so `Worker.TrelloWorker.StartLoop` ensures a new interval is armed in every
  case.
- What an auth failure disarms: the handle `intervalId` holds at that moment
  (js/worker.js:114). During the first pass this is the previous run's
  handle, already cleared, or null. `intervalId` itself is not reset.
- Which errors abort the pass: any thrown error whose message is exactly
  `Unauthorized`, not only a 401 response (js/worker.js:113).

## Model

| member | source | states |
|---|---|---|
| `Filter.LoweredKeywords` | js/worker.js:14-20 | the five keywords, lower-cased as they are compared: "out of office", "training", "innovation", "divider", "analyst" |
| `Filter.ShouldIgnore` | js/worker.js:46-54 | a missing name is always ignored |
| `Filter.SomeKeywordInSpec` | js/worker.js:51-53 | the `some`/`includes` scan holds exactly when some lower-cased keyword occurs in the cleaned name |
| `Filter.IgnoredIffTrimmedContains` | js/worker.js:46-53 | a present name is ignored iff it is empty or its trimmed, lower-cased form contains some lower-cased keyword as a substring |
| `Filter.IgnoredIffNameContains` | js/worker.js:46-53 | trimming changes nothing except for the empty name: a non-empty name is ignored iff its lower-cased form contains a lower-cased keyword anywhere |
| `Filter.CaseInsensitive` | js/worker.js:48-52 | two names that lower-case alike are ignored alike |
| `Filter.KeywordAnywhereIsIgnored` | js/worker.js:51-53 | a name holding a keyword, in any letter case and at any position, is ignored |
| `Filter.BlankNameIsKept` | js/worker.js:47-53 | a non-empty name made only of whitespace passes `!cardName` and contains no keyword after trimming, so it is not ignored |
| `JsString.TrimSpec` | js/worker.js:48 | `trim` returns the slice between the leading and trailing whitespace runs; the result neither starts nor ends with whitespace |
| `JsString.IncludesSpec` | js/worker.js:52 | the `includes` scan finds an occurrence exactly when the pattern is a substring |
| `JsString.NatToStringRoundTrip` | js/worker.js:59 | reading back the digits a status is rendered with gives the status |
| `JsString.NatToStringInjective` | js/worker.js:59 | different statuses give different `API Error` messages |
| `Poll.Classify` | js/worker.js:56-61 | 401 is an auth failure; another status outside 200-299 throws `API Error: <status>` and is not an auth failure; the outcome carries cards exactly for a 200-range status with a card-list body, and they are that body's cards |
| `Poll.ActiveCardsMembers` | js/worker.js:79 | the active cards are exactly the fetched cards that are not ignored |
| `Poll.IdsOfMembers` | js/worker.js:82 | an id is in the set exactly when some card carries it |
| `Poll.ActiveIdsMembers` | js/worker.js:79-82 | an id is in the current set exactly when some non-ignored card of the list carries it |
| `Poll.FindNewSpec` | js/worker.js:88 | `find` returns nothing iff every active card's id is in the previous set; otherwise the first card, in order, whose id is not |
| `PassProperties.NoNewCardIffAllSeen` | js/worker.js:79-90 | no alarm candidate exists in a list iff every non-ignored fetched card's id is in its previous set |
| `PassProperties.NewCardIsFirstInCardOrder` | js/worker.js:79-90 | the candidate is the first fetched card, in card order, that is not ignored and whose id is not in the previous set |
| `PassProperties.PassStopsAtAuthFailure` | js/worker.js:74-121 | the pass aborts iff some outcome is an auth failure; its state is the one reached at the first such outcome |
| `PassProperties.PassEnds` | js/worker.js:113-128 | the pass ends at the first auth failure with `auth_fail` and no stats, or after all targets with exactly one stats message |
| `PassProperties.AuthFailureEndsPass` | js/worker.js:113-116 | at the first unauthorized target, the notifications are those before it plus `auth_fail`, and the membership state is the one reached before it: earlier targets keep their new sets, later ones are untouched |
| `PassProperties.SyncErrorIsSkipped` | js/worker.js:112-121 | another error adds exactly one error-flagged log and changes neither the membership state, the total, the buckets nor the alarm flag; the loop goes on |
| `PassProperties.PassMembership` | js/worker.js:83-101 | after the pass, each list id's set is the active ids of its last successful fetch before any auth failure, or else what it was before (absent if absent) |
| `PassProperties.SuccessfulFetchOverwrites` | js/worker.js:86-101 | a successful fetch replaces the list's set with its active ids, whether or not an alarm fired, including after the alarm |
| `PassProperties.UnfetchedListKeepsState` | js/worker.js:101-121 | a list without a successful fetch before any auth failure keeps its set, or stays absent |
| `PassProperties.IgnoredCardNotRecorded` | js/worker.js:79-82 | an ignored card's id is not in the current set unless a non-ignored card of the list has the same id |
| `PassProperties.FirstRunRaisesNoAlarm` | js/worker.js:86 | the first pass raises no alarm, whatever the lists contain |
| `PassProperties.StatesIndependentOfFirstRun` | js/worker.js:86-101 | the membership state a pass builds, and whether it aborts, do not depend on `isFirstRun` |
| `PassProperties.PassAlarms` | js/worker.js:86-97 | a later pass raises exactly one alarm for the first target, in target order and before any auth failure, that has a new active card, naming that card and that list; no alarm if there is none |
| `PassProperties.AlarmFollowsEarlierLogs` | js/worker.js:86-121 | in a later pass that alarms, the alarm is posted right after the error logs of the targets before the alarming one, and before anything posted for later targets |
| `PassProperties.AtMostOneAlarm` | js/worker.js:72-97 | a pass raises at most one alarm |
| `PassProperties.PassReports` | js/worker.js:104-128 | the non-alarm notifications are the error logs of the failed targets in order, then `auth_fail`, or else one stats message whose buckets are the successful targets in order with their distinct active-id counts and whose total is the sum of the counts |
| `PassProperties.AbortedPassReports` | js/worker.js:113-119 | an aborted pass posts the error logs before the auth failure, then `auth_fail`, and no stats |
| `PassProperties.CompletedPassReports` | js/worker.js:104-128 | a pass without auth failure posts all error logs, then the stats |
| `PassProperties.RepollWithoutChangesIsQuiet` | js/worker.js:83-101 | polling the same cards again after a pass raises no alarm, when list ids are distinct |
| `Worker.TrelloWorker.constructor` | js/worker.js:4-7 | the worker starts with no interval, no membership state and empty credentials |
| `Worker.TrelloWorker.ClearInterval` | js/worker.js:31 | `clearInterval` disarms the given handle and ignores null |
| `Worker.TrelloWorker.CheckLists` | js/worker.js:69-129 | the loop leaves `listStates` and posts notifications exactly as `Poll.Pass` does; an auth failure disarms the handle `intervalId` holds, and nothing else changes |
| `Worker.TrelloWorker.OnStart` | js/worker.js:25-34 | stores the credentials, disarms the previous interval, clears the state and starts the loop: the first pass runs from empty state, raises no alarm, and exactly one new interval is armed afterwards |
| `Worker.TrelloWorker.StartLoop` | js/worker.js:65-137 | posts the started log with the target count, runs the first pass (no alarm) and then arms a new interval, even when that pass hit an auth failure |
| `Worker.TrelloWorker.OnTick` | js/worker.js:135-137 | a tick runs a later pass over the stored targets with at most one alarm; the interval stays armed unless the pass hit an auth failure |
| `Worker.TrelloWorker.OnStop` | js/worker.js:36-41 | disarms the interval, sets `intervalId` to null, clears the state and posts "Worker stopped." |
| `Worker.TrelloWorker.OnMessage` | js/worker.js:22-42 | `start` stores the credentials and targets, posts the started log and the first pass's notifications (no alarm), leaves the first pass's membership state and arms exactly one new interval; `stop` disarms it, nulls `intervalId`, clears the state and posts "Worker stopped.", leaving the credentials, targets and next handle as they were; any other command changes nothing and posts nothing |

## Left out

- `sw.js`, the offline cache service worker, is not part of this model. It only wires Cache API calls and network fetches to service-worker events.
- HTTP, URL building and the credentials in the query string (js/worker.js:57) are left out. `Poll.Classify` takes the response status and the parsed body as inputs.
- JSON parsing is left out. A body that does not parse, or does not yield a card array, is `NotCards(message)`, and the model does not compute the message text.
- `setInterval` timing and the 15-second period are left out. So are async suspension and overlapping passes (js/worker.js:132-137). Each handler runs to completion before the next one starts.
- The model therefore does not capture a second `start` that arrives while a first pass is still awaiting its fetches. In the code, both `startLoop` calls would then arm an interval.
- A pass that is still running when `stop` arrives is left out for the same reason.
- `postMessage` is modelled as the returned sequence of messages.
- `JsString.Lower`: `toLowerCase` is modelled for the ASCII letters A-Z only, so `Lower` differs from `toLowerCase` on non-ASCII capitals. The filter's verdict does not differ for these five keywords. The only non-ASCII characters that lower-case into ASCII are U+212A (to `k`) and U+0130 (to `i` followed by U+0307). No keyword contains `k`, and every `i` in a keyword is followed by a letter, never by U+0307. This argument is not proved in the model.
- A card whose name is not a string is left out. In the code, `trim` would throw and the target would be logged as failed.
