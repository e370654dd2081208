# Personality quiz widget: scoring, session state and progress storage

This project is a Dafny model of the logic in a personality-quiz widget for a
site-builder platform. It covers three pieces:

- **Scoring** (`calculateResult`). Every non-skipped answer adds one vote to the
  personality type of the chosen option: Explorer, Connector, Achiever or Innovator.
  A `reduce` then picks the dominant type.
- **Session state** of the `QuizWidget` component: the question index, the answers
  map, the logged-in user and the widget properties, with the handlers that change
  them. The handlers restore saved progress on load, merge in a quiz version, record
  an answer, submit results, and move Previous/Next.
- **Backend storage** (`quiz.web.js` and the data hooks in `data.js`):
  - saving progress is an upsert keyed by `(userId, quizId)`;
  - reading progress returns the first match;
  - submitting results is an unconditional append;
  - the platform's before-insert and before-update hooks stamp `created`,
    `lastUpdated` and `submitted`.

Modules, one file each:

| file | module | models |
|---|---|---|
| `wrappers.dfy` | `Wrappers` | `Option` (for `null`) and `Result` (for a rejected promise) |
| `quiz_data.dfy` | `QuizData` | the four labels in declaration order, questions, options, progress and results payloads |
| `scoring.dfy` | `Scoring` | `calculateResult`: the tally loop, the `reduce`, and the scoring lemmas |
| `items.dfy` | `Items` | data items as maps from field name to value; JavaScript truthiness |
| `hooks.dfy` | `Hooks` | the four hooks of `data.js`, as methods that stamp the item in place and return it |
| `data_store.dfy` | `DataStore` | the platform's collections: `insert` with a fresh `_id` and `update` by `_id`, each running the collection's hook first |
| `backend.dfy` | `Backend` | `saveQuizProgress`, `getQuizProgress`, `submitQuizResults`, and the lemmas about the upsert |
| `widget.dfy` | `Widget` | the `QuizWidget` session as a class, with its pure helpers and lemmas |

Things the model makes explicit:

- **Tie-break.** The reducer is `a[1] > b[1] ? a : b`. It keeps the accumulator only
  when that is strictly greater, so on a tie the later-declared label wins:
  - tallies `{1, 1, 0, 0}` give Connector;
  - all-skipped answers give Innovator.
  Declaration order decides only through the strict `>`; the code does not pick the
  first-declared label (`Scoring.DominantIsLastMaximum`, `Scoring.TieExamples`).
- **Scoring errors.** The JavaScript throws a `TypeError` when a non-null answer has
  no question, or names a missing option. The model returns `Failure` at the first
  such position. A `null` answer past the last question is skipped before the
  question is read, so it is accepted.
- **Answering does not advance the index.** `handleAnswer` changes only the answers
  map. It saves the unchanged index with the new map.
- **Navigation never reaches the completion screen.** Previous is disabled at 0 and
  Next at `length - 1`, so every click sequence from a question stays on a question
  (`Widget.WalkStaysOnQuestion`). The "Submit Results" screen shows only when the
  index is already at or past the number of questions, for example after a restore
  or when the questions array is empty.
- **The update call passes only `_id`, `progress` and `lastUpdated`.** The model
  merges those fields over the stored item with that `_id`. `userId`, `quizId` and
  `created` keep their stored values. This is an assumption about the platform's
  `update`.
- **What is taken as input.** The user lookup, the widget properties, the fetched
  quiz version, whether storage answers (`reachable`) and the clock (`now`) are all
  parameters.
- **`wixUsers` is not imported in `QuizWidget.jsx`.** The model treats the login
  lookup's outcome as an input to `Load`.

The widget has no lead store, no e-mail validation, no contact step, no skip flag
and no configurable label order; the model has none either.

## Model

| member | source | states |
|---|---|---|
| `QuizData.Rank` | src/public/QuizWidget.jsx:121-126 | each label's position in the declaration order Explorer, Connector, Achiever, Innovator |
| `Scoring.BumpCounts` | src/public/QuizWidget.jsx:132 | `personalityTypes[type]++` adds one to that label's counter, leaves the other three alone, and adds one to the total |
| `Scoring.Entries` | src/public/QuizWidget.jsx:121-126 | `Object.entries` lists the four counters in declaration order |
| `Scoring.CalculateResult` | src/public/QuizWidget.jsx:119-136 | the loop succeeds exactly when every non-null answer names a real option of a real question; it then returns the dominant label of the tally; otherwise it fails at the first bad position, with no question there (`NoSuchQuestion`) or no such option (`NoSuchOption`) |
| `Scoring.FaultIsFirst` | src/public/QuizWidget.jsx:128-133 | the first non-null answer with no question, or no such option, after a scorable prefix is the first fault, and it makes the whole answer list unscorable |
| `Scoring.PositionsUpToStep` | src/public/QuizWidget.jsx:128-133 | one more loop step adds its position to the positions of its option's type, and only there |
| `Scoring.AnsweredUpToStep` | src/public/QuizWidget.jsx:128-133 | one more loop step adds its position to the answered positions exactly when it is not a skip |
| `Scoring.TallyUpToCountsPositions` | src/public/QuizWidget.jsx:128-133 | after the loop has visited the first n answers, each counter equals the number of those positions whose option has that type |
| `Scoring.TallyUpToTotal` | src/public/QuizWidget.jsx:128-133 | after the first n answers, the counters add up to the non-null answers among them |
| `Scoring.TallyCountsPositions` | src/public/QuizWidget.jsx:128-133 | each label's counter equals the number of positions whose chosen option has that type; a `null` answer counts for no label |
| `Scoring.TallyTotalIsAnswered` | src/public/QuizWidget.jsx:128-133 | the four counters add up to the number of non-null answers |
| `Scoring.AnswerAddsOneVote` | src/public/QuizWidget.jsx:128-133 | the answer at position i adds exactly one vote, to `questions[i].options[answer].type`: turning it into a skip lowers that counter by one and no other |
| `Scoring.ReduceIsLastMaximum` | src/public/QuizWidget.jsx:135-136 | the `reduce` without an initial value returns an entry with the maximal count that beats every later entry strictly |
| `Scoring.DominantIsLastMaximum` | src/public/QuizWidget.jsx:135-136 | the dominant label's count is at least that of every label, and strictly more than that of every label declared after it |
| `Scoring.DominantIsLastMaximumLabel` | src/public/QuizWidget.jsx:135-136 | the dominant label equals an independent scan from Innovator back to Explorer for the first label that reaches the maximum |
| `Scoring.TieExamples` | src/public/QuizWidget.jsx:121-136 | tallies {1,1,0,0} give Connector; all-zero tallies give Innovator |
| `Scoring.AllSkippedGivesInnovator` | src/public/QuizWidget.jsx:128-136 | answers that are all `null` can be scored, tally to zero and give Innovator |
| `Hooks.Stamped` | src/backend/data.js:3-22 | stamping sets exactly the named fields to `now`; every other field keeps its value and no other field appears |
| `Hooks.StampedIdempotent` | src/backend/data.js:3-22 | stamping twice with the same clock gives what stamping once gives |
| `Hooks.StampedAlreadyStamped` | src/backend/data.js:3-17 | an item whose stamp fields already hold `now` is unchanged by the hook, so the hooks agree with the timestamps `quiz.web.js` sets itself |
| `Hooks.QuizProgressOnBeforeInsert` | src/backend/data.js:3-7 | sets `created` and `lastUpdated` to `now` in place, changes no other field, and returns the same item |
| `Hooks.QuizProgressOnBeforeUpdate` | src/backend/data.js:9-12 | sets only `lastUpdated`, so `created` is untouched; returns the same item |
| `Hooks.QuizResultsOnBeforeInsert` | src/backend/data.js:14-17 | sets only `submitted`; returns the same item |
| `Hooks.QuizResultsOnBeforeUpdate` | src/backend/data.js:19-22 | sets only `lastUpdated`; returns the same item |
| `DataStore.IndexOfId` | src/backend/quiz.web.js:12-16 | finds the item whose `_id` is the one given, or reports that there is none |
| `DataStore.IndexOfOwnId` | src/backend/quiz.web.js:12-16 | with unique `_id`s, looking up an item's own `_id` finds that item |
| `DataStore.Database.Insert` | src/backend/quiz.web.js:18-24 | the insert hook stamps the item; the stamped item, with a fresh `_id`, is appended; the other collection is unchanged |
| `DataStore.Database.Update` | src/backend/quiz.web.js:12-16 | the update hook stamps the item; its fields overwrite those of the stored item with the same `_id`; an unknown `_id` rejects and changes nothing |
| `Backend.FirstMatch` | src/backend/quiz.web.js:6-11 | the position of the first item whose `userId` and `quizId` both match, or none when no item matches |
| `Backend.Find` | src/backend/quiz.web.js:6-9 | the query's answer is no longer than the collection; it is empty exactly when nothing matches, and starts with the first match |
| `Backend.FindOnlyMatches` | src/backend/quiz.web.js:6-9 | every item the query returns is in the collection and matches both fields |
| `Backend.FindReturnsAllMatches` | src/backend/quiz.web.js:6-9 | every matching item of the collection is in the query's answer |
| `Backend.FindCountsMatches` | src/backend/quiz.web.js:6-9 | the answer has exactly one item per matching position, so its length is the number of items stored for the pair |
| `Backend.FindAppend` | src/backend/quiz.web.js:49-55 | appending an item extends the query's answer by that item exactly when it matches |
| `Backend.FindReplace` | src/backend/quiz.web.js:12-16 | replacing an item by one that matches the same queries keeps the match count; a non-matching replacement leaves the answer unchanged |
| `Backend.Upsert` | src/backend/quiz.web.js:11-24 | the collection grows by one item exactly when nothing matched; every item except the first match is unchanged |
| `Backend.SavedItem` | src/backend/quiz.web.js:11-24 | the saved item matches the pair and carries the new progress and `lastUpdated`; an updated item keeps its other fields (`_id`, `userId`, `quizId`, `created`); an inserted one has `created` set to `now` and a fresh `_id` |
| `Backend.FirstMatchAfterUpsert` | src/backend/quiz.web.js:11-24 | after a save, the query's first match is the saved item |
| `Backend.Lookup` | src/backend/quiz.web.js:35-40 | the result is `null` or truthy; with no match it is `null`; a truthy result is the first match's `progress`, and a truthy `progress` on the first match is the result |
| `Backend.LookupAfterUpsert` | src/backend/quiz.web.js:3-40 | round trip: reading after saving `p` gives `p` when `p` is truthy, and `null` otherwise |
| `Backend.MatchCountAfterUpsert` | src/backend/quiz.web.js:11-24 | after a save the pair has as many items as before, or exactly one when it had none |
| `Backend.UpsertLeavesOtherPairs` | src/backend/quiz.web.js:6-24 | a query for any other `(userId, quizId)` pair returns the very same items after a save |
| `Backend.LookupOtherPairs` | src/backend/quiz.web.js:32-40 | reading another pair's progress gives the same answer before and after a save |
| `Backend.UpsertIdempotent` | src/backend/quiz.web.js:6-24 | saving the same progress twice at the same time leaves the collection one save leaves |
| `Backend.UpsertRetry` | src/backend/quiz.web.js:6-24 | a second identical save, even at a later time, leaves the same number of items for the pair and the same stored progress |
| `Backend.UpsertKeepsOnePerPair` | src/backend/quiz.web.js:11-24 | sequential saves keep at most one item per `(userId, quizId)` pair |
| `Backend.UpdateBranchIsUpsert` | src/backend/quiz.web.js:12-16 | merging `_id`, `progress` and `lastUpdated` into the first match is the update case of the upsert |
| `Backend.UpsertKeepsShape` | src/backend/quiz.web.js:11-24 | saving `null` or a progress object keeps every stored progress `null` or a progress object |
| `Backend.LookupShaped` | src/backend/quiz.web.js:40 | in a collection holding only what the widget writes, a read gives `null` or a progress object |
| `Backend.SaveQuizProgress` | src/backend/quiz.web.js:3-30 | the progress collection becomes the upsert of the old one, and the call resolves to the saved item; a storage failure rejects and writes nothing; the results collection is untouched |
| `Backend.GetQuizProgress` | src/backend/quiz.web.js:32-45 | resolves to the first match's `progress` when that is truthy, and to `null` otherwise (no match, or falsy progress); a storage failure rejects |
| `Backend.SubmissionAddsOne` | src/backend/quiz.web.js:47-55 | each submission adds exactly one item for its pair, with no deduplication, and none for any other pair |
| `Backend.SubmitQuizResults` | src/backend/quiz.web.js:47-60 | appends one item with `userId`, `quizId`, `results` and `submitted`, and leaves existing items unchanged; a storage failure rejects and writes nothing |
| `Widget.MergeQuizVersion` | src/public/QuizWidget.jsx:73-79 | a missing or empty title falls back to the previous title; any questions array, even an empty one, replaces the previous questions; other properties are kept |
| `Widget.MergeIdempotent` | src/public/QuizWidget.jsx:75-79 | merging the same quiz version twice is merging it once |
| `Widget.WithAnswer` | src/public/QuizWidget.jsx:94 | the new map sets `questionId` to the answer; every other key keeps its value and no other key is added |
| `Widget.WithAnswerLastWins` | src/public/QuizWidget.jsx:94 | answering a question again replaces its earlier answer; answers to different questions commute |
| `Widget.Navigate` | src/public/QuizWidget.jsx:190-198 | from a question index, a click stays within `[0, length-1]`; Previous lowers the index by one except at 0; Next raises it by one except at `length-1`; with no question screen rendered, nothing changes |
| `Widget.NavigateInverse` | src/public/QuizWidget.jsx:191-198 | away from the ends, Next undoes Previous and Previous undoes Next |
| `Widget.WalkStaysOnQuestion` | src/public/QuizWidget.jsx:175-198 | any sequence of Previous/Next clicks from a question index stays on a question; the completion screen is never reached this way |
| `Widget.Restored` | src/public/QuizWidget.jsx:55-59 | a saved progress object replaces the index and the answers; `null` leaves the session as it is |
| `Widget.RestoreAfterSave` | src/public/QuizWidget.jsx:55-59 | restoring from what a save of (index, answers) left in the collection gives back exactly that index and those answers, from any starting session |
| `Widget.QuizWidget.constructor` | src/public/QuizWidget.jsx:6-25 | the session starts at question 0, with no answers, still loading, no user, the default properties and no result |
| `Widget.QuizWidget.Load` | src/public/QuizWidget.jsx:48-66 | sets the user and restores the saved progress for it; a failed user lookup or progress read restores nothing; loading ends on every path; only these four fields change |
| `Widget.QuizWidget.LoadProps` | src/public/QuizWidget.jsx:68-87 | takes the widget properties, then merges in the fetched quiz version exactly when the properties name a (truthy) version and the fetch produced one |
| `Widget.QuizWidget.HandleAnswer` | src/public/QuizWidget.jsx:93-105 | the answers map gains the answer and the index is unchanged; the store receives the upsert of (unchanged index, new answers), which reads back as that payload; a failed save leaves the store as it was but keeps the new local answer |
| `Widget.QuizWidget.HandleSubmit` | src/public/QuizWidget.jsx:107-117 | appends one results item holding the answers and the completion time, with no guard against repeats; a failure is only logged |
| `Widget.QuizWidget.CalculateResult` | src/public/QuizWidget.jsx:119-138 | scores against the current questions and, on success, stores the dominant label as the result; on a thrown error the result is unchanged |
| `Widget.QuizWidget.GoPrevious` | src/public/QuizWidget.jsx:190-195 | the index becomes the Previous step of `Navigate` (unchanged while loading) |
| `Widget.QuizWidget.GoNext` | src/public/QuizWidget.jsx:196-201 | the index becomes the Next step of `Navigate` (unchanged while loading) |
| `Widget.ReloadRestoresSession` | src/public/QuizWidget.jsx:48-105 | a user who answers a question and reloads the widget gets back the same index and answers, including the new answer |

## Left out

- Rendering, styling, translations and the admin CSV export button: these are UI.
  The export's handler is an empty stub.
- `fireEvent` and every analytics call. These are foreign calls to `window.gtag`,
  `window.fbq` and `window.dispatchEvent`.
- The product-recommendation fetch after scoring, with its loading and error flags.
  This is a foreign call whose result is only displayed.
- The unused `animating` and `lastStep` state.
- The platform calls `getLoggedInUser`, `getProps` and `getQuizVersion`, storage
  availability, and `new Date()`. They appear only through their results, as
  parameters. One `now` stands for all the `new Date()` calls of one handler.
- Asynchronous interleaving. Effects, state updates and storage calls run one after
  another, in program order. The query-then-insert of `saveQuizProgress` is not
  atomic in the source, and overlapping saves can create two items for one pair.
  The model makes no race-freedom claim.
- Platform `_id`s are strings; the model uses sequential numbers. A rejected
  storage call rejects with the platform's own error; the model uses one error value
  for all of them.
- `Items.Field`: an item holds only the fields this code reads or writes. The
  platform's system fields other than `_id` are not modelled.
- Widget properties other than `quizTitle`, `questions` and `quizVersion`, such as
  colours, flags and translations. The component's own `questions` prop is unused
  by the code.
- Scoring inputs other than a skip (`null`) or a natural option index. Examples are
  `undefined`, strings and holes in a sparse array.
- Option type tags outside the four labels. The JavaScript would add a `NaN`
  counter for such a tag; the model's option type cannot hold one.
- The option object that `handleAnswer` stores is not reconciled with the index
  array that `calculateResult` reads. The two are modelled as written.
- `Widget.Restored`: requires a `null` or progress-object value. Another truthy
  stored value would make the source restore `undefined` answers. The widget never
  writes such a value, and `Backend.ProgressShaped` rules it out.
- `Widget.QuizWidget.Load`: requires every stored progress to be `null` or a
  progress object (`Backend.ProgressShaped`), for the reason given on the
  `Widget.Restored` line; a collection holding another truthy progress value is not
  covered.
- `Widget.QuestionCount`: an absent questions array counts as zero questions. The
  default properties have no `questions` field, and the render's
  `props.questions.length` would throw on them; the model does not model that throw.
- `Backend.Find`: the query sets no sort order, and the model assumes the platform
  returns matches in insertion order, so `items[0]` is the oldest match; `update`
  keeps an item's position. `Backend.FirstMatchAfterUpsert` and
  `Backend.LookupAfterUpsert` rest on this assumption when a pair has more than one
  item.
- `Backend.Matches`: a `null` user identifier is assumed to match items whose
  `userId` is `null`.
