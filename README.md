# MindBase core, modelled in Dafny

MindBase is a browser-only mental-wellness companion. This project models its
core and proves properties of it:

- **Storage** (`storage.dfy`, from `src/services/storage.ts`). This is the
  persistence service over five local-storage keys: the user list, the session
  pointer, and per-user chats, journals and test results. It covers
  registration, login and logout, the current user, saving chats, journal
  entries and results, and backup and restore. `StorageService` is a class
  whose fields are the five keys. `None` stands for a key that was never
  written. Each method states the whole new state.
- **Sentiment** (`sentiment.dfy`, from `getCollectiveMood` in
  `src/services/sentiment.ts`). This is the collective mood of the seven most
  recent journal entries. A specification function, `CollectiveMood`, is
  proved to name a capitalised, most frequent counted label. On a tie it names
  the label counted first. The two-loop method `GetCollectiveMood` is proved
  equal to the specification function.
- **Screening** (`screening.dfy`, from `src/pages/Test.tsx`). This is the
  seven-question anxiety check-in: answers, the total score, its four bands,
  and saving a result for the signed-in user.
- **Mindfulness** (`mindfulness.dfy`, from `src/pages/Mindfulness.tsx`). This
  covers the exercise table, the countdown timer as a class, the `m:ss` clock
  display and the step shown for the elapsed time.

`wrappers.dfy` holds the `Option` type.

The source's non-deterministic inputs become parameters:

- `crypto.randomUUID()` becomes `freshId`.
- `new Date().toISOString()` becomes `now`.
- The text handed to `restoreBackup` arrives already parsed, as a `ParsedBackup`.

## Model

| member | source | states |
|---|---|---|
| Storage.FindIndex | src/services/storage.ts:45 | `findIndex`: None exactly when no element satisfies the predicate; otherwise the first index that does |
| Storage.ListOf | src/services/storage.ts:75-78 | `allX[userId] \|\| []`: empty exactly when the key, the user or the user's list is missing or empty; otherwise the stored list |
| Storage.Upsert | src/services/storage.ts:94-108 | saving a journal entry whose id is present replaces the first entry with that id in place and keeps the length; a new id goes to the front; the entry is always in the result |
| Storage.UpsertOrder | src/services/storage.ts:99-103 | two new entries are listed newest first, and re-saving the older one keeps its position |
| Storage.Restored | src/services/storage.ts:137-153 | a document without a truthy `timestamp`, or text that is not an object, leaves every key unchanged |
| Storage.RestoreOwnBackup | src/services/storage.ts:125-153 | a backup taken with a non-empty time is accepted, and restoring it into the same store changes nothing |
| Storage.RestoreIntoEmpty | src/services/storage.ts:125-153 | restoring a backup into an empty store reproduces every key; the session is the one exception, when it was the falsy empty id |
| Storage.BackupOf | src/services/storage.ts:126-133 | definition: the document holds the five keys exactly as stored (`null` for an absent key) and the creation time; its restore properties are the three lemmas around it |
| Storage.PartialRestore | src/services/storage.ts:141-147 | a document with only `timestamp` and `journals` replaces the journals and nothing else |
| Storage.StorageService.constructor | src/services/storage.ts:3-8 | a fresh store holds none of the five keys |
| Storage.StorageService.Register | src/services/storage.ts:23-35 | refused exactly when the email is already registered; otherwise appends the new user with the fresh id and join time; touches no other key; keeps emails unique |
| Storage.StorageService.Login | src/services/storage.ts:37-52 | fails exactly when no user has these credentials; otherwise the session is the first matching user, who gets `lastLogin` stamped; the stamped record overwrites the first user with that id, which is the matching user when ids are unique; collections untouched |
| Storage.StorageService.Logout | src/services/storage.ts:54-56 | removes only the session key; afterwards there is no current user |
| Storage.StorageService.CurrentUser | src/services/storage.ts:58-63 | none exactly when there is no session, the session id is empty, or no user has that id; otherwise the first user with that id |
| Storage.StorageService.UpdateUser | src/services/storage.ts:65-72 | overwrites the first user with the same id; writes nothing when there is none; other keys untouched |
| Storage.StorageService.ChatsOf | src/services/storage.ts:75-78 | definition: `getChats` is `ListOf` the chats key, so `ListOf`'s contract gives the empty and present cases |
| Storage.StorageService.JournalsOf | src/services/storage.ts:89-92 | definition: `getJournals` is `ListOf` the journals key |
| Storage.StorageService.ResultsOf | src/services/storage.ts:119-122 | definition: `getTestResults` is `ListOf` the results key |
| Storage.StorageService.SaveChat | src/services/storage.ts:80-86 | appends the message to that user's chats; every other user's chats and every other key unchanged |
| Storage.StorageService.SaveJournal | src/services/storage.ts:94-108 | that user's journal becomes `Upsert` of the old one; every other user's journal and every other key unchanged |
| Storage.StorageService.SaveTestResult | src/services/storage.ts:111-117 | appends the result to that user's results; every other user's results and every other key unchanged |
| Storage.StorageService.CreateBackup | src/services/storage.ts:125-135 | the snapshot is stamped with `now`, passes the restore gate exactly when the time is non-empty, and restoring it yields the current state; restoring it into an empty store reproduces every key, except an empty session id |
| Storage.StorageService.RestoreBackup | src/services/storage.ts:137-153 | returns true exactly when the parsed text is an object with a truthy `timestamp`; the new state is `Restored` of the old one |
| Sentiment.TrimStartSuffix | src/services/sentiment.ts:82 | `trim` at the front drops only white space and keeps a suffix that does not start with white space |
| Sentiment.TrimEndPrefix | src/services/sentiment.ts:82 | `trim` at the end drops only white space and keeps a prefix that does not end with white space |
| Sentiment.Clean | src/services/sentiment.ts:82 | definition: lower-case, then trim both ends; its properties are the lemmas below |
| Sentiment.CleanShape | src/services/sentiment.ts:82 | a cleaned label has no capital letter and no white space at either end |
| Sentiment.CleanFixedPoint | src/services/sentiment.ts:82 | a label with no capital letter and no white space at either end is left as it is by cleaning |
| Sentiment.CleanIdempotent | src/services/sentiment.ts:82 | cleaning is idempotent |
| Sentiment.Skipped | src/services/sentiment.ts:84 | definition: a cleaned label is dropped when it contains "error", "loading" or "missing" |
| Sentiment.Recent | src/services/sentiment.ts:76 | `slice(0, 7)`: a prefix of the entries of length min(7, count) |
| Sentiment.Kept | src/services/sentiment.ts:80-87 | no label counted from an entry mentions "error", "loading" or "missing" |
| Sentiment.Counted | src/services/sentiment.ts:79-88 | no label counted from the entries mentions "error", "loading" or "missing" |
| Sentiment.DistinctKeys | src/services/sentiment.ts:86 | the count map's keys are exactly the counted labels, each once |
| Sentiment.Scan | src/services/sentiment.ts:91-101 | definition: the pass over the keys from ("Mixed", 0), replacing the leader only on a strictly greater count; characterised by `ScanFindsFirstMaximum` |
| Sentiment.ScanFindsFirstMaximum | src/services/sentiment.ts:91-101 | the pass over the map ends on the first key with the greatest count, and holds that count |
| Sentiment.DistinctFollowsFirstOccurrence | src/services/sentiment.ts:86 | map insertion order follows each label's first occurrence |
| Sentiment.LeaderDominates | src/services/sentiment.ts:91-101 | the leader is a counted label that is at least as frequent as every label and strictly more frequent than each label first seen before it |
| Sentiment.Capitalize | src/services/sentiment.ts:105 | the label's own first character upper-cased: same length, equal ignoring case, first letter not lower-case, the rest unchanged |
| Sentiment.CollectiveMood | src/services/sentiment.ts:72-106 | definition: "Neutral" for no entries or nothing counted, else the capitalised leader of the count map over the recent entries; characterised by the four lemmas below and implemented by `GetCollectiveMood` |
| Sentiment.NoEntries | src/services/sentiment.ts:73 | an empty journal is "Neutral" |
| Sentiment.OnlyRecentEntriesCount | src/services/sentiment.ts:76 | only the first seven entries matter: entries appended beyond them never change the mood |
| Sentiment.NothingCounted | src/services/sentiment.ts:103 | with nothing counted the mood is "Neutral", never the "Mixed" placeholder |
| Sentiment.MostFrequentLabelWins | src/services/sentiment.ts:72-106 | otherwise the mood is the capitalised form of a counted, non-failure label that dominates the others as above |
| Sentiment.CountEmotion | src/services/sentiment.ts:80-87 | one callback step keeps the count map equal to the counts of the labels kept so far |
| Sentiment.CountLabels | src/services/sentiment.ts:80-87 | counting one entry's labels keeps the map equal to the counts of all labels kept so far, in insertion order |
| Sentiment.GetCollectiveMood | src/services/sentiment.ts:72-106 | the two-loop implementation returns `CollectiveMood` of its input |
| Screening.AllUnanswered | src/pages/Test.tsx:25 | seven answers, all "not answered" (-1) |
| Screening.IsComplete | src/pages/Test.tsx:35 | definition: no answer is -1, the condition that also enables the submit button at line 102 |
| Screening.TotalScore | src/pages/Test.tsx:37 | definition: the left-to-right sum of the answers; bounded by `TotalScoreBounds` and `CompleteScoreRange` |
| Screening.OptionScores | src/pages/Test.tsx:17-22 | the scores the answer buttons can give are exactly 0 to 3 |
| Screening.TotalScoreBounds | src/pages/Test.tsx:37 | the sum of scores from 0 to 3 lies between 0 and three times the number of answers |
| Screening.CompleteScoreRange | src/pages/Test.tsx:35-37 | a complete questionnaire scores 0 to 21, the "/ 21" on the result page |
| Screening.Interpretation | src/pages/Test.tsx:40-43 | each band holds exactly its score range: up to 4, 5 to 9, 10 to 14, 15 and up |
| Screening.InterpretationMonotone | src/pages/Test.tsx:40-43 | a higher score never gets a milder band |
| Screening.WarningMatchesBands | src/pages/Test.tsx:76-82 | the warning (score above 9) shows exactly for the moderate and severe bands |
| Screening.Assessment.constructor | src/pages/Test.tsx:25-26 | the page opens with all seven answers unanswered and no result |
| Screening.Assessment.Select | src/pages/Test.tsx:28-32 | records one answer; every other answer and the result are unchanged |
| Screening.Assessment.Reset | src/pages/Test.tsx:59-62 | all answers unanswered again, no result |
| Screening.Assessment.CalculateResult | src/pages/Test.tsx:34-57 | with an unanswered question or no signed-in user, nothing changes; otherwise a result scored 0 to 21 with its band is appended to that user's results only, and shown |
| Mindfulness.ShippedExercisesWellFormed | src/pages/Mindfulness.tsx:5-27 | the three shipped exercises have positive durations and steps |
| Mindfulness.NatToString | src/pages/Mindfulness.tsx:71 | `${n}`: decimal digits that read back as `n`, with no leading zero |
| Mindfulness.PadTwo | src/pages/Mindfulness.tsx:71 | the seconds below 10 get a leading "0": always two digits that read back as the number |
| Mindfulness.FormatTime | src/pages/Mindfulness.tsx:68-72 | `m:ss`: the digits before the colon read back as the minutes, with no leading zero; the two after it as the seconds, below 60; together they give back the input |
| Mindfulness.StepIndex | src/pages/Mindfulness.tsx:75-82 | the step index is in range, and the elapsed time lies in that step's share of the duration (or the step is the last one) |
| Mindfulness.FloorOfQuotient | src/pages/Mindfulness.tsx:79-80 | `floor(elapsed / (total / steps))` in exact arithmetic is the integer quotient `elapsed * steps / total` |
| Mindfulness.StepIndexEnds | src/pages/Mindfulness.tsx:75-82 | the first step shows at the start and the last one when the time is up |
| Mindfulness.StepIndexMonotone | src/pages/Mindfulness.tsx:75-82 | as time runs down, the step shown never goes back |
| Mindfulness.BreathingTimer.constructor | src/pages/Mindfulness.tsx:30-33 | no exercise, no time, paused, not completed |
| Mindfulness.BreathingTimer.StartExercise | src/pages/Mindfulness.tsx:48-53 | the full duration on the clock, running, not completed |
| Mindfulness.BreathingTimer.ToggleTimer | src/pages/Mindfulness.tsx:55-57 | flips running/paused and nothing else |
| Mindfulness.BreathingTimer.ResetTimer | src/pages/Mindfulness.tsx:59-65 | with an exercise: full duration, paused, not completed; without one: no change |
| Mindfulness.BreathingTimer.LeaveExercise | src/pages/Mindfulness.tsx:112-117 | the exercise is closed; the countdown fields are left as they were |
| Mindfulness.BreathingTimer.Tick | src/pages/Mindfulness.tsx:35-46 | running with time left: one second less; running at zero: stops and is completed; paused: unchanged; time never goes negative and completed implies zero |
| Mindfulness.BreathingTimer.Clock | src/pages/Mindfulness.tsx:149 | the clock face is the `m:ss` reading of the time left: minutes without a leading zero, two-digit seconds below 60 |
| Mindfulness.BreathingTimer.CurrentStep | src/pages/Mindfulness.tsx:75-82 | "" with no exercise, otherwise the exercise's step at `StepIndex` of the time left |

## Left out

- JSON text is not modelled. A key holds its decoded value. `JSON.stringify`
  and its pretty-printing, and the parser's syntax, are outside the model.
  Unparsable text and a parse result that is not an object are the two
  failure values of `ParsedBackup`.
- Ill-typed stored or restored data is not modelled: a backup whose `users`
  is a number, a `timestamp` that is truthy but not a string, and the like.
  Every field of the model has its declared type. A stored value that fails
  to parse makes `get` throw; the model has no such state, so reading an
  unwritten key (`null`) is the only "missing" case.
- Storage quota errors, other tabs writing the same keys, and the error log
  in `restoreBackup` are outside the model.
- `crypto.randomUUID()` and `new Date().toISOString()` are parameters. The
  model does not assume fresh ids are unique. `Login` proves its in-place
  update only when ids are unique, and states what happens to the first user
  with a duplicated id otherwise.
- Sentiment: `toLowerCase`, `toUpperCase` and `trim` are modelled on ASCII
  letters and ASCII white space only. Unicode case mapping and Unicode white
  space are left out.
- Sentiment: the count map is modelled as keys in insertion order. JavaScript
  lists integer-like keys (such as "7") first, in numeric order. Such labels
  are not modelled, and nor are labels that clash with `Object.prototype`
  members.
- `analyzeSentiment` (src/services/sentiment.ts:20-67), which asks a
  Hugging Face emotion model over the network, is not part of this model; its
  labels are inputs to `CollectiveMood`. The chat companion
  (`sendMessageToGemini`, src/services/gemini.ts) is not part of this model
  either, nor are the page rendering, the Profile, Journal, Chat and Auth
  pages, and navigation.
- Mindfulness: `setInterval` timing is modelled as explicit `Tick` calls, one
  per second. A stale interval after the effect re-runs is not modelled.
- Mindfulness.StepIndex: the source divides in floating point. The model
  divides exactly (`real`) and proves the floor equal to an integer quotient.
  Rounding of IEEE doubles is not modelled. `WellFormed` excludes two
  degenerate exercises, and all shipped exercises satisfy it. A zero duration
  gives a `NaN` index. No steps with a positive duration gives index -1
  (`Math.min(0, -1)`) and so an undefined step.
- Screening.Assessment.Select: the buttons only pass an option's score for an
  existing question, so `Select` requires that. Arbitrary indices, which the
  JavaScript array would grow to hold, are not modelled.
