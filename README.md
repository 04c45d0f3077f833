# quran-verse-bot: a Dafny model of the progress-and-quota state machine

The bot sends each subscriber three consecutive verses of the Quran every day. It keeps a reading cursor per subscriber and lets subscribers ask for the next three verses on demand, up to ten times a day. This project models the parts that decide what is sent, to whom, and how the stored state changes:

- **Content index** (`quran_data.dfy`, module `QuranData`): the table of 114 surahs and their verse counts, the total of 6236 verses, and the successor function on `(surah, verse)` cursors. Each verse has a place 0 .. 6235 in reading order. Advancing from (1, 1) walks through every verse in that order.
- **Subscriber store** (`database.dfy`, module `Database`): the `users` table as a map from user id to record, together with the insertion order. Subscribe, unsubscribe, progress commit and request bookkeeping are methods of the class `UserStore`. Each of them is proved equal to a function of the old table. The cadence gate, the quota gate and the allowance are read-only functions. Days are integer day numbers in the configured zone, passed in by the caller.
- **Explanation parsing and message formatting** (`openai_service.dfy`, module `OpenAiService`): the exactly-three guard, the mix of Python's `str.strip`/`str.split` that splits the answer into three sections, and the two message builders. The answer of the language model is an input.
- **Batch dispatcher and daily cycle** (`scheduler.dfy`, module `Scheduler`): the collection loop, delivery, and commit of `send_three_verses_to_user`, and the per-user loop of `send_daily_verses`. Both are methods over a `UserStore`, proved against the specification functions `Dispatch` and `DailyCycle`. The explanation service and the transport are an oracle value.
- **Command handlers** (`bot.dfy`, module `Bot`): the effect on the store of `/start`, `/stop` and `/anotherone`.

The interplay between these parts:

- The explanation step refuses any batch that does not hold exactly three verses. So every batch shorter than three fails, and the end-of-content completion notice can never be sent (`DispatchCommitsExactly`, `ShortBatchFails`).
- A reader starting at (1, 1) advances three verses per successful dispatch. After 2078 dispatches the reader is at (114, 5), and from there every dispatch fails (`ReadingStallsBeforeTheEnd`). The last two verses are never delivered to such a reader.
- The committed cursor never passes (114, 6) (`TerminalCursorStays`).
- Neither the daily cycle nor `/anotherone` consults the cadence gate (`CadenceGateIgnored`, `AnotherOneIgnoresCadence`).

Where the program's own text promises more than its code does, the model follows the code:
- The docstring of `send_daily_verses` (scheduler.py:123) says verses go only to users who have not received them today. The loop (scheduler.py:130-144) never calls `should_send_today`, so a user already served that day is served again while the quota allows (`CadenceGateIgnored`).
- The completion notice (scheduler.py:100-105) is sent only after a batch shorter than three. The guard of `generate_three_verses_explanation` (openai_service.py:99) rejects every such batch, so the notice is never sent (`ShortBatchFails`).

## Model

| member | source | states |
|---|---|---|
| QuranData.VersesPositive | quran_data.py:6-121 | every verse count in the table is positive |
| QuranData.EntryIsRow | quran_data.py:6-121 | the lookup of surah i + 1 gives the table row's number, name and verse count |
| QuranData.SurahEntry | quran_data.py:6-121 | the row of surah i + 1 has number i + 1 and a positive verse count |
| QuranData.VerseCount | quran_data.py:6-121 | every existing surah has a positive verse count |
| QuranData.GetSurahInfo | quran_data.py:124-128 | an entry exists exactly for 1 <= n <= 114; its number is n and its verse count is positive |
| QuranData.GetNextVerse | quran_data.py:131-149 | a successor exists only for an existing surah; it is in an existing surah and strictly later in lexicographic order |
| QuranData.NextVerseCases | quran_data.py:136-149 | None outside 1..114; (s, v + 1) before the surah's last verse; (s + 1, 1) at or past it for s < 114; None at or past the end of surah 114 |
| QuranData.NextAcrossSurahs | quran_data.py:145-146 | from the last verse of a surah other than the last, the successor is (s + 1, 1), valid and one place later |
| QuranData.NextOfValid | quran_data.py:131-149 | from a valid position the successor is None exactly at (114, 6); otherwise it is valid, lexicographically later and exactly one place later |
| QuranData.GetTotalVerses | quran_data.py:152-154 | the verse counts sum to 6236 |
| QuranData.ColumnSumThrough114 | quran_data.py:6-121 | the first 113 verse counts sum to 6230 and all 114 sum to 6236 |
| QuranData.PrefixIsColumnSum | quran_data.py:152-154 | the verses in surahs 1..k are the sum of the first k verse counts |
| QuranData.PrefixGrows | quran_data.py:6-121 | the verses before a surah strictly increase with the surah number |
| QuranData.LastSurahLength | quran_data.py:120 | surah 114 has six verses |
| QuranData.TerminalOrdinal | quran_data.py:120 | (114, 6) is valid and has place 6235, after the 6230 verses of surahs 1..113 |
| QuranData.PlaceWithinSurah | quran_data.py:131-149 | a valid position's place lies within its surah's range of places |
| QuranData.OrdinalRange | quran_data.py:131-149 | every valid position has a place in 0..6235 |
| QuranData.OrdinalMonotone | quran_data.py:131-149 | on valid positions, lexicographic order is the order of places, and the place determines the position |
| QuranData.WalkFromStart | quran_data.py:131-149 | k < 6236 advances from (1, 1) reach the valid position at place k |
| QuranData.WalkVisitsEveryVerse | quran_data.py:131-149 | every valid position is reached from (1, 1) after as many advances as its place |
| QuranData.WalkLength | quran_data.py:131-154 | exactly 6235 advances lead from (1, 1) to (114, 6); the next one gives None |
| Database.NewRecord | database.py:83-92 | a fresh row is active at (1, 1) with no send day, zero requests and no request day |
| Database.RecordRequest | database.py:358-388 | the request day becomes today; the count restarts at 1 on a new day and otherwise grows by one; no other field changes |
| Database.GetUserProgress | database.py:119-136 | a cursor is returned exactly for an active row, and it is that row's stored cursor |
| Database.ShouldSendToday | database.py:212-276 | the cadence gate opens only for an active row; ShouldSendCases gives every case |
| Database.CanRequestVerses | database.py:279-334 | the quota gate opens only for an active row; CanRequestCases gives every case |
| Database.GetRequestsRemaining | database.py:403-456 | the allowance lies in 0..max for max >= 0; RemainingBounds gives every case |
| Database.AddUserTable | database.py:59-96 | the id is added to the table, its row is active with the new chat id, and no other row changes; AddUserInserts and AddUserReactivates give the two cases |
| Database.DeactivateTable | database.py:99-116 | the set of ids is kept, the row's active flag is cleared, and no other row changes |
| Database.UpdateProgressTable | database.py:139-160 | the set of ids is kept, the row gets the new cursor and send day, and no other row changes |
| Database.IncrementTable | database.py:337-400 | the set of ids is kept, the row's request day becomes today, and no other row changes; IncrementEffects gives the count |
| Database.FetchActive | database.py:127-136 | a row is found exactly when it exists and is active |
| Database.ActiveUsers | database.py:163-182 | the listing has at most one row per inserted id |
| Database.IdsOf | database.py:163-182 | the ids of a listing, position by position |
| Database.UserStore.constructor | database.py:24-37 | an empty table with an empty insertion order |
| Database.UserStore.AddUser | database.py:59-96 | true exactly for a new id, which is appended to the insertion order; the table becomes AddUserTable of the old one |
| Database.UserStore.DeactivateUser | database.py:99-116 | true exactly when the row exists; the table becomes DeactivateTable of the old one |
| Database.UserStore.UpdateUserProgress | database.py:139-160 | true exactly when the row exists; the table becomes UpdateProgressTable of the old one |
| Database.UserStore.IncrementRequestCount | database.py:337-400 | true exactly when the row exists; the table becomes IncrementTable of the old one |
| Database.AddUserInserts | database.py:83-92 | a new id adds one active row at (1, 1) with zero requests and no history, and no other row changes |
| Database.AddUserReactivates | database.py:72-80 | an existing id keeps its cursor and quota fields and only becomes active with the new chat id; its progress is then readable |
| Database.DeactivateEffects | database.py:99-136 | unsubscribing only clears the active flag; afterwards there is no progress, and the user has no cadence, quota or allowance |
| Database.StopThenStartResumes | database.py:72-112 | /stop followed by /start gives back the same cursor and quota history |
| Database.UpdateProgressEffects | database.py:145-156 | a commit sets the cursor and the send day, whether or not the row is active. The cadence gate then refuses for that day and, on a later day, allows exactly when the row is active |
| Database.IncrementEffects | database.py:358-388 | the request day becomes today; the count is 1 on a new day and one more otherwise; active, chat id, cursor and send day are kept; an unknown id changes nothing |
| Database.ShouldSendCases | database.py:212-276 | false for unknown or inactive rows, true with no send day, and otherwise whether the send day is before today |
| Database.CanRequestCases | database.py:279-334 | false for unknown or inactive rows, true on a new request day, and otherwise whether the count (null as 0) is under the maximum |
| Database.RemainingBounds | database.py:403-456 | the allowance lies in 0..max: 0 for unknown or inactive rows, max on a new day, and otherwise max minus the count, floored at 0 |
| Database.CanRequestIffRemaining | database.py:426-451 | with max >= 1 the quota gate allows exactly when the allowance is positive |
| Database.RequestsAccumulate | database.py:358-388 | n same-day requests from a new day leave the count at n and the request day at today, with the active flag kept |
| Database.QuotaExhaustion | database.py:329-380 | after n same-day requests the quota gate allows exactly when n < max, and allows again on any later day |
| Database.ActiveUsersExact | database.py:163-182 | the listing holds exactly the active rows, each with its own chat id and cursor |
| Database.ActiveUsersOrdered | database.py:163-182 | the listed ids follow insertion order: they form a subsequence of the inserted ids |
| Database.ActiveUsersDistinct | database.py:163-182 | with unique inserted ids, the listing names each user at most once |
| OpenAiService.LeadingSpaces | openai_service.py:154 | the leading whitespace run fits in the string |
| OpenAiService.TrailingSpaces | openai_service.py:154 | the trailing whitespace run fits in the string |
| OpenAiService.LeadingSpacesRun | openai_service.py:154 | the leading run is whitespace and is followed by a character that is not |
| OpenAiService.TrailingSpacesRun | openai_service.py:154 | the trailing run is whitespace and is preceded by a character that is not |
| OpenAiService.Strip | openai_service.py:154 | the strip has no whitespace at either end; StripDropsOnlySpaces shows it is the middle of the string |
| OpenAiService.StripIsStripped | openai_service.py:154-158 | a stripped string has no whitespace at either end |
| OpenAiService.StripDropsOnlySpaces | openai_service.py:154-158 | a strip is the middle slice of the string, with only whitespace removed on each side |
| OpenAiService.StripIdempotent | openai_service.py:154-158 | stripping twice is stripping once |
| OpenAiService.StripOfStripped | openai_service.py:154-158 | a string without whitespace at its ends is its own strip |
| OpenAiService.StripEmptyIffBlank | openai_service.py:158 | a strip is empty exactly when the string is all whitespace |
| OpenAiService.Split | openai_service.py:157 | a split yields at least one piece; JoinSplit shows the pieces join back into the string |
| OpenAiService.SplitFrom | openai_service.py:157 | a split always yields at least one piece |
| OpenAiService.JoinSplit | openai_service.py:157 | joining the pieces of a split with the separator gives back the string |
| OpenAiService.SplitJoin | openai_service.py:157 | splitting a join gives back the pieces when no piece contains the separator's first character |
| OpenAiService.StripNonEmpty | openai_service.py:158 | the kept pieces are no more than the pieces, and each is non-empty with no whitespace at its ends |
| OpenAiService.StripNonEmptySnoc | openai_service.py:158 | one more piece appends its strip exactly when that is not blank |
| OpenAiService.ParseSections | openai_service.py:154-167 | the non-blank stripped pieces of the split answer are the result exactly when there are three of them; otherwise the result is the whole stripped answer alone |
| OpenAiService.GenerateThreeVersesExplanation | openai_service.py:84-171 | a result exists exactly when three verses are given and the service answered; it is the parsed answer, of length 1 or 3 |
| OpenAiService.ParseRecoversSections | openai_service.py:154-167 | an answer of three non-blank sections joined by the separator parses back into those three sections, stripped |
| OpenAiService.NatToString | openai_service.py:221 | a rendered number is decimal digits with no leading zero |
| OpenAiService.IntToStringRoundTrip | openai_service.py:221 | reading back a rendered number gives the number |
| OpenAiService.VerseLines | openai_service.py:220-223 | one reference line per verse, in input order |
| OpenAiService.VersesListLines | openai_service.py:220-223 | the verse list split on newlines gives back exactly one reference line per verse, in input order |
| OpenAiService.FormatThreeVersesMessage | openai_service.py:193-240 | the message is empty exactly when the section count is neither 1 nor 3; otherwise it starts with the header and verse list; with one section it is the fallback layout |
| OpenAiService.ThreeSectionLayout | openai_service.py:218-240 | with three sections the message holds the three sections in order, each right after its label, ending with the context |
| OpenAiService.FormatVerseMessage | openai_service.py:174-190 | the message starts with the verse's reference line and ends with the explanation |
| Scheduler.CollectBatch | scheduler.py:46-70 | the collection loop run for n steps collects at most n descriptors; CollectBatchShape, CollectFromValid and CollectInReadingOrder give the rest |
| Scheduler.CollectBatchShape | scheduler.py:46-70 | the batch has at most three descriptors, and is empty exactly when the starting surah does not exist. It starts at the cursor, each descriptor carries its surah's name, each later one is the successor of the one before, and the cursor ends on the last one's successor, or on the last one when there is none |
| Scheduler.CollectFromValid | scheduler.py:46-70 | from a valid cursor the batch holds min(n, verses left) descriptors, and the cursor ends n places on, or on (114, 6) |
| Scheduler.CollectInReadingOrder | scheduler.py:46-70 | from a valid cursor the batch lists valid positions at consecutive places |
| Scheduler.CollectVerses | scheduler.py:46-70 | the loop yields exactly the batch and cursor of the collection specification |
| Scheduler.Dispatch | scheduler.py:21-116 | a failure returns the starting cursor; a success returns and commits the collection's cursor; a commit needs an answer and a delivered main send |
| Scheduler.DispatchCommitsExactly | scheduler.py:73-112 | a cursor is committed exactly when three verses were collected, the service answered and the main send was delivered. The dispatch succeeds exactly when it commits, so the completion notice never fails a dispatch; every failure returns the starting cursor with no commit |
| Scheduler.ShortBatchFails | scheduler.py:73-106 | a batch shorter than three always fails and commits nothing |
| Scheduler.DispatchFromValid | scheduler.py:63-108 | from a valid cursor a dispatch succeeds exactly when three verses remain, the service answered and the main send was delivered; it moves the cursor three places, or onto (114, 6) |
| Scheduler.TerminalCursorStays | scheduler.py:63-97 | a success from (114, 4) lands on (114, 6), and every dispatch from (114, 6) fails |
| Scheduler.DispatchExamples | scheduler.py:63-108 | with a working service and transport, (1, 1) moves to (1, 4) and (1, 6) moves to (2, 2) |
| Scheduler.ReadingFromStart | scheduler.py:97-108 | from (1, 1), the k-th cursor of successful dispatches is the verse at place 3k |
| Scheduler.ReadingStallsBeforeTheEnd | scheduler.py:73-108 | from (1, 1) the cursor reaches (114, 5) after 2078 dispatches and stays there, since every later dispatch fails |
| Scheduler.SendThreeVersesToUser | scheduler.py:21-116 | the reply and the returned cursor are those Dispatch gives, and the table becomes the commit of Dispatch |
| Scheduler.DailyStep | scheduler.py:130-148 | a daily step keeps the table's set of users |
| Scheduler.DailyCycle | scheduler.py:127-148 | the daily cycle keeps the table's set of users |
| Scheduler.SendDailyVerses | scheduler.py:119-150 | the table becomes the daily cycle over the snapshot of active users taken before the loop |
| Scheduler.DailyStepFrame | scheduler.py:130-148 | one step changes only its own user's row |
| Scheduler.DailyStepOutcome | scheduler.py:133-144 | a user's row is unchanged when the quota gate refuses or the dispatch fails; otherwise it gets the new cursor, the send day and exactly one recorded request |
| Scheduler.DailyStepLocal | scheduler.py:130-148 | a step's effect on its user depends only on that user's row |
| Scheduler.DailyCycleUntouched | scheduler.py:127-130 | users outside the snapshot are unchanged |
| Scheduler.DailyCycleIsolated | scheduler.py:130-148 | with distinct ids, each user's final row is what their own step makes of their row before the cycle |
| Scheduler.CadenceGateIgnored | scheduler.py:127-144 | a user already sent verses today, whom the cadence gate refuses, is still dispatched again when the quota allows |
| Bot.AnotherOne | bot.py:76-131 | /anotherone keeps the set of ids and refuses as not subscribed exactly the users without an active row; AnotherOneOutcomes gives the other outcomes and the new table |
| Bot.AnotherOneOutcomes | bot.py:76-131 | not subscribed exactly without an active row; limit reached exactly when the quota gate refuses; sent exactly when the dispatch succeeds. Refusals and failures change nothing; a send commits the cursor and records exactly one request |
| Bot.AnotherOneIgnoresCadence | bot.py:85-125 | the outcome does not depend on the day of the last send |
| Bot.AnotherOneAfterStart | bot.py:119-126 | a newly subscribed user's first answered /anotherone is sent, moves to (1, 4) and counts one request |
| Bot.StartCommand | bot.py:17-55 | the table becomes AddUserTable of the old one; a returning user's reply reads the stored cursor |
| Bot.StopCommand | bot.py:58-73 | the table becomes DeactivateTable of the old one; the answer says whether a row existed |
| Bot.AnotherOneCommand | bot.py:76-131 | the outcome and the new table are those of AnotherOne on the old table |

## Left out

- SQLite plumbing is not modelled: connections, SQL text, `init_db` and its schema migration. The table is a map plus the insertion order that the autoincrement `id` column gives.
- Database errors are not modelled: the try/except wrappers that turn them into `False` answers.
- `created_at` is not modelled: no core operation reads it; only `get_user_stats` does.
- Time zones and the wall clock are left out: `pytz` and `datetime.now`. Days are integer day numbers in the configured zone, passed in by the caller.
  - The stored send time is naive and is later localised as if it were in the target zone. That is a time-of-day concern outside a day-number model.
- The OpenAI client, its lazy global `_client`, the prompts and the API call are left out. The service is an oracle answer: a response text, or None for any failure, including an exception while parsing.
- `generate_verse_explanation` (the single-verse request) is left out: no core path calls it.
- Telegram `send_message` and `reply_text` are left out. Each send is an oracle outcome: delivered, a `TelegramError`, or another exception.
- Reply texts and log messages are left out. Emoji in message constants are written with their intended code points.
- The unused reset-time computation in `/anotherone` is left out: it only feeds reply text.
- The `/start` reply's surah name lookup is left out: it only feeds reply text.
- APScheduler and cron setup, the async event loop, `main.py` and `setup_bot` are left out. `get_user_stats` is left out: no core path calls it.
- Concurrency between the scheduled and on-demand paths is left out: each call is modelled as atomic and sequential.
- Scheduler.SendDailyVerses: exceptions escaping a user's step are not modelled. Apart from database errors, which are left out above, every exception the code can raise there is caught inside the called functions. The per-user `except` (scheduler.py:146-148) only continues the loop.
- OpenAiService.ParseRecoversSections: proved only for sections without a '-' character and for an answer with none of Python's whitespace characters at its ends. This is narrower than every answer the separator splits correctly.
