# DigiPiggy savings logic in Dafny

DigiPiggy is a browser app for saving towards goals. A goal's target is split into
"bits": small amounts due on a schedule and paid one by one over UPI. Paying a bit
records a transaction, moves the goal's progress on, and may celebrate a milestone
or unlock an achievement. Around the goal sit a daily savings streak, time-limited
challenges, an evolving piggy companion, smart reminders and tips, a savings coach,
analytics, a forecast, a "time traveler" simulator, a history page, account forms,
a learning hub with quizzes, a market and a wardrobe.

This project models that logic and proves what it promises:

- the plan generator's split of the target into bits;
- the store's state changes: saving, paying, deleting, accounts and challenges;
- the streak and its walks over days;
- the tables with their look-ups and fallbacks;
- the derived numbers the pages show, and the page handlers that change state.

Some of the source changes state step by step. That code is modelled in the same
form:

- the store, the payment modal, the forms, the calendar view, the round-up
  tracker, the learning hub, the wallet and the avatar are classes with
  `modifies` clauses;
- the plan generator, the streak, the coach's day tallies, the reminders, the
  forecast, the simulator, the trends and the tip list are methods with loops;
- each of these is proved against a specification function.

The rest is functions and lemmas.

Shared modules:

- `Common`: an option type and time arithmetic on millisecond timestamps. Days
  run from 1970-01-01 in local time, and 1970-01-01 was a Thursday. `Common` also
  holds JavaScript's truncating division and remainder and `Math.round`.
- `Text`: ASCII case mapping, trimming, substring search, decimal printing and
  parsing, split and join.
- `Lists`: filter, find, sum and subsequence.
- `Sorting`: a stable insertion sort by an integer key. It is proved sorted, a
  permutation and stable. It stands for `Array.prototype.sort` with a numeric
  comparator.
- `Domain`: the records of the store.

Calendar facts come in as parameters:

- the civil date of an instant (`dateOf`);
- adding whole months to an instant (`addMonths`).


## Model

| member | source | states |
|---|---|---|
| Categories.CategoryIdsDistinct | src/utils/categories.js:2-66 | the table has nine categories with distinct ids, and the last one is `other` |
| Categories.CategoryByIdSpec | src/utils/categories.js:68-70 | the look-up always gives a table entry: the entry with the id when there is one, and otherwise the last entry, `other` |
| Characters.CharacterIdsDistinct | src/data/characters.js:1-30 | four characters with distinct ids; the first one is `classic` |
| Characters.CharacterByIdSpec | src/data/characters.js:32 | the look-up gives the character with the id, and otherwise the first character |
| Items.ItemTableWellFormed | src/data/items.js:1-22 | thirteen items with distinct ids; each one is worn in one of the four slots and has one of the four rarities |
| Items.ItemByIdSpec | src/data/items.js:24 | the look-up finds nothing exactly when no item has the id, and otherwise finds the item with it |
| Items.RandomItem | src/data/items.js:26 | for a random draw in [0, 1) the item picked is an entry of the table |
| Lessons.LessonTableWellFormed | src/utils/lessons.js:4-303 | eight lessons with distinct ids; each quiz has a question, and every right answer is the index of one of its options |
| Lessons.LessonByIdSpec | src/utils/lessons.js:305-307 | the look-up finds nothing exactly when no lesson has the id, and otherwise finds the lesson with it |
| Lessons.LessonsByCategorySpec | src/utils/lessons.js:309-311 | exactly the lessons of the category, in table order |
| Lessons.LessonsByDifficultySpec | src/utils/lessons.js:313-315 | exactly the lessons of the difficulty, in table order |
| Evolution.LevelsAscending | src/utils/evolutionLevels.js:2-48 | five levels; the thresholds start at 0 and rise strictly; the ids are distinct |
| Evolution.CurrentLevelSpec | src/utils/evolutionLevels.js:50-54 | the current level is the highest one whose threshold the total reaches; a negative total falls back to the first level |
| Evolution.LevelMonotone | src/utils/evolutionLevels.js:50-54 | the level never drops as the total grows |
| Evolution.NextLevelSpec | src/utils/evolutionLevels.js:56-65 | there is a next level exactly when the total is below the last threshold; it is the level right after the current one |
| Evolution.EvolutionProgress | src/utils/evolutionLevels.js:67-77 | the progress lies in [0, 100]; it is 100 exactly at the last level, and 0 for a total of 0 or less |
| Challenges.CatalogueWellFormed | src/utils/challenges.js:4-149 | twelve challenges with distinct ids; each one has a positive duration, target and reward |
| Challenges.ChallengeByIdSpec | src/utils/challenges.js:158-160 | the look-up finds nothing exactly when no challenge has the id, and otherwise finds the challenge with it |
| Challenges.ChallengesByDifficultySpec | src/utils/challenges.js:162-164 | exactly the challenges of the difficulty, in catalogue order; every difficulty has at least one |
| Challenges.ProgressIsSumOfContributions | src/utils/challenges.js:167-194 | progress adds up what each transaction contributes: one save or its amount when it falls in the window (both ends included), nothing otherwise |
| Challenges.ProgressOrderFree | src/utils/challenges.js:167-194 | progress does not depend on the order of the transactions |
| Challenges.ProgressAppend | src/utils/challenges.js:167-194 | a new transaction adds exactly its own contribution |
| Challenges.CountedProgressBound | src/utils/challenges.js:178-189 | for the five counting challenges, progress lies between 0 and the number of transactions |
| Challenges.AmountProgress | src/utils/challenges.js:190-193 | every other challenge sums the amounts of the transactions in the window |
| Coach.OrderInsightsSpec | src/utils/aiCoach.js:74-77 | the insights are a permutation of the input ordered high, medium, low; within a priority they keep their order |
| Coach.CoachStreak | src/utils/aiCoach.js:131-156 | no transactions give 0; otherwise the streak is the day walk over the transactions sorted newest first, starting today |
| Coach.CoachWalkFrom | src/utils/aiCoach.js:141-153 | the loop computes the walk: a transaction on the running day counts and moves the day back, a gap of more than a day stops the walk, and anything else is skipped |
| Coach.CoachWalkNeedsStart | src/utils/aiCoach.js:145-149 | a positive walk needs a transaction on the day it starts from |
| Coach.CoachWalkIsRun | src/utils/aiCoach.js:141-153 | over days sorted newest first, the walk counts the run of consecutive days back from the start day, each of which has a transaction |
| Coach.CoachStreakNeedsToday | src/utils/aiCoach.js:131-156 | the coach's streak is at most the number of transactions, and it is positive only with a transaction dated today |
| Coach.ShortHistoryCoefficient | src/utils/aiCoach.js:80-81 | the one branch modelled: fewer than three transactions answer coefficient 1, and only they do |
| Coach.StreakInsight | src/utils/aiCoach.js:48-59 | the streak insight appears exactly from a streak of seven days on, with low priority |
| Coach.TallyWeekdays | src/utils/aiCoach.js:159-166 | the two seven-slot tables hold, per weekday, the number and the total of the transactions on that day |
| Coach.BestSavingDay | src/utils/aiCoach.js:158-183 | the best day has the highest average, and on a tie it is the earliest such day; the confidence exists exactly for a non-empty history and lies in [0, 1]; the percentage, how far the best day's average lies above the overall mean rounded half up, exists exactly for a non-empty history with a non-zero total, and is never negative when the total is positive |
| Coach.OverallAtMostBest | src/utils/aiCoach.js:175-181 | the overall mean never exceeds the best weekday's average, because it is a weighted mean of the weekday averages |
| Reminders.BestDay | src/utils/smartReminders.js:24-25 | among the weekdays it looks at, the day with the most transactions, and on a tie the earliest one |
| Reminders.PatternSpecIff | src/utils/smartReminders.js:13-35 | there is a pattern exactly when there are at least five transactions and some weekday has three; its frequency is the largest weekday count, and the count of its day |
| Reminders.CountWeekdays | src/utils/smartReminders.js:17-21 | the map has a key exactly for each weekday that has transactions, and holds that day's count |
| Reminders.FrequencyEntries | src/utils/smartReminders.js:24 | the object's entries come out in ascending weekday order, one per weekday that has transactions |
| Reminders.SortedEntriesHead | src/utils/smartReminders.js:24-27 | with five or more transactions, the first sorted entry is the earliest weekday with the highest count |
| Reminders.AnalyzeSavingPattern | src/utils/smartReminders.js:13-35 | the method answers exactly the pattern the specification function describes |
| Reminders.CheckInactivity | src/utils/smartReminders.js:38-48 | no transactions mean inactive, with no day count (`Infinity`); otherwise the user is inactive exactly when the newest transaction is at least three full days old |
| Reminders.DueWithinWeekIff | src/utils/smartReminders.js:55-62 | a goal is listed exactly when it has a target date at least one day and less than eight days ahead |
| Reminders.DeadlineRisk | src/utils/smartReminders.js:63-71 | a listed deadline is 1 to 7 days away; it is at risk exactly when fewer than 70% of the bits are paid (counted, not weighed) and at most three days remain |
| Reminders.CheckDeadlinesSpec | src/utils/smartReminders.js:51-77 | the deadlines belong to exactly the goals due within a week, in goal order |
| Reminders.CheckStreakRisk | src/utils/smartReminders.js:80-95 | no streak means no risk; a streak with no transactions is at risk |
| Reminders.StreakRiskMeansSavedToday | src/utils/smartReminders.js:80-95 | with transactions, the risk is reported exactly when there is a streak, the newest transaction is from today and it is six in the evening or later |
| Reminders.HasTransactionOn | src/utils/smartReminders.js:116-120 | true exactly when some transaction falls on that day |
| Reminders.GenerateReminders | src/utils/smartReminders.js:98-159 | the reminders come in order: inactivity, the habitual weekday (only with no transaction today), one per deadline, and the streak risk; each one is dropped when its preference switches it off |
| Reminders.DeadlineReminders | src/utils/smartReminders.js:135-145 | one reminder per deadline, in order; an at-risk deadline gets high priority, any other medium, and each links to its goal |
| Reminders.PushDeadlineReminders | src/utils/smartReminders.js:135-145 | the loop appends the deadline reminders, or nothing when deadlines are switched off |
| Reminders.ShouldShowReminder | src/utils/smartReminders.js:162-167 | show when never shown before, otherwise once the whole cooldown has passed |
| ExportReport.SummaryGoalCounts | src/utils/exportUtils.js:46-56 | the completed count lies between 0 and the number of goals; the active count is exactly the goals not yet completed |
| ExportReport.SummaryAverage | src/utils/exportUtils.js:44-58 | the report carries the total and the count; the average is 0 with no transactions, and otherwise the total per transaction rounded half up |
| ExportReport.GoalLines | src/utils/exportUtils.js:61-66 | one line per goal, in order, carrying the goal's name, its target and the sum of its paid bits |
| ExportReport.GoalLineProgress | src/utils/exportUtils.js:65 | a goal's progress counts paid bits, not amounts; it is a percentage in [0, 100], 0 for an empty plan and 100 exactly when every bit is paid |
| ExportReport.RecentAreFirstTen | src/utils/exportUtils.js:67 | the recent transactions are the first ten, or all of them when there are fewer, in order |
| ExportReport.OrDash | src/utils/exportUtils.js:22-26 | a missing or empty text becomes a dash, so a field is never empty |
| ExportReport.CsvRows | src/utils/exportUtils.js:20-27 | one row per transaction, in order |
| ExportReport.CsvLines | src/utils/exportUtils.js:29-32 | read back line by line, the text is the header followed by exactly one row per transaction, in order, as long as no field holds a line break |
| ExportReport.CsvColumns | src/utils/exportUtils.js:19-31 | read back field by field, a row holds six columns: the date, the goal, the amount, the type, the note and the mood; the goal, note and mood columns hold a dash when the value is missing or empty and the value itself otherwise; this holds as long as no field holds a comma, since nothing is quoted |
| Domain.IntervalDays | src/context/PiggyContext.jsx:338-342 | the gap between due dates is 1, 7, 30 or 365 days, and any other frequency counts as daily |
| Domain.PaidTotalBounds | src/context/PiggyContext.jsx:489-491 | when no amount is negative, the paid total lies between 0 and the plan total, and equals the plan total once every bit is paid |
| PlanGeneration.TierFor | src/context/PiggyContext.jsx:344-350 | each tier has four rising chunk sizes, and the smallest one is the tier's positive minimum |
| PlanGeneration.TierByAverage | src/context/PiggyContext.jsx:345-350 | the minimum is 5000, 500, 100 or 50 as the average per slot is above 50000, above 5000, above 500, or not |
| PlanGeneration.TierMonotone | src/context/PiggyContext.jsx:345-350 | a larger average per slot never gets a smaller minimum |
| PlanGeneration.GeneratePlan | src/context/PiggyContext.jsx:337-398 | one bit per slot, and the amounts add up to the target; every bit is pending and unpaid, with a fresh id, an index from 1 to the slot count and a due date `index - 1` intervals on; every index occurs; a target too small for the tier gives the even split in index order, and otherwise every bit gets at least the tier minimum |
| PlanGeneration.EvenSplit | src/context/PiggyContext.jsx:353-366 | the even split: the floor of the share per slot, plus one for the first `amount mod slots` bits, due at successive intervals; it adds up to the target |
| PlanGeneration.EvenPrefixWhole | src/context/PiggyContext.jsx:354-360 | the even split's amounts add up to the target |
| PlanGeneration.Distribute | src/context/PiggyContext.jsx:368-381 | the random chunks and the final remainder add exactly what was left over to the slot amounts, and no slot drops below the tier minimum |
| PlanGeneration.BuildBits | src/context/PiggyContext.jsx:383-391 | one pending bit per slot amount, in index order; the plan total is the sum of the slot amounts |
| PlanGeneration.Shuffle | src/context/PiggyContext.jsx:392-396 | the Fisher-Yates swaps keep the same bits (a permutation), so the plan total is unchanged |
| Healer.HealFromPointwise | src/context/PiggyContext.jsx:134-151 | position by position: a bit whose id appeared earlier gets a fresh id, every other bit is left as it was, and no other field changes |
| Healer.HealGoal | src/context/PiggyContext.jsx:146-150 | a healed goal differs from the loaded one at most in its plan, which keeps its length |
| Healer.HealGoals | src/context/PiggyContext.jsx:134-151 | every loaded goal is healed, in order |
| Healer.HealKeepsCleanPlan | src/context/PiggyContext.jsx:134-151 | a plan without repeated ids comes back unchanged |
| Healer.HealedIdsDistinct | src/context/PiggyContext.jsx:134-151 | after healing, no two bits of a plan share an id, provided the fresh ids are distinct and new |
| Streaks.NewestFirst | src/context/PiggyContext.jsx:196 | the sorted copy is a permutation of the transactions, newest first |
| Streaks.CalculateStreak | src/context/PiggyContext.jsx:192-229 | the method computes the streak: 0 with no transactions, or when the latest one is more than a day old; otherwise the run of consecutive days, back from the latest transaction's day |
| Streaks.WalkFrom | src/context/PiggyContext.jsx:209-226 | the loop computes the walk: a transaction on the running day counts and moves the day back, one a day earlier is skipped, and anything else stops the walk |
| Streaks.WalkIsPrefixRun | src/context/PiggyContext.jsx:209-226 | over days sorted newest first, the walk counts exactly the run of consecutive days at the head |
| Streaks.StreakPositiveIff | src/context/PiggyContext.jsx:192-229 | the streak is positive exactly when some transaction is dated no earlier than yesterday |
| Streaks.StreakAtMostDistinctDays | src/context/PiggyContext.jsx:192-229 | the streak never exceeds the number of distinct days with transactions |
| Streaks.SameDayEndsStreak | src/context/PiggyContext.jsx:212-225 | a second transaction on the latest transaction's day ends the walk, so the streak is at most 1 |
| Domain.GoalEndTime | src/components/GoalDetailView.jsx:27-37 | a goal's time runs out at its creation plus its duration; a missing value counts as 0 and a missing unit as months, and an unknown unit adds nothing |
| Sorting.SortByIsSorted | src/utils/aiCoach.js:74-77 | the sort puts the elements in ascending order of their key |
| Sorting.SortByPermutes | src/utils/aiCoach.js:74-77 | the sort only rearranges: each element appears as often as before |
| Sorting.SortByStable | src/utils/aiCoach.js:74-77 | elements with equal keys keep their relative order |
| StoreRules.CompletedGoals | src/context/PiggyContext.jsx:286-291 | the number of goals whose paid total reaches their target, at most the number of goals |
| StoreRules.PaymentRules | src/context/PiggyContext.jsx:255-296 | a payment asks, without repeats, for exactly the achievements whose rule holds, and never for `beginners_luck` |
| StoreRules.PaymentFacts | src/context/PiggyContext.jsx:256-294 | the rules look at the count and the streak one past their values before the payment, at the amount, and at the progress that counts the bit being paid; the third-goal rule needs two goals completed before |
| StoreRules.PaymentTriggerRules | src/context/PiggyContext.jsx:255-272 | `first_drop` always; `high_five` and `on_a_roll` from 4 and 9 earlier transactions; `big_spender` above 1000; the three streak rules from an earlier streak of 6, 29 and 99 |
| StoreRules.PaymentGoalRules | src/context/PiggyContext.jsx:274-295 | `halfway_hero` at 50% of the target, counting the bit being paid; `goal_crusher` at 100%; `piggy_master` at 100% with two goals completed before |
| StoreRules.CandidatesDistinct | src/context/PiggyContext.jsx:251-296 | every trigger asks for each achievement at most once |
| StoreRules.UnlocksCount | src/context/PiggyContext.jsx:236-249 | each newly unlocked achievement is appended exactly twice (two appends in `unlock`); one already unlocked, or not asked for, is not appended |
| StoreRules.FirstMilestone | src/context/PiggyContext.jsx:495-499 | the milestone found is one of the list; there is none exactly when no milestone is both reached and not yet triggered |
| StoreRules.NextMilestoneIsSmallest | src/context/PiggyContext.jsx:494-499 | a payment celebrates the smallest of 25, 50, 75 and 100 percent that is reached and not yet triggered for the goal |
| StoreRules.MarkPaid | src/context/PiggyContext.jsx:463-465 | every bit with the id becomes paid, at the time and by the payer given; every other bit is unchanged |
| StoreRules.MarkPaidRaisesTotal | src/context/PiggyContext.jsx:489-491 | paying the only bit with the id, while it is pending, raises the paid total by its amount |
| StoreRules.FindBit | src/context/PiggyContext.jsx:475 | the bit found is the first with the id; nothing is found exactly when no bit has it |
| StoreRules.FindGoal | src/context/PiggyContext.jsx:117 | the goal found is the first with the id; nothing is found exactly when no goal has it |
| StoreRules.ReplaceGoal | src/context/PiggyContext.jsx:187 | same length; each goal with the new record's id is replaced, and every other goal is kept |
| StoreRules.ReplaceThenFind | src/context/PiggyContext.jsx:186-189 | after saving, looking the id up finds the new record if the id was there before, and nothing otherwise |
| StoreRules.RemoveGoal | src/context/PiggyContext.jsx:529 | exactly the goals with another id are kept |
| StoreRules.RemoveAccount | src/context/PiggyContext.jsx:447 | exactly the accounts with another id are kept |
| StoreRules.RemoveGoalFirst | src/context/PiggyContext.jsx:529-540 | the first goal left is the first one with another id |
| StoreRules.Progressed | src/context/PiggyContext.jsx:612-625 | the challenge gains the amount, and one to the count when asked; nothing else changes except the status and the completion time; a target of 0 counts as unset |
| StoreRules.ProgressedCompletes | src/context/PiggyContext.jsx:618-625 | it completes, at that time, exactly when a set (non-zero) amount target or a set (non-zero) count target is reached; otherwise the status stays |
| StoreRules.ProgressMonotone | src/context/PiggyContext.jsx:612-625 | with a non-negative amount, progress never goes back and a reached target stays completed |
| StoreRules.FindChallenge | src/context/PiggyContext.jsx:609 | the challenge found is the first with the id; nothing is found exactly when none has it |
| StoreRules.ReplaceChallenge | src/context/PiggyContext.jsx:650 | same length; the challenge with the id is replaced, every other one kept |
| StoreRules.Expired | src/context/PiggyContext.jsx:683-687 | exactly the active challenges whose end lies before now |
| StoreRules.Running | src/context/PiggyContext.jsx:662-670 | exactly the active challenges whose window holds the date, both ends included |
| StoreRules.ActiveOnes | src/context/PiggyContext.jsx:662 | exactly the active challenges |
| StoreRules.ExpiryFailsOnlyExpired | src/context/PiggyContext.jsx:680-694 | the expiry check fails exactly the active challenges past their end and changes nothing else |
| StoreRules.TxEffectProgressesRunning | src/context/PiggyContext.jsx:655-677 | a new transaction progresses exactly the active challenges whose window holds its date, by its amount and one count, and changes nothing else |
| Store.ActiveIn | src/context/PiggyContext.jsx:117 | the active goal is a stored goal with the active id, and there is none exactly when no goal has that id |
| Store.NewGoal | src/context/PiggyContext.jsx:308-320 | the new goal carries the id, target, slot count, plan and creation time given; an empty name becomes `Goal <n>`, with `n` one past the number of goals |
| Store.PaymentRecord | src/context/PiggyContext.jsx:477-484 | the transaction has the bit's amount, type `debit`, the payer's account and the current time as date and id |
| Store.NewChallenge | src/context/PiggyContext.jsx:581-600 | a new challenge is active with no progress; its id and start are now, and it ends the template's number of days later; it keeps the template's title and reward, and a target the template leaves missing or 0 is stored as no target, any other target as it is |
| Store.PiggyStore.Load | src/context/PiggyContext.jsx:121-178 | the loaded state: the stored goals passed through the healer, and the stored active id or else the first goal's |
| Store.PiggyStore.SaveGoal | src/context/PiggyContext.jsx:186-189 | the goal with the id is replaced in place, and nothing else changes |
| Store.PiggyStore.RefreshStreak | src/context/PiggyContext.jsx:181-183 | only the streak changes, to the streak of the transactions |
| Store.PiggyStore.CheckAchievements | src/context/PiggyContext.jsx:232-297 | the unlocked list gains, twice each, the achievements the trigger asks for that were not unlocked before; nothing else changes |
| Store.PiggyStore.CreateGoal | src/context/PiggyContext.jsx:303-334 | the new goal, with a generated plan that adds up to the target, is appended and made active; editing ends and `beginners_luck` is asked for |
| Store.PiggyStore.UpdateGoal | src/context/PiggyContext.jsx:400-428 | with no active goal nothing happens; otherwise the plan is regenerated only when the amount, the slot count or the frequency changed, an empty name keeps the old one, the goal is replaced in place and editing ends |
| Store.PiggyStore.SwitchGoal | src/context/PiggyContext.jsx:430-433 | only the active id changes |
| Store.PiggyStore.AddAccount | src/context/PiggyContext.jsx:435-444 | the state after adding the account |
| Store.PiggyStore.DeleteAccount | src/context/PiggyContext.jsx:446-453 | the state after deleting the account |
| Store.PiggyStore.SetGlobalDefaultAccount | src/context/PiggyContext.jsx:455-458 | only the default account changes |
| Store.PiggyStore.MakePayment | src/context/PiggyContext.jsx:460-524 | the state after the payment |
| Store.PiggyStore.RecordPayment | src/context/PiggyContext.jsx:475-523 | the new transaction, then the first milestone reached and not yet celebrated, then the achievements |
| Store.PiggyStore.DeleteGoal | src/context/PiggyContext.jsx:526-545 | the state after deleting the active goal |
| Store.PiggyStore.CloseMilestone | src/context/PiggyContext.jsx:547-549 | only the celebration is cleared |
| Store.PiggyStore.CreateChallenge | src/context/PiggyContext.jsx:581-606 | the challenge `NewChallenge` builds from the template is appended, nothing else in the store changes, and its id (the time of creation) is returned |
| Store.PiggyStore.UpdateChallengeProgress | src/context/PiggyContext.jsx:608-652 | the challenge with the id, if active in the list the closure saw, is progressed and replaced in place; no achievement is unlocked |
| Store.PiggyStore.OnTransactionAdded | src/context/PiggyContext.jsx:655-677 | with no transactions nothing changes; otherwise every active challenge whose window holds the newest transaction's date is progressed by its amount and one count |
| Store.PiggyStore.ExpireChallenges | src/context/PiggyContext.jsx:680-700 | every active challenge past its end is marked failed, in place |
| Store.PaymentTouchesOnlyTheBit | src/context/PiggyContext.jsx:460-468 | with no active goal a payment changes nothing; otherwise it changes only the active goal, and in it only the bits with the id, which become paid |
| Store.PaymentFrame | src/context/PiggyContext.jsx:460-524 | a payment leaves the accounts, the challenges, the default account and the active id alone |
| Store.PaymentRecordsOneTransaction | src/context/PiggyContext.jsx:475-486 | paying a known bit appends exactly one `debit` transaction of its amount, so the total grows by that amount; an unknown id records nothing, celebrates nothing and unlocks nothing |
| Store.PaymentCelebratesSmallestMilestone | src/context/PiggyContext.jsx:488-519 | at most one milestone fires per payment, only for the active goal: the smallest one that the paid total now reaches and that was not celebrated before |
| Store.PaymentRecordPart | src/context/PiggyContext.jsx:475-523 | the transaction, milestone and mood changes of a payment are those of the record step; an unknown bit leaves them alone |
| Store.PaymentUnlocksCount | src/context/PiggyContext.jsx:232-297 | a payment appends an achievement twice when its rule fires and it was not unlocked before, and otherwise leaves its count alone |
| Store.DeleteGoalActivatesFirstRemaining | src/context/PiggyContext.jsx:526-545 | no goal with the deleted id is left and its milestones are forgotten; the first remaining goal becomes active, or none when every goal had that id; with no active goal nothing changes |
| Store.AddAccountDefault | src/context/PiggyContext.jsx:435-444 | the account is appended; it becomes the default exactly when it is flagged so or is the first account, and otherwise the default stays |
| Store.DeleteAccountDefault | src/context/PiggyContext.jsx:446-453 | exactly the accounts with the id are removed; the default is cleared exactly when it was that account |
| Store.LoadKeepsCleanGoals | src/context/PiggyContext.jsx:133-158 | a stored goal whose plan has no repeated bit id is loaded exactly as stored |
| GoalForm.UnitDays | src/components/GoalForm.jsx:45-51 | a duration unit is 1, 7, 30 or 365 days; an unknown unit counts as one day |
| GoalForm.EstimatedSlots | src/components/GoalForm.jsx:36-65 | the estimate is never negative, and an empty duration text gives 0 |
| GoalForm.EstimatedSlotsSpec | src/components/GoalForm.jsx:42-63 | for a duration that reads as v, the estimate is the least number of intervals covering v units in days, and 0 for a duration that is not positive |
| GoalForm.SlotsPositiveIff | src/components/GoalForm.jsx:36-63 | there is at least one deposit exactly when the duration text reads as a positive number |
| GoalForm.EstimateExamples | src/components/GoalForm.jsx:45-62 | worked examples, not a general property: one month of daily deposits is 30 slots and one year of monthly deposits is 13 |
| GoalForm.GoalFormState.constructor | src/components/GoalForm.jsx:11-16 | a fresh form holds one month of daily deposits, no name or amount, and an estimate of 0 |
| GoalForm.GoalFormState.RecomputeEstimate | src/components/GoalForm.jsx:36-65 | the effect stores the estimate for the current duration and frequency and changes no input |
| GoalForm.GoalFormState.Submit | src/components/GoalForm.jsx:67-78 | the form is refused exactly when the amount is empty or there are no deposits; otherwise the create request carries the trimmed name, the amount and a positive slot count |
| PaymentModal.LinkIsJoin | src/components/PlanList.jsx:36-37 | the payment link is the base and the five parameters joined by '&', joined by '?' |
| PaymentModal.UpiLinkFields | src/components/PlanList.jsx:36-37 | split at '?' and '&', the link reads back as its base and its five parameters, provided the address holds neither separator |
| PaymentModal.PayerOf | src/components/PlanList.jsx:45 | the payment is manual exactly when no account (or the account id 0) is selected |
| PaymentModal.TicketCounter | src/components/PlanList.jsx:182 | the counter shows at most as many paid tickets as there are bits, over the number of bits |
| PaymentModal.TicketCounterCountsPaid | src/components/PlanList.jsx:182 | the counter's paid figure is the number of paid bits of the plan |
| PaymentModal.Modal.constructor | src/components/PlanList.jsx:12-15 | the modal starts closed, with no account chosen, at its first step |
| PaymentModal.Modal.TileClick | src/components/PlanList.jsx:17-22 | a paid tile changes nothing; another opens the modal on that bit at the first step and selects the first account when there is one |
| PaymentModal.Modal.CloseModal | src/components/PlanList.jsx:24-27 | closing forgets the bit and returns to the first step, keeping the chosen account |
| PaymentModal.Modal.LaunchApp | src/components/PlanList.jsx:29-41 | without an account matching the selection, or with an empty UPI id, nothing is launched; otherwise the link for that account and the bit's amount is opened and the modal asks for confirmation |
| PaymentModal.Modal.Verify | src/components/PlanList.jsx:43-56 | "paid" asks the store to pay the selected bit from the chosen account (or manually) and closes the modal; "not paid" returns to the first step with the bit still selected |
| GoalViews.ProgressSpec | src/components/GoalDetailView.jsx:24 | the progress is a number unless the target is 0 and nothing positive was saved; for a positive target it is capped at 100, reaches 100 exactly when the target is met, and below that is the saved share in percent |
| GoalViews.RemainingSpec | src/components/GoalDetailView.jsx:20-25 | what remains plus the paid total is the target; with nothing paid the whole target remains; the progress shows 100 exactly when nothing remains |
| GoalViews.NothingPaid | src/components/GoalDetailView.jsx:20-23 | a plan with no paid bit has saved nothing |
| GoalViews.DashboardProgress | src/components/Dashboard.jsx:16-20 | the dashboard shows 100 exactly when the paid bits reach the target, in particular once every bit of a plan covering the target is paid |
| GoalViews.LevelBadgeRange | src/components/GoalDetailView.jsx:121 | over progress 0 to 100 the level badge reads 1 to 6, never drops as progress grows, and reads 6 only at 100 |
| GoalViews.DetailTimeLeftSpec | src/components/GoalDetailView.jsx:27-44 | "Done" shows exactly once the end lies a whole day or more in the past; otherwise the count is the number of started days up to the end |
| GoalViews.FinishedIsNotANumber | src/components/Dashboard.jsx:37 | the "Finished" text carries no number |
| GoalViews.DashboardAgreesWithDetail | src/components/Dashboard.jsx:22-40 | the dashboard says "Finished" exactly when the detail view says "Done", and otherwise leads with the same day count, or with its whole years beyond 365 days |
| GoalViews.GoalTransactionsSpec | src/components/GoalDetailView.jsx:49-54 | the goal's history holds exactly the transactions whose description contains the goal's name, each as often as before, newest first |
| Simulator.SimulateSpec | src/components/SavingsSimulator.jsx:11-36 | there is a result exactly for a non-zero save; the saves are the least number reaching the target, the days that many intervals, and the months the whole 30-day periods, split into years and months left over |
| Simulator.FormatDurationSpec | src/components/SavingsSimulator.jsx:38-43 | the duration text leads with the years when there is one, else with the months, and holds a 'y' exactly in the first case |
| Simulator.YearsText | src/components/SavingsSimulator.jsx:39-41 | with a year or more, the text reads back as the years and holds a 'y' |
| Simulator.MonthsText | src/components/SavingsSimulator.jsx:42 | under a year, the text reads back as the months and holds no 'y' |
| Simulator.MessageBandSpec | src/components/SavingsSimulator.jsx:157-162 | each message covers one range of months (below 6, below 12, below 24, the rest) and a longer plan never gets an earlier message |
| RoundUp.RoundUpRange | src/components/RoundUpTracker.jsx:13 | a round-up lies between 0 and 99 and is 0 exactly for a multiple of 100 |
| RoundUp.CollectedSpec | src/components/RoundUpTracker.jsx:12-18 | the count is the number of transactions, the total is at most 99 per transaction, and it is 0 exactly when every amount is a multiple of 100 |
| RoundUp.AverageRange | src/components/RoundUpTracker.jsx:84 | the average round-up shown lies between 0 and 99 |
| RoundUp.Tracker.constructor | src/components/RoundUpTracker.jsx:7-10 | the switch starts as stored |
| RoundUp.Tracker.Toggle | src/components/RoundUpTracker.jsx:20-32 | the switch flips, and a notification is sent exactly when it is turned on |
| RoundUp.Tracker.Collect | src/components/RoundUpTracker.jsx:34-43 | a notice is sent exactly when some amount is not a multiple of 100; it carries the collected round-up total, which is positive and at most 99 per transaction |
| MyPiggy.PiggyLevelSpec | src/components/MyPiggy.jsx:12-17 | the level lies in 1 to 4, never drops as savings grow, and is 4 exactly from 2000 on |
| MyPiggy.NextThresholdSpec | src/components/MyPiggy.jsx:102-106 | a next threshold shows exactly below level 4 and lies above the savings |
| MyPiggy.ProgressWidthSpec | src/components/MyPiggy.jsx:109-131 | the progress bar shows exactly when the top-level badge does not, and for savings that are not negative it is filled at least 0 and below 100 percent |
| StreakBadge.StreakColorBands | src/components/StreakBadge.jsx:5-11 | each colour belongs to exactly one band of streak lengths (30+, 14-29, 7-13, 3-6, under 3) |
| StreakBadge.FlameBands | src/components/StreakBadge.jsx:13-17 | the flame pulses exactly from 30 days, bounces exactly from 14 to 29, and is still below 14 |
| StreakBadge.RenderSpec | src/components/StreakBadge.jsx:19-48 | nothing renders exactly for a zero streak; "Best" shows exactly when the longest streak beats the current one; the 100, 30 and 7 day markers nest, and the 30 day marker goes with the red colour and the pulse |
| ChallengeCard.ShareNotNegative | src/components/ChallengeCard.jsx:20 | a share of a positive target is not negative for a part that is not negative |
| ChallengeCard.CardProgressSpec | src/components/ChallengeCard.jsx:18-26 | progress never exceeds 100, is not negative for positive targets and non-negative counters, is 0 without targets, and an amount target takes precedence over a count target |
| ChallengeCard.RemainingSpec | src/components/ChallengeCard.jsx:4-12 | "Expired" exactly when the end is not after now; otherwise whole days and whole hours (under 24) of the time left, short of it by less than an hour |
| ChallengeCard.ExpiredIsNotANumber | src/components/ChallengeCard.jsx:9 | the "Expired" text carries no number |
| ChallengeCard.RemainingTextSpec | src/components/ChallengeCard.jsx:4-16 | the text leads with the days when a whole day is left, else with the hours, and carries no number when expired |
| ChallengeCard.DaysText | src/components/ChallengeCard.jsx:14 | the "d h left" text reads back as its day count |
| Calendar.DaysInMonthSpec | src/components/ActivityCalendar.jsx:9-13 | a month has 28 to 31 days, February 29 exactly in leap years, and 31 exactly for January, March, May, July, August, October and December |
| Calendar.DaysFromCivilExamples | src/components/ActivityCalendar.jsx:16-20 | the day count starts at 1 January 1970, a Thursday, and 1 March 2024 falls on a Friday |
| Calendar.FirstDayOfMonth | src/components/ActivityCalendar.jsx:16-20 | the first day of the month is a weekday from 0 (Sunday) to 6, and it is the weekday of the instant at which that day starts |
| Calendar.MarchYearLength | src/components/ActivityCalendar.jsx:16-20 | a year counted from 1 March has 366 days exactly when the following February has a 29th |
| Calendar.NextMonthStart | src/components/ActivityCalendar.jsx:12-20 | day 1 of the next month is the current month's length after day 1 of this one, in every year |
| Calendar.NextYearStart | src/components/ActivityCalendar.jsx:16-20 | 1 January is 31 days after the 1 December before it |
| Calendar.FirstDaysFollow | src/components/ActivityCalendar.jsx:12-20 | the first weekday of each month is the previous month's first weekday moved on by that month's length, across a year's end too |
| Calendar.StartDayOffsetSpec | src/components/ActivityCalendar.jsx:28 | the blank cells before day 1 number 0 to 6 in a Monday-first week, Sunday moving to the end |
| Calendar.MonthData | src/components/ActivityCalendar.jsx:30-48 | the activity map has an entry for exactly the days of the displayed month that have transactions, holding their number and the sum of their amounts |
| Calendar.MonthDataAddsUp | src/components/ActivityCalendar.jsx:35-46 | over days 1 to 31 the per-day counts and totals add up to the number and the sum of the month's transactions |
| Calendar.DayShadeSpec | src/components/ActivityCalendar.jsx:101-107 | a day's shade partitions its total at 5000, 1000 and 0, and only a day without activity gets the today outline |
| Calendar.PrevNextInverse | src/components/ActivityCalendar.jsx:50-56 | moving a month back and forth stays on valid months, carrying the year, and each move undoes the other |
| Calendar.MonthView.constructor | src/components/ActivityCalendar.jsx:6 | the calendar starts on today's date |
| Calendar.MonthView.PrevMonth | src/components/ActivityCalendar.jsx:50-52 | the calendar shows day 1 of the month before |
| Calendar.MonthView.NextMonth | src/components/ActivityCalendar.jsx:54-56 | the calendar shows day 1 of the month after |
| Suggestions.MilestoneTip | src/components/SmartSuggestions.jsx:22-47 | there is a milestone tip exactly when the first goal's progress lies in [45, 50) or [95, 100) |
| Suggestions.StreakTip | src/components/SmartSuggestions.jsx:49-70 | there is a streak tip exactly when the streak is 0 with some history, 3 to 6, or 7 to 29 |
| Suggestions.WeekendTip | src/components/SmartSuggestions.jsx:73-95 | there is a weekend tip exactly when seven or more transactions hold three or more weekend ones whose mean beats 1.2 times a seventh of the last seven amounts |
| Suggestions.RulesJustified | src/components/SmartSuggestions.jsx:22-95 | every tip the three rules give holds under its own condition and carries the figure its message shows |
| Suggestions.Assembly | src/components/SmartSuggestions.jsx:97-107 | pushing the rules' tips, then the fallback when none came, and keeping two keeps the tips in rule order and drops a rule's tip only when two earlier ones fill the card |
| Suggestions.Suggest | src/components/SmartSuggestions.jsx:8-108 | without goals the only tip is to create one; otherwise at most two justified tips in rule order, each due rule's tip present unless two earlier ones fill the card, and the last-deposit tip exactly when no rule applies and there is a history |
| VoiceControl.ClassifySpec | src/components/VoiceControl.jsx:70-147 | the first matching keyword rule wins: the chosen rule matches, no earlier rule does, and the command is not understood exactly when no rule matches |
| VoiceControl.ProcessSpec | src/components/VoiceControl.jsx:70-147 | the balance reply carries the sum of all amounts and the streak reply the streak; a reply navigates exactly for the five navigation rules, each to its own page; an unmatched command neither navigates nor closes the dialog |
| VoiceControl.ToLowerIdempotent | src/components/VoiceControl.jsx:45 | lowercasing twice is lowercasing once |
| VoiceControl.HeardIgnoresCase | src/components/VoiceControl.jsx:44-48 | a phrase and its lowercase form get the same reply |
| VoiceControl.BalanceFirst | src/components/VoiceControl.jsx:72-80 | a single case of the rule order in `ClassifySpec`: a command starting with "balance" gets the balance whatever other keywords it holds |
| Forecast.WindowDays | src/components/analytics/SavingsForecast.jsx:27 | the window counts at least one day |
| Forecast.ForecastData | src/components/analytics/SavingsForecast.jsx:17-71 | no points exactly with fewer than two transactions or a zero rate; otherwise at most 13 monthly points at the projected amounts, continuing exactly while the projection is below the total target |
| Forecast.ForecastNondecreasing | src/components/analytics/SavingsForecast.jsx:57-68 | with a positive rate the projected amounts never decrease |
| Forecast.RateIgnoresOtherKinds | src/components/analytics/SavingsForecast.jsx:25-28 | a transaction of any kind but "deposit" leaves the daily rate as it was |
| Forecast.ThirtyDayWindow | src/components/analytics/SavingsForecast.jsx:21-28 | over a thirty-day window the rate is the recent deposits over thirty |
| TimeTraveler.PickedMatchesNothing | src/pages/TimeTraveler.jsx:18 | an option picked from the dropdown, being text, selects no goal |
| TimeTraveler.StartIdSelects | src/pages/TimeTraveler.jsx:11-18 | the starting id selects a goal exactly when one has that id, and then one with that id |
| TimeTraveler.DefaultContributionSpec | src/pages/TimeTraveler.jsx:21-38 | the default contribution is the monthly base rounded to a multiple of 100, or 1000 when that rounds to zero |
| TimeTraveler.Simulation | src/pages/TimeTraveler.jsx:40-79 | 61 points, month 0 to 60, each at the start balance plus that many contributions; the hit month is the first month meeting the target, or -1 exactly when none does |
| TimeTraveler.HitMonthAgrees | src/pages/TimeTraveler.jsx:57-76 | for a positive contribution the closed-form month (the gap over the contribution, rounded up, within five years) is the first month meeting the target, or -1 exactly when none does |
| TimeTraveler.SimulationHitMonth | src/pages/TimeTraveler.jsx:57-76 | the simulated hit month equals the closed form |
| History.GoalNameOf | src/pages/History.jsx:15 | the goal name read from a description is never empty: the text after the leftmost "for " up to a line end, or "Unknown Goal" |
| History.EnrichAll | src/pages/History.jsx:13-27 | one enriched entry per transaction, in the same order |
| History.EnrichFallbacks | src/pages/History.jsx:15-26 | no description gives "Unknown Goal", a goal no goal is named after the category "other", and a payment without a matching account "Manual" with UPI id "N/A" |
| History.PaymentGoalName | src/context/PiggyContext.jsx:482 | the goal name read back from the description the store writes for a payment is the paid goal's name |
| History.KeptSpec | src/pages/History.jsx:30-45 | an entry is kept exactly when it passes the search (case-insensitive on the names, as typed on the amount) and the goal filter, in its original order; with neither filter the list is unchanged |
| History.FilteredSpec | src/pages/History.jsx:47-63 | the list holds the kept entries, each as often as kept, ordered by date or amount as chosen, ties in their earlier order; an unknown order leaves them unsorted |
| History.AverageSpec | src/pages/History.jsx:67-68 | the average times the number of transactions is the total, and an empty history averages 0 |
| Analytics.ChronologicalSpec | src/pages/AnalyticsPage.jsx:31 | the sorted history is a permutation of the transactions, oldest first |
| Analytics.EveryNth | src/pages/AnalyticsPage.jsx:60 | keeping every step-th point keeps exactly the points at multiples of the step, in order |
| Analytics.DownsampleSpec | src/pages/AnalyticsPage.jsx:58-61 | over twenty points, downsampling keeps at most twenty, the first one among them, and every point whose index is a multiple of the step |
| Analytics.TrendData | src/pages/AnalyticsPage.jsx:29-64 | an empty history gives the single "Start" point at 0; otherwise the running balance over the sorted history, downsampled |
| Analytics.RawTrendSpec | src/pages/AnalyticsPage.jsx:36-54 | the trend starts at 0, each point moves by its transaction (deposits up, withdrawals down, anything else not at all), and ends at the net of all of them whatever their order |
| Analytics.DistributionSpec | src/pages/AnalyticsPage.jsx:67-77 | the chart shows one slice for each goal with a positive paid total and no other, largest first |
| Analytics.MonthsSeen | src/pages/AnalyticsPage.jsx:83-92 | the months appear once each, exactly those in which some transaction falls |
| Analytics.MonthBars | src/pages/AnalyticsPage.jsx:80-93 | one bar per month seen, in first-seen order |
| Analytics.MonthlyData | src/pages/AnalyticsPage.jsx:80-95 | the loop builds the bars of the months in first-seen order and keeps the last six |
| Analytics.MonthlySpec | src/pages/AnalyticsPage.jsx:80-95 | at most six bars, for distinct months, each adding up its month's deposits and withdrawals across years |
| Analytics.MonthlyComplete | src/pages/AnalyticsPage.jsx:94 | with six months or fewer, every transaction's month has a bar |
| Analytics.MetricsSpec | src/pages/AnalyticsPage.jsx:98-108 | progress is 0 without a positive total target and reaches 100 exactly when the paid total meets it; the average times the count is the total |
| Accounts.ValidateUpiSpec | src/pages/GlobalAccountManager.jsx:35-38 | an id is accepted exactly when it is a non-empty run of letters, digits, '_', '.' or '-', an '@', and another such run |
| Accounts.ValidateUpiParts | src/pages/GlobalAccountManager.jsx:35-38 | "name@handle" is accepted exactly when both parts are non-empty and drawn from those characters |
| Accounts.ValidUpiIsTrimmed | src/pages/GlobalAccountManager.jsx:48-53 | an accepted id has no white space at its ends, so trimming it changes nothing |
| Accounts.BankTablesDiffer | src/pages/SettingsPage.jsx:26-38 | the two pages name banks alike except for "ybl", "axl" and "ibl", the last two being unknown on the settings page |
| Accounts.BankNameSpec | src/pages/GlobalAccountManager.jsx:17-33 | the bank is "Unknown Bank" exactly when the id has no '@' |
| Accounts.PrototypeHandles | src/pages/GlobalAccountManager.jsx:21-32 | a handle in neither table shows "Linked Bank", except the lower-case keys of `Object.prototype` that the object-literal look-up also finds: "constructor" shows "Object" and "__proto__" shows no name; both are valid handles |
| Accounts.BankOfValidUpi | src/pages/GlobalAccountManager.jsx:19 | for "name@handle" the bank is looked up by the lowercased handle |
| Accounts.DestinationForm.constructor | src/pages/GlobalAccountManager.jsx:8-14 | the form starts hidden and empty |
| Accounts.DestinationForm.Submit | src/pages/GlobalAccountManager.jsx:40-58 | an account is requested exactly when the nickname is not blank and the id as typed is accepted; each refusal sets its own message and keeps the inputs; success sends the trimmed fields with the default flag and clears the form |
| Accounts.SettingsForm.constructor | src/pages/SettingsPage.jsx:20-23 | the form starts hidden and empty |
| Accounts.SettingsForm.AddAccount | src/pages/SettingsPage.jsx:40-55 | an account is requested exactly when the name is not blank and the id as typed is accepted; blank fields and a bad id each set their own message and keep the inputs; success sends the trimmed fields, not as default, and clears the form |
| LearningHub.ScoreCounts | src/pages/LearningHub.jsx:19-21 | the score counts exactly the questions answered right, so it never exceeds the number of questions |
| LearningHub.ShownScoreAgrees | src/pages/LearningHub.jsx:119 | the score shown with the results, counted over the answered keys, equals the score used to pass |
| LearningHub.PassedSpec | src/pages/LearningHub.jsx:23 | a quiz is passed exactly when at least 70% of its questions are right; an empty quiz is passed |
| LearningHub.Hub.constructor | src/pages/LearningHub.jsx:8-13 | the hub starts with the saved lessons, no answers and no results |
| LearningHub.Hub.SubmitQuiz | src/pages/LearningHub.jsx:17-32 | results show; a passed lesson not yet completed is appended to the completed list and to storage, otherwise both stay; the list never gains a duplicate and a passed lesson ends up completed |
| Marketplace.Price | src/pages/Marketplace.jsx:11-14 | an item costs 500, 250, 100 or 50 coins |
| Marketplace.PriceOrder | src/pages/Marketplace.jsx:11-14 | legendary costs more than epic, epic more than rare, and rare more than any other rarity, which costs 50 |
| Marketplace.FilteredSpec | src/pages/Marketplace.jsx:16 | "ALL" shows every item; another filter exactly the items whose rarity in capitals is the filter |
| Marketplace.Wallet.constructor | src/pages/Marketplace.jsx:8 | the wallet holds the given coins and inventory |
| Marketplace.Wallet.Purchase | src/pages/Marketplace.jsx:18-23 | an item is bought exactly when the buy button is enabled (not owned and affordable); buying takes its price and adds it to the inventory, otherwise nothing changes; coins never go negative and the inventory never gains a duplicate |
| Wardrobe.ToggleSpec | src/pages/Wardrobe.jsx:17-27 | the slot takes the item unless it already held it and is then emptied; every other slot stays as it was |
| Wardrobe.ToggleTwice | src/pages/Wardrobe.jsx:17-27 | equipping the same item twice restores the map exactly when the slot was present and empty or held that item |
| Wardrobe.ItemsForTabSpec | src/pages/Wardrobe.jsx:30-33 | the character tab lists no items; another tab exactly the items whose slot is the tab's name in capitals |
| Wardrobe.Avatar.constructor | src/pages/Wardrobe.jsx:10 | the avatar holds the given character and equipment |
| Wardrobe.Avatar.SelectCharacter | src/pages/Wardrobe.jsx:13-15 | the character changes and the equipment stays |
| Wardrobe.Avatar.Equip | src/pages/Wardrobe.jsx:17-27 | the equipment becomes the toggled map and the character stays |
| LearningHub.SubmitEnabledIff | src/pages/LearningHub.jsx:109 | with answers only for the quiz's questions, submitting is enabled exactly when every question has an answer |
| Wardrobe.ToggleKeepsOwned | src/pages/Wardrobe.jsx:116-122 | toggling an owned item keeps every equipped item owned |
| Wardrobe.Avatar.ClickItem | src/pages/Wardrobe.jsx:116-122 | a locked item's tile does nothing; an unlocked one is toggled in its own slot; so only owned items ever get equipped |

## Behaviour kept as the code has it

Where the code and its comments or documentation say different things, the
model follows the code:

- `checkAchievements` appends a newly unlocked achievement to the list twice, in
  two successive state updates (`src/context/PiggyContext.jsx:242-243`).
  `Store.PaymentUnlocksCount` states the doubled count.
- The `CHALLENGE_COMPLETED` trigger unlocks nothing. A challenge's reward is a
  number, while achievement ids are strings, so the reward never unlocks an
  achievement.
- Payments are recorded with type `'debit'`. The analytics page and the forecast
  count only `'deposit'` and `'withdraw'`, so payments move neither
  (`Forecast.RateIgnoresOtherKinds`, `Analytics.RawTrendSpec`).
- `checkStreakRisk` reports a risk when the latest transaction is today and the
  hour is 18 or later. It does not report one when nothing was saved today,
  which is the opposite of what its comment says (`Reminders.CheckStreakRisk`).
- The declaration of the next evolution level has a space inside its name. It is
  modelled under the name its caller uses (`Evolution.NextLevelSpec`).
- The Time Traveler page compares numeric goal ids with the dropdown's text
  value under `===`. Picking a goal from the list therefore selects none
  (`TimeTraveler.PickedMatchesNothing`).
- Equipping the same item twice restores the slot only when the slot was present
  and empty, or already held that item. An item that the first toggle replaced
  is not put back (`Wardrobe.ToggleTwice`).
- The shuffle in plan generation moves whole bits. A bit's due date therefore
  follows its index, not its position.
- `getBankInfo` takes the text between the first `@` and the next one as the
  handle.
- The store imports `CHALLENGE_ACHIEVEMENTS` from `src/utils/challenges.js`
  (`src/context/PiggyContext.jsx:5`), and `ALL_ACHIEVEMENTS` spreads it after
  `ACHIEVEMENT_DEFINITIONS` (`src/context/PiggyContext.jsx:91`), but
  `src/utils/challenges.js` exports no such name. The model therefore takes
  `ALL_ACHIEVEMENTS` to be `ACHIEVEMENT_DEFINITIONS` alone: the eleven
  definitions of the datatype `StoreRules.Achievement`.
- A challenge target that is missing or 0 is stored as no target (`|| null`), so
  a 0 target never completes a challenge (`Store.NewChallenge`,
  `StoreRules.ProgressedCompletes`).

## Left out

- Persistence is not modelled: IndexedDB reads and writes, `localStorage`, and the
  Blob downloads of the report and the backup. Only the in-memory state is
  modelled; where a page writes to storage, the written value is a field.
- Timers (`setTimeout`, `setInterval`) and the interleaving of React effects are
  not modelled. Each action is one atomic step, and a value that a stale closure
  read is passed as an argument.
- PlanGeneration.GeneratePlan: each bit's due date is `now + k` intervals for
  one clock reading `now`. The code reads `Date.now()` afresh for every bit
  (`src/context/PiggyContext.jsx:362`, `:389`), so its due dates can run a few
  milliseconds later than that; the drift is not modelled.
- `Math.random` and `crypto.randomUUID` become nondeterministic choices, a
  number parameter (`Items.RandomItem`) or lists of fresh ids, not a generator.
- Locale formatting is not modelled: `toLocaleDateString`, the short month name
  (a month number stands for it), and date text in the report and CSV (a
  parameter stands for it).
- Time-zone and daylight-saving changes are not modelled: every day is exactly
  24 hours. The calendar date of an instant (`dateOf`) and adding months
  (`addMonths`) are parameters.
- Floating-point arithmetic is modelled with exact reals and integers. The
  coach's standard deviation, coefficient of variation and goal velocity are
  left out, as is its `NaN` average on empty input.
- Amounts are whole rupees. A fractional amount typed into a form is not
  modelled, and neither is `parseInt`'s reading of a `0x` prefix.
- Speech recognition and synthesis, the `window.location` deep-link launch,
  toasts, sounds, confetti and navigation are not modelled. Their inputs and
  outputs are values: a transcript, the link text, a route.
- D3 and Recharts drawing, and the presentation-only components and pages, are
  not modelled.
- The store never supplies coins, inventory or the avatar configuration. The
  market and the wardrobe work on a wallet and an avatar of their own.
- The Python icon script is not modelled: it only opens, converts, resizes and
  saves images.
- Simulator.SimulateSpec: a save of 0, which divides by zero in the code, gives
  no result instead of `Infinity` or `NaN` figures. The daily and monthly rate
  figures are not modelled.
- TimeTraveler.DefaultContributionSpec: holds for goals with at least one slot;
  with none, `DefaultContribution` gives no value for the code's `Infinity`.
  The page's `parseFloat` of an empty boost field is not modelled.
- History.KeptSpec: the search lowercases only the letters A to Z. JavaScript's
  `toLowerCase` also folds other Unicode letters; that is not modelled.
- VoiceControl.HeardIgnoresCase: the transcript is lowercased on A to Z only,
  as in `History.KeptSpec`; other Unicode letters are not folded.
- VoiceControl.ClassifySpec: the keywords are matched against the transcript
  lowercased on A to Z only; other Unicode letters are not folded.
- Accounts.BankOfValidUpi: the handle is lowercased on A to Z only; other
  Unicode letters are not folded.
- History.FilteredSpec: the page sorts its array in place; the model sorts a copy
  of the list.
- Forecast.ForecastData: the projection is exact. The code adds
  floating-point amounts month by month, and rounding drift is not modelled.
- Coach.BestSavingDay: the confidence and the percentage are computed exactly. Where
  the code divides 0 by 0 (`NaN`) for an empty history, the model gives no
  confidence. Where it divides by a zero overall mean (`NaN` or `Infinity`), the
  model gives no percentage.
- GoalForm.GoalFormState.Submit: the text inputs are values. The effect that
  copies an edited goal into the form is not modelled.
