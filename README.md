# LeetCode team dashboard: analytics layer in Dafny

This project models the part of the LeetCode team dashboard that derives data from stored history.
Each team owner keeps a roster of members. Each member has a history of weekly snapshots: solved totals, split into easy, medium and hard. The model covers:

- recording the weekly snapshots;
- computing trends, week-over-week deltas, weekly progress, streaks, difficulty trends, tag coverage and recommendations;
- gamification (daily streaks, points, achievements, leaderboard) and notifications;
- the maintenance scripts that repair, migrate and rank the stored history;
- the backup restore of the Streamlit app.

Conventions used throughout the model:

- A date is a day number: day 0 is a Monday, and the weekday of day `d` is `d % 7`. A week is named by its Monday. ISO date strings order like their day numbers.
- A JSON object or Python dict whose insertion order matters is an `Ordered<V>`: a sequence of key/value pairs with distinct keys. `Records` gives its `Keys` and `Lookup`, and also `LastValue`, which is `dict(pairs)` keeping the last value of a repeated key.
- Python slices, `sorted` (stable, over a total preorder), list comprehensions with a condition, and first-occurrence deduplication are `PySeq` and `Sorting`.
- Things the code gets from outside become parameters: the clock (`today` / `now`), the LeetCode profile fetch (a map from username to profile, absent meaning the fetch failed), the submission calendars and the colour palettes.
- A class with mutable fields (`Store`, `TeamStore`, `MembersService`, `HistoryService`, `HistoryFile`, `SnapshotTable`, `Cache`, `GamificationService`, `NotificationService`, `AnalyticsStore`) stands for a persisted JSON file, a database table or an in-process object. Its methods state the whole new state.
- The problem recommender is deterministic: `random` is imported but never used.

## Model

| member | source | states |
|---|---|---|
| Analytics.FetchedSnapshot | backend/api/analytics.py:80-94 | the record written for a fetched profile: this week's Monday, the member, the fetched total, and per difficulty the count of the first matching submission entry (0 when none matches) |
| Analytics.FetchedSnapshots | backend/api/analytics.py:63-68 | each candidate record is the record built from its member's fetched profile for this week, at most one per roster entry |
| Analytics.FetchedSnapshotsInOrder | backend/api/analytics.py:63-68 | the candidate records are exactly those of the roster members whose fetch succeeded, one each, in roster order |
| Analytics.FetchedSnapshotsCover | backend/api/analytics.py:65-68 | every roster member whose fetch succeeded has its record among the candidates |
| Analytics.AnalyticsStore.RecordSnapshot | backend/api/analytics.py:40-106 | an empty roster writes nothing and reports 0 with no week; otherwise only the owner's history changes, to the ledger with every fetched member's record appended unless its week is already there, and the count is the number of records actually appended |
| Analytics.AppendFetched | backend/api/analytics.py:63-96 | the loop over the roster leaves the team history equal to the append-if-absent of the fetched records and counts exactly the appended ones |
| Analytics.RecordSnapshotTwice | backend/api/analytics.py:73-96 | recording twice in the same week appends nothing the second time and keeps at most one record per (member, week) |
| Analytics.RecentSnapshots | backend/api/analytics.py:129-132 | the kept snapshots are in ascending week order, drawn from the member's list, exactly `weeks` of them (or all when fewer) for weeks >= 1, all of them for weeks == 0, and none of the dropped ones is later than a kept one |
| Analytics.Points | backend/api/analytics.py:135-145 | one trend point per kept snapshot, in order, carrying its week and totals |
| Analytics.AllWeeks | backend/api/analytics.py:125-138 | the week set is exactly the weeks of the kept snapshots of all members |
| Analytics.RecentWeeks | backend/api/analytics.py:148 | the weeks list is strictly ascending (sorted and unique), at most `weeks` long, drawn from the week set, and every week left out is earlier than every week kept; exactly min(`weeks`, number of distinct weeks) long for a positive `weeks`, and every week for `weeks` = 0 |
| Analytics.GetTrends | backend/api/analytics.py:108-153 | empty history gives no weeks and no members; otherwise one line per member of the history and a strictly ascending weeks list of the latest weeks seen, exactly min(`weeks`, distinct weeks) long for a positive `weeks` and all of them for 0 |
| Analytics.TrendLines | backend/api/analytics.py:127-145 | each member's line is the points of its own most recent snapshots |
| Analytics.TotalInWeek | backend/api/analytics.py:177-184 | None exactly when the member has no snapshot in the week, otherwise the total of its last snapshot of that week |
| Analytics.WeekDataKeysWithin | backend/api/analytics.py:173-184 | a week's data only lists members of the history |
| Analytics.WeekDataDistinct | backend/api/analytics.py:173-184 | a week's data lists each member at most once |
| Analytics.WeekDataCovers | backend/api/analytics.py:176-184 | every member with a snapshot in the week is in the week's data |
| Analytics.WeekDataValues | backend/api/analytics.py:176-184 | each entry of the week's data is the total of its member's last snapshot in that week |
| Analytics.RankOrder | backend/api/analytics.py:194-198 | the items sorted by total, highest first, a permutation of the week's data |
| Analytics.RankMapPositions | backend/api/analytics.py:192-199 | over distinct members the i-th member of the ranked order gets rank i + 1 |
| Analytics.RanksArePositions | backend/api/analytics.py:192-199 | the ranked members are exactly the members with data that week, ranks lie in 1..n, every rank 1..n is used, and no two members share one |
| Analytics.RanksFollowTotals | backend/api/analytics.py:192-195 | a strictly higher total that week gets a strictly smaller rank |
| Analytics.PctChangeMeaning | backend/api/analytics.py:206-212 | for non-negative totals the percentage is change / previous * 100 when previous > 0, it is positive iff the total grew, zero iff it stayed, and never below -100 |
| Analytics.Get | backend/api/analytics.py:202-216 | `dict.get`: Some exactly for a present key, with its value |
| Analytics.WowRowFor | backend/api/analytics.py:201-235 | a member's row: this week's and last week's totals with 0 for a missing week, change = current - previous, the safe percentage, this week's rank if any, and rank delta = last rank - this rank when both ranks exist, else 0 |
| Analytics.WeekOverWeek | backend/api/analytics.py:155-240 | empty history gives no rows; otherwise exactly one row per member with data in this or last week, each the row built from this week's and last week's totals and ranks, sorted by current total from highest to lowest |
| Analytics.WeekOverWeekTotals | backend/api/analytics.py:173-185 | the current and previous totals in a history member's row are its last snapshot totals in this week and in last week, 0 where there is none |
| Analytics.SortByCurrent | backend/api/analytics.py:238 | a permutation of the rows in non-increasing order of current total |
| Analytics.WeekRange | backend/api/analytics.py:267-275 | the axis has `weeks` entries for weeks >= 1 and none otherwise |
| Analytics.WeekRangeShape | backend/api/analytics.py:266-275 | for weeks >= 1 the axis holds exactly `weeks` Mondays, one week apart, ending at this week's Monday |
| Analytics.WeekAxis | backend/api/analytics.py:271-275 | the `while current <= end_week` loop produces exactly that axis |
| Analytics.WeekTotals | backend/api/analytics.py:284 | the lookup has exactly the weeks with a snapshot, each mapped to the total of the last snapshot of that week |
| Analytics.FilledIsLatest | backend/api/analytics.py:287-292 | the value at a week is the total of the latest week of the window at or before it that has a snapshot, and 0 when none has: snapshots before the window are never carried in |
| Analytics.FillForward | backend/api/analytics.py:287-292 | the forward-fill loop carrying `last_value` computes exactly that series, one value per week |
| Analytics.NameOf | backend/api/analytics.py:263-295 | a member's display name is that of its last roster entry, and its username when it has none |
| Analytics.WeeklyProgress | backend/api/analytics.py:242-302 | empty history gives no weeks and no members; otherwise the axis ending at this week's Monday, a series for exactly the members of the history, each its name and its forward-filled totals, every series as long as the axis |
| Analytics.BuildSeries | backend/api/analytics.py:278-297 | the loop over the members gives each member, and only them, its own series |
| Analytics.MemberSeries | backend/api/analytics.py:281-297 | one member's snapshots sorted by week, looked up by week and filled forward |
| Analytics.GainRowsSound | backend/api/analytics.py:386-407 | every fallback row is a positive gain between consecutive week-sorted snapshots, placed on the later snapshot's Monday, inside [start, end] |
| Analytics.GainRowsComplete | backend/api/analytics.py:389-407 | every positive consecutive gain whose week lies in [start, end] produces its row |
| Analytics.FallbackRowsSound | backend/api/analytics.py:372-407 | fallback rows only come from roster members without calendar data, with positive gains inside the window |
| Analytics.SortByDate | backend/api/analytics.py:410 | a permutation of the rows in non-decreasing date order |
| Analytics.AcceptedTrend | backend/api/analytics.py:304-412 | an empty roster gives no rows; otherwise the calendar rows plus every member's fallback rows, permuted into date order |
| Analytics.AppendFallback | backend/api/analytics.py:372-407 | the fallback loop appends each roster member's gain rows, in roster order, after the calendar rows |
| Dates.Weekday | services/history_service.py:12 | `weekday()` lies in 0..6 |
| Dates.WeekStart | services/history_service.py:11-12 | `iso_week_start(d)` is a Monday with `0 <= d - iso_week_start(d) <= 6` |
| Dates.WeekStartUnique | app.py:134-135 | the Monday within the seven days ending at d is unique, so both copies of `iso_week_start` give the same day |
| Dates.SameWeek | services/history_service.py:11-12 | two days have the same week start iff the second lies in the 7 days starting at the first's week start |
| Dates.MondayWeeksAgo | backend/api/analytics.py:169-170 | `today - timedelta(days=today.weekday() + 7k)` is the Monday k weeks before this week's Monday |
| HistoryLedger.AppendAllOnlyExtends | services/history_service.py:44-53 | appending only extends lists: every stored list stays a prefix of its new list, only members of the input gain lists, and every other member's list is unchanged |
| HistoryLedger.AppendAllRecordsAll | services/history_service.py:44-53 | afterwards every input record's (member, week) is recorded |
| HistoryLedger.AppendAllWhenRecorded | services/history_service.py:45 | when every (member, week) is already recorded nothing is appended and the history is unchanged |
| HistoryLedger.AppendAllIdempotent | services/history_service.py:44-56 | a second call with the same records changes nothing and appends nothing |
| HistoryLedger.AppendAllGrows | services/history_service.py:46-53 | a call that appends something leaves some list longer than before |
| HistoryLedger.AddedZeroIffUnchanged | services/history_service.py:53-56 | nothing was appended iff the team history is unchanged, so the save happens exactly when the history changed |
| HistoryLedger.AppendAllKeepsLedgerValid | services/history_service.py:44-53 | appending only absent weeks keeps every list to its own member with at most one record per week |
| HistoryLedger.SnapshotOf | services/history_service.py:32-52 | the record: the member's username, the week, its total copied as given, and per difficulty the count of the last matching entry, 0 when none |
| HistoryLedger.WeeklySnapshots | services/history_service.py:32 | one record per team entry, in team order |
| HistoryLedger.HistoryService.RecordWeekly | services/history_service.py:25-57 | the returned history is the stored one with the owner's ledger extended by every team entry's record whose week was absent, other owners untouched; it is saved iff something was appended, otherwise the store is unchanged |
| HistoryLedger.RecordWeeklyTwice | app.py:137-172 | `record_weekly_snapshots` is idempotent per (owner, member, week): after one call every record is there, the ledger invariant holds, and a second call appends nothing and does not save |
| Records.FirstCount | backend/api/analytics.py:82-84 | `next(...)`: the count of the first entry with the difficulty, 0 when none matches |
| Records.LastCount | services/history_service.py:37-43 | the overwriting loop: the count of the last entry with the difficulty, 0 when none matches |
| Records.FirstAndLastCountAgree | services/history_service.py:37-43 | when a difficulty occurs at most once, the two readings of the submission list agree |
| HistoryDocs.ChangedAtMostCount | fix_historical_data.py:45-81 | the number of snapshots fixed never exceeds the number processed |
| HistoryDocs.RepairHistoryShape | scripts/archive/fix_doubled_history.py:131-157 | the walk keeps the owners, the members and their order and the length of every list, and puts in each slot the repaired snapshot or the original one |
| HistoryDocs.RepairNothing | scripts/archive/fix_doubled_history.py:139-157 | when no snapshot reports a change the history is unchanged and the fixed count is 0 |
| HistoryDocs.RepairList | scripts/archive/fix_doubled_history.py:135-157 | one member's loop: every snapshot reported modified is replaced by its fixed copy, the others are kept, and both counters are exact |
| HistoryDocs.HistoryFile.RepairOwner | scripts/archive/fix_doubled_history.py:133-157 | one owner's members are repaired in place and no other owner changes |
| HistoryDocs.HistoryFile.Repair | fix_historical_data.py:50-81 | the triple loop leaves the history repaired in place and returns the number of snapshots seen and the number changed |
| FixTotals.FixTotalSpec | fix_historical_data.py:55-80 | a snapshot is rewritten iff its total differs from easy + medium + hard by more than 1; then the total becomes exactly that sum and no other field changes; either way the result is within the tolerance |
| FixTotals.FixedHistoryConsistent | fix_historical_data.py:50-81 | after the pass every snapshot of the history is within the tolerance |
| FixTotals.FixIsIdempotent | fix_historical_data.py:50-81 | a second pass over the fixed history changes nothing and counts no fixes |
| FixTotals.FixHistoryData | fix_historical_data.py:14-114 | a missing file gives false and touches nothing; otherwise the history is fixed in place, the counts are returned, and the result is true |
| FixDoubled.FixSnapshotSpec | scripts/archive/fix_doubled_history.py:80-105 | a snapshot of the cutoff week or later is returned unmodified; an earlier one keeps its keys, has each positive count (total and both spellings of each difficulty) floor-halved and every other field unchanged, and is modified iff some count was halved |
| FixDoubled.FixUndoesDoubling | scripts/archive/fix_doubled_history.py:80-105 | for a snapshot before the cutoff whose non-negative counts were stored doubled, the fix gives back exactly the true snapshot |
| FixDoubled.SecondRunHalvesAgain | scripts/archive/fix_doubled_history.py:80-105 | the fix is not idempotent: a count of 2 or more left by one run is halved again by a second run |
| FixDoubled.FixAllSpec | scripts/archive/fix_doubled_history.py:131-157 | after the walk every snapshot of the history is its own fixed copy, judged against its own `week_start` |
| FixDoubled.FixDoubledHistory | scripts/archive/fix_doubled_history.py:107-182 | the history is replaced by the fixed one exactly when the operator confirms, left as it was otherwise, and the counts of snapshots seen and fixed are exact either way |
| S3Migration.WeekStartOf | migrate_s3_data.py:213-216 | the week is `week_start` when it is non-empty, else `date` when that is non-empty, and absent (the snapshot is skipped) iff both are missing or empty |
| S3Migration.Normalize | migrate_s3_data.py:213-225 | a snapshot with a week becomes one naming the member and that week, with total and the capitalised difficulty counts copied and 0 for absent ones; one without a week is dropped |
| S3Migration.UserCandidatesMembers | migrate_s3_data.py:212-225 | a member's candidates are exactly the normalisations of its stored snapshots that have a week |
| S3Migration.TeamCandidatesCount | migrate_s3_data.py:209-228 | a team never yields more candidates than it stores snapshots |
| S3Migration.ByWeekIsTotalPreorder | migrate_s3_data.py:230 | string order on `week_start` is a total preorder, so the sort is well defined |
| S3Migration.MigratedTeamSpec | migrate_s3_data.py:207-231 | a migrated team is sorted by week start, holds no two equal snapshots, no more than were stored, and exactly the normalised snapshots of its members |
| S3Migration.MigratedTeamMembers | migrate_s3_data.py:218-220 | every migrated snapshot names a username the team stores |
| S3Migration.MigratedHistorySpec | migrate_s3_data.py:198-235 | every migrated team is a stored team of the same name whose value was a dict, migrated |
| S3Migration.MigratedHistoryKeys | migrate_s3_data.py:200-231 | every stored team that is a dict is migrated, no other team appears, and distinct team names stay distinct |
| S3Migration.MigrateUser | migrate_s3_data.py:212-228 | the inner loop appends each normalised snapshot unless an equal one is already there, which is deduplication of everything seen so far |
| S3Migration.MigrateTeam | migrate_s3_data.py:207-231 | one team's loops followed by the sort compute the migrated team |
| S3Migration.MigrateHistory | migrate_s3_data.py:194-235 | the loop over teams skips the ones that are not dicts and computes the migrated history |
| Difficulty.EntryOf | backend/utils/difficulty_analyzer.py:35-50 | a trend entry has a positive total equal to easy + medium + hard, and its three shares add up to 100 |
| Difficulty.TrendEntries | backend/utils/difficulty_analyzer.py:33-50 | there are no more trend entries than snapshots |
| Difficulty.TrendEntriesSound | backend/utils/difficulty_analyzer.py:40-50 | every trend entry is the entry of a snapshot with something solved |
| Difficulty.TrendEntriesComplete | backend/utils/difficulty_analyzer.py:34-50 | every snapshot with something solved has its entry |
| Difficulty.TrendEntriesOrdered | backend/utils/difficulty_analyzer.py:30-50 | entries of week-sorted snapshots stay in week order |
| Difficulty.ProgressionSpec | backend/utils/difficulty_analyzer.py:84-154 | fewer than four entries is exactly insufficient data; a stuck difficulty is reported exactly for the three stuck statuses, Easy exactly for the two easy ones; the status is never "no data" |
| Difficulty.ClassifySpec | backend/utils/difficulty_analyzer.py:112-154 | the rule chain in order: stuck on Easy iff the Easy average exceeds 80, and the stuck difficulty agrees with the status |
| Difficulty.StuckOnEasyAverages | backend/utils/difficulty_analyzer.py:95-118 | a member stuck on Easy averaged under 20% Medium and Hard together over the last four entries |
| Difficulty.TrendsSpec | backend/utils/difficulty_analyzer.py:10-81 | empty history gives "no data" with a zero distribution; "no data" exactly when no entry has anything solved; the current distribution is the last entry's; fewer than four entries never report a stuck difficulty |
| Difficulty.TrendsEntriesSpec | backend/utils/difficulty_analyzer.py:30-50 | the entries are exactly the history's snapshots with something solved, oldest week first |
| Difficulty.CalculateDifficultyTrends | backend/utils/difficulty_analyzer.py:10-81 | the sorting and collecting loop computes the member's trends |
| Difficulty.CollectTrendEntries | backend/utils/difficulty_analyzer.py:33-50 | the loop appends an entry for exactly the snapshots with something solved |
| Difficulty.GetTeamDifficultyTrends | backend/utils/difficulty_analyzer.py:157-177 | one entry per member, in history order, carrying that member's trends |
| Difficulty.StuckEntriesSpec | backend/utils/difficulty_analyzer.py:190-202 | the stuck list holds exactly one entry per member with a stuck difficulty, carrying its member, difficulty, status, recommendation and distribution, and is empty when nobody is stuck |
| Difficulty.GetStuckMembers | backend/utils/difficulty_analyzer.py:180-202 | the loop computes the stuck list |
| Recommender.Slug | backend/utils/problem_recommender.py:62 | the topic slug has the tag's length, no spaces, and every other character lower-cased |
| Recommender.TagRecommendationFor | backend/utils/problem_recommender.py:56-63 | a suggestion keeps the tag, capitalises the difficulty (same letters up to case), searches for "tag difficulty", and links with the upper-cased difficulty and the space-free slug |
| Recommender.TagRecommendations | backend/utils/problem_recommender.py:55-63 | one suggestion per weak tag, in order, a missing tag name read as "" |
| Recommender.RecommendByWeakTags | backend/utils/problem_recommender.py:37-65 | the loop suggests for the first `limit` weak tags only, in order, each with its tag and the capitalised difficulty |
| Recommender.RecommendByDifficultyProgression | backend/utils/problem_recommender.py:68-137 | at most one suggestion; the starter suggestion exactly when nothing is solved |
| Recommender.DifficultyProgressionByCounts | backend/utils/problem_recommender.py:97-135 | with something solved the percentage rules agree with their whole-number form; a negative total fires no rule |
| Recommender.RecommendByCompany | backend/utils/problem_recommender.py:156-157 | an unknown company gets nothing |
| Recommender.CompanyMatches | backend/utils/problem_recommender.py:159-163 | exactly the company's catalog problems of the asked difficulty (all of them for "all" in any case), in catalog order |
| Recommender.RecommendByCompanySpec | backend/utils/problem_recommender.py:140-166 | the first min(`limit`, matches) of the company's matching problems, in catalog order, every match when the limit allows, and the same answer for any capitalisation of the difficulty |
| Recommender.DailyPlan | backend/utils/problem_recommender.py:209-233 | at least one Easy problem and at most four problems a day |
| Recommender.DailyPlanMonotone | backend/utils/problem_recommender.py:211-231 | more problems solved never means more Easy or fewer Medium or Hard problems in the plan |
| Recommender.CompanyRecommendations | backend/utils/problem_recommender.py:205-206 | the four target companies each get their first three catalog problems of any difficulty |
| Recommender.GetPersonalizedRecommendations | backend/utils/problem_recommender.py:169-235 | weak-tag suggestions exactly when there are weak tags (the first five, at Medium), difficulty suggestions only for a known distribution, the company lists, and the plan for the distribution's total |
| Streaks.ActiveWeeksMembers | backend/utils/streak_tracker.py:34-47 | a week is active iff it is the first snapshot's with something solved, or a later snapshot's whose total exceeds the previous snapshot's |
| Streaks.ActiveWeeksChronological | backend/utils/streak_tracker.py:30-47 | active weeks of week-sorted snapshots are in week order |
| Streaks.RunFrom | backend/utils/streak_tracker.py:73-85 | a run of weeks seven days apart starting at i has length between 1 and the weeks left |
| Streaks.RunFromIsMaximal | backend/utils/streak_tracker.py:73-85 | no run starting at i is longer than the one the walk finds |
| Streaks.LongestRunIsLongest | backend/utils/streak_tracker.py:59-87 | the longest streak is the length of some run of consecutive weeks and no run is longer; 0 only without active weeks |
| Streaks.LongestRunBounds | backend/utils/streak_tracker.py:59-87 | with active weeks the longest streak lies between 1 and their number |
| Streaks.CurrentAsWrittenBounds | backend/utils/streak_tracker.py:59-86 | the current streak as written is at most 2 and at most the longest streak, and 0 only when the latest active week is before last week |
| Streaks.SummaryFacts | backend/utils/streak_tracker.py:11-112 | empty history is inactive with all zeros; longest <= active weeks <= snapshots; active weeks in order; inactive iff no last active week iff longest is 0; active iff current > 0; at risk and broken split on 14 days since the last active week |
| Streaks.CalculateStreaks | backend/utils/streak_tracker.py:11-112 | the method computes the summary |
| Streaks.CollectActiveWeeks | backend/utils/streak_tracker.py:34-47 | the loop collects exactly the active weeks |
| Streaks.ScanRuns | backend/utils/streak_tracker.py:50-87 | the backward walk yields the current streak as written and the longest run of consecutive weeks |
| Streaks.CurrentStreakMeaning | backend/utils/streak_tracker.py:59-86 | the corrected current streak is 0 iff the latest active week is before last week's Monday, and otherwise the whole run of consecutive weeks ending at it, never above the longest streak |
| Streaks.StaleStreakReportedActive | backend/utils/streak_tracker.py:78-81 | two consecutive active weeks long past are reported as a current streak of 2 and status active, where the corrected streak is 0 |
| Streaks.CurrentStreakCappedAtTwo | backend/utils/streak_tracker.py:78-81 | three consecutive active weeks up to this week are reported as 2, where the corrected streak is 3 |
| Streaks.TeamEntries | backend/utils/streak_tracker.py:127-134 | one summary per member |
| Streaks.GetTeamStreaks | backend/utils/streak_tracker.py:115-138 | a permutation of the members' summaries, every member present, highest current streak first |
| Streaks.CollectStreaks | backend/utils/streak_tracker.py:127-134 | the loop computes one summary per member, in order |
| Streaks.TeamStreaksOrder | backend/utils/streak_tracker.py:136 | after the sort every member is there and current streaks do not increase |
| Streaks.ByCurrentThenLongestIsTotalPreorder | backend/utils/streak_tracker.py:156-159 | the (current, longest) descending key is a total preorder |
| Streaks.LeaderboardMeaning | backend/utils/streak_tracker.py:141-161 | only members with a current streak, ordered by (current, longest) from highest; exactly min(`limit`, members with a current streak) of them (Python's `[:limit]` length for a negative limit), all of them when the limit allows, and no member with a current streak left off ranks above the last one shown |
| Streaks.AtRiskMembers | backend/utils/streak_tracker.py:164-174 | exactly the at-risk entries |
| Streaks.CorrectedSummaryFacts | backend/utils/streak_tracker.py:59-105 | with the corrected streak a member is active iff its latest active week is this week or last week; the streak is the run ending at that week and never exceeds the longest |
| Notifications.StreakAtRiskNotification | backend/utils/notification_service.py:19-36 | a streak-at-risk notification names its member and has high priority |
| Notifications.MilestoneNotification | backend/utils/notification_service.py:38-62 | a milestone notification names its member and has medium priority |
| Notifications.InactivityNotification | backend/utils/notification_service.py:64-80 | an inactivity notification names its member and has low priority |
| Notifications.DailyDigestNotification | backend/utils/notification_service.py:82-97 | the digest names no member and has low priority |
| Notifications.Visible | backend/utils/notification_service.py:142-145 | with a member given, exactly that member's notifications; otherwise all of them |
| Notifications.Newest | backend/utils/notification_service.py:147-154 | the first min(`limit`, count) of the newest-first order (Python's rule for a negative limit), so a sub-multiset of the stored ones, newest first, all of them when the limit allows |
| Notifications.NotificationService.constructor | backend/utils/notification_service.py:16-17 | the store starts empty |
| Notifications.NotificationService.Send | backend/utils/notification_service.py:99-134 | appends exactly the notification iff "in_app" is among the channels, changes nothing else, and always reports success |
| Notifications.NotificationService.Get | backend/utils/notification_service.py:136-154 | the first min(`limit`, matches) of the given member's notifications (all for no member) in newest-first order, every match when the limit allows; the store is only read |
| Notifications.NotificationService.Clear | backend/utils/notification_service.py:156-161 | with a member, exactly that member's notifications are removed and the others keep their order; without one, the store is emptied |
| Notifications.KeepOthersMeaning | backend/utils/notification_service.py:159 | the kept notifications are exactly the others; clearing distributes over appends, changes nothing when the member has none, and clearing twice is clearing once |
| Notifications.StreakAlertsMeaning | backend/utils/notification_service.py:168-191 | one streak-at-risk notification per at-risk entry with a current streak, naming that member, with the entry's `name` as display name (the username when the key is absent) and its current streak, and no other |
| Notifications.RouteAlertNames | backend/api/notifications.py:55-67 | through the route, every alert's display name is the roster's name for its member, or the username when the roster has none, and every at-risk member with a current streak gets one |
| Notifications.NoDeduplication | backend/utils/notification_service.py:180-189 | sending the same streak alerts twice stores each of them twice |
| Notifications.CheckAndNotifyStreaks | backend/utils/notification_service.py:168-191 | the alerts created are the streak alerts (member, display name and streak of each at-risk entry), and the store gains exactly them, appended in order |
| Notifications.MilestoneAlertsMeaning | backend/utils/notification_service.py:214-229 | one milestone notification per threshold strictly above the previous total and at most the current one, naming the member and value, and none when the total did not grow |
| Notifications.MilestoneAlertsOrdered | backend/utils/notification_service.py:220-229 | over increasing thresholds the alerts come in increasing milestone order |
| Notifications.FirstHardAlert | backend/utils/notification_service.py:231-243 | a single first-hard milestone exactly when the hard count goes from 0 to positive |
| Notifications.CheckAndNotifyMilestones | backend/utils/notification_service.py:194-245 | the created notifications are the crossed milestones followed by the first-hard alert, all appended to the store |
| Gamification.UpsertDaySpec | backend/services/gamification_service.py:36-44 | after the upsert the (member, day) row holds the earlier count plus the new one and exactly the new challenge flag; every other row reads as before; (member, day) stays unique |
| Gamification.ActiveDates | backend/services/gamification_service.py:61-62 | the active dates are exactly the days of the member's rows with something solved or the challenge completed |
| Gamification.DatesAscending | backend/services/gamification_service.py:97-99 | the active dates, strictly increasing |
| Gamification.DatesDescending | backend/services/gamification_service.py:61-63 | the active dates, strictly decreasing |
| Gamification.CurrentRun | backend/services/gamification_service.py:75-82 | the walk counts at least the days already matched and at most the dates there are |
| Gamification.CurrentRunMatches | backend/services/gamification_service.py:75-82 | the first `streak` dates are today, yesterday, ..., and the next date is not the next day back |
| Gamification.WalkBackFromToday | backend/services/gamification_service.py:68-84 | the loop over the dates newest first computes the walk |
| Gamification.CurrentRunMeaning | backend/services/gamification_service.py:68-84 | the days up to today form a run of active days; when no active day lies after today the day before the run is inactive; a day after today makes the streak 0 |
| Gamification.CurrentDailyStreakMeaning | backend/services/gamification_service.py:53-84 | the current streak is a run of active days ending today, and (no active day being in the future) a maximal one |
| Gamification.RunEnd | backend/services/gamification_service.py:110-115 | the run ending at j has between 1 and j + 1 days |
| Gamification.MaxRun | backend/services/gamification_service.py:106-117 | the longest run among the first n dates has between 1 and n days |
| Gamification.LongestRunIn | backend/services/gamification_service.py:104-117 | the loop over ascending dates computes the longest run |
| Gamification.RunWithinRunEnd | backend/services/gamification_service.py:110-115 | no run of active days ending at a date is longer than the one the loop counts there |
| Gamification.LongestDailyStreakMeaning | backend/services/gamification_service.py:90-117 | 0 iff there is no active day; no run of active days is longer; with active days some run has exactly that length |
| Gamification.CurrentAtMostLongest | backend/services/gamification_service.py:53-117 | the current streak never exceeds the longest |
| Gamification.PointsOf | backend/services/gamification_service.py:159-177 | a member's points row, all zeros for a member without one |
| Gamification.AddPointsSpec | backend/services/gamification_service.py:137-146 | awarding adds the same amount to the member's four totals, changes nobody else's, and keeps usernames unique |
| Gamification.Checks | backend/services/gamification_service.py:217-229 | one check per rule, in order: its key and whether the statistic meets its threshold |
| Gamification.KeysWhere | backend/services/gamification_service.py:231-232 | exactly the keys of the checks that hold |
| Gamification.RuleKeysDistinct | backend/services/gamification_service.py:217-229 | no achievement key is checked twice |
| Gamification.EarnedSpec | backend/services/gamification_service.py:217-232 | an achievement is earned exactly when its statistic meets its threshold |
| Gamification.EarnedIsTiered | backend/services/gamification_service.py:217-229 | earning a higher tier of a measure implies earning each lower tier |
| Gamification.NewUnlocksSpec | backend/services/gamification_service.py:231-245 | unlocks only grow; a key is newly unlocked iff it is earned and was not unlocked; afterwards every earned key is unlocked, so the same check unlocks nothing more |
| Gamification.PeriodOf | backend/services/gamification_service.py:289-295 | "monthly" and "all_time" pick their own column; any other period falls back to weekly |
| Gamification.SqlLimit | backend/services/gamification_service.py:303-304 | `LIMIT n`: a prefix of exactly min(n, rows) rows; a negative limit keeps all |
| Gamification.Ranked | backend/services/gamification_service.py:307-312 | the i-th row gets rank i + 1, its username and its points in the period's column |
| Gamification.LeaderboardSpec | backend/services/gamification_service.py:286-314 | exactly min(`limit`, rows) lines (every row for a negative limit), ranked 1, 2, 3, ..., points never increasing, each a member's row read in the period's column, and no member left off the board has more points than the last line |
| Gamification.GamificationService.constructor | backend/services/gamification_service.py:14-25 | all tables start empty |
| Gamification.GamificationService.RecordDailyActivity | backend/services/gamification_service.py:27-48 | today's row is upserted, success and today's date are returned, and no other table changes |
| Gamification.GamificationService.GetCurrentStreak | backend/services/gamification_service.py:53-88 | the run of active days ending today, maximal when no active day lies in the future |
| Gamification.GamificationService.GetLongestStreak | backend/services/gamification_service.py:90-121 | 0 iff no active day, and no run of active days is longer |
| Gamification.GamificationService.GetUserPoints | backend/services/gamification_service.py:159-181 | the member's four totals, all zero when the member has no row |
| Gamification.GamificationService.Unlock | backend/services/gamification_service.py:231-247 | the keys that hold and are not yet unlocked are unlocked, in order, and only they; other tables unchanged |
| Gamification.GamificationService.CheckAchievements | backend/services/gamification_service.py:183-252 | the newly unlocked keys are the earned ones not unlocked before; unlocks only grow; no other table changes |
| Gamification.GamificationService.CheckAchievementsTwice | backend/services/gamification_service.py:183-252 | a second check without new activity unlocks nothing |
| Gamification.GamificationService.AwardPoints | backend/services/gamification_service.py:123-157 | one transaction logged, the four totals raised by the amount, then achievements checked; the daily table is unchanged |
| Gamification.GamificationService.GetLeaderboard | backend/services/gamification_service.py:286-318 | the numbered query result: exactly min(`limit`, rows) lines ranked 1..k, points never increasing, and no member left off has more points than the last line |
| Dashboard.ByNameIsTotalPreorder | app.py:490 | Python's string order, used by `sorted(names)`, is a total preorder |
| Dashboard.AssignSpec | app.py:489-491 | every name gets a colour, nothing else does, and every colour comes from the palette |
| Dashboard.AssignAt | app.py:490-491 | among distinct sorted names the i-th gets `palette[i mod len]`, and `palette[i]` while i is below the palette size |
| Dashboard.ColorMapSpec | app.py:476-492 | the map's keys are exactly the names and its colours come from the stitched palettes |
| Dashboard.ColorMapDistinct | app.py:486-491 | distinct names, no more of them than distinct colours, get distinct colours |
| Dashboard.AssignDistinct | app.py:489-491 | over a palette without repeats, at most as many names as colours get pairwise distinct colours |
| Dashboard.SortedUnique | app.py:490 | two sorted lists with the same elements are equal, so the sort result does not depend on the input order |
| Dashboard.ColorMapOrderIndependent | app.py:490 | the colour of a name does not depend on the order the names are given in |
| Dashboard.BuildMemberColorMap | app.py:476-492 | the dedupe comprehension (first occurrences kept) and the assignment loop build that map |
| Dashboard.PutSpec | app.py:1196-1218 | `d[k] = v` on a dict: keys stay distinct, k is added, k reads v, every other key reads as before, an existing key keeps its place and a new one is appended |
| Dashboard.ByUsernameSpec | app.py:1194 | keying a roster by username gives each username its last entry |
| Dashboard.PutAllSpec | app.py:1195-1196 | after the override loop each username reads its last uploaded entry, restored, else what it read before |
| Dashboard.MergeMembersSpec | app.py:1193-1197 | merge mode gives each username once: the last uploaded entry (restored) or else the last current one, and every username of either list is present |
| Dashboard.RestoreMembersSpec | app.py:1188-1199 | the members restore fails iff the upload has no list under the chosen key; replace mode keeps each uploaded entry in order, with username and display name only; merge mode gives the keyed merge |
| Dashboard.MergeMembersLoop | app.py:1194-1197 | the loop over the uploaded list computes the merge |
| Dashboard.MergeMemberSpec | app.py:1210-1215 | the stored list stays as the prefix; what is appended is exactly the uploaded snapshots whose week the stored list lacked, in upload order; weeks stay unique when both sides have unique weeks |
| Dashboard.MergeMemberKeepsRepeatedUploadWeeks | app.py:1212-1215 | the stored weeks are read once per member, so two uploaded snapshots of the same new week are both appended |
| Dashboard.MergeTeamSpec | app.py:1209-1216 | usernames become those stored plus those uploaded; an uploaded username gets its merged list; any other username keeps its stored list |
| Dashboard.MergeNeverLosesSnapshots | app.py:1210-1215 | merge mode never removes or alters a stored snapshot: each stored list is a prefix of its merged list |
| Dashboard.RestoreHistorySpec | app.py:1202-1219 | the history restore fails iff the upload has no object under the chosen key; otherwise only the user's entry changes: replace mode puts the upload there, merge mode the merged team |
| Dashboard.AppendNewWeeks | app.py:1211-1215 | the inner loop appends exactly the snapshots of weeks the stored list lacked |
| Dashboard.MergeTeamLoop | app.py:1209-1216 | the loop over uploaded usernames computes the merged team |
| Dashboard.Store.constructor | app.py:1186 | the store holds the given roster and history |
| Dashboard.Store.Restore | app.py:1186-1219 | a failing members upload reports its error and changes nothing; otherwise the roster is saved, and a failing history upload reports its error with the history untouched, while a good one replaces the history by the restored one |
| Roster.WithoutSpec | services/members_service.py:37 | removing a username leaves no entry with it and keeps exactly the other entries in order; it is idempotent and keeps usernames unique |
| Roster.AppendKeepsUnique | services/members_service.py:30-32 | appending an absent username keeps usernames unique |
| MembersService.MembersService.constructor | services/members_service.py:11-12 | the service holds the stored rosters |
| MembersService.MembersService.LoadMembers | services/members_service.py:20-21 | an unknown owner has the empty roster, a known one its stored roster |
| MembersService.MembersService.SaveMembers | services/members_service.py:23-26 | only the owner's roster is replaced; every other owner's is unchanged |
| MembersService.MembersService.AddMember | services/members_service.py:28-34 | false and nothing changed when the username is on the roster; otherwise exactly one entry appended and true; usernames stay unique |
| MembersService.MembersService.RemoveMember | services/members_service.py:36-38 | every entry with the username is removed and the others keep their order |
| TeamApi.OrElse | backend/api/team.py:142-148 | a non-empty optional value, else the default |
| TeamApi.NewEntry | backend/api/team.py:142-148 | the new entry has the requested username, the requested name when non-empty, else the profile's `realName` when the profile has one (even an empty one), else the username; and the requested status when non-empty, else "active" |
| TeamApi.ApplyUpdateSpec | backend/api/team.py:195-267 | the username changes only by a rename; a blank name becomes the new username if given, else the old one; a name equal to the old username follows a rename; another name is stored as given; the status changes only when a non-empty one is supplied |
| TeamApi.ReplaceKeepsUnique | backend/api/team.py:215-224 | replacing an entry by one with its own username or an absent one keeps usernames unique |
| TeamApi.Fetched | backend/api/team.py:319-330 | no more profiles than members |
| TeamApi.TeamStatsIgnoresSuspended | backend/api/team.py:305 | suspended members do not count at all |
| TeamApi.TeamStatsNoneActive | backend/api/team.py:307-317 | a roster with nobody active gives all zeros |
| TeamApi.TeamStatsAverage | backend/api/team.py:334-341 | the member count is the active members, fetched or not; the average is the floor of the total over the successfully fetched, and 0 when none was |
| TeamApi.ViewOf | backend/api/team.py:54-93 | a listing line carries the username and display name, and 0 solved when the fetch fails |
| TeamApi.ViewsOf | backend/api/team.py:98-104 | one line per roster entry |
| TeamApi.GetTeamMembersSpec | backend/api/team.py:43-112 | one line per roster entry, every entry's line present, ordered by solved count from highest |
| TeamApi.TeamStore.constructor | backend/api/team.py:21-24 | the store holds the given rosters |
| TeamApi.TeamStore.AddTeamMember | backend/api/team.py:115-160 | an unknown LeetCode user is 404 and an existing username 400, both changing nothing; otherwise exactly one entry is appended to the owner's roster; usernames stay unique |
| TeamApi.TeamStore.UpdateTeamMember | backend/api/team.py:166-274 | no case-insensitive match is 404; a rename to an unknown user is 404 and to a username on the roster 400, all changing nothing; otherwise the first match is replaced by the edited entry; usernames stay unique |
| TeamApi.TeamStore.RemoveTeamMember | backend/api/team.py:277-294 | every entry with the username is removed, the others keep their order |
| LeetCodeService.SumAcceptedByDifficulty | services/leetcode_service.py:26-34 | a non-list gives 0; a list gives the Easy plus Medium plus Hard counts |
| LeetCodeService.SumAcceptedIgnoresUngraded | services/leetcode_service.py:33 | an item of any other difficulty (such as "All") adds nothing, whether it comes first or last |
| LeetCodeService.SumAcceptedNonNegative | services/leetcode_service.py:30-34 | non-negative counts give a non-negative sum |
| LeetCodeService.AcceptedOnMeaning | services/leetcode_service.py:79 | a day absent from the calendar reads 0; a present day reads its last count |
| LeetCodeService.DayRows | services/leetcode_service.py:75-80 | one row per day from the first to the last |
| LeetCodeService.FrameLength | services/leetcode_service.py:70-80 | the frame has one block of day rows per member |
| LeetCodeService.FrameBlock | services/leetcode_service.py:71-80 | the i-th block is member i's row for every day from the first to the last, its count that day or 0 |
| LeetCodeService.DayRange | services/leetcode_service.py:56-65 | the first loop finds the earliest and the latest day over all calendars, none when no calendar has a day |
| LeetCodeService.ScanDays | services/leetcode_service.py:63-65 | one calendar's days extend the running minimum and maximum |
| LeetCodeService.FillFrame | services/leetcode_service.py:70-81 | the second loop builds the frame |
| LeetCodeService.CalendarsToFrame | services/leetcode_service.py:54-81 | empty iff no calendar has a day; otherwise the zero-filled frame from the global earliest to latest day |
| LeetCodeService.FrameNonEmpty | services/leetcode_service.py:70-81 | with a day and a member the frame is not empty |
| WeeklyProgress.FirstTotal | backend/api/weekly_progress.py:49-52 | None exactly when the member has no snapshot of that week |
| WeeklyProgress.WeekTotals | backend/api/weekly_progress.py:47-52 | at most one total per member |
| WeeklyProgress.WeekTotalsSpec | backend/api/weekly_progress.py:47-52 | a week's totals hold exactly the members with a snapshot of that week, each with its first total of the week |
| WeeklyProgress.WeekTotalsKeys | backend/api/weekly_progress.py:48 | only members of the history are listed |
| WeeklyProgress.WeekTotalsEmpty | backend/api/weekly_progress.py:92-97 | no snapshot of the week gives no totals |
| WeeklyProgress.ProgressOf | backend/api/weekly_progress.py:67-80 | the row carries the live total, last week's total (the live total when there is none, so the progress is 0), and progress = live - last week |
| WeeklyProgress.ProgressRowsSpec | backend/api/weekly_progress.py:58-83 | at most one row per member; every row is the progress of a member with a username whose fetch succeeded, and every such member has its row |
| WeeklyProgress.PreviousSumSkipsMissing | backend/api/weekly_progress.py:101-104 | a member without a two-weeks-ago total contributes nothing |
| WeeklyProgress.CurrentWeekProgressSpec | backend/api/weekly_progress.py:20-118 | no roster gives all zeros; the rows are a permutation of the progress rows, by progress from highest; the current week's total is the sum of their weekly progress; without two-weeks-ago data the previous total is 0 |
| WeeklyProgress.CollectWeek | backend/api/weekly_progress.py:47-52 | the loop with its `break` collects the week's totals |
| WeeklyProgress.CollectProgress | backend/api/weekly_progress.py:58-83 | the loop builds the progress rows |
| WeeklyProgress.AccumulatePrevious | backend/api/weekly_progress.py:99-104 | the loop computes the previous week's total, 0 without two-weeks-ago data |
| WeeklyProgress.GetCurrentWeekProgress | backend/api/weekly_progress.py:20-118 | the endpoint computes the week's progress |
| BackfillRanks.RankBeforeIsTotalPreorder | backend/backfill_ranks.py:35 | `ORDER BY total_solved DESC, username ASC` is a total preorder |
| BackfillRanks.InWeekMembers | backend/backfill_ranks.py:32-37 | a week's candidates are exactly the snapshot rows of that week |
| BackfillRanks.OrderedSpec | backend/backfill_ranks.py:32-37 | the query returns that week's rows, a permutation of them, higher totals first and equal totals by username |
| BackfillRanks.RankedSpec | backend/backfill_ranks.py:42-48 | after the backfill every row has a rank between 1 and the size of its week, and no two rows of one week share a rank |
| BackfillRanks.RankedOrder | backend/backfill_ranks.py:35-48 | within a week a higher total gets a smaller (better) rank |
| BackfillRanks.RanksFollowOrder | backend/backfill_ranks.py:42-48 | a rank is a position in the sorted week, so a row sorted before another gets the smaller rank |
| BackfillRanks.DistinctIdsDistinctRanks | backend/backfill_ranks.py:42-45 | two different ids never get the same position |
| BackfillRanks.SnapshotTable.constructor | backend/backfill_ranks.py:16-19 | the table holds the given snapshot rows |
| BackfillRanks.SnapshotTable.Backfill | backend/backfill_ranks.py:16-53 | every row gets its rank in its week and nothing else changes; the count of updates is the number of rows |
| BackfillRanks.SnapshotTable.RankWeeks | backend/backfill_ranks.py:30-48 | the loop over weeks ranks the rows of the listed weeks and leaves the others; it counts the rows of those weeks |
| BackfillRanks.SnapshotTable.RankWeek | backend/backfill_ranks.py:32-48 | one week's `UPDATE` loop ranks exactly that week's rows, counting them |
| TtlCache.KeyIgnoresKeywordOrder | backend/utils/cache.py:19 | the cache key holds the keyword arguments as a frozenset, so their order does not matter |
| TtlCache.TrimSpec | backend/utils/cache.py:32-34 | eviction removes exactly one item, the oldest, when over size; keys stay distinct and the newest item survives when it is not the oldest |
| TtlCache.RefillSpec | backend/utils/cache.py:26-34 | after a miss keys stay distinct, the size stays within `maxsize`, only the new key is new, and the fresh entry is present when `maxsize` is at least 1 |
| TtlCache.FreshSurvives | backend/utils/cache.py:30-34 | the entry just written is never the oldest one evicted |
| TtlCache.RemoveShrinks | backend/utils/cache.py:27 | dropping a stale key never grows the cache and shrinks it when the key was there |
| TtlCache.Cache.constructor | backend/utils/cache.py:13-15 | a new cache is empty |
| TtlCache.Cache.Call | backend/utils/cache.py:17-35 | a key cached less than `ttl` ago answers from the cache and nothing changes; otherwise the function's value is stored as the newest entry and returned, with the oldest item evicted when over size |
| Counters.AddCountSpec | backend/utils/tag_analyzer.py:46-48 | `Counter.update`: the key set gains the tag, keys stay distinct, only that tag's count grows, by c, and the total grows by c |
| Counters.TallySpec | backend/utils/tag_analyzer.py:44-48 | counting a tag list gives each tag its number of occurrences, exactly the tags present as keys, and the list's length as the total |
| Counters.MergeSpec | backend/utils/tag_analyzer.py:146-151 | merging one counter into another adds the counts key by key and the totals |
| Counters.PoolSpec | backend/utils/tag_analyzer.py:146-154 | pooling the members' counters gives each tag its sum across members, the union of their tags, and the sum of their totals |
| Counters.MostCommonSpec | backend/utils/tag_analyzer.py:55 | `most_common(k)`: exactly min(k, items in the counter) items (none for k <= 0), a sub-multiset of the counter that is a prefix of it sorted by count from highest, so in non-increasing count order with no item left out counted more than the last kept; all of them when k covers the counter |
| Tags.TagsOfPrefix | backend/utils/tag_analyzer.py:83 | the tags of the first k weak entries are the first k tags |
| Tags.WeakEntriesOrder | backend/utils/tag_analyzer.py:65-83 | the weak tags are the catalogue tags with fewer than 3 problems, in catalogue order |
| Tags.WeakEntriesFields | backend/utils/tag_analyzer.py:65-81 | each weak entry is a catalogue tag with its count (below 3) and whether it was attempted |
| Tags.Covered | backend/utils/tag_analyzer.py:86 | no more common tags are covered than there are |
| Tags.Cardinality | backend/utils/tag_analyzer.py:86 | a subset is no larger than its superset |
| Tags.Coverage | backend/utils/tag_analyzer.py:87 | the coverage percentage lies in [0, 100] and is 0 exactly when nothing is covered |
| Tags.Share | backend/utils/tag_analyzer.py:58 | a share is 0 of a zero total and in [0, 100] of a part |
| Tags.TopTagsSpec | backend/utils/tag_analyzer.py:55-58 | the top tags are `most_common(10)` item for item: exactly min(10, items in the counter) of them, none iff nothing was counted, each a counted tag with its count, in non-increasing count order, no tag left out counted more than the last; each percentage is the count's share of the total, in [0, 100] when the total covers the counts, and 0 of a zero total |
| Tags.WeakListSpec | backend/utils/tag_analyzer.py:65-83 | the weak list is the first 5 catalogue tags below 3, each with its count and attempted flag |
| Tags.AnalysisCounts | backend/utils/tag_analyzer.py:33-87 | no submissions give empty counts; otherwise each tag's count is its occurrences across submissions, the unique count is the number of keys and coverage is a percentage |
| Tags.AnalysisStrengths | backend/utils/tag_analyzer.py:55-58 | the strengths are `most_common(10)` of the tag counts: exactly min(10, distinct tags) of them, none iff no tag was seen, each a counted tag, by count from highest, no tag left out counted more than the last |
| Tags.AnalysisWeakTags | backend/utils/tag_analyzer.py:65-83 | at most 5 weak tags, the first of the first 20 common tags below 3 problems, each with its count and attempted flag |
| Tags.CountTags | backend/utils/tag_analyzer.py:44-48 | the counting loop tallies every submission's tags |
| Tags.CountInto | backend/utils/tag_analyzer.py:47-48 | counting more tags into a tally gives the tally of all of them |
| Tags.CollectWeakTags | backend/utils/tag_analyzer.py:65-81 | the loop collects the weak entries |
| Tags.AnalyzeProblemTags | backend/utils/tag_analyzer.py:23-106 | the analysis the loops compute is the specified one |
| Tags.TeamTagAnalysis | backend/utils/tag_analyzer.py:109-132 | one analysis per member, every member's present, ordered by covered tags from highest |
| Tags.CollectAnalyses | backend/utils/tag_analyzer.py:120-127 | the loop builds one analysis per member, in order |
| Tags.TeamOrderSpec | backend/utils/tag_analyzer.py:130 | the sort keeps every member's analysis and orders by coverage from highest |
| Tags.TeamWeakEntriesSpec | backend/utils/tag_analyzer.py:169-179 | the team weaknesses' tags are exactly the catalogue tags with pooled count below 5, in catalogue order, each with its pooled count |
| Tags.HeatmapPooling | backend/utils/tag_analyzer.py:146-183 | the heatmap's counts are the members' counts summed tag by tag, its total the sum of their totals, its unique tags the pooled keys, and its coverage a percentage |
| Tags.HeatmapStrengths | backend/utils/tag_analyzer.py:156-163 | the team strengths are `most_common(10)` of the pooled counter: exactly min(10, pooled tags) items, each a pooled tag with its pooled count, no pooled tag left out counted more than the last; each percentage is the count's share of the pooled total, in [0, 100], and all 0 for a zero total |
| Tags.HeatmapWeaknesses | backend/utils/tag_analyzer.py:169-179 | the team weaknesses are the first 5 of the first 15 common tags whose pooled count is below 5, in catalogue order, each with its pooled count |
| Tags.TeamTagHeatmap | backend/utils/tag_analyzer.py:135-191 | the loops compute the specified heatmap |
| Tags.MergeInto | backend/utils/tag_analyzer.py:148-151 | the pooling loop merges one member's counts |
| Tags.CollectTeamWeaknesses | backend/utils/tag_analyzer.py:169-179 | the loop collects the team weaknesses |
| Tags.RecommendByWeakTags | backend/utils/tag_analyzer.py:194-219 | one recommendation for each of the first three weak tags, in order, at the requested difficulty |
| Records.SortByWeek | backend/api/analytics.py:129 | `sorted(…, key=week_start)` gives a permutation of the snapshots in non-decreasing week order |
| Text.Lower | backend/api/team.py:186 | `str.lower()` lower-cases each character and keeps the length |
| Text.Upper | backend/utils/problem_recommender.py:62 | `str.upper()` upper-cases each character and keeps the length |
| Text.Capitalize | backend/utils/problem_recommender.py:59 | `str.capitalize()` upper-cases the first character, lower-cases every other one and keeps the length |
| Text.Strip | backend/api/team.py:201 | `str.strip()` is the slice left after the leading and trailing whitespace, with no surrounding whitespace, empty iff the string is all whitespace |
| Dashboard.LastWith | app.py:1194 | the last roster entry with the username, none iff no entry has it |
| Dashboard.MergeTeamLookup | app.py:1209-1216 | each username of the merged team reads its merged list |
| Difficulty.SharesAddUp | backend/utils/difficulty_analyzer.py:38-49 | before rounding the three difficulty percentages add up to 100 |
| Gamification.RulesAreTiered | backend/services/gamification_service.py:217-226 | two achievements on the same measure have increasing thresholds |
| S3Migration.DedupTeam | migrate_s3_data.py:227-230 | the deduplicated, sorted list is ordered by week, has no repeats, is no longer than the candidates and holds exactly them |
| WeeklyProgress.PreviousSumAppend | backend/api/weekly_progress.py:101-104 | one more member adds its two-weeks-ago total, or nothing |
| TtlCache.OldestIndex | backend/utils/cache.py:33 | `min` by timestamp picks the first item with the smallest timestamp |

## Left out

- Network and storage I/O: the LeetCode GraphQL calls, S3 and local-file reads and writes, SQLite connections, the `asyncio` lock and Streamlit rendering. The model holds their data in memory, and the fetch results are parameters.
- Logging, printing, and the e-mail, Slack and Discord notification channels, which only log.
- `create_default_users` and the password hashing, the backup uploads, and `export_team_excel`.
- `migrate_members` returns its input unchanged, so nothing about it is modelled.
- The confirmation prompt of the doubled-history repair and the file-exists check of the totals repair are boolean parameters.
- TeamApi.TeamStore.UpdateTeamMember: the mirroring of a rename into the SQLite tables (backend/api/team.py:228-263) is not modelled.
- Gamification: `get_user_achievements` (a join with the achievement catalogue, ordered by timestamps) is not modelled. SQL tie order among equal points is not modelled either.
- Rounding: percentages are exact reals. `round(…, 1)` in the difficulty, tag and weekly-progress outputs is not modelled, so Difficulty.EntryOf shares add up to exactly 100.
- Concurrency order: `as_completed` in `get_team_members` and `get_team_stats` is modelled as roster order. This matters only for the tie order of equal totals.
- Analytics.WeekOverWeek: the iteration order of the Python set `all_members` is a parameter `members`, required to list that set's members once each. The `%b %d, %Y` week label and `round(pct_change, 1)` are not modelled.
- Lower: `str.lower()` is modelled on ASCII letters only; other Unicode letters are kept unchanged, while Python folds them too.
- Upper: `str.upper()` is modelled on ASCII letters only, as for Lower.
- Capitalize: `str.capitalize()` is modelled on ASCII letters only, as for Lower. Python's title-case mapping of the first character is also not modelled.
- Strip: `str.strip()` is modelled with the six ASCII whitespace characters only; Python also strips the other Unicode whitespace characters.
- Sorting.SortBy is a stable insertion sort over a total preorder; its stability is stated nowhere as a lemma.
- Date strings are day numbers; their ISO formatting and parsing are not modelled.
- HistoryDocs: a JSON value other than an integer, a string or null is `Other`; in particular floats and booleans are not told apart from lists and objects. The four lines below say where the repairs then differ from the scripts.
- FixDoubled.Halvable: only an integer count is halved. In Python a positive float or a `true` count also passes `> 0` and is floor-halved by `//` (scripts/archive/fix_doubled_history.py:90-103); the model leaves such a count unchanged and does not count the snapshot as modified for it.
- FixDoubled.Halvable: a count that is null or a string makes `fixed[key] > 0` raise a `TypeError` in Python, which stops the script before anything is written; the model skips that key and carries on.
- FixDoubled.WeekOf: a `week_start` that is present but null or not a string makes `week_start >= CUTOFF_DATE` (scripts/archive/fix_doubled_history.py:82, fed from :136) raise in Python; the model reads it as `""`, which is before the cutoff, and halves the snapshot.
- HistoryDocs.IntOr: fix_historical_data.py:58-64 reads each count with `.get(key, 0)`, so a null or string value makes the sum or `abs(old_total - correct_total)` raise and a float is used as a number; the model reads every non-integer value as 0.
- S3Migration.Normalize reads the capitalised `Easy`/`Medium`/`Hard` keys only, as the migration does; lower-case keys count as absent. A count stored as null is kept as null by the migration (`snapshot.get('totalSolved', 0)` returns `None`, migrate_s3_data.py:221-224); the model writes 0 for it.
- TtlCache.Cache.Call: timestamps are reals taken as a parameter, and the `async` wrapper is modelled as a plain call. The wrapped `fn` cannot fail in the model; in the source an exception from `fn` after an expired entry was deleted (backend/utils/cache.py:27-29) leaves the key out of the cache and propagates.
- Streaks.Summary: on an empty history the source returns a dict of another shape (backend/utils/streak_tracker.py:21-28), with a `streak_history` key and without `active_weeks` and `total_active_weeks`; the model returns its regular summary with zero streaks, no active weeks and inactive status.
- Records.Snapshot and HistoryLedger.SnapshotOf: the display `name` that the weekly snapshot stores (services/history_service.py:49, app.py:164) is not a field of the model's snapshot.
- Analytics.FetchedSnapshot: the `timestamp` the analytics snapshot stores (backend/api/analytics.py:93) is a clock reading and is not modelled.
- Notifications.StreakAtRiskNotification and the other constructors: the `title`, `message` and `action` strings (backend/utils/notification_service.py:31-34) and the `last_active_date` input they quote (:186) are not modelled; `created_at` is an integer parameter.
- Notifications.DailyDigestNotification: the digest's `team_stats` and `top_performers` payloads (backend/utils/notification_service.py:92-93) are not fields of `Notification`.
- TeamApi.MemberView: the `avatar` and `ranking` fields of the member response (backend/api/team.py:63, :65) are passed through from the fetch unchanged and are not modelled.
- Recommender: the `reason` sentences of the recommendations (backend/utils/problem_recommender.py:60, :92, :105, :114, :123, :132) are fixed strings per branch and are not modelled; the branch that produces each recommendation is.
- Streaks.CalculateStreaks and Streaks.GetTeamStreaks follow the source as written: they use the current streak that is capped at 2 and ignores staleness (see Findings). Streaks.CorrectedSummary states the intended value alongside them.

## Findings

| source | as written | input that shows it | evidently intended | confidence | as-written member | corrected member |
|---|---|---|---|---|---|---|
| backend/utils/streak_tracker.py:59-81 | `current_streak` is set to the running count at the second-to-last active week whenever the last two active weeks are 7 days apart, regardless of how recent they are, and is never more than 2 | active weeks at days 0 and 7 with today 700: current 2 and status active, where nothing is current; days 686, 693 and 700 with today 700: current 2, where the run is 3 | the whole run of consecutive weeks ending at the latest active week, when that week is this week or last week, and 0 otherwise | not executed | Streaks.StaleStreakReportedActive, Streaks.CurrentStreakCappedAtTwo | Streaks.CurrentStreakMeaning, Streaks.CorrectedSummaryFacts |
