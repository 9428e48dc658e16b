# study-quest in Dafny

A model of the game and session engine of study-quest, a gamified learning
tracker. A player runs timed focus sessions against books, rates them, writes
reflections, receives a templated synthesis and earns XP. The XP moves an
avatar through six tiers, from toddler to dragon. It covers:

- the progression hook (`useGameState`) over the tables in `src/types/game.ts`;
- the screen machine of the index page;
- the derived views: achievements, reminders, the heatmap, book notes, weekly
  goals, the evolution path, the avatar gallery, the dashboard and book
  selection;
- the small state machines around them: the reflection and rating forms, the
  focus timer, the synthesis typewriter, the cookie-consent hook, the
  analytics gate and buffer, the account context, the mascot helper and the
  sign-in dialog.

Every file holds one module, named after the part of the program it models:

| file | module | models |
|---|---|---|
| `common.dfy` | `Common` | `Option`; the string helpers the components share (`trim`, `toLowerCase`, `slice`, `join`, `includes`, decimal digits) |
| `game_types.dfy` | `GameTypes` | the avatar table, the XP rewards, the default books, the records |
| `progression.dfy` | `Progression` | `getAvatarLevel`, the level floors, `addXP`, `completeSession`, `completeReflection`, `completeSynthesis`, `addCustomBook`, `dismissLevelUp` |
| `screen_flow.dfy` | `ScreenFlow` | the `AppScreen` machine and its `handle*` callbacks |
| `achievements.dfy` | `Achievements` | `calculateAchievements` and the unlocked/locked split |
| `synthesis.dfy` | `SynthesisTemplate` | `generateMockSynthesis` and the typewriter |
| `focus_session.dfy` | `FocusTimer` | `formatTime`, the countdown tick, the message index |
| `book_notes.dfy` | `BookNotes` | the per-book note list, the cap warning, previews, stars, the inactive reminder |
| `weekly_goals.dfy` | `WeeklyGoals` | completion detection and the capped display |
| `learning_reminders.dfy` | `Reminders` | the reminder decision |
| `heatmap.dfy` | `Heatmap` | the day window, counts, intensity, weeks, month totals |
| `evolution.dfy` | `EvolutionView` | the evolution path nodes and the next-tier preview |
| `avatar_gallery.dfy` | `GalleryView` | the gallery card labels |
| `dashboard.dfy` | `DashboardView` | the recent book, the continue card, the books stat |
| `book_selection.dfy` | `BookSelectionForm` | the custom-book form, selection, mastery badges |
| `reflection_screen.dfy` | `ReflectionForm` | the reflection record and its save guard |
| `focus_rating.dfy` | `FocusRatingForm` | star selection, highlighting and submit |
| `cookie_consent.dfy` | `CookieConsent` | `useCookieConsent` over a key-value store |
| `analytics.dfy` | `Analytics` | the consent gate, the session id, the event buffer |
| `auth.dfy` | `AuthContext` | derived flags, `signOut`, `useCredit`, `mergeGuestProgress` |
| `mascot.dfy` | `Mascot` | the help carousel and the idle prompt |
| `auth_modal.dfy` | `AuthModalForm` | validation, the request sent, error mapping, reset |

State is immutable: each handler is a function from the old state to the new
one. Where a component calls a store, the index page's step returns the calls
as a list of effects. The clock, `Math.random`, storage, the backend's
answers and zod's email check are parameters:

- `now` and `today` are values passed in;
- `jitter` (0..4) and `pick` (0..3) are the random draws, limited to the ranges
  the code draws from;
- `writeOk` is whether a backend or storage write succeeded;
- `isEmail` is zod's email check;
- `dateOf` gives the heatmap's calendar date `k` days before today.

Storage is a `map<string, string>`.

Some of the behaviour described for the system is not in its code:

- `completeSession` does not append a session record, recompute the streak or
  update the weekly goals;
- nothing enforces the cap of notes per book on insert;
- there is no soft-lock screen.

The model follows the code in each case.

## Model

| member | source | states |
|---|---|---|
| GameTypes.AvatarTableWellFormed | src/types/game.ts:34-41 | The table has six rows, one per tier in tier order (toddler..dragon). The first threshold is 0 and the thresholds strictly ascend. |
| GameTypes.RewardsSumToMaximum | src/types/game.ts:43-48 | Session, reflection and synthesis rewards (25+15+10) add up to the advertised per-session maximum of 50. |
| GameTypes.DefaultBooksFresh | src/types/game.ts:50-55 | The default books have pairwise distinct ids, zero progress and zero sessions. |
| Progression.ScanDown | src/hooks/useGameState.ts:5-10 | The downward scan stops at the richest row at or below its start whose threshold the XP reaches. Every richer row it passed is out of reach. |
| Progression.GetAvatarLevel | src/hooks/useGameState.ts:4-11 | For non-negative XP the tier returned is one the XP qualifies for; negative XP gives the toddler tier. No richer tier is reachable. |
| Progression.GetAvatarLevelUnique | src/hooks/useGameState.ts:4-11 | For non-negative XP, a tier is the result exactly when its threshold is reached and the next tier's is not. |
| Progression.GetAvatarLevelMonotone | src/hooks/useGameState.ts:4-11 | More XP never yields a poorer tier. |
| Progression.FindLevelIndex | src/hooks/useGameState.ts:14 | `findIndex` returns the first matching position, or -1 exactly when no row matches. |
| Progression.FindLevelIndexIsOrd | src/hooks/useGameState.ts:14 | Every tier is found in the table at its own position, so the -1 case never arises there. |
| Progression.XPForNextLevel | src/hooks/useGameState.ts:13-19 | The next floor is the next tier's threshold, or the last tier's threshold plus 1000. It always lies above the tier's own threshold. |
| Progression.XPForCurrentLevel | src/hooks/useGameState.ts:21-24 | The current floor is the tier's own threshold. |
| Progression.LevelNumber | src/hooks/useGameState.ts:65 | The shown level is the tier's position plus one, between 1 and 6. |
| Progression.DemoInitialStatsConsistent | src/hooks/useGameState.ts:27-40 | The demo start (45 XP, toddler, 45/100, level 1) satisfies the level invariant, and its book progress is a percentage. |
| Progression.AddXP | src/hooks/useGameState.ts:47-68 | The total moves by the grant and the tier is the one the new total earns. The derived fields agree with the tier, and nothing XP does not drive changes. The overlay is raised, and the previous tier recorded, exactly when the tier changed. |
| Progression.LevelXPWithinBand | src/hooks/useGameState.ts:59-66 | Below the last tier, with non-negative XP, the level-relative XP lies in [0, xpToNextLevel). |
| Progression.AddXPComposes | src/hooks/useGameState.ts:47-68 | Two grants give the same stats in either order, and the same stats as one grant of their sum. |
| Progression.StatsDeterminedByTotal | src/hooks/useGameState.ts:59-66 | Two consistent stats with equal totals and equal non-XP fields are equal. |
| Progression.ShowLevelUpOrderIndependent | src/hooks/useGameState.ts:54-57 | With non-negative grants, whether the level-up overlay ends up raised does not depend on the order of two grants. |
| Progression.TwoGrantsLevelUp | src/hooks/useGameState.ts:54-57 | Two non-negative grants raise the overlay exactly when the tier after both differs from the tier before both. A multi-tier climb is one level-up. |
| Progression.GrantNeverLowersTier | src/hooks/useGameState.ts:49-50 | A non-negative grant from a consistent state never lowers the tier. |
| Progression.TwoGrantsFlag | src/hooks/useGameState.ts:54-57 | After two grants, the overlay flag is the old flag or either grant's tier change. |
| Progression.AdvanceBooks | src/hooks/useGameState.ts:75-83 | The book list keeps its length and position; each row is advanced only if its id matches. |
| Progression.CompleteSession | src/hooks/useGameState.ts:70-86 | One more session, 30 more minutes and +25 XP, with the stats consistent. Other books are unchanged. The matching book gains one session and its progress becomes min(100, progress + 8 + jitter), jitter being the random draw 0..4. The level-up overlay is raised, remembering the tier left, iff the grant changes the tier. |
| Progression.CompleteReflection | src/hooks/useGameState.ts:88-90 | The reflection reward is added and only the XP-driven fields change. The level-up overlay is raised, remembering the tier left, iff the tier changes. |
| Progression.CompleteSynthesis | src/hooks/useGameState.ts:92-94 | The synthesis reward is added and only the XP-driven fields change. The level-up overlay is raised, remembering the tier left, iff the tier changes. |
| Progression.AddCustomBook | src/hooks/useGameState.ts:96-110 | Exactly one untouched custom book is appended, with a `custom-` id, and is returned. The existing books and every other field stay as they were. |
| Progression.DismissLevelUp | src/hooks/useGameState.ts:112-114 | The overlay is cleared and nothing else changes. |
| Progression.ProgressionScenario | src/hooks/useGameState.ts:47-94 | From the demo start, session, reflection, synthesis and session pass through 70, 85, 95 and 120 XP. Only the last step crosses into beginner, with one level-up from toddler at 20/200, level 2. |
| ScreenFlow.SessionEnd | src/pages/Index.tsx:126-134 | The visit counter goes up by one and the pending rating is cleared. The first end goes to the dashboard and every later one to the waitlist. |
| ScreenFlow.Step | src/pages/Index.tsx:53-142 | An event not wired on the current screen changes nothing and calls nothing. A step makes at most one store call. Only selecting a book changes the selected book, only a completed reflection changes the reflection, and the visit counter rises by at most one. |
| ScreenFlow.Enabled | src/pages/Index.tsx:159-245 | Onboarding handles only its own completion. The start, complete and cancel events need a selected book, the synthesis events need a reflection, and ratings are 1 to 5. |
| ScreenFlow.ShowXPBar | src/pages/Index.tsx:144 | The XP bar shows on every screen of a session attempt and is hidden on the first screen. |
| ScreenFlow.InitialFlowValid | src/pages/Index.tsx:34-38 | The first screen is onboarding, in a valid state, without the XP bar. |
| ScreenFlow.StepPreservesValid | src/pages/Index.tsx:53-142 | No handler leaves the reachable states: inside an attempt a book is selected, and the bookkeeping matches the screen. |
| ScreenFlow.OnboardingIsOneWay | src/pages/Index.tsx:53-55 | Onboarding leads only to the dashboard and nothing returns to it. Once shown, the XP bar stays. |
| ScreenFlow.StartSessionRoutes | src/pages/Index.tsx:57-63 | Starting from the dashboard opens the timer iff a book is selected, otherwise book selection, and grants nothing. |
| ScreenFlow.RatingScreenRule | src/pages/Index.tsx:69-71 | A finished timer leads to the rating screen iff ratings are enabled. Only rate or skip leave that screen. |
| ScreenFlow.ReflectionAndSynthesisEntry | src/pages/Index.tsx:76-111 | The reflection screen follows the counted session iff notes are enabled. The synthesis screen is entered only from a saved reflection. |
| ScreenFlow.CloseReturnsToDashboard | src/pages/Index.tsx:216-245 | Stats, gallery, settings, social and waitlist each close to the dashboard, with nothing else changed and no store call. |
| ScreenFlow.CancelGrantsNothing | src/pages/Index.tsx:136-138 | Cancelling the timer returns to the dashboard and calls nothing. |
| ScreenFlow.StepAccounting | src/pages/Index.tsx:69-124 | Per step, the session calls and XP granted follow the attempt's bookkeeping. An attempt never exceeds one `completeSession` or the per-session XP. |
| ScreenFlow.RunAccounting | src/pages/Index.tsx:69-134 | Over any run, `completeSession` is called once per attempt ended other than by cancelling, whatever the settings. Each such attempt grants at most 50 XP. |
| ScreenFlow.VisitXPBound | src/pages/Index.tsx:107-124 | From the first screen a visit grants at most 50 XP per completed attempt plus the current attempt's share. |
| ScreenFlow.Tick | src/components/FocusSession.tsx:28-43 | The final tick schedules the completion once, on the running timer, carrying the book then selected; the page is unchanged. |
| ScreenFlow.LateCompletion | src/pages/Index.tsx:69-82 | The scheduled `handleSessionComplete` ignores the screen: with ratings on it opens the rating screen and calls nothing; with ratings off it calls `completeSession` for the captured book and opens the reflection screen iff notes are enabled. |
| ScreenFlow.LateCompletionOnTimer | src/pages/Index.tsx:69-82 | On the timer with its own book, the late callback is the ordinary completion step. |
| ScreenFlow.TimedStepAsWritten | src/components/FocusSession.tsx:28-43 | As written: user events are page steps that leave a pending completion in place, and the completion, once it fires, calls `completeSession` for its book whatever the screen. |
| ScreenFlow.TimedStep | src/components/FocusSession.tsx:28-43 | Corrected: a pending completion only exists on the timer screen, a cancel returns to the dashboard and drops it, and firing consumes it. |
| ScreenFlow.TimedStepIsStep | src/components/FocusSession.tsx:28-43 | Each corrected timed step keeps the timed state reachable and is one page step or none. |
| ScreenFlow.TimedRunIsRun | src/components/FocusSession.tsx:28-43 | A corrected timed run is the run of its page events. |
| ScreenFlow.TimedRunAccounting | src/pages/Index.tsx:69-138 | With the timeout dropped on leaving the timer, `completeSession` is called once per attempt ended other than by cancelling, and each such attempt grants at most 50 XP. |
| ScreenFlow.CancelAfterFinalTickStillCompletes | src/components/FocusSession.tsx:33-42 | As written, a cancel at 00:00 is followed by the late completion: with ratings off it grants the session's 25 XP, with ratings on it opens the rating screen. The corrected timer grants nothing and stays on the dashboard. |
| Achievements.StudiedBooks | src/components/AchievementBadges.tsx:107 | The studied set is exactly the book ids in the session history, and no larger than the history. |
| Achievements.Evaluate | src/components/AchievementBadges.tsx:110-136 | The definition is kept, and the badge is unlocked iff its aggregate reaches the requirement. `unlockedAt` is present iff unlocked and then holds the given time. |
| Achievements.Aggregate | src/components/AchievementBadges.tsx:107-128 | Sessions, minutes and streak read the matching statistic. Books is the number of distinct book ids in the session history, between 0 and the number of sessions. Notes is the note count, and an unknown requirement gives 0. |
| Achievements.BooksCountsDistinctIds | src/components/AchievementBadges.tsx:107-121 | The books figure is the size of the set of book ids occurring in the session history. |
| Achievements.RepeatSessionsCountOneBook | src/components/AchievementBadges.tsx:107-121 | Two sessions on the same book count as one book. |
| Achievements.CalculateAchievements | src/components/AchievementBadges.tsx:102-138 | One entry per definition, in order, each evaluated against its own aggregate. |
| Achievements.StudiedBooksMonotone | src/components/AchievementBadges.tsx:119-121 | A longer history never studies fewer distinct books. |
| Achievements.AchievementsMonotone | src/components/AchievementBadges.tsx:112-130 | Growing statistics and notes never lock an unlocked badge. |
| Achievements.AggregateMonotone | src/components/AchievementBadges.tsx:112-128 | Every requirement's figure grows with the statistics. |
| Achievements.UnlockedOf | src/components/AchievementBadges.tsx:12 | The unlocked list holds exactly the unlocked entries, each as often as in the full list. |
| Achievements.LockedOf | src/components/AchievementBadges.tsx:13 | The locked list holds exactly the locked entries, each as often as in the full list. |
| Achievements.FilterKeepsOrder | src/components/AchievementBadges.tsx:12-13 | Both lists of a concatenation are the concatenated lists, so filtering keeps the entries' order. |
| Achievements.PartitionSizes | src/components/AchievementBadges.tsx:11-15 | The two lists are disjoint and their sizes add up to the total. |
| SynthesisTemplate.Part | src/components/AISynthesis.tsx:17-19 | A part is its prefix, then at most n characters of the lowercased field from its start, then the closing text. |
| SynthesisTemplate.SummaryParts | src/components/AISynthesis.tsx:16-19 | One part per non-empty field, in the order understood, important, remember. Each part is its own field's sentence: "You explored " and 50 characters closed by "...", "Key focus: " and 40 characters closed by ".", "Note: " and 40 characters closed by ".". |
| SynthesisTemplate.Trimmed | src/components/AISynthesis.tsx:12-14 | A trimmed field is empty iff the raw field has no content. |
| SynthesisTemplate.SummaryOf | src/components/AISynthesis.tsx:21-23 | The summary is the fixed default sentence iff all three trimmed fields are empty. Otherwise it is the parts joined by single spaces. |
| SynthesisTemplate.TakeawayOf | src/components/AISynthesis.tsx:25-34 | All fields empty gives the drawn canned takeaway. Otherwise it is the first min(100, n) characters of the fixed prefix followed by the quoted answer (important, else understood, else remember), n being that text's length; the whole text when it fits in 100. |
| SynthesisTemplate.SynthesisOf | src/components/AISynthesis.tsx:16-36 | For trimmed fields: no content gives the default summary and canned takeaway `pick`. Otherwise the summary is the joined parts and differs from the default, and the takeaway is the 100-character cut of the prefix and the quoted answer. |
| SynthesisTemplate.GenerateMockSynthesis | src/components/AISynthesis.tsx:10-37 | Default summary iff the reflection has no content, and then the canned takeaway `pick`. With content, the summary is the joined parts of the trimmed fields, and the takeaway is the first min(100, n) characters of the prefix and the quoted trimmed answer. Neither text is empty. |
| SynthesisTemplate.TrimmedIdempotent | src/components/AISynthesis.tsx:12-14 | Trimming twice is trimming once. |
| SynthesisTemplate.SynthesisSeesOnlyTrimmed | src/components/AISynthesis.tsx:12-14 | Surrounding whitespace in the fields never changes the synthesis. |
| SynthesisTemplate.TakeawayQuotesFirstNonEmpty | src/components/AISynthesis.tsx:32-33 | The takeaway is the first min(100, n) characters of the prefix followed by the first answer with content, in the order important, understood, remember. |
| SynthesisTemplate.QuotedMatchesContent | src/components/AISynthesis.tsx:33 | The `important \|\| understood \|\| remember` choice over trimmed fields picks the first field that has content. |
| SynthesisTemplate.SummaryOfAllFields | src/components/AISynthesis.tsx:16-22 | With all three answers, the summary is the understood, important and remember sentences in that order, separated by single spaces. |
| SynthesisTemplate.SummaryOfOneField | src/components/AISynthesis.tsx:16-22 | With a single answer, the summary is that answer's sentence alone. |
| SynthesisTemplate.Advance | src/components/AISynthesis.tsx:45-88 | Generation sets the synthesis once and nothing changes it afterwards. The typing indices never go back. |
| SynthesisTemplate.AdvancePreservesValid | src/components/AISynthesis.tsx:45-90 | Every tick keeps both shown texts prefixes of their targets. Takeaway typing starts only after the whole summary shows, and completion implies the summary is whole. |
| SynthesisTemplate.SummaryTicksReachEnd | src/components/AISynthesis.tsx:57-71 | Enough summary ticks show the whole summary without touching the takeaway. |
| SynthesisTemplate.TakeawayTicksReachEnd | src/components/AISynthesis.tsx:74-88 | Once the summary is whole, enough takeaway ticks complete the screen. |
| SynthesisTemplate.TypewriterCompletes | src/components/AISynthesis.tsx:45-90 | After generation, the summary ticks then the takeaway ticks reach the complete screen, where save and skip are offered. |
| FocusTimer.PadTwo | src/components/FocusSession.tsx:25 | `padStart(2, '0')` gives at least two digits (exactly two below 100) that read back as the number. |
| FocusTimer.FormatTime | src/components/FocusSession.tsx:22-26 | Below 100 minutes the text is five characters with the colon in the middle. |
| FocusTimer.FormatTimeRoundTrip | src/components/FocusSession.tsx:22-26 | Below 6000 seconds, reading `MM:SS` back gives the seconds, and the seconds field is below 60. |
| FocusTimer.DemoDisplay | src/components/FocusSession.tsx:10-25 | The demo countdown starts at `00:10`. |
| FocusTimer.FullDisplay | src/components/FocusSession.tsx:11-25 | A full session starts at `30:00`. |
| FocusTimer.TimerStep | src/components/FocusSession.tsx:28-43 | A tick never raises the time or drops it below zero. It takes one second only while running and above zero. Pausing keeps the time. Completion is signalled exactly on the tick that reaches zero. |
| FocusTimer.RunTimerInvariant | src/components/FocusSession.tsx:14-43 | Over any run the time stays within [0, start], never increases, and completion is signalled at most once. |
| FocusTimer.CountdownCompletes | src/components/FocusSession.tsx:28-43 | An unpaused countdown of n seconds reaches zero after n ticks, completing once. |
| FocusTimer.MessageIndexInRange | src/components/FocusSession.tsx:45-52 | The motivational message index is always one of the four messages. |
| FocusTimer.MessageIndexSchedule | src/components/FocusSession.tsx:52 | The demo countdown shows the four messages in turn. |
| FocusTimer.MessageIndex | src/components/FocusSession.tsx:52 | While the time remaining is within the demo duration, the index is one of the four messages. |
| BookNotes.NotesFor | src/components/BookNotesView.tsx:14-15 | The filter keeps exactly the notes of the book, with their multiplicities. |
| BookNotes.Insert | src/components/BookNotesView.tsx:16 | Inserting into a newest-first list keeps it newest-first and adds exactly the new note. |
| BookNotes.SortNewestFirst | src/components/BookNotesView.tsx:16 | The sorted list is newest-first and a permutation of the input. |
| BookNotes.BookNotesShown | src/components/BookNotesView.tsx:13-17 | The shown notes are exactly the book's notes, as a multiset, newest first. |
| BookNotes.NotesForCount | src/components/BookNotesView.tsx:15-19 | The shown count equals an independent count of the book's notes. |
| BookNotes.AtLimitCountsBookNotes | src/components/BookNotesView.tsx:19 | The limit warning shows iff the book's note count reaches the cap. |
| BookNotes.IsAtLimit | src/components/BookNotesView.tsx:19 | A cap of 0 or less is always reached; a positive cap is reached only with some note shown. |
| BookNotes.DaysSince | src/components/BookNotesView.tsx:47-48 | The day count is the floor of the elapsed milliseconds over a day. |
| BookNotes.InactiveReminderIff | src/components/BookNotesView.tsx:45-50 | The reminder shows iff the book has a note and its newest note is at least two days old. |
| BookNotes.ShowInactiveReminder | src/components/BookNotesView.tsx:45-50 | Shown iff there is a newest note and at least 48 hours have passed since it. |
| BookNotes.NonEmptyFields | src/components/BookNotesView.tsx:31-32 | Every non-empty field is kept and no empty one, in the order understood, important, remember. |
| BookNotes.Truncate80 | src/components/BookNotesView.tsx:34 | Text up to 80 characters is unchanged. Longer text keeps its first 80 characters followed by `...`. |
| BookNotes.PreviewText | src/components/BookNotesView.tsx:30-35 | The preview is at most 83 characters, and its first 80 are a prefix of the trimmed joined fields. |
| BookNotes.PreviewOfCleanFields | src/components/BookNotesView.tsx:30-35 | For three non-empty fields with no outer whitespace and a short total, the preview is the fields joined by single spaces. |
| BookNotes.RenderStars | src/components/BookNotesView.tsx:37-43 | Five stars, the i-th filled iff i is below the rating. |
| BookNotes.FilledStarsIsClampedRating | src/components/BookNotesView.tsx:37-43 | The number of filled stars is the rating clamped to 0..5. |
| WeeklyGoals.FindNewlyCompleted | src/components/WeeklyGoals.tsx:14-19 | Nothing is signalled iff no goal is reached and uncompleted. Otherwise the id signalled is the first such goal's. |
| WeeklyGoals.NewlyReached | src/components/WeeklyGoals.tsx:16 | Only an uncompleted goal whose count has reached its target qualifies; a completed goal never does. |
| WeeklyGoals.DisplayedCount | src/components/WeeklyGoals.tsx:74 | The count shown is the smaller of current and target. |
| WeeklyGoals.ProgressPercent | src/components/WeeklyGoals.tsx:43 | The bar never exceeds 100 %, is finite when the target is non-zero, and is non-negative for sensible goals. |
| WeeklyGoals.FullBarIffReached | src/components/WeeklyGoals.tsx:43-74 | With a positive target, the bar is full and the shown count equals the target iff the goal is reached. |
| Reminders.SessionsOn | src/components/LearningReminders.tsx:12 | Today's sessions are exactly the history's sessions dated today. |
| Reminders.UnstudiedBooks | src/components/LearningReminders.tsx:17-20 | The filtered list holds exactly the books with a completed session. |
| Reminders.UnstudiedFirst | src/components/LearningReminders.tsx:18-26 | The head of that list is the first such book of the original list. |
| Reminders.SessionsOnCount | src/components/LearningReminders.tsx:12 | The number of today's sessions equals an independent count. |
| Reminders.ReminderDecision | src/components/LearningReminders.tsx:10-60 | Exactly one branch is taken. Two or more sessions today give none, and one gives encouragement. With none today: a book reminder naming the first studied book when there is one, else streak if the streak is positive, else general. |
| Reminders.ChooseReminder | src/components/LearningReminders.tsx:10-60 | No reminder iff two or more sessions are logged today. One session gives encouragement. None gives a reminder that is not encouragement. |
| Reminders.ReminderDependsOnTodayCount | src/components/LearningReminders.tsx:10-60 | Histories with the same number of sessions today give the same reminder. |
| Heatmap.HeatmapDays | src/components/ReadingHeatmap.tsx:10-26 | 35 or 365 days, oldest first, ending today. Each day carries its date's session count. |
| Heatmap.CountOn | src/components/ReadingHeatmap.tsx:20 | A date's count is at most the number of sessions, and zero iff no session has that date. |
| Heatmap.CountsOfTwoDates | src/components/ReadingHeatmap.tsx:20 | Counts on two different dates never exceed the number of sessions: no session is counted twice. |
| Heatmap.IntensityOf | src/components/ReadingHeatmap.tsx:28-33 | The bucket is muted iff the count is 0 and full iff it is 3 or more; its rank is the count capped at 3. |
| Heatmap.IntensityMonotone | src/components/ReadingHeatmap.tsx:28-33 | A higher count never gives a lighter bucket. |
| Heatmap.Weeks | src/components/ReadingHeatmap.tsx:37-40 | Rows of seven, with only the last possibly shorter; as many rows as needed. |
| Heatmap.WeeksFlatten | src/components/ReadingHeatmap.tsx:37-40 | Concatenating the rows gives back the day list. |
| Heatmap.MonthViewIsFiveWeeks | src/components/ReadingHeatmap.tsx:14-40 | The month view is five full weeks. |
| Heatmap.AddToKeys | src/components/ReadingHeatmap.tsx:85 | Adding a day to the month groups leaves exactly the old keys plus the day's month. |
| Heatmap.AddToSum | src/components/ReadingHeatmap.tsx:85 | Adding a day raises the total by the day's count. |
| Heatmap.AddToDistinct | src/components/ReadingHeatmap.tsx:81-86 | Adding a day keeps one group per month. |
| Heatmap.AddToShape | src/components/ReadingHeatmap.tsx:85 | On distinct months, `months[key] = (months[key] \|\| 0) + count` grows an existing month's total in place and leaves the others; a new month is appended last with the count. |
| Heatmap.FirstDay | src/components/ReadingHeatmap.tsx:83-88 | The first position of the window whose month is `key`, or the window's length when none is. |
| Heatmap.MonthTotals | src/components/ReadingHeatmap.tsx:79-94 | One group per month. Each group holds the sum of its month's daily counts. Every group's month occurs in the window and every month that occurs has a group. Groups appear in the order their months first occur, and all groups add up to the daily counts. |
| Heatmap.MonthKeys | src/components/ReadingHeatmap.tsx:83-86 | A month has a group iff some day's date starts with it. |
| Heatmap.LastTwelve | src/components/ReadingHeatmap.tsx:96 | At most the last twelve groups are kept, in order. |
| Heatmap.LastTwelveKeepsMonths | src/components/ReadingHeatmap.tsx:96 | The kept bars still hold their months' sessions and keep their order. |
| Heatmap.YearViewTotals | src/components/ReadingHeatmap.tsx:79-96 | The year view shows at most twelve month bars, each holding its month's sessions, in the order the months first occur. When the window spans at most twelve months, the bars total all 365 days' counts. |
| EvolutionView.Nodes | src/components/EvolutionPath.tsx:43-45 | One node per table row, in order. A node is unlocked iff its threshold is reached, and current iff it is the player's tier. |
| EvolutionView.NodesShape | src/components/EvolutionPath.tsx:43-45 | The unlocked nodes form a prefix of the path, and exactly one node is current. |
| EvolutionView.DragonPercent | src/components/EvolutionPath.tsx:35 | The line toward the last tier is capped at 100 %, non-negative for non-negative XP, and full iff the dragon threshold is reached. The gallery's teaser bar uses the same formula. |
| EvolutionView.NextPreview | src/components/EvolutionPath.tsx:111-119 | The preview shows iff the tier is not the last. It names the next tier and the XP still missing. |
| EvolutionView.PreviewRemainingPositive | src/components/EvolutionPath.tsx:119 | When the tier is the one the XP earns, the XP still missing is positive. |
| GalleryView.CardLabel | src/components/AvatarGallery.tsx:29-58 | "Current" iff unlocked and current, "✓ Unlocked" iff unlocked and not current, "<minXP> XP required" iff locked. |
| GalleryView.CardLabels | src/components/AvatarGallery.tsx:29 | One label per table row, in order. |
| GalleryView.ExactlyOneCurrentCard | src/components/AvatarGallery.tsx:30-31 | With the tier the XP earns, exactly one card reads "Current" (the tier's own), and no card past it reads "✓ Unlocked". |
| DashboardView.CurrentLevelData | src/components/Dashboard.tsx:12 | The dashboard always finds the table row of the player's tier. |
| DashboardView.FirstStudied | src/components/Dashboard.tsx:13 | The position found is the first studied book, or none when no book is studied. |
| DashboardView.RecentBook | src/components/Dashboard.tsx:13 | The recent book is the first studied book when there is one, otherwise the first book; it is absent only with no books. |
| DashboardView.ContinueCardIff | src/components/Dashboard.tsx:54 | The continue card shows iff some book has a completed session, and then shows the first such book. |
| DashboardView.ShowContinueCard | src/components/Dashboard.tsx:54 | The continue card shows iff some book has a completed session. |
| DashboardView.BooksStarted | src/components/Dashboard.tsx:48 | The books stat counts at most every book, and is 0 iff no book has progress. |
| DashboardView.BooksStartedMonotone | src/components/Dashboard.tsx:48 | Raising progress never lowers the books stat. |
| DashboardView.CompleteSessionKeepsBooksStarted | src/components/Dashboard.tsx:48 | Completing a session never lowers the books stat. |
| DashboardView.ShownLevelMatchesTier | src/components/Dashboard.tsx:12-28 | For consistent stats the shown level and the avatar data both match the tier. |
| BookSelectionForm.OpenCustomInput | src/components/BookSelection.tsx:76-83 | The input opens; the title, the books and the selection stay. |
| BookSelectionForm.TypeTitle | src/components/BookSelection.tsx:86-89 | Only the title changes. |
| BookSelectionForm.HandleAddCustomBook | src/components/BookSelection.tsx:22-29 | With content, one book with the trimmed title is appended and selected, and the input is cleared and closed. Without content nothing changes. |
| BookSelectionForm.CustomTitleIsClean | src/components/BookSelection.tsx:23-24 | The added title is non-empty and has no surrounding whitespace. |
| BookSelectionForm.AddEnabledIffAdds | src/components/BookSelection.tsx:93-98 | The Add button is enabled iff pressing it changes something. |
| BookSelectionForm.Cancel | src/components/BookSelection.tsx:104-107 | Cancel closes and clears the input and adds nothing. |
| BookSelectionForm.ReopenIsEmpty | src/components/BookSelection.tsx:104-107 | Reopening after a cancel or an add shows an empty input. |
| BookSelectionForm.SelectBook | src/components/BookSelection.tsx:46 | Selecting changes only the selection. |
| BookSelectionForm.SelectHighlightsOne | src/components/BookSelection.tsx:46-47 | With distinct ids, selecting a book highlights that book and no other. |
| BookSelectionForm.AddShowsStart | src/components/BookSelection.tsx:116-123 | After adding a custom book the start button shows. |
| BookSelectionForm.MasteryBadge | src/components/BookSelection.tsx:56-59 | A badge shows iff progress is positive, and its level is the 20-point band the progress falls in. |
| BookSelectionForm.MasteryBadgeRange | src/components/BookSelection.tsx:59 | For progress in 1..100 the level is 1..6, and 6 only at 100. |
| BookSelectionForm.MasteryBadgeMonotone | src/components/BookSelection.tsx:59 | More progress never shows a lower badge. |
| ReflectionForm.HandleChange | src/components/ReflectionScreen.tsx:22-24 | The named field takes the value and the others are unchanged. |
| ReflectionForm.HandleChangeLaws | src/components/ReflectionScreen.tsx:22-24 | Writing a field's own value changes nothing, and a second write to a field overrides the first. |
| ReflectionForm.HandleChangeCommutes | src/components/ReflectionScreen.tsx:22-24 | Writes to different fields commute. |
| ReflectionForm.Save | src/components/ReflectionScreen.tsx:26-66 | Save passes the reflection on, unchanged, iff some field has non-whitespace content. |
| ReflectionForm.SaveNeedsAnAnswer | src/components/ReflectionScreen.tsx:16-26 | The empty start cannot be saved; after one edit it can iff that edit has content. |
| ReflectionForm.WhitespaceIsNoContent | src/components/ReflectionScreen.tsx:26 | Whitespace-only answers cannot be saved. |
| FocusRatingForm.RatingStep | src/components/FocusRating.tsx:37-42 | A click selects the star, entering hovers it, leaving clears the hover; each touches nothing else. |
| FocusRatingForm.StepKeepsRange | src/components/FocusRating.tsx:37-42 | Events from the five stars keep the hover and the selection within 1..5. |
| FocusRatingForm.Submit | src/components/FocusRating.tsx:16-20 | Continue rates iff a star is selected, passing exactly that star. |
| FocusRatingForm.ReplaySelected | src/components/FocusRating.tsx:12-14 | Without clicks the selection stays; otherwise it is the last click's star. |
| FocusRatingForm.SubmitIsLastClick | src/components/FocusRating.tsx:12-20 | After any click, Continue rates; what it passes is the last click's star. |
| FocusRatingForm.GoldIsPrefix | src/components/FocusRating.tsx:45-48 | With no hover, exactly the stars up to the selection are highlighted. |
| FocusRatingForm.RatingMessage | src/components/FocusRating.tsx:57-64 | There is a message iff the rating is 1..5. |
| Common.TrimEmptyIff | src/components/ReflectionScreen.tsx:26 | A trimmed text is empty iff the text has no non-whitespace character. |
| Common.TrimIdempotent | src/components/AISynthesis.tsx:12 | Trimming twice is trimming once. |
| CookieConsent.ParseConsent | src/components/CookieConsent.tsx:25-29 | Each known consent text reads as its own value; anything else is kept verbatim. |
| CookieConsent.ConsentRoundTrip | src/components/CookieConsent.tsx:25-29 | A consent written and read back is unchanged. |
| CookieConsent.DecodeSettings | src/components/CookieConsent.tsx:31-33 | Only a settings encoding is read as settings. |
| CookieConsent.SettingsRoundTrip | src/components/CookieConsent.tsx:41 | Settings written with `JSON.stringify` read back unchanged. |
| CookieConsent.EncodeSettings | src/components/CookieConsent.tsx:41 | The stored text is a JSON object that starts with the essential flag; `CookieConsent.SettingsRoundTrip` reads it back. |
| CookieConsent.DecodeSettingsIff | src/components/CookieConsent.tsx:31-41 | A text reads as given settings iff it is their encoding. |
| CookieConsent.Mount | src/components/CookieConsent.tsx:17-34 | Start at pending with only essential on. A stored non-empty consent replaces pending, and stored settings replace the defaults. |
| CookieConsent.Choose | src/components/CookieConsent.tsx:36-57 | A choice sets both values in memory and writes both keys, readable back. Every other key is untouched. |
| CookieConsent.AcceptAll | src/components/CookieConsent.tsx:36-42 | Consent `all` with every flag on, persisted under both keys; other keys untouched. |
| CookieConsent.AcceptEssential | src/components/CookieConsent.tsx:44-50 | Consent `essential` with only the essential flag, persisted; other keys untouched. |
| CookieConsent.SaveCustom | src/components/CookieConsent.tsx:52-57 | Consent `custom` with the given flags verbatim, persisted; other keys untouched. |
| CookieConsent.Reset | src/components/CookieConsent.tsx:59-63 | Back to pending with both keys removed. The in-memory flags and every other key stay. |
| CookieConsent.ChoiceSurvivesReload | src/components/CookieConsent.tsx:24-57 | Reloading after any choice restores exactly the state it set, so the banner stays hidden. |
| CookieConsent.ShowBanner | src/components/CookieConsent.tsx:72 | The banner shows for the initial state and is hidden after any of the three choices. |
| CookieConsent.ResetShowsBannerAfterReload | src/components/CookieConsent.tsx:59-72 | After a reset the banner shows, and a reload starts from the initial state. |
| CookieConsent.ChoicesIdempotent | src/components/CookieConsent.tsx:36-57 | Making the same choice twice is the same as making it once. |
| CookieConsent.LastChoiceWins | src/components/CookieConsent.tsx:36-57 | A later choice overrides an earlier one completely. |
| CookieConsent.ChooseTwice | src/components/CookieConsent.tsx:36-57 | Two choices in a row leave exactly what the second one alone leaves. |
| Analytics.IsEnabledAsWritten | src/lib/analytics.ts:22-36 | As written, under the hyphenated keys: `accepted` turns tracking on; `custom` with readable settings gives their analytics flag; `custom` without readable settings, any other value, or no consent key gives off. |
| Analytics.BannerLeavesLegacyKeys | src/lib/analytics.ts:24-25 | No sequence of banner choices creates, changes or removes the keys the gate reads. |
| Analytics.AsWrittenNeverEnabled | src/lib/analytics.ts:22-36 | From a store without the hyphenated key, no banner choice ever enables tracking. |
| Analytics.AcceptAllLeavesAnalyticsOffAsWritten | src/lib/analytics.ts:27 | "Accept all" turns the analytics flag on, yet the gate as written stays off. |
| Analytics.IsEnabled | src/lib/analytics.ts:22-36 | Reading the banner's keys, tracking is on iff the banner's state after a reload means analytics consent: `all` turns it on, `custom` with readable settings gives their analytics flag, anything else gives off. |
| Analytics.ConsentChoicesGovernAnalytics | src/lib/analytics.ts:22-36 | Accept all enables tracking; essential-only and reset disable it; a custom choice enables it iff its analytics flag is on. |
| Analytics.GetSessionId | src/lib/analytics.ts:61-68 | A stored non-empty id is returned as is. Otherwise a fresh `session_…` id is made. The id returned is the one kept. |
| Analytics.SessionIdReused | src/lib/analytics.ts:61-68 | Once an id exists, every later call returns it whatever the clock and random draw. |
| Analytics.KeepLast | src/lib/analytics.ts:75-77 | The buffer keeps the last min(n, length) events, in order. |
| Analytics.KeepLastConcat | src/lib/analytics.ts:72-78 | Trimming before appending does not change the last n of the concatenation. |
| Analytics.StoreEvent | src/lib/analytics.ts:70-82 | A successful write appends the event and keeps the last hundred, in order. A failed write leaves the buffer. |
| Analytics.StoreAllIsLastHundred | src/lib/analytics.ts:70-82 | Storing events one by one leaves exactly the last hundred of all of them, in order. |
| Analytics.Track | src/lib/analytics.ts:38-59 | Gated by the corrected consent check: without consent nothing changes. With consent the stored event carries the given name, properties and timestamp and the page's session id, and the buffer is the old buffer with the event appended and cut to the last hundred; a failed write leaves the buffer. |
| Analytics.Record | src/lib/analytics.ts:44-79 | Past the gate: the consent store is untouched and a session id is kept. A successful write appends the event to the old buffer and keeps the last hundred, the event carrying the session id; a failed write leaves the buffer. |
| Analytics.TrackAsWritten | src/lib/analytics.ts:38-79 | Gated by the check as written: without it nothing changes. With it the event carries the given name, properties, timestamp and session id, and the buffer is the old one with the event appended and cut to the last hundred; a failed write leaves the buffer. |
| Analytics.TrackAsWrittenIgnoresBanner | src/lib/analytics.ts:38-42 | As written, after any banner choices on a store without the hyphenated key, tracking records nothing; with the corrected gate, "accept all" lets the event through. |
| Analytics.OneSessionIdPerPage | src/lib/analytics.ts:49 | Two events tracked in one page session carry the same id. |
| AuthContext.DerivedFlags | src/contexts/AuthContext.tsx:241-244 | Guest iff no user, and logged in iff not a guest. Premium only with a premium profile. Credits come from the profile, or 2 without one. |
| AuthContext.AuthStateChange | src/contexts/AuthContext.tsx:79-92 | The session's user replaces the current one. Without a user the profile is dropped. |
| AuthContext.ProfileFetched | src/contexts/AuthContext.tsx:56-68 | A completed fetch sets the profile (none on failure) and keeps the user. |
| AuthContext.SignOut | src/contexts/AuthContext.tsx:169-176 | Signing out clears the profile at once. |
| AuthContext.SignOutFlags | src/contexts/AuthContext.tsx:169-244 | After signing out nothing premium remains and the guest credit figure shows. Once the session ends the visitor is a guest. |
| AuthContext.UseCredit | src/contexts/AuthContext.tsx:178-197 | Without a user or profile, or with no credits, nothing is written and the answer is false. Otherwise the row is set to one fewer credit. The answer is the write's success, and only then does the profile lose one credit. |
| AuthContext.CreditsAccounting | src/contexts/AuthContext.tsx:178-197 | Over any run the profile loses exactly one credit per true answer. No more calls succeed than there were credits, and a non-negative balance never goes negative. |
| AuthContext.OverlappingCallsOverspend | src/contexts/AuthContext.tsx:178-196 | Two overlapping calls on one credit both pass the check and both write 0; the two decrements leave -1 in memory. |
| AuthContext.DecrementProfile | src/contexts/AuthContext.tsx:195 | The updater takes one credit from whatever profile is current and keeps the user; without a profile it does nothing. |
| AuthContext.RowOf | src/contexts/AuthContext.tsx:212-223 | The row written reads back as the guest's statistics. |
| AuthContext.MergeGuestProgress | src/contexts/AuthContext.tsx:199-239 | A write happens iff a user is signed in and their stored row has no session. It goes to that user and carries the guest's statistics. The notice shows iff the write succeeded. |
| AuthContext.MergeNeverOverwritesProgress | src/contexts/AuthContext.tsx:208 | An account with sessions, or a visitor without a user, is never written. |
| AuthContext.MergeRoundTrip | src/contexts/AuthContext.tsx:208-236 | Merging into a fresh account writes the guest's statistics unchanged and confirms. |
| Mascot.Next | src/components/MascotHelper.tsx:51-53 | Next moves one message on, wrapping from the last to the first. |
| Mascot.Prev | src/components/MascotHelper.tsx:55-57 | Previous moves one message back, wrapping from the first to the last. |
| Mascot.NextPrevInverse | src/components/MascotHelper.tsx:51-57 | Previous undoes next and next undoes previous. |
| Mascot.NextN | src/components/MascotHelper.tsx:51-53 | Any number of nexts stays among the six messages. |
| Mascot.NextNIsRotation | src/components/MascotHelper.tsx:51-53 | n nexts move n places round the ring. |
| Mascot.FullCycle | src/components/MascotHelper.tsx:51-53 | Six nexts come back to the same message. |
| Mascot.Counter | src/components/MascotHelper.tsx:139 | The counter reads index+1 of 6. |
| Mascot.HelperStep | src/components/MascotHelper.tsx:24-114 | The index stays in range. The button toggles the panel and hides the prompt; closing shuts the panel. Activity and the prompt timeout hide the prompt. The idle timeout shows the prompt only with the panel closed. Only the button and closing change the panel, and only next and previous move the index. |
| Mascot.ReopenKeepsPlace | src/components/MascotHelper.tsx:17-19 | Closing and reopening the panel keeps the message reached. |
| Mascot.PromptNeedsIdle | src/components/MascotHelper.tsx:24-37 | Without an idle timeout the prompt never appears. |
| Mascot.PromptVisible | src/components/MascotHelper.tsx:66 | The prompt bubble is never drawn while the panel is open, nor without the prompt flag. |
| AuthModalForm.ValidateForm | src/components/auth/AuthModal.tsx:36-57 | One message per failing field: the email one iff the email check fails, the password one iff it is shorter than 6. |
| AuthModalForm.FormValidIff | src/components/auth/AuthModal.tsx:10-11 | The form is valid iff the email passes and the password has at least six characters. |
| AuthModalForm.Submit | src/components/auth/AuthModal.tsx:59-71 | Errors become the validation result. A request is sent iff the form is valid, with the spinner on. Login sends a sign-in and signup a sign-up with the name; the fields stay. |
| AuthModalForm.ErrorText | src/components/auth/AuthModal.tsx:73-81 | Bad credentials take precedence, then already-registered; any other message is shown raw. |
| AuthModalForm.ContainsInfix | src/components/auth/AuthModal.tsx:75-77 | `includes` finds a phrase wherever it sits in the message. |
| AuthModalForm.ErrorTextRecognisesInvalidCredentials | src/components/auth/AuthModal.tsx:75-76 | Any message wrapping the bad-credentials phrase is reported as bad credentials. |
| AuthModalForm.ErrorTextRecognisesAlreadyRegistered | src/components/auth/AuthModal.tsx:77-78 | Any message wrapping the already-registered phrase, and not the bad-credentials one, is reported as already registered. |
| AuthModalForm.Respond | src/components/auth/AuthModal.tsx:73-89 | On error the email field shows the mapped text and the fields stay. On success the dialog closes and the three fields are cleared. The spinner stops either way. |
| AuthModalForm.SuccessResetsForm | src/components/auth/AuthModal.tsx:82-87 | A valid submit that succeeds leaves a closed, empty dialog with no errors. |
| AuthModalForm.ApplyEdit | src/components/auth/AuthModal.tsx:165-168 | Editing the email or password, or switching mode, clears every error; editing the name does not. |
| AuthModalForm.ResubmitAfterFix | src/components/auth/AuthModal.tsx:186-189 | After a failed submit, fixing both fields lets the next submit send its request. |
| AuthModalForm.ModalTitle | src/components/auth/AuthModal.tsx:98 | A given non-empty title wins; otherwise the title follows the mode. |

## Findings

| source | as written | input that shows it | evidently intended | confidence | as-written member | corrected member |
|---|---|---|---|---|---|---|
| src/components/FocusSession.tsx:33-42 | The final tick schedules `setTimeout(onComplete, 500)`; the effect's cleanup clears only the interval, and the Cancel button (src/components/FocusSession.tsx:116-121) stays live at 00:00. | The timer reaches 00:00 and Cancel is pressed within half a second: the dashboard shows, then the late `handleSessionComplete` calls `completeSession` (+25 XP) for the cancelled attempt, or with ratings on opens the rating screen. | Cancelling, or leaving the timer, discards the pending completion. | not executed | ScreenFlow.CancelAfterFinalTickStillCompletes | ScreenFlow.TimedRunAccounting |
| src/lib/analytics.ts:24-27 | The gate reads `cookie-consent` and `cookie-settings` and accepts the consent value `accepted`. The cookie banner (src/components/CookieConsent.tsx:13-14, 40) writes `cookie_consent` and `cookie_settings` with the consent value `all`. | An empty store followed by "Accept all": the banner stores `cookie_consent` = `all` and `cookie_settings` with analytics on, yet `isEnabled` reads no `cookie-consent` and returns false. | The gate reads the keys the banner writes: `all`, or `custom` with the analytics flag. | not executed | Analytics.AcceptAllLeavesAnalyticsOffAsWritten | Analytics.ConsentChoicesGovernAnalytics |

Under the gate as written (`Analytics.IsEnabledAsWritten`), no sequence of banner choices ever
enables tracking (`Analytics.AsWrittenNeverEnabled`), so `track` as written
(`Analytics.TrackAsWritten`) records nothing (`Analytics.TrackAsWrittenIgnoresBanner`).
`Analytics.Track` uses the corrected gate `Analytics.IsEnabled`.

The completion timeout of the focus timer is modelled by `ScreenFlow.TimedStepAsWritten`, where a
cancel leaves it pending, and by the corrected `ScreenFlow.TimedStep`, where leaving the timer drops
it; corrected timed runs are page runs (`ScreenFlow.TimedRunIsRun`), so the run accounting carries
over (`ScreenFlow.TimedRunAccounting`).

## Left out

- Rendering, CSS classes, animations, confetti and the level-up overlay's stages: presentation only.
- Timers (`setInterval`, `setTimeout`, the idle and prompt timers, the 1.5 s synthesis delay, the typewriter cadence) are discrete events; their durations are not modelled.
- Supabase and Stripe calls are outcome parameters: profile fetch and update, sign-in, sign-up, OAuth, the progress query and update, the waitlist, payments.
- The Google sign-in and the email sign-in/sign-up calls of the account context are not modelled: they only forward to the provider and show a notice.
- `refreshProfile` and the initial `getSession` call are not modelled separately: they have the same effect as `AuthContext.ProfileFetched` and `AuthContext.AuthStateChange`.
- Floating-point percentages use exact reals: the XP bar, node and teaser widths, the weekly-goal bar. The focus ring's dash offset and the heatmap's bar widths are not modelled.
- Streak computation, weekly-goal counter updates and the goal bonus, note-cap enforcement on insert, guest quotas and the soft-lock screen are not in the code and are not modelled.
- The index page calls `completeSession(id, rating)` and reads `settings`; the hook's `completeSession` takes only the book id and the hook returns no settings. The rating is carried in the model's effect but does not change the stats. Settings are one value for a whole run (`ScreenFlow.Run`); a change on the settings screen is modelled as the start of a new run.
- The screen machine's effects are the three progress calls. The `addCustomBook` call of book selection is `Progression.AddCustomBook` and `BookSelectionForm.HandleAddCustomBook`; the settings screen's `updateSettings` is not modelled.
- `ScreenFlow.Enabled`: the completion callback is an event of the timer screen only; its late arrival after a cancel is an event of the timed layer (`ScreenFlow.TimedStepAsWritten`), not of `ScreenFlow.Step`.
- `ScreenFlow.RunAccounting`: holds for page runs, where the completion comes from the timer screen. With the timeout as written it fails (`ScreenFlow.CancelAfterFinalTickStillCompletes`); with the corrected timeout it holds for every timed run (`ScreenFlow.TimedRunAccounting`).
- `Progression.AdvanceBooks`: one random draw `jitter` serves every book with the matching id, where the source draws per book; the two agree when book ids are distinct.
- `Dashboard` is passed `onViewSettings` and `onViewSocial`, which its props do not declare; the settings and social screens are entered through events of the screen machine.
- The index page shows the evolution path for the gallery screen; the gallery card labels are modelled from `AvatarGallery` itself.
- The heatmap's year-view aggregation runs after the month view's early return, which breaks React's order of hooks. The model computes both views as plain functions.
- The heatmap's date strings come from a `dateOf` parameter standing for `Date` arithmetic and `toISOString`; note dates are millisecond timestamps, not formatted dates.
- `CookieConsent.Mount`: settings are read only when stored in `JSON.stringify`'s exact text. Other valid JSON, which `JSON.parse` would accept, falls back to the defaults here. Malformed text, on which the hook's effect would throw, also falls back to the defaults.
- `Analytics.IsEnabledAsWritten`: reads settings only in `JSON.stringify`'s exact text, like `CookieConsent.Mount`. Other JSON with `"analytics": true` gives false here, where the source would give true.
- `Analytics.IsEnabled`: the same restriction to the exact settings text.
- `Analytics.Track`: gated by the corrected `Analytics.IsEnabled`, not by the `isEnabled` that src/lib/analytics.ts:39 calls, so on a store holding `cookie_consent` = `all` it records the event where the code returns at line 41. `Analytics.TrackAsWritten` models the code's gate. The event buffer is a typed list rather than JSON text under `analytics_events`; a buffer text that fails to parse is the same silent failure as `writeOk = false`.
- The analytics helpers (`trackSessionDuration`, `trackXPGained`, `trackUpgradeViewed`, `trackCreditsUsed`) only call `track` with fixed names, and the console logging is output only.
- `AuthContext.MergeGuestProgress`: the written row carries the statistics only. The last session date, book notes, weekly goals and settings the source also writes are not modelled.
- `AuthContext.RowOf`: covers the same statistics-only row.
- `AuthContext.CreditsAccounting`: holds only for calls that run one after another. `useCredit` is asynchronous and reads the profile of the render that created it, so two overlapping calls with one credit both pass the check, both write 0, and the two decrements leave -1 in memory (`AuthContext.OverlappingCallsOverspend`).
- `CookieConsent.Mount`: the banner and the footer each call the hook, so each has its own state; the model follows one instance.
- `BookNotes.SortNewestFirst`: proves the newest-first order and the permutation, but not that notes with equal dates keep their relative order as `Array.prototype.sort` does.
- `BookNotes.PreviewText`: states a prefix relation only; the exact text is proved for clean fields (`BookNotes.PreviewOfCleanFields`). Its 80 and 83 bounds count scalar values, not UTF-16 code units.
- `Common.Lower` lowers ASCII letters only; `toLowerCase`'s Unicode tables are not modelled.
- `AuthModalForm.ValidateForm`: the password length counts characters, where JavaScript counts UTF-16 code units. Zod's email check is the `isEmail` parameter.
- `SynthesisTemplate.Part`: slices count characters, not UTF-16 code units.
- `SynthesisTemplate.TakeawayOf`: the 100-character cap of `.slice(0, 100)` counts Unicode scalar values, where JavaScript counts UTF-16 code units; on text with characters outside the Basic Multilingual Plane (emoji) the cut falls later than in the source.
- `SynthesisTemplate.SynthesisOf`: carries the same scalar-value count for the takeaway's 100-character cap.
- `SynthesisTemplate.GenerateMockSynthesis`: carries the same scalar-value count for the takeaway's 100-character cap.
- `SynthesisTemplate.TakeawayQuotesFirstNonEmpty`: its min(100, n) length is in scalar values, not UTF-16 code units.
- `BookNotes.Truncate80`: `length > 80` and `substring(0, 80)` count UTF-16 code units; the model counts scalar values, so on text with emoji the cut falls at a different place.
- `BookNotes.PreviewOfCleanFields`: its short-total condition is measured in scalar values, not UTF-16 code units.
- `FocusTimer.FormatTimeRoundTrip` holds below 6000 seconds; above that `padStart` gives a three-digit minute field.
- `Mascot.HelperStep`: the idle and prompt timeouts are events. The restart of the idle timer when the panel opens or closes is modelled only as the prompt being hidden by the button.
- Static and marketing screens (landing, legal pages, footer, social preview, upgrade, celebration, guest banner, soft-lock view, mobile navigation, user menu, XP bar, stats, onboarding, the mascot view) hold no logic beyond what is modelled.
