# Spiritual wellness app: state logic in Dafny

This project models the state handling of five React components of a
spiritual-wellness web app, and proves properties of it:

- **Breathing animation** (`src/components/features/BreathingAnimation.tsx`).
  A four-phase countdown: inhale 4 s, hold 4 s, exhale 6 s, rest 2 s. A tick
  runs once per second while the exercise is active, and a start/stop button
  controls it. Module `Breathing`.
- **Journal** (`src/pages/Journal.tsx`). A list of entries with an editor.
  Save is refused for a blank title or content, and otherwise updates the
  entry in place or adds it at the front. Entries can be deleted, starred as
  favourites, and filtered by "all", "favorites" or a mood. Module `Journal`.
- **Practices** (`src/pages/Practices.tsx`). Named practices, each with the
  dates it was done on. A date can be toggled for the selected day.
  Practices can be added, updated and deleted. The page counts completions
  per day, computes a streak over the last 30 days, and shows a seven-day
  strip. Module `Practices`.
- **Insights** (`src/pages/Insights.tsx`). A favourites list of quote texts
  and a case-insensitive search over quote text and author. Module
  `Insights`.
- **Meditation** (`src/pages/Meditation.tsx`). The `mm:ss` clock formatter
  and the handlers of the guided-session and custom timer. Module
  `Meditation`.

Two modules hold what the pages share:

- `Lists`: the model of JavaScript's `filter`, the toggle-membership idiom,
  `reverse` and order-preserving sublists.
- `Text`: `trim`, ASCII lower-casing and `includes`.

Component state is modelled as classes:

- `BreathingAnimation`, `JournalPage`, `PracticesPage`, `InsightsPage` and
  `MeditationPage` are classes whose fields are the component's `useState`
  variables.
- Each handler is a method whose `modifies` clause covers the page. Its
  `ensures` gives every field of the new state, in terms of pure functions of
  the old one; `PracticesPage` and `BreathingAnimation` do this by comparing
  a `State()` snapshot of all their fields.
- The properties of those functions are proved as their own `ensures` and as
  lemmas.

Inputs the components get from outside become parameters:

- Dates are whole numbers of days back from today (0 is today).
- Entry ids taken from the clock and practice ids drawn at random are passed
  to the methods that create entries or practices.

Stopping the breathing exercise after 8 seconds leaves it showing
(exhale, 6). After 8 ticks the exercise has just entered the exhale phase
with its full six seconds loaded, and pressing stop freezes phase and
counter as they are. `Breathing.StartStopScenario` states this sequence.

## Model

| member | source | states |
|---|---|---|
| Breathing.BreathingAnimation.constructor | src/components/features/BreathingAnimation.tsx:4-6 | the exercise starts at phase inhale, counter 4, inactive, which satisfies the counter invariant |
| Breathing.Advance | src/components/features/BreathingAnimation.tsx:9-31 | an inactive exercise is unchanged; the active flag is kept; above 1 the counter drops by one in the same phase; at 1 the next phase of the cycle is entered with its full duration loaded, which is at least 2; the invariant 1 <= counter <= duration(phase) is preserved |
| Breathing.BreathingAnimation.Tick | src/components/features/BreathingAnimation.tsx:11-31 | the literal if-chain of the interval callback computes exactly `Advance` of the old state and keeps the counter invariant |
| Breathing.Toggled | src/components/features/BreathingAnimation.tsx:37-43 | the active flag flips; starting always gives (inhale, 4); stopping keeps phase and counter; the invariant is preserved |
| Breathing.BreathingAnimation.HandleToggle | src/components/features/BreathingAnimation.tsx:37-43 | the handler's new state is `Toggled` of the old one |
| Breathing.TicksAdd | src/components/features/BreathingAnimation.tsx:11-32 | m ticks followed by n ticks are m + n ticks |
| Breathing.CountdownWithinPhase | src/components/features/BreathingAnimation.tsx:28-30 | fewer than c ticks from counter c stay in the phase and lower the counter by one each |
| Breathing.CountdownToNextPhase | src/components/features/BreathingAnimation.tsx:13-30 | exactly c ticks from counter c reach the next phase with its full duration loaded |
| Breathing.FullCycle | src/components/features/BreathingAnimation.tsx:13-30 | from (inhale, 4) the first 16 ticks pass through inhale, hold, exhale and rest for 4, 4, 6 and 2 seconds in order; tick 16 is (inhale, 4) again and no earlier tick is |
| Breathing.StoppedIsFrozen | src/components/features/BreathingAnimation.tsx:9 | no number of ticks changes an inactive exercise |
| Breathing.TicksKeepValid | src/components/features/BreathingAnimation.tsx:13-30 | any run of ticks keeps the counter between 1 and the phase's duration |
| Breathing.StartStopScenario | src/components/features/BreathingAnimation.tsx:11-43 | start, 4 ticks, 4 ticks, stop, start gives (inhale, 4), (hold, 4), (exhale, 6), stopped at (exhale, 6), then (inhale, 4) |
| Breathing.Instruction | src/components/features/BreathingAnimation.tsx:45-58 | every phase has a non-empty instruction line |
| Breathing.InstructionsDistinct | src/components/features/BreathingAnimation.tsx:45-58 | different phases have different instruction lines |
| Breathing.InstructionsDiffer | src/components/features/BreathingAnimation.tsx:45-58 | no other phase shares a phase's instruction line |
| Breathing.BreathingAnimation.Instructions | src/components/features/BreathingAnimation.tsx:45-58 | `getInstructions` gives a non-empty line that is the instruction line of a phase exactly when that phase is the current one |
| Breathing.ButtonLabel | src/components/features/BreathingAnimation.tsx:100 | the caption is "Stop" exactly when the exercise is active |
| Breathing.BreathingAnimation.Label | src/components/features/BreathingAnimation.tsx:100 | the button reads "Stop" exactly while the exercise is active |
| Journal.Upsert | src/pages/Journal.tsx:55-61 | a present id: same length, every entry with that id replaced by the new one, all others unchanged in place; an absent id: the new entry first, then the old list; ids unique before stay unique |
| Journal.HasId | src/pages/Journal.tsx:55 | `entries.some(entry => entry.id === id)` holds exactly when some entry has the id |
| Journal.JournalPage.SaveEntry | src/pages/Journal.tsx:52-64 | a blank trimmed title or content leaves entries and editor untouched; otherwise the entries become `Upsert` of the current entry and the editor closes; ids stay unique |
| Journal.RemoveById | src/pages/Journal.tsx:67 | no entry with the id is left; an entry with another id keeps its exact number of copies, in order; nothing is added; an absent id changes nothing; unique ids stay unique |
| Journal.JournalPage.DeleteEntry | src/pages/Journal.tsx:66-71 | the entries become `RemoveById`; the editor closes only if the current entry has the deleted id |
| Journal.ToggleFavoriteById | src/pages/Journal.tsx:73-77 | same length; each entry differs from the old one at most in `favorite`, which flips exactly when its id matches |
| Journal.ToggleFavoriteTwice | src/pages/Journal.tsx:73-77 | starring the same id twice restores the list |
| Journal.JournalPage.ToggleFavorite | src/pages/Journal.tsx:73-77 | the entries become `ToggleFavoriteById`, the editor and filter are unchanged |
| Journal.Filtered | src/pages/Journal.tsx:96-100 | "all" is the whole list; "favorites" keeps exactly the starred entries with their number of copies; any other value keeps exactly the entries of that mood with their number of copies; always an order-preserving sublist |
| Journal.JournalPage.FilteredEntries | src/pages/Journal.tsx:96-100 | the shown list is an order-preserving sublist of the entries: all of them under "all"; under "favorites" exactly the starred ones, each with its number of copies; under a mood name exactly the entries of that mood, each with its number of copies |
| Journal.JournalPage.constructor | src/pages/Journal.tsx:14-29 | the saved entries, a closed editor on a blank peaceful entry dated today, filter "all" |
| Journal.JournalPage.NewEntry | src/pages/Journal.tsx:35-45 | the editor opens on a blank peaceful, unstarred entry with the given id and date |
| Journal.JournalPage.EditEntry | src/pages/Journal.tsx:47-50 | the editor opens on the given entry |
| Journal.JournalPage.CancelEdit | src/pages/Journal.tsx:266 | the editor closes, nothing else changes |
| Journal.JournalPage.SetFilter | src/pages/Journal.tsx:122-182 | only the filter changes |
| Practices.ToggleDay | src/pages/Practices.tsx:68-78 | the date's membership flips and `isCompleted` equals the new membership; id, name and description are kept; an absent date is appended; a present date leaves a sublist with no copy of it and every other date with its number of copies |
| Practices.ToggleCompleted | src/pages/Practices.tsx:66-82 | same length; practices with other ids are unchanged; each practice with the id becomes exactly `ToggleDay` of it for the date, so it keeps id, name and description and has the date's membership flipped with `isCompleted` following it |
| Practices.ToggleDayTwiceAbsent | src/pages/Practices.tsx:69-72 | toggling an absent date twice restores the completion list exactly |
| Practices.ToggleDayDropsAll | src/pages/Practices.tsx:69-71 | toggling a present date removes every copy of it; every other date keeps its membership and its number of copies |
| Practices.PracticesPage.Toggle | src/pages/Practices.tsx:66-82 | of the seven page fields only the practices change, to `ToggleCompleted` for the selected date |
| Practices.AddPractice | src/pages/Practices.tsx:84-95 | a blank trimmed name changes nothing; otherwise the old list followed by one new, uncompleted practice with no dates |
| Practices.PracticesPage.Add | src/pages/Practices.tsx:84-98 | a blank trimmed name leaves all seven page fields unchanged; otherwise the practices become `AddPractice`, name and description are cleared and the add form closes, and the selected date, edit id and streak are kept |
| Practices.UpdatePractice | src/pages/Practices.tsx:100-107 | same length; ids, dates and completion flags never change; a blank name changes nothing; otherwise only the matching practices get the new name and description |
| Practices.PracticesPage.Update | src/pages/Practices.tsx:100-111 | a blank trimmed name leaves all seven page fields unchanged; otherwise the practices become `UpdatePractice`, the form is cleared and no practice is being edited, and the selected date, add form and streak are kept |
| Practices.PracticesPage.Edit | src/pages/Practices.tsx:113-116 | the form holds the practice's name and description and its id is the one being edited; the other page fields are unchanged |
| Practices.DeletePractice | src/pages/Practices.tsx:119 | an order-preserving sublist with no practice of the id; every practice with another id keeps its exact number of copies |
| Practices.PracticesPage.Delete | src/pages/Practices.tsx:118-124 | the practices become `DeletePractice`; the edit id and form fields are cleared exactly when the deleted practice was being edited; every other page field is unchanged |
| Practices.PracticesPage.OpenAddForm | src/pages/Practices.tsx:222-226 | the add form opens empty and no practice is being edited; the practices, selected date and streak are unchanged |
| Practices.PracticesPage.CloseAddForm | src/pages/Practices.tsx:268 | only the add-form flag changes, to closed |
| Practices.PracticesPage.OpenFirstPracticeForm | src/pages/Practices.tsx:341-346 | the button shown while there are no practices opens the add form and changes no other page field, so the form fields and the edit id are kept |
| Practices.PracticesPage.CancelEdit | src/pages/Practices.tsx:316-319 | no practice is being edited and the form fields are empty; the other page fields are unchanged |
| Practices.PracticesPage.SelectDate | src/pages/Practices.tsx:190 | of the seven page fields only the selected date changes |
| Practices.CompletedCount | src/pages/Practices.tsx:126-128 | between 0 and the number of practices; positive exactly when some practice was done that day; equal to the number of practices exactly when all were |
| Practices.CompletedCountEmpty | src/pages/Practices.tsx:126-128 | no practices give a count of 0 |
| Practices.CompletedCountAppend | src/pages/Practices.tsx:126-128 | one more practice adds 1 to the count exactly when it was done that day, so the count is the number of practices done that day |
| Practices.RunFrom | src/pages/Practices.tsx:47-61 | the run of practised days from an offset to day 29 is at most the number of days left |
| Practices.Streak | src/pages/Practices.tsx:41-64 | between 0 and 30; at most 29 when nothing was done today; 30 exactly when every one of the 30 days was practised |
| Practices.StreakAllDays | src/pages/Practices.tsx:47-61 | the run from an offset is full exactly when every day from there to day 29 was practised |
| Practices.RunFromSplit | src/pages/Practices.tsx:47-61 | when days 1 to i-1 were all practised, the run from day 1 is those days plus the run from day i |
| Practices.ComputeStreak | src/pages/Practices.tsx:41-64 | the for-loop with its early exit computes `Streak` |
| Practices.PracticesPage.RefreshStreak | src/pages/Practices.tsx:41-64 | the streak effect: of the seven page fields only the shown streak changes, to `Streak` of the practices |
| Practices.GenerateCalendarDays | src/pages/Practices.tsx:130-151 | seven days, oldest first and today last, each with that day's completed count |
| Practices.PracticesPage.constructor | src/pages/Practices.tsx:15-35 | the saved practices, today selected, no form open and empty, nothing being edited, streak 0 |
| Insights.Search | src/pages/Insights.tsx:21-34 | always an order-preserving sublist; a term blank after trimming keeps every quote; otherwise exactly the quotes whose lower-cased text or author contains the lower-cased, untrimmed term, each with its number of copies |
| Insights.InsightsPage.SetSearchTerm | src/pages/Insights.tsx:21-34 | the shown quotes become `Search` of the quotes for the new term |
| Insights.InsightsPage.constructor | src/pages/Insights.tsx:9-15 | empty term, every quote shown, the saved favourites |
| Insights.SearchTermIsNotTrimmed | src/pages/Insights.tsx:24-31 | "rumi" finds a quote by Rumi while " rumi" does not, since the term is not trimmed before matching |
| Insights.ToggleFavorite | src/pages/Insights.tsx:36-42 | the text's membership flips; an absent text is appended; a present one leaves a sublist with no copy of it and every other favourite with its number of copies |
| Insights.ToggleFavoriteTwice | src/pages/Insights.tsx:36-42 | toggling an absent text twice restores the list |
| Insights.InsightsPage.ToggleFavoriteQuote | src/pages/Insights.tsx:36-42 | the favourites become `ToggleFavorite`, and the shown quotes are untouched |
| Insights.InsightsPage.SelectFavoritesChip | src/pages/Insights.tsx:201-202 | the chip sets the search term to "favorite" and shows `Search` of that word |
| Insights.FavoritesChipIsTextSearch | src/pages/Insights.tsx:201-202 | a quote whose text and author contain no letter f is never shown by the chip, since the chip only searches for the word "favorite" |
| Insights.FavoritesChipHidesAFavorite | src/pages/Insights.tsx:201-202 | starring the quote "We are all just walking each other home." puts its text in the favourites, yet the chip still shows nothing for it |
| Meditation.FormatTimeRoundTrip | src/pages/Meditation.tsx:14-18 | for a non-negative time the display is the minutes padded to at least two digits, a colon, and the seconds padded to two digits; reading it back gives the time |
| Meditation.FormatTimeWidth | src/pages/Meditation.tsx:14-18 | a non-negative time is shown in exactly five characters exactly when it is below 6000 seconds, with the colon at index 2 |
| Meditation.WholeMinutes | src/pages/Meditation.tsx:14-18 | a non-negative whole number of minutes, given in seconds, always ends in ":00" |
| Meditation.NegativeTime | src/pages/Meditation.tsx:15-17 | -30 seconds is shown as "-1:-30", because minutes round down and the remainder keeps the sign |
| Meditation.FormatTime | src/pages/Meditation.tsx:14-18 | at least five characters; a leading minus sign exactly for negative times; for a non-negative time the colon is the third character from the end |
| Meditation.ReadBack | src/pages/Meditation.tsx:14-18 | padded minutes, a colon and padded seconds read back as the total number of seconds |
| Meditation.ShownTime | src/pages/Meditation.tsx:121 | a non-negative time reads back as itself, and a whole number of minutes ends in ":00" |
| Meditation.NatToString | src/pages/Meditation.tsx:17 | `toString` of a number: digits only, with no leading zero except for 0 itself; one digit exactly below 10, at most two exactly below 100 |
| Meditation.IntToString | src/pages/Meditation.tsx:17 | `toString` of any whole number: a leading minus sign exactly for negatives, then the digits of the magnitude with no leading zero except for 0, which read back as the magnitude |
| Meditation.PadStart2 | src/pages/Meditation.tsx:17 | `padStart(2, '0')` keeps strings of two or more characters and left-pads shorter ones with zeros to exactly two |
| Meditation.JsRem60 | src/pages/Meditation.tsx:16 | `seconds % 60` has the dividend's sign, is below 60 in size and differs from the dividend by a multiple of 60 |
| Meditation.ParseNatToString | src/pages/Meditation.tsx:17 | reading the digits back gives the number |
| Meditation.MeditationPage.constructor | src/pages/Meditation.tsx:8-11 | the first guide selected, paused, 300 seconds, custom duration 5 |
| Meditation.MeditationPage.SelectGuide | src/pages/Meditation.tsx:20-24 | the guide is selected, the time is its duration in seconds, and playback pauses |
| Meditation.MeditationPage.TogglePlay | src/pages/Meditation.tsx:26-28 | only the play flag flips; the time remaining is unchanged |
| Meditation.MeditationPage.Reset | src/pages/Meditation.tsx:30-33 | the time is the selected guide's duration in seconds, playback pauses, the guide is kept |
| Meditation.ClampedDuration | src/pages/Meditation.tsx:37 | the stored duration is the value when positive and 1 otherwise, so always at least 1 |
| Meditation.MeditationPage.CustomDurationChange | src/pages/Meditation.tsx:35-39 | the stored duration is `ClampedDuration` of the value, while the time is the unclamped value in seconds |
| Meditation.SliderRange | src/pages/Meditation.tsx:174-176 | within the slider's range 1..60 the stored duration is the value and the time lies in 60..3600 seconds |
| Meditation.MeditationPage.Display | src/pages/Meditation.tsx:121 | the clock face reads back as the time remaining when it is not negative, and ends in ":00" for the whole minutes every handler sets |
| Lists.Filter | src/pages/Journal.tsx:67 | `filter` returns an order-preserving sublist of the input, no longer than it, whose elements all satisfy the predicate |
| Lists.FilterCounts | src/pages/Journal.tsx:67 | `filter` keeps every element that satisfies the predicate with its exact number of copies and drops every other one |
| Lists.FilterFacts | src/pages/Journal.tsx:67 | the membership, all-kept, shrinking and copy-count facts of `filter` together |
| Lists.FilterKeeps | src/pages/Journal.tsx:67 | every input element that satisfies the predicate is in the result |
| Lists.FilterMembers | src/pages/Journal.tsx:67 | every element of the result comes from the input |
| Lists.FilterKeepsAll | src/pages/Journal.tsx:67 | when every element satisfies the predicate the result is the input |
| Lists.FilterShrinks | src/pages/Journal.tsx:67 | when some element fails the predicate the result is shorter than the input |
| Lists.FilterAppend | src/pages/Journal.tsx:67 | filtering a concatenation is the concatenation of the filtered parts |
| Lists.ToggleMember | src/pages/Insights.tsx:37-41 | the shared toggle idiom: the element's membership flips and every other element keeps its membership; an absent element is appended; a present one is removed with all copies, leaving every other element's number of copies |
| Lists.ToggleMemberTwiceAbsent | src/pages/Practices.tsx:69-72 | adding and then removing an absent element restores the list |
| Lists.RemoveAll | src/pages/Practices.tsx:71 | removes every copy of the element and keeps the rest in order, each with its number of copies |
| Lists.Reverse | src/pages/Practices.tsx:150 | `reverse` has the same length and mirrors the indices |
| Lists.SublistKeepsDistinct | src/pages/Journal.tsx:67 | an order-preserving sublist of a list with distinct keys has distinct keys |
| Text.TrimStart | src/pages/Journal.tsx:53 | drops exactly the leading whitespace |
| Text.TrimEnd | src/pages/Journal.tsx:53 | drops exactly the trailing whitespace |
| Text.Trim | src/pages/Journal.tsx:53 | `trim()` is no longer than the string, starts and ends with a non-whitespace character when not empty, and is empty exactly when the string is all whitespace |
| Text.TrimBothEnds | src/pages/Journal.tsx:53 | `trim()` is the block of the string after its leading whitespace, and what lies before and after that block is whitespace |
| Text.TrimEmptyIffBlank | src/pages/Journal.tsx:53 | cutting leading and trailing whitespace leaves nothing exactly when the string is all whitespace |
| Text.Lower | src/pages/Insights.tsx:24 | ASCII `toLowerCase` keeps the length, leaves no upper-case letter, keeps every other character and moves each upper-case letter down by 32 |
| Text.Contains | src/pages/Insights.tsx:28-29 | a found term is never longer than the string, and the empty term is always found |
| Text.ContainsIffOccurs | src/pages/Insights.tsx:29-30 | `includes` holds exactly when the term occurs at some index |

## Left out

- Persistence is not modelled: `localStorage` reads and writes and `JSON.parse`/`stringify` of entries, practices and favourites. The constructors take the loaded value as a parameter.
- The `setInterval`/`clearInterval` scheduling of the breathing tick is not modelled. A tick is an explicit method call.
- The breathing tick sets the phase inside the counter updater, and the effect re-subscribes on each phase change. The model applies both as one step on the current state.
- Clock and dates are not modelled: `Date.now()`, `new Date()`, `toISOString()`, `setHours`/`setDate`, and the mix of local and UTC time. Days are whole-number offsets back from today, and the journal's id and date are parameters.
- `Math.random` ids are parameters.
- The random picks and the quote and practice text tables of the content utilities are left out, apart from the guide titles and durations and one quote of the table ("We are all just walking each other home.", `Insights.Homecoming`), which the favourites-chip lemmas use.
- Practices.GenerateCalendarDays does not give the weekday names ("Today", "Yesterday", `toLocaleDateString`) or the day of the month. These are locale and calendar output.
- Text.Lower models `toLowerCase` on ASCII letters only. Unicode case mapping is outside the model.
- Meditation.MeditationPage.CustomDurationChange takes the slider's value as an integer. `parseInt` and its `NaN` result are not modelled.
- JSX rendering, styling, `getMoodIcon`, the tab state of the meditation and insights pages, and the form fields' `onChange` handlers are left out. They are display or plain field assignment.
- The AI context, the home page, the header, the footer and routing are not part of this model.
- Practices.PracticesPage.RefreshStreak stands for the streak effect, which React runs after every change of the practices. The handlers do not call it, so between a change and the next refresh the shown streak is the one computed before the change.
- Insights.InsightsPage.SetSearchTerm runs the search effect synchronously with the change of term. React runs it after the render.
- Practices.ComputeStreak leaves the loop with `return` where the source uses `break`. Both end the loop with the same count.
