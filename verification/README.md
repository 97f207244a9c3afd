# Serenique digital wellness screens, modelled in Dafny

Serenique is a single-page React application with five working screens behind
a landing page. This project models the screens' state logic as pure functions over immutable data and proves
properties about it:

- **Focus Mode**:
  - the Pomodoro-style countdown, as a state machine over the `FocusSession` record: the one-second interval, automatic phase completion, and the Start, Pause/Resume, Stop and Reset buttons;
  - the `mm:ss` clock and the progress bar;
  - the editable list of sites to block.
- **Mood Journal**:
  - the 1–10 mood scale with its emoji and label lookups;
  - saving, deleting and loading-for-edit of journal entries.
- **Settings**:
  - notification switches;
  - blocked apps and sites;
  - the password-change form;
  - the initials shown in the avatar.
- **Analytics**: the chart's data selection with its fallback, the chart title, and the metric buttons' captions.
- **App shell**: navigation, and which screen a page id renders.

Modules:

| file | module | contents |
|---|---|---|
| `wrappers.dfy` | `Wrappers` | `Option` |
| `lists.dfy` | `Lists` | `Array.prototype.filter`, counting, duplicate-freedom |
| `strings.dfy` | `Strings` | JavaScript `trim`, `split`/`join`, decimal `toString`, `padStart` |
| `focus_session.dfy` | `FocusSession` | the countdown state machine |
| `focus_display.dfy` | `FocusDisplay` | `formatTime`, its inverse `ReadTime`, `getProgress` |
| `focus_block_list.dfy` | `FocusBlockList` | Focus Mode's blocked sites |
| `mood_journal.dfy` | `MoodJournal` | the mood journal |
| `settings.dfy` | `Settings` | the settings handlers |
| `analytics.dfy` | `Analytics` | the analytics selectors |
| `app.dfy` | `App` | page dispatch and navigation |

Modelling choices:

- **React updates.** Each state update is a function from old state to new state.
- **The Focus Mode effect.** A `useEffect` runs after every change of `isActive`, `isPaused` or `currentTime`. It is modelled by `FocusSession.Settle`, which runs after every event. So `FocusSession.Step` is one event followed by the effect.
- **Controls as events.** A control the screen shows only in some states (Start while idle, Pause/Resume while active, running or paused) is an event with an `Enabled` predicate.
- **Values from outside.** Ids and dates that come from `Date.now()` and `toISOString()` are parameters.

## Model

| member | source | states |
|---|---|---|
| FocusSession.Step | src/components/FocusMode.tsx:88-154 | an event followed by the effect never changes the phase lengths; the cycle count grows by one only when a break finishes; through the screen's controls, positive lengths, time left within the phase and pause-implies-active are kept; a button press never completes a phase |
| FocusSession.InitialValid | src/components/FocusMode.tsx:34-42 | the state on mount (25-minute focus, 5-minute break, idle) satisfies the invariant and has no interval set |
| FocusSession.RunPreservesValid | src/components/FocusMode.tsx:255-293 | any sequence of events the screen offers keeps the invariant and the phase lengths, and never lowers the cycle count |
| FocusSession.UnguardedPauseBreaksInvariant | src/components/FocusMode.tsx:133-135 | the pause toggle alone does not check `isActive`: pressed while idle it would leave a paused, inactive countdown, so the invariant rests on the screen hiding the button |
| FocusSession.TickOnce | src/components/FocusMode.tsx:91-97 | about `Tick`, the interval callback: while running, one interval firing takes exactly one second off, and the last second completes the phase |
| FocusSession.RunPhase | src/components/FocusMode.tsx:98-118 | about `Complete`, the completion branch, reached through `Settle`: a running phase ends after exactly its remaining seconds; focus becomes an idle full-length break, and a break becomes an idle full-length focus phase with one more completed cycle |
| FocusSession.RunPartial | src/components/FocusMode.tsx:91-97 | fewer seconds than remain subtract exactly that many from the clock and change nothing else |
| FocusSession.IdleSeconds | src/components/FocusMode.tsx:91 | with no interval armed (idle or paused), time passing changes nothing |
| FocusSession.StartArms | src/components/FocusMode.tsx:129-131 | about `Start` (`startSession`): Start on an idle countdown makes it active and unpaused, so the interval is armed; clock, phase, count and lengths are unchanged |
| FocusSession.PauseResume | src/components/FocusMode.tsx:133-135 | about `Pause` (`pauseSession`): Pause then Resume restores the state; neither touches the clock or the phase |
| FocusSession.StopRestoresPhase | src/components/FocusMode.tsx:137-144 | about `Stop` (`stopSession`): Stop goes idle at the full length of the current phase, keeping the phase, the count and the lengths |
| FocusSession.ResetToFocus | src/components/FocusMode.tsx:146-154 | about `Reset` (`resetSession`): Reset goes idle at the start of a focus phase, keeping the count and the lengths |
| FocusSession.ResetAbsorbs | src/components/FocusMode.tsx:129-154 | a button press followed by Reset is the same as Reset alone |
| FocusSession.FullCycleFromMount | src/components/FocusMode.tsx:34-118 | from mount: Start and 1500 seconds reach an idle 300-second break; Start and 300 more reach an idle focus phase with one cycle completed |
| FocusSession.PausedClockHolds | src/components/FocusMode.tsx:91-135 | Start, 10 seconds and Pause leave 1490 on the clock, and 100 paused seconds leave it there |
| FocusDisplay.Pad2 | src/components/FocusMode.tsx:126 | `toString().padStart(2, '0')` yields at least two digits, exactly two below 100, a leading zero only when padded to two, and its decimal value is the number |
| FocusDisplay.FormatTime | src/components/FocusMode.tsx:123-127 | the clock is digits, a colon, then two digits; the minutes field is padded to two digits and never beyond; the seconds field is below 60; minutes × 60 + seconds is the input |
| FocusDisplay.ReadFormatTime | src/components/FocusMode.tsx:123-127 | reading a formatted clock gives back the seconds it was made from, so no two second counts share a clock face |
| FocusDisplay.Progress | src/components/FocusMode.tsx:167-170 | the bar is within 0–100 while the time left is within the phase; it is 0 exactly at the phase's full length and 100 exactly at zero |
| FocusDisplay.ProgressAdvances | src/components/FocusMode.tsx:91-97 | every second of a running phase that does not end it moves the bar strictly forward |
| FocusDisplay.ProgressOnButtons | src/components/FocusMode.tsx:129-154 | a button that keeps the phase either keeps the bar or empties it |
| FocusDisplay.ProgressStartsAtZero | src/components/FocusMode.tsx:98-154 | after Stop, Reset or a phase completion the bar is empty |
| FocusBlockList.InitialDuplicateFree | src/components/FocusMode.tsx:44-51 | the six sites on mount are distinct |
| FocusBlockList.AddBlockedSite | src/components/FocusMode.tsx:156-161 | the trimmed input is appended exactly when it is non-empty and not yet listed, and then the text box clears; otherwise nothing changes; a duplicate-free list stays duplicate-free |
| FocusBlockList.RemoveBlockedSite | src/components/FocusMode.tsx:163-165 | the site is gone, the other sites stay in their original order, nothing new appears, and the length drops by the number of copies removed |
| FocusBlockList.AddThenRemove | src/components/FocusMode.tsx:156-165 | removing a site just added restores the list |
| Strings.Trim | src/components/FocusMode.tsx:157 | the trimmed text is no longer than the input and neither starts nor ends with JavaScript whitespace |
| Strings.TrimSlice | src/components/FocusMode.tsx:157 | the trimmed text is a slice of the input with only whitespace cut off on either side |
| Strings.TrimEmptyIff | src/components/FocusMode.tsx:157 | trimming gives the empty string exactly for all-whitespace input |
| Strings.TrimIdempotent | src/components/FocusMode.tsx:157-158 | trimming an already trimmed site changes nothing |
| Strings.Split | src/components/Settings.tsx:147 | `split` yields one more piece than there are separators, and no piece contains the separator |
| Strings.JoinSplit | src/components/Analytics.tsx:261 | joining the pieces with the separator gives back the original text |
| Strings.SplitJoin | src/components/Settings.tsx:147 | splitting separator-free pieces joined with the separator gives back the pieces |
| Strings.Decimal | src/components/FocusMode.tsx:126 | `toString` of a natural is digits with no leading zero that parse back to it; one digit below 10, at most two below 100 |
| Strings.PadStart | src/components/FocusMode.tsx:126 | padding reaches the width, keeps the text as a suffix and fills only in front |
| Lists.Filter | src/components/FocusMode.tsx:164 | `filter` returns a subsequence of the input (original order kept) made only of elements that pass, as long as the number of passing elements, so every passing element is kept with its multiplicity |
| Lists.FilterUnique | src/components/FocusMode.tsx:164 | the filter's contract pins its result: any ordered subsequence of passing elements as long as the number of passing elements equals the filter result |
| Lists.FilterLength | src/components/MoodJournal.tsx:95 | the filtered length is the original length minus the number of rejected elements |
| Lists.FilterNoDuplicates | src/components/FocusMode.tsx:164 | filtering a duplicate-free list leaves it duplicate-free |
| Lists.FilterAppend | src/components/FocusMode.tsx:158-164 | filtering a concatenation filters each part |
| MoodJournal.MoodTableShape | src/components/MoodJournal.tsx:59-70 | the scale lists 1 to 10 in order, each with a non-empty emoji and label |
| MoodJournal.FindOption | src/components/MoodJournal.tsx:73 | `find` returns nothing exactly when no option has the mood, and otherwise an option that has it |
| MoodJournal.FindNumbered | src/components/MoodJournal.tsx:59-73 | in a table whose values are 1, 2, 3, … in order, `find` for a value in range returns the row at that position |
| MoodJournal.FindOnScale | src/components/MoodJournal.tsx:72-78 | for a mood on the scale, `find` returns that mood's row |
| MoodJournal.GetMoodEmoji | src/components/MoodJournal.tsx:72-74 | the scale's emoji for 1–10 and the neutral face for any other mood |
| MoodJournal.GetMoodLabel | src/components/MoodJournal.tsx:76-78 | the scale's label for 1–10 and "Neutral" for any other mood |
| MoodJournal.SeededDisagrees | src/components/MoodJournal.tsx:38-42 | the sample entries' stored emojis do not follow the scale (mood 8 is stored with the emoji of mood 5) |
| MoodJournal.SaveMood | src/components/MoodJournal.tsx:80-92 | a new entry carrying the form's mood and note goes in front of the unchanged list, with the scale's emoji; the form resets to mood 5 and an empty note |
| MoodJournal.DeleteEntry | src/components/MoodJournal.tsx:94-96 | exactly the entries with that id are removed, the others stay in their original order, and an unknown id changes nothing |
| MoodJournal.EditEntry | src/components/MoodJournal.tsx:98-102 | the entry's mood and note load into the form and its id is remembered; the list is untouched |
| MoodJournal.Act | src/components/MoodJournal.tsx:144-321 | through the emoji buttons, slider, note box, save, edit and delete, the form's mood and every stored mood stay on the scale, and a list whose emojis follow the scale keeps following it |
| MoodJournal.SeededValid | src/components/MoodJournal.tsx:32-43 | the journal on mount has its form mood and every sample mood on the scale |
| MoodJournal.EditThenSaveKeepsOriginal | src/components/MoodJournal.tsx:80-102 | the remembered editing id is never used: editing then saving adds a second entry, and the original stays |
| Settings.UpdateNotification | src/components/Settings.tsx:75-77 | the key takes the new value, every other key keeps its own, and only that key can be added |
| Settings.InitialShaped | src/components/Settings.tsx:37-47 | the settings on mount are the seven switches holding flags and the two drop-downs holding choices |
| Settings.UpdateKeepsShape | src/components/Settings.tsx:218-266 | every update the switches and drop-downs make keeps exactly those nine keys, each with its kind of value |
| Settings.UpdateLastWins | src/components/Settings.tsx:75-77 | of two updates to one key the later wins |
| Settings.UpdatesCommute | src/components/Settings.tsx:75-77 | updates to different keys commute |
| Settings.UpdateUnchanged | src/components/Settings.tsx:75-77 | writing a key's current value back changes nothing |
| Settings.AddBlockedItem | src/components/Settings.tsx:79-90 | an item built from the form is appended exactly when name and address are both non-empty, and the form resets; otherwise nothing changes |
| Settings.AddAllowsDuplicateAddress | src/components/Settings.tsx:79-90 | an address already blocked is accepted again as a second item |
| Settings.RemoveBlockedItem | src/components/Settings.tsx:92-94 | exactly the items with that id are removed, the rest stay in their original order, and the form is untouched |
| Settings.AddThenRemove | src/components/Settings.tsx:79-94 | removing an item just added under a fresh id restores the list |
| Settings.ChangePassword | src/components/Settings.tsx:96-104 | the change goes through exactly when the new password equals its confirmation, and then the form clears; otherwise it is unchanged |
| Settings.ChangePasswordSettles | src/components/Settings.tsx:96-104 | submitting again after a success is accepted and leaves the form blank; after a rejection it is rejected again with the form unchanged |
| Settings.ChangeIgnoresCurrent | src/components/Settings.tsx:96-104 | the current-password field is never checked, and an empty matching pair is accepted |
| Settings.FirstLetters | src/components/Settings.tsx:147 | letter k is the first character of the k-th non-empty token, with one letter per non-empty token |
| Settings.Initials | src/components/Settings.tsx:147 | letter k of the avatar text is the first letter of the k-th non-empty space-separated word of the name; never a space |
| Settings.InitialsOfWords | src/components/Settings.tsx:147 | for any name of non-empty words joined by single spaces, the avatar shows each word's first letter, in order |
| Settings.SampleInitials | src/components/Settings.tsx:30-34 | the sample profile "Sarah Chen" shows "SC" |
| Analytics.SampleShapes | src/components/Analytics.tsx:41-91 | each sample series holds only points of its own metric's shape |
| Analytics.CurrentData | src/components/Analytics.tsx:159-169 | the month range plots the month's series and every other range the week's; "mood" and "focus" select their series and any other metric screen time; 4 points for the month and 7 otherwise |
| Analytics.MissingRangeShowsWeek | src/components/Analytics.tsx:160 | a range without data, such as "quarter", falls back to the week's series |
| Analytics.ChartTitle | src/components/Analytics.tsx:171-176 | the title is the range's adjective, one space, and the metric's name |
| Analytics.QuarterTitleVersusData | src/components/Analytics.tsx:160-176 | the quarter chart is titled "Quarterly" while it plots the week's points |
| Analytics.ButtonLabel | src/components/Analytics.tsx:261 | the caption has the id's length; dashes become spaces, the first letter of each word is upper-cased, and every other character is kept |
| Analytics.Caption | src/components/Analytics.tsx:261 | the character-by-character reference for a caption: dash to space, word starts upper-cased, the rest kept |
| Analytics.LabelMatchesCaption | src/components/Analytics.tsx:261 | splitting on dashes, capitalising each word and joining with spaces gives the character-by-character caption |
| Analytics.CaptionOfScreenTime | src/components/Analytics.tsx:250-261 | the "screen-time" button reads "Screen Time" |
| Analytics.CaptionOfMood | src/components/Analytics.tsx:250-261 | the "mood" button reads "Mood" |
| Analytics.CaptionOfFocus | src/components/Analytics.tsx:250-261 | the "focus" button reads "Focus" |
| Analytics.TitleExtendsCaption | src/components/Analytics.tsx:171-261 | for each metric button, the chart title's metric name begins with the button's caption |
| App.RenderContent | src/App.tsx:22-172 | a named screen is shown exactly for the seven dedicated page ids, and that screen's id is the page; every other id shows the landing page |
| App.RenderPageId | src/App.tsx:22-172 | each screen is rendered from its own page id |
| App.RenderInjective | src/App.tsx:22-172 | two dedicated page ids render the same screen only if they are equal |
| App.Navigate | src/App.tsx:16-20 | after navigation the screen shown is the requested page's, whatever was shown before |
| App.LastNavigationWins | src/App.tsx:16-20 | of two navigations only the second has any effect |
| App.NavbarTargets | src/components/Navbar.tsx:23-86 | the five navigation items reach five different named screens, and Logout lands on the landing page |
| App.NavbarIdsDistinct | src/components/Navbar.tsx:23-29 | the five navigation ids are pairwise distinct |
| App.Highlighted | src/components/Navbar.tsx:56-58 | each of the five items compares its id with the current page; because the ids are distinct, at most one is highlighted, exactly when the page is one of the five, and it is that page |
| App.Links | src/components/Navbar.tsx:23-86 | from every screen the landing page (via the logo or Logout) and the five item screens are one click away, and every link names a known page or a landing-page id |
| App.RouteTo | src/App.tsx:14-172 | from the "home" page every screen is reached within two clicks on links the screens show |
| App.LogoutThenReach | src/components/Navbar.tsx:86 | from any page, Logout followed by the route reaches every screen |
| App.FollowSameScreen | src/App.tsx:22-172 | which clicks are allowed, and where they lead, depends only on the screen shown |

## Left out

- Real time: the `setInterval` and `clearInterval` lifecycle is reduced to "one `Second` event per firing while armed". React's batching and render timing are not modelled.
- The random choice of a motivational prompt (`Math.random`), the breathing exercises and the breathing phase, and the sound toggle: they hold no logic beyond display.
- The focus and break duration selects: they are not wired to the session, so the lengths never change. The model keeps them as fixed fields.
- `Date.now().toString()` ids and `toISOString()` dates: they are parameters of `SaveMood` and `AddBlockedItem`.
- `console.log`, `alert`, `confirm`, `window.scrollTo`, data export and account deletion: they are side effects with no state change.
- The signup and login forms' submit buttons: they submit a form with no handler.
- `formatDate` (`toLocaleDateString`): locale-dependent and display only.
- Rendering: the SVG progress ring, `recharts` charts, CSS classes, and the static Dashboard, Hero, Features, Testimonials and Footer components.
- The "Total Time" figure of the statistics card (hours and minutes of completed focus): display arithmetic only.
- FocusDisplay.Progress: computed on exact reals rather than IEEE doubles. The bar's value is never compared for equality in the source.
- FocusDisplay.FormatTime: defined for non-negative seconds only. The countdown never goes below zero, so negative clocks cannot arise.
- Numbers are unbounded integers. The screens' values (at most thousands of seconds) are far from JavaScript's 2^53 safe-integer limit, so no wrap-around is relevant.
- Strings are sequences of Unicode characters, not UTF-16 code units. Each emoji is one character here. `name[0]` in the initials takes the first character, not the first code unit.
- Analytics.ButtonLabel: `toUpperCase` is modelled for ASCII letters only. The metric ids are lower-case ASCII.
- Analytics.CurrentData: JavaScript property lookup on the data object would also find inherited names such as `"constructor"`. The range is typed to "week", "month" or "quarter", and the model looks up only the two data keys.
- Settings.UpdateNotification: the value is a switch or a drop-down choice. The source's `any` type is not modelled further.
- The profile name, e-mail and avatar edits, theme selection and password visibility: they are plain field assignments with no logic.
