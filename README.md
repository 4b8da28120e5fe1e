# cozy: a verified model of the dashboard's task, calendar, player, playlist and storage logic

"cozy" is a browser dashboard made of a few plain JavaScript files. This project models the
parts of it that carry logic, and proves what they promise.

- **to-do.js.** The exercise and personal to-do lists. Each list has a once-per-day reset
  that files yesterday's completed names into a per-category log. Tasks are added, deleted
  and checked off, and the exercise list has a single countdown timer.
- **dashboard.js.** The progress summary of both lists and today's entry of the shared
  completion log `cozyTasksLog`. The summary is the counts, a rounded percentage and a
  three-way message, and it is recomputed by a two-second poll.
- **main.js.** The month grid of the calendar, the active state of the sidebar links and
  the per-page dispatch.
- **player.js.** The track navigation of the music player: next and previous, the shuffle
  history stack, the repeat modes and the `ended` event.
- **playlist.js.** The song library and the playlists: delete a song, make sure the "Cozy
  Playlist" exists, create, delete and edit playlists, and add songs.
- **settings.js.** The storage usage line: the size of `localStorage` in bytes, its rendering
  in B, KB, MB or GB, and the usage percentage.

The model follows the scripts' own form:

- State that the scripts change in place becomes a class with `modifies` frames:
  - `ToDo.ToDoList` and `ToDo.Task`, the `initToDo` closure and its task objects;
  - `Player.MusicPlayer`, the `initPlayer` closure;
  - `Playlists.Library`;
  - `Storage.Store`, the `localStorage` keys of the task tracker;
  - `Shell.NavLink`.
- The loops stay loops: `generateCalendar`, `syncActiveLinks`, the reset's `forEach`,
  `JSON.parse` into task objects, and `getLocalStorageSize`.
- Pure computations become functions: Gregorian arithmetic, `getLocalDateKey`, counts and
  percentages, the log update, `formatBytes` and the playlist filters.
- Each method is proved against such a function, and each function's properties are lemmas.

The modules are:

- `Collections`: `filter`, `map` and `find` on sequences.
- `Text`: `String(n)`, `padStart(2, "0")`, `trim` and `parseInt`.
- `Calendar`: the proleptic Gregorian calendar that JavaScript's `Date` uses.
- `DateKey`, `Storage`, `Progress`, `ToDo`, `Dashboard`.
- `Shell`, for main.js.
- `Player`, `Playlists`, `Settings`.

## Model

| member | source | states |
|---|---|---|
| DateKey.ParseLocalDateKey | assets/js/dashboard.js:2-7 | the key `year-MM-DD` of a date reads back as that date: year as `String` writes it, month index + 1 and day, each padded to two digits |
| DateKey.LocalDateKeyInjective | assets/js/to-do.js:2-7 | two different dates never get the same key, so no day's log entry is filed under another day |
| DateKey.KeyExample | assets/js/dashboard.js:3-6 | 15 October 2026 (month index 9) gives "2026-10-15" |
| DateKey.ParseYearOfIntToString | assets/js/dashboard.js:3 | the year part written by `getFullYear()` and the template reads back as the year, negative years included |
| DateKey.ParsePaddedKey | assets/js/dashboard.js:4-6 | a key joined from a year and two padded numbers below 100 reads back as those numbers |
| Text.PadStart2Value | assets/js/dashboard.js:4-5 | `String(n).padStart(2, "0")` is all digits, denotes `n`, and is two characters for `n < 100` |
| Text.NatToStringValue | assets/js/dashboard.js:4-5 | the decimal digits of `String(n)` denote `n` |
| Text.ParseIntOfIntToString | assets/js/to-do.js:188 | `parseInt(String(i) + rest, 10)` is `i` whenever `rest` does not start with a digit |
| Text.ParseIntOfDigits | assets/js/to-do.js:188 | `parseInt` of an optional sign, a digit run with any leading zeros, and a tail that does not start with a digit is the run's value, negated after `-`: `"00"` and `"-0"` give 0, `"+5"` gives 5, `"1.5"` gives 1 |
| Text.ParseIntOfBareSign | assets/js/to-do.js:188 | a sign that no digit follows (`"-"`, `"+x"`) gives NaN |
| Text.ParseIntNaN | assets/js/to-do.js:188 | `parseInt` gives NaN exactly when the text after leading white space starts with no digit, optionally after one sign |
| Text.TrimEmptyIffBlank | assets/js/to-do.js:187 | `trim()` yields the empty string exactly when the input is all white space |
| Text.TrimIdempotent | assets/js/to-do.js:187 | trimming twice is trimming once |
| Text.Trim | assets/js/to-do.js:187 | a trimmed non-empty string neither starts nor ends with white space |
| Progress.CompletedNamesMembers | assets/js/dashboard.js:51-52 | a name is in `filter(t => t.completed).map(t => t.name)` exactly when some completed task carries it |
| Progress.CompletedNamesAppend | assets/js/to-do.js:51 | the completed names keep list order: the names of `a + b` are the names of `a` then those of `b` |
| Progress.CompletedCountBounds | assets/js/dashboard.js:13-15 | completed ≤ total, with equality exactly when every task is completed |
| Progress.RoundedPercentNearest | assets/js/dashboard.js:38 | the percentage is the integer nearest to `100 * completed / total`, halves rounded up |
| Progress.RoundedPercentRange | assets/js/dashboard.js:38 | the percentage lies in 0..100, and it is 0 when nothing is done (and for an empty list) |
| Progress.AllDoneIsHundred | assets/js/dashboard.js:38 | a non-empty list with every task done shows 100%, whatever its length |
| Progress.HundredPercentIffAllDone | assets/js/dashboard.js:38 | for 1 to 199 tasks, 100% is shown exactly when every task is done |
| Progress.RoundingReachesHundredEarly | assets/js/to-do.js:231 | 200 of 201 done rounds to 100; 2 of 5 is 40 |
| Progress.SummarizeSpec | assets/js/dashboard.js:13-30 | completed + remaining = total with remaining ≥ 0; percent in 0..100; "no tasks" iff the list is empty, "all done" iff a non-empty list is all done, otherwise the positive remaining count |
| Progress.UpdatedLogSpec | assets/js/dashboard.js:47-55 | today's entry gets this category's completed names in list order; the other category's list is kept (empty for a new entry); every other day is untouched |
| Progress.UpdatedLogIdempotent | assets/js/dashboard.js:64-67 | writing the same list again leaves the log unchanged |
| Progress.UpdatedLogCommutes | assets/js/dashboard.js:60-61 | updating the two categories in either order gives the same log |
| Dashboard.UpdateTaskProgress | assets/js/dashboard.js:10-56 | the result is the summary of the stored list; `cozyTasksLog` becomes the updated log for today's key; no other key is written |
| Dashboard.Poll | assets/js/dashboard.js:59-67 | one round summarises both stored lists and updates today's entry for exercise, then personal, writing nothing else |
| Dashboard.PollIdempotent | assets/js/dashboard.js:64-67 | repeating a round over unchanged lists changes nothing, and the order of the two categories does not matter |
| Dashboard.PollLogSpec | assets/js/dashboard.js:47-55 | after a round, today's entry holds exactly both lists' completed names, and every other day is untouched |
| ToDo.Records | assets/js/to-do.js:63 | `JSON.stringify(tasks)` has one record per task object, in order |
| ToDo.LoadTasks | assets/js/to-do.js:28 | `JSON.parse` of a stored list gives fresh, pairwise distinct task objects whose records are the stored ones |
| ToDo.DailyResetSpec | assets/js/to-do.js:40-59 | afterwards the marker is today; with today's marker nothing changes; otherwise every flag is cleared with length, names and durations kept, no existing log entry changes, and yesterday's key gets the completed names only if it was absent |
| ToDo.DailyResetOncePerDay | assets/js/to-do.js:41-44 | a second load on the same day changes nothing |
| ToDo.ClockTextReadsBack | assets/js/to-do.js:177-179 | for every remaining time the display is the padded minutes, `:`, and two digits of seconds, with `mins * 60 + secs == r` and `secs < 60`; it is five characters exactly below 100 minutes |
| ToDo.NewTask | assets/js/to-do.js:187-191 | an accepted task carries the trimmed name and the duration `parseInt` reads from the trimmed field, is not completed, and has a non-empty name and a non-zero duration; the input is turned away exactly when the name is blank or that duration is NaN or 0 |
| ToDo.NewTaskAccepts | assets/js/to-do.js:187-191 | for a non-empty trimmed name and a duration typed as white space, an optional sign, digits of non-zero value (leading zeros allowed) and any tail not starting with a digit, the task is exactly the trimmed name with the signed value of the digits, negatives included |
| ToDo.TrimmedDurationValue | assets/js/to-do.js:188 | `parseInt(durationInput.value.trim(), 10)` of such a duration is the signed value of its digits, trailing text and white space ignored |
| ToDo.NewTaskRejectsZero | assets/js/to-do.js:188-189 | a duration whose digits are all zeros, with any sign and any tail (`0`, `00`, `-0`, `0.5`), is turned away |
| ToDo.NewTaskRejectsNonNumbers | assets/js/to-do.js:188-189 | a duration whose trimmed text starts with neither a digit nor a sign, or with a sign that no digit follows (`-`, `+x`), is NaN and is turned away |
| ToDo.TrimAround | assets/js/to-do.js:187-188 | `trim` removes exactly the white space around a piece that neither starts nor ends with white space |
| ToDo.MarkedDone | assets/js/to-do.js:169 | after `task.completed = true`, exactly the entries whose object is that task are marked done; every other entry keeps its record |
| ToDo.ToDoList.Snapshot | assets/js/to-do.js:63 | the serialised list is the ghost view of the list |
| ToDo.ToDoList.constructor | assets/js/to-do.js:24-33 | the stored list of the category is loaded into fresh objects, with the timer idle |
| ToDo.ToDoList.Init | assets/js/to-do.js:40-59 | the stored view of the category becomes `DailyReset` of the old one with yesterday's key; today's `cozyTasksLog` entry is written; the other category is untouched |
| ToDo.ToDoList.RunDailyReset | assets/js/to-do.js:44-59 | the stored list, log and marker become `DailyReset` of the old ones, the in-memory list matches the stored one, and `cozyTasksLog` and the other category are untouched |
| ToDo.ToDoList.ArchiveDay | assets/js/to-do.js:49-53 | yesterday's names are filed only under a key the log lacks; nothing else is written |
| ToDo.ToDoList.ClearFlags | assets/js/to-do.js:56 | every task object's flag is cleared, the same objects in the same order |
| ToDo.ToDoList.SaveTasks | assets/js/to-do.js:62-64 | only this category's stored list is written, and it is the in-memory list |
| ToDo.ToDoList.UpdateProgress | assets/js/to-do.js:220-247 | the summary of the in-memory list, and today's `cozyTasksLog` entry updated for this category |
| ToDo.ToDoList.Persist | assets/js/to-do.js:111-112 | save, then update progress: stored list and today's log entry both match the in-memory list |
| ToDo.ToDoList.Toggle | assets/js/to-do.js:109-113 | task `i` takes the box's state, nothing else in the list changes, the timer is untouched, then save and progress, which write only this category's list and `cozyTasksLog`; the reset marker and the archived category log stay as they were |
| ToDo.ToDoList.Delete | assets/js/to-do.js:117-122 | exactly task `i` leaves the list, the others keep their order, the timer variables are untouched, then save and progress, which write only this category's list and `cozyTasksLog`; the reset marker and the archived category log stay as they were |
| ToDo.ToDoList.Add | assets/js/to-do.js:186-194 | turned-away inputs change nothing; otherwise exactly the new task is appended at the end, then save and progress |
| ToDo.ToDoList.Append | assets/js/to-do.js:191-194 | one fresh object at the end, the earlier objects kept, then save and progress |
| ToDo.ToDoList.StartTimer | assets/js/to-do.js:147-149 | the old interval is cleared before the new one is set: exactly one interval is live |
| ToDo.ToDoList.PressStart | assets/js/to-do.js:127-141 | on the running task the press pauses and keeps the time left; any other press, a paused task included, starts task `i` from `duration * 60` |
| ToDo.ToDoList.Tick | assets/js/to-do.js:149-181 | with time left the tick counts down exactly one second and shows `mm:ss`, leaving the timed task's flag and the lists as they were; at zero or below the timer expires |
| ToDo.ToDoList.Expire | assets/js/to-do.js:150-174 | the interval is cleared; the timed task is marked completed, which changes the list only if the task is still in it; save and progress; `currentTask` null and `remainingTime` 0 |
| ToDo.ToDoList.ResetTimer | assets/js/to-do.js:207-215 | the idle state of an expired timer, with nothing marked completed |
| Calendar.DaysInMonth | assets/js/main.js:142 | a month has 28 to 31 days; February has 29 exactly in leap years; other months have at least 30 |
| Calendar.Weekday | assets/js/main.js:141 | `getDay()` lies in 0..6 |
| Calendar.PreviousDay | assets/js/to-do.js:45-46 | the day before a valid date is a valid date |
| Calendar.PreviousDayNumber | assets/js/to-do.js:45-46 | `setDate(getDate() - 1)` lands one day earlier in the running day count, across month and year ends |
| Calendar.PreviousDayWeekday | assets/js/to-do.js:45-46 | the day before is one weekday earlier |
| Calendar.YearStep | assets/js/main.js:142 | each year adds 366 days exactly when it is a leap year, otherwise 365 |
| Calendar.MonthStep | assets/js/main.js:142 | each month adds its own length to the day count |
| Calendar.FirstOfNextMonth | assets/js/main.js:142 | `new Date(y, m + 1, 1)` is a valid first day, rolling into January of the next year |
| Calendar.DayZeroOfNextMonth | assets/js/main.js:142 | day 0 of the next month is the last day of this month, `DaysInMonth(y, m)` days after the first |
| Calendar.KnownWeekdays | assets/js/main.js:141 | 1 January 1970 is a Thursday (4) and 1 January 2000 a Saturday (6) |
| Shell.CalendarGridShape | assets/js/main.js:132-160 | `7 + firstDay + daysInMonth` cells: Sun..Sat in order, `firstDay` blanks, then days 1..`daysInMonth` ascending, each highlighted iff it is today |
| Shell.ExactlyOneHighlighted | assets/js/main.js:153-157 | a cell is highlighted exactly when it is the cell of today's day of the month |
| Shell.GenerateCalendar | assets/js/main.js:121-161 | the three loops build the grid with the weekday of the 1st and the month length from day 0 of the next month |
| Shell.GenerateCalendarBounds | assets/js/main.js:141-160 | a month's grid has 35 to 44 cells, and today's cell is highlighted |
| Shell.SyncActiveLinks | assets/js/main.js:92-97 | every link is active exactly when its `data-page` is the page |
| Shell.PageInitDispatch | assets/js/main.js:72-89 | links are synced first; the calendar is built iff the page is 'dashboard'; the settings init runs iff the page is 'settings' and the function exists; the exercise init likewise on 'activities' |
| Player.NextRepeatCycle | assets/js/player.js:189-197 | the button never reaches 'off', always changes the mode, and two presses from 'all' or 'one' come back |
| Player.IndexSteps | assets/js/player.js:148-166 | next and previous stay in `[0, n)` and undo each other, and with more than one track they move |
| Player.NavStaysInRange | assets/js/player.js:139-174 | after next or prev, the current index and every pushed index are in range |
| Player.ShuffleNextThenPrev | assets/js/player.js:146-163 | in shuffle mode, prev right after next restores both the track and the history |
| Player.SequentialNextThenPrev | assets/js/player.js:149-165 | in sequential mode, prev after next restores the track, but the pushed index stays on the history |
| Player.MusicPlayer.constructor | assets/js/player.js:14-22 | track 0, empty history, shuffle off, repeat 'all', paused |
| Player.MusicPlayer.NextTrack | assets/js/player.js:139-159 | the old index is pushed; shuffle picks an index in range different from the current one when there are several tracks; sequential moves to `(cur + 1) % n`; playback starts from position 0 |
| Player.MusicPlayer.PrevTrack | assets/js/player.js:161-174 | shuffle with a history pops it; otherwise `(cur - 1 + n) % n` with the history kept; playback starts from position 0 |
| Player.MusicPlayer.ToggleShuffle | assets/js/player.js:176-182 | only `isShuffled` flips; track, history, repeat mode, playing state and position stay |
| Player.MusicPlayer.ToggleRepeat | assets/js/player.js:184-200 | only the repeat mode changes, as `NextRepeat`; track, history, shuffle, playing state and position stay |
| Player.MusicPlayer.SelectTrack | assets/js/player.js:202-213 | the clicked track becomes current and plays from position 0; the history is kept |
| Player.MusicPlayer.Ended | assets/js/player.js:238-249 | 'one' rewinds and plays the same track; 'all' is exactly `nextTrack`; 'off' leaves the track stopped at its position |
| Playlists.WithoutSongSpec | assets/js/playlist.js:88 | a song stays iff it was there with another id; filtering again changes nothing; the length is kept iff no song had the id |
| Playlists.CozyWithoutSongSpec | assets/js/playlist.js:92-97 | only the first "Cozy Playlist" changes, and only in its tracks; with none nothing changes |
| Playlists.WithCozySpec | assets/js/playlist.js:117-126 | afterwards a Cozy playlist exists; an existing one is kept; otherwise exactly one with id 1 and the library's tracks is appended; repeating changes nothing |
| Playlists.CreatedSpec | assets/js/playlist.js:205-217 | a cancelled or empty name changes nothing; otherwise exactly one playlist with that name and no tracks is appended at the end |
| Playlists.DeletedPlaylistSpec | assets/js/playlist.js:231-234 | a playlist stays iff it was there with another id |
| Playlists.RemovedTrackSpec | assets/js/playlist.js:192-197 | the playlist keeps its id, name and cover and loses exactly the tracks with that id; the other playlists are unchanged |
| Playlists.Library.constructor | assets/js/playlist.js:115 | the stored library and playlists as loaded; `window.allTracks` is still unset and the grid empty |
| Playlists.Library.RenderAllSongs | assets/js/playlist.js:4-6 | `window.allTracks` becomes the stored library; nothing else changes |
| Playlists.Library.DeleteSong | assets/js/playlist.js:82-100 | the stored library becomes `window.allTracks` without every song of the id, and `window.allTracks` matches it; the stored Cozy playlist loses the song too; the grid's copy is untouched |
| Playlists.Library.InitGrid | assets/js/playlist.js:108-126 | the grid loads the stored playlists with a Cozy playlist ensured, filled with `window.allTracks \|\| []` as it was before the final render; saves them; afterwards `window.allTracks` is the stored library |
| Playlists.Library.CreatePlaylist | assets/js/playlist.js:205-217 | the grid becomes `Created` of the old grid, and is saved when it changes |
| Playlists.Library.RemoveTrack | assets/js/playlist.js:192-197 | the grid becomes `RemovedTrack` of the old grid, and is saved |
| Playlists.Library.DeletePlaylist | assets/js/playlist.js:231-234 | the grid becomes `DeletedPlaylist` of the old grid, and is saved |
| Playlists.Library.AddSong | assets/js/playlist.js:249-275 | no file changes nothing; otherwise the stored library becomes `window.allTracks \|\| []` plus the new song at the end, which is the old library plus that song once the two agree; the playlists are untouched |
| Playlists.StaleGridRestoresDeletedSong | assets/js/playlist.js:92-97 | for any playlists holding a song in their first Cozy playlist, deleting the song removes it from the stored Cozy playlist, while the grid's next save (creating a playlist) writes it back, because the grid saves its own copy |
| Playlists.FirstInitCozyIsEmpty | assets/js/playlist.js:118-124 | a grid init that finds no Cozy playlist before the library is first rendered appends one with no tracks |
| Settings.LocalStorageSize | assets/js/settings.js:2-10 | the loop's total is the sum over own entries of `(value.length + key.length) * 2` |
| Settings.SizeOfEven | assets/js/settings.js:3-9 | the size is even, and 0 when there is no own entry |
| Settings.SizeOfAppend | assets/js/settings.js:4-8 | the size of two runs of properties is the sum of their sizes, in either order |
| Settings.FormatBytesUnit | assets/js/settings.js:13-18 | the text ends in B iff `b < 1024`, KB iff `1024 <= b < 1024²`, MB iff `1024² <= b < 1024³`, GB otherwise |
| Settings.FormatBytesSmall | assets/js/settings.js:14 | below 1024 the text is exactly the decimal digits of the integer followed by " B", and `parseInt` reads it back |
| Settings.HundredthsNearest | assets/js/settings.js:15-17 | the two decimals shown are the nearest hundredths of `bytes / unit`, halves rounded up |
| Settings.FormatBytesRoundsUp | assets/js/settings.js:15 | one byte short of a megabyte is shown as "1024.00 KB" |
| Settings.FormatBytesExample | assets/js/settings.js:15 | 1536 bytes is "1.50 KB" |
| Settings.QuotaBytes | assets/js/settings.js:27-38 | the quota is positive; it is the estimate's quota whenever that is non-zero, and the 5 MB fallback (5 · 1024 · 1024) when there is no estimate or it reports 0 |
| Settings.UsagePercentRange | assets/js/settings.js:48 | the percent lies in 0..100, is 100 exactly when the size reaches the quota, and below that is `100 * size / quota` |

## Left out

- DOM work is not modelled: rendering, icon classes, Bootstrap modals and event wiring. Each
  handler is a method on explicit state. `renderList` and `renderGrid` only draw.
- `localStorage` is a typed map in `Storage.Store`, and JSON is trusted. A stored value that
  does not parse is not modelled, since `JSON.parse` would throw.
- Timing is left out: `setInterval`, `clearInterval` and the two-second poll. Each tick and
  each poll round is an explicit call, and `activeIntervals` counts live intervals.
- Audio is left out: playback, the double-play alarm chain, volume ducking, `togglePlay`,
  `loadTrack`'s animations, the progress bar and seeking. `MusicPlayer` keeps only whether
  it plays and the position in whole seconds.
- Floating point is left out: the SVG circumference and `strokeDashoffset`, the progress bar
  widths, and the usage percent's `toFixed(2)`. `Settings.UsagePercent` is exact real division.
- `Math.random` in shuffle is not modelled. `NextTrack` takes any index that the retry loop's
  exit condition accepts.
- These values are parameters instead of being read:
  - `Date.now()` ids;
  - the answer of `prompt`;
  - the object URL of the chosen file;
  - the storage estimate;
  - the current date.
- The current date is a year, a month index and a day. Time zones are not modelled.
- `toDateString()` is an opaque day string compared for equality.
- The month label uses `toLocaleString`, and it is not modelled.
- The `fetch` page loading of main.js is not modelled. The `typeof ... === 'function'` tests
  of `handlePageInit` are boolean parameters.
- Profile settings in settings.js are not modelled: the image upload, the user name and
  `applySavedProfile`.
- `capitalize` is not modelled; it only builds DOM ids. `initToDo`'s early return on missing
  elements is not modelled either.
- Aliasing is not modelled. The Cozy playlist's tracks are copied as values rather than
  shared with `window.allTracks`. `Library.windowTracks` is `window.allTracks` and
  `Library.storedTracks` the stored `allTracks`. `Library.Synced` states that they agree,
  which holds from the first `RenderAllSongs` on.
- ToDo.NewTask: durations are exact integers. `parseInt` returns a double, and three cases
  that follow from that are not modelled:
  - a duration of 17 or more digits is rounded;
  - about 310 or more digits give `Infinity`, which passes `!duration` and is stored as `null`;
  - a stored `null` duration makes `duration * 60` zero, so that timer expires on its first tick.
- ToDo.ToDoList.Delete: the rendered task index is the method's parameter. The list is
  re-rendered after every change, so it is the task's current position.
- Playlists.Library.DeleteSong: requires `window.allTracks` to be set. The delete option exists
  only on a song that `renderAllSongs` drew after setting it, and with it unset the handler's
  `filter` would throw.
- Playlists.Library.RemoveTrack: the playlist shown in the modal is given as its index in the
  grid's array. The grid gives the object by `find` on its id.
- Playlists.Library.DeletePlaylist: modelled, although the rendered cards carry no
  `.btn-delete`, so no click reaches this branch.
- Progress.HundredPercentIffAllDone holds only below 200 tasks. From 200 tasks on, `Math.round`
  can show 100% one task short, as `Progress.RoundingReachesHundredEarly` states.
- Percentages are integer half-up rounding. For ratios at exactly .5 this agrees with
  `Math.round` on exact values, not on the rounded doubles.
- Settings.FormatBytesUnit and Settings.HundredthsNearest model `toFixed(2)` as exact half-up
  rounding. For byte counts below 2^53 the quotient by a power of two is exact, so this is
  faithful. Larger counts are not modelled.
- Lengths are counted in characters. JavaScript's `.length` counts UTF-16 code units, and
  that difference is not modelled in `Settings.EntryBytes` or in `trim`.
- Text.IsWhitespace lists the white space and line terminators of the ECMAScript standard
  (sections 12.2 and 12.3 of ECMA-262) by code point, without consulting a Unicode database.
