# MoodBoard in Dafny

A model of the logic inside MoodBoard, a single-page mood journal. The user
composes a draft entry: a score, a list of tags picked by clicking, and a note.
Saving refuses a draft with no tags. Otherwise it stamps the draft with today's
date and upserts it into the stored history, keyed by date. It then re-sorts the
history newest first and resets the draft. The statistics panel shows these
values for the stored history:

- the number of entries;
- the average score;
- the best score;
- the average over the seven newest entries;
- the most common tag.

Modules, one per part of `script.js`:

- `Entries` (`entries.dfy`): the entry record, the default draft, and the
  five-band score-to-face mapping.
- `Tags` (`tags.dfy`): the tag toggle on the draft's tag list.
- `History` (`history.dfy`): date lookup, the upsert, date counts, and the
  in-place newest-first sort.
- `Stats` (`stats.dfy`): the statistics, including the tag tally loops and
  the most-common-tag fold.
- `Board` (`board.dfy`): the `MoodBoard` class. Its field `currentMood` is the
  draft and its field `history` is the stored list. Its methods are the user
  actions. It also holds a client scenario that saves the same day twice.

Dates are day numbers (`type Date = int`). The board stores ISO 8601
calendar dates in the fixed-width extended format `YYYY-MM-DD` (section
4.1.2.2 of ISO 8601:2004). Those strings compare in chronological order,
so the string equality used to find today's entry and the timestamp
difference used to sort both become integer comparisons. Today's date is
a parameter.

A most-common-tag tie goes to the last key in the table's insertion order,
because the fold at script.js:194 keeps its accumulator only when its count
is strictly greater. `Stats.MostCommon` states the tie-break.

## Model

| member | source | states |
|---|---|---|
| `Entries.Default` | script.js:3-8 | the fresh draft has no tags, an empty note, today's date and a score (5) inside the slider range 1..10 |
| `Entries.MoodEmoji` | script.js:52-58 | every score maps to one of the five faces |
| `Entries.EmojiIsBandFace` | script.js:52-58 | the threshold chain (at most 2, 4, 6, 8, else) agrees on every integer with an independent banding that pairs scores 1-2, 3-4, 5-6, 7-8, 9-10 |
| `Entries.SameFaceIffSameBand` | script.js:52-58 | two scores show the same face exactly when they fall in the same band, so there are exactly five distinct bands |
| `Entries.BandMonotone` | script.js:52-58 | a higher score never falls in a lower band |
| `Entries.EveryBandReached` | script.js:52-58 | each of the five bands contains two slider scores |
| `Tags.IndexOf` | script.js:62 | returns -1 exactly when the tag is absent; otherwise the position of its first occurrence |
| `Tags.RemoveAt` | script.js:65 | removing one position keeps every other tag in order and shortens the list by one |
| `Tags.Toggled` | script.js:60-71 | a toggle removes one copy of a selected tag and adds one of an unselected tag, so the length shrinks by one when the tag is present and grows by one when absent; `ToggleEffect` states which copy goes and where the new one lands |
| `Tags.ToggleEffect` | script.js:62-70 | a present tag loses its first occurrence; an absent tag is appended at the end |
| `Tags.ToggleFlipsMembership` | script.js:60-71 | on a duplicate-free list, membership of the toggled tag flips and the list stays duplicate-free |
| `Tags.ToggleKeepsOthers` | script.js:60-71 | filtering out the toggled tag gives the same list before and after, so other tags keep their relative order |
| `Tags.ToggleTwiceAbsent` | script.js:60-71 | toggling an absent tag twice restores the list exactly |
| `Tags.ToggleTwicePresent` | script.js:60-71 | toggling a selected tag twice keeps the same tags and moves that tag to the end |
| `History.DateIndex` | script.js:85 | returns -1 exactly when no entry has the date; otherwise the first entry with it |
| `History.Upsert` | script.js:85-90 | if an entry has the new entry's date, its first such entry is replaced and the length is kept; otherwise the entry is appended; every other position is untouched |
| `History.UpsertCount` | script.js:85-90 | after the upsert, the entry's date has count 1 if it had none, else its count is unchanged; every other date keeps its count |
| `History.UpsertLeavesOneForToday` | script.js:85-90 | a day with at most one entry has exactly one after the upsert |
| `History.UpsertKeepsUnique` | script.js:85-90 | the upsert preserves "at most one entry per day" |
| `History.UpsertIntoEmpty` | script.js:89 | saving into an empty history yields exactly the saved entry |
| `History.UpsertSameDay` | script.js:87 | re-saving on the day of the only entry replaces it |
| `History.PermutationKeepsCount` | script.js:92 | reordering the history keeps every date's entry count |
| `History.PermutationKeepsUnique` | script.js:92 | reordering preserves "at most one entry per day" |
| `History.SortedUniqueIsStrict` | script.js:92 | a newest-first history with one entry per day has strictly decreasing dates |
| `History.StrictOrderIsUnique` | script.js:92 | two strictly newest-first lists with the same entries are equal, so the sorted history does not depend on how ties are broken |
| `History.SortNewestFirst` | script.js:92 | the array is sorted newest first in place and is a permutation of its old contents |
| `Stats.BestScore` | script.js:182 | the best score is at least every score and is the score of some entry |
| `Stats.SumScores` | script.js:181-184 | the running total of the scores; with slider scores 1..10 it lies between n and 10n. `SumBetween` and `SumAtMostBest` bound it by the smallest and the best score |
| `Stats.SumBetween` | script.js:181 | if every score lies in [lo, hi], the sum lies in [n*lo, n*hi] |
| `Stats.SumAtMostBest` | script.js:181-182 | the score sum is at most n times the best score, so the average never exceeds the best score |
| `Stats.CountsAddUp` | script.js:186-191 | the counts of the frequency table sum to the total number of tag occurrences |
| `Stats.TallyEntry` | script.js:188-190 | the inner pass adds one entry's tags to the frequency table and to its key order |
| `Stats.TallyTags` | script.js:186-191 | the nested passes give each tag's count of (entry, tag) occurrences; the keys are exactly the tags seen, in order of first appearance |
| `Stats.MostCommon` | script.js:193-194 | the fold returns a key with maximal count, and no later key ties it, so ties go to the last key |
| `Stats.LoadStats` | script.js:171-194 | returns nothing exactly when the history is empty. Otherwise: the entry count, the score sum, and a best score that bounds every score and is attained. The recent window is the first min(7, n) entries, with that divisor. The most common tag has maximal count and is the last of the tied keys, or "无" when no entry has a tag |
| `Board.MoodBoard.constructor` | script.js:2-8 | a page load starts from the default draft for today and the stored history |
| `Board.MoodBoard.SetScore` | script.js:26-29 | moving the slider changes only the draft's score |
| `Board.MoodBoard.SetNote` | script.js:37-39 | typing changes only the draft's note |
| `Board.MoodBoard.ToggleTag` | script.js:60-71 | only the draft's tag list changes: it becomes the toggled list, the tag's membership flips, and the tags stay duplicate-free |
| `Board.MoodBoard.ResetForm` | script.js:118-124 | the draft becomes the default draft for today |
| `Board.MoodBoard.SaveMood` | script.js:73-104 | with no tags, reports that a tag is required and changes neither draft nor history. Otherwise the history is newest first and a permutation of the old history upserted with the draft dated today, and the draft is reset. Today ends with one entry if it had at most one. One entry per day is preserved, with strictly decreasing dates |
| `Board.FirstSave` | script.js:73-99 | selecting one tag and saving into an empty history stores exactly that entry and resets the draft |
| `Board.SaveAgain` | script.js:85-92 | a second save on the same day leaves a single entry, equal to the new draft dated today |
| `Board.SameDayTwice` | script.js:73-99 | saving ["tired"] and then ["energetic", "tired"] on one day leaves one entry, with the second save's tags |

## Left out

- Rendering is not modelled: the DOM work, `updateMoodValue`, `showSaveMessage` with its timer, the HTML built by `loadHistory` and `loadStats`, and the selected-class toggling. None of it affects the state.
- Browser storage and JSON are not modelled. The storage key is the `history` field. Parse and write failures, and the `catch` that keeps the draft when a save fails, are not modelled.
- The clock is not modelled. Today's date is a parameter. `SaveMood` uses the same day for the stamp and for `ResetForm`, while the source reads the clock twice (script.js:79, script.js:123). The dates are UTC day numbers, and locale date formatting is not modelled.
- Averages are not divided. `LoadStats` returns the score sum and its divisor (the entry count, or min(7, n) for the recent window). The floating-point division and the one-decimal rounding with `toFixed(1)` are left to the display.
- The `: 0` fallback of the recent average (script.js:183-184) is not modelled. The early return on an empty history makes it unreachable.
- `SortNewestFirst` is an insertion sort standing in for the runtime's array sort. Only the sort's result is modelled: ordered and a permutation. Stability is not claimed. `StrictOrderIsUnique` shows that the result is the same for any sort when no day has two entries.
- `TallyTags` and `MostCommon` assume no tag is an array-index-like string (such as "12") or an `Object.prototype` property name (such as "constructor", "toString", "valueOf", "hasOwnProperty" or "__proto__"). The table at script.js:186 is a plain object. It lists index-like keys first, in numeric order. For "constructor", "toString", "valueOf" or "hasOwnProperty", `tagCounts[tag] || 0` at script.js:189 reads the inherited function, and `+ 1` turns the count into a string, which then breaks the comparison at script.js:194. For "__proto__", the read returns the prototype object and the assignment goes through the `__proto__` setter, which ignores a value that is not an object, so the tag never enters the table; a history whose only tag is "__proto__" shows "无" where the model returns that tag. The model keys a map by the tag, counts every tag from zero, and keeps keys in first-insertion order. The tag labels come from page markup that is not part of this model.
- `parseInt` of the slider value (script.js:27) and the slider's range 1..10, which comes from the page markup, are not modelled. `SetScore` accepts any integer.
- Values are not shared. The spread copy `{ ...this.currentMood }` shares the tags array with the draft, but the draft is replaced right after the save, so modelling entries as values loses nothing.
- `BestScore` does not model the runtime's limit on spreading a very large array into `Math.max`.
