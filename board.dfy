/** The board itself: the draft being composed and the stored history, and
    the user actions that change them. */
module Board {
  import opened Entries
  import opened Tags
  import opened History

  /** What a click on the save button leads to. */
  datatype SaveOutcome = Saved | TagRequired

  class MoodBoard {
    /** The draft entry the form edits. */
    var currentMood: Entry
    /** The list kept under the board's storage key, newest first once saved to. */
    var history: seq<Entry>

    /** The draft's tags are only ever edited by toggling, so none repeats. */
    ghost predicate Valid()
      reads this
    {
      Distinct(currentMood.tags)
    }

    /** A page load: a default draft for today, and whatever was stored. */
    constructor (today: Date, stored: seq<Entry>)
      ensures Valid()
      ensures currentMood == Default(today) && history == stored
    {
      currentMood := Default(today);
      history := stored;
    }

    /** Moving the slider sets the draft's score. */
    method SetScore(score: int)
      requires Valid()
      modifies this`currentMood
      ensures Valid()
      ensures currentMood == old(currentMood).(score := score)
    {
      currentMood := currentMood.(score := score);
    }

    /** Typing in the note field replaces the draft's note verbatim. */
    method SetNote(note: string)
      requires Valid()
      modifies this`currentMood
      ensures Valid()
      ensures currentMood == old(currentMood).(note := note)
    {
      currentMood := currentMood.(note := note);
    }

    /** A click on a tag: deselect it when selected, select it otherwise. */
    method ToggleTag(tag: string)
      requires Valid()
      modifies this`currentMood
      ensures Valid()
      ensures currentMood == old(currentMood).(tags := Toggled(old(currentMood.tags), tag))
      ensures (tag in currentMood.tags) == (tag !in old(currentMood.tags))
      ensures Without(currentMood.tags, tag) == Without(old(currentMood.tags), tag)
    {
      ToggleFlipsMembership(currentMood.tags, tag);
      ToggleKeepsOthers(currentMood.tags, tag);
      var index := IndexOf(currentMood.tags, tag);
      if index > -1 {
        currentMood := currentMood.(tags := RemoveAt(currentMood.tags, index));
      } else {
        currentMood := currentMood.(tags := currentMood.tags + [tag]);
      }
    }

    /** Back to a fresh draft for today. */
    method ResetForm(today: Date)
      modifies this`currentMood
      ensures Valid()
      ensures currentMood == Default(today)
    {
      currentMood := Default(today);
    }

    /** The save button. A draft without tags is refused and nothing changes.
        Otherwise the draft is stamped with today's date, upserted into the
        stored list by date, the list is sorted newest first and stored, and
        the draft is reset. */
    method SaveMood(today: Date) returns (outcome: SaveOutcome)
      requires Valid()
      modifies this
      ensures Valid()
      ensures old(currentMood.tags) == [] ==>
        outcome == TagRequired && currentMood == old(currentMood) && history == old(history)
      ensures old(currentMood.tags) != [] ==>
        && outcome == Saved
        && NewestFirst(history)
        && multiset(history) == multiset(Upsert(old(history), old(currentMood).(date := today)))
        && currentMood == Default(today)
      ensures old(currentMood.tags) != [] && CountDate(old(history), today) <= 1 ==>
        CountDate(history, today) == 1
      ensures old(currentMood.tags) != [] && UniqueDates(old(history)) ==>
        UniqueDates(history) && StrictlyNewestFirst(history)
    {
      if |currentMood.tags| == 0 {
        return TagRequired;
      }
      currentMood := currentMood.(date := today);
      var moodHistory := history;
      var existingIndex := DateIndex(moodHistory, today);
      if existingIndex > -1 {
        moodHistory := moodHistory[existingIndex := currentMood];
      } else {
        moodHistory := moodHistory + [currentMood];
      }
      assert moodHistory == Upsert(old(history), currentMood);
      var sorted := new Entry[|moodHistory|](k requires 0 <= k < |moodHistory| => moodHistory[k]);
      assert sorted[..] == moodHistory;
      SortNewestFirst(sorted);
      history := sorted[..];

      PermutationKeepsCount(moodHistory, history, today);
      UpsertCount(old(history), currentMood, today);
      if UniqueDates(old(history)) {
        UpsertKeepsUnique(old(history), currentMood);
        PermutationKeepsUnique(moodHistory, history);
        SortedUniqueIsStrict(history);
      }
      ResetForm(today);
      outcome := Saved;
    }
  }

  /** A first visit: select one tag and save. */
  method FirstSave(today: Date) returns (board: MoodBoard)
    ensures fresh(board) && board.Valid()
    ensures board.history == [Entry(5, ["tired"], "", today)]
    ensures board.currentMood == Default(today)
  {
    var e1 := Entry(5, ["tired"], "", today);
    board := new MoodBoard(today, []);
    ToggleEffect([], "tired");
    board.ToggleTag("tired");
    assert board.currentMood.tags == [] + ["tired"] == e1.tags;
    assert board.currentMood.(date := today) == e1;
    var outcome := board.SaveMood(today);
    UpsertIntoEmpty(e1);
    assert multiset(board.history) == multiset([e1]);
    OnlyOrderOfOne(board.history, e1);
  }

  /** A second save on the same day replaces the day's only entry. */
  method SaveAgain(board: MoodBoard, today: Date, first: Entry)
    requires board.Valid() && first.date == today
    requires board.history == [first] && board.currentMood.tags != []
    modifies board
    ensures board.history == [old(board.currentMood).(date := today)]
  {
    ghost var e := board.currentMood.(date := today);
    var outcome := board.SaveMood(today);
    UpsertSameDay(first, e);
    OnlyOrderOfOne(board.history, e);
  }

  /** Saving the same day twice keeps one entry for it, with the tags of the
      second save. */
  method SameDayTwice(today: Date) returns (stored: seq<Entry>)
    ensures stored == [Entry(5, ["energetic", "tired"], "", today)]
  {
    var board := FirstSave(today);
    ToggleEffect([], "energetic");
    board.ToggleTag("energetic");
    assert board.currentMood.tags == [] + ["energetic"] == ["energetic"];
    ToggleEffect(["energetic"], "tired");
    board.ToggleTag("tired");
    assert ["energetic"] + ["tired"] == ["energetic", "tired"];
    assert board.currentMood == Entry(5, ["energetic", "tired"], "", today);
    SaveAgain(board, today, Entry(5, ["tired"], "", today));
    stored := board.history;
  }

  /** A list holding exactly one entry is that entry alone. */
  lemma OnlyOrderOfOne(s: seq<Entry>, e: Entry)
    requires multiset(s) == multiset([e])
    ensures s == [e]
  {
    assert |s| == |multiset(s)| == 1;
    assert s[0] in multiset(s);
  }
}
