/** The persisted unit of the mood board: one entry per calendar day, and the
    score banding used to pick the emoji shown next to a score. */
module Entries {

  /** A calendar date as a day number. ISO 8601 calendar dates in the
      fixed-width extended format YYYY-MM-DD compare lexicographically in
      chronological order, so equality and order of day numbers are equality
      and order of the date strings the board stores. */
  type Date = int

  /** A mood record: the draft being composed and every stored history entry. */
  datatype Entry = Entry(score: int, tags: seq<string>, note: string, date: Date)

  /** The draft a fresh page, or a successful save, starts from. */
  function Default(today: Date): (e: Entry)
    ensures e.tags == [] && e.note == "" && e.date == today
    ensures e.score == 5 && 1 <= e.score <= 10
  {
    Entry(5, [], "", today)
  }

  /** The five faces, from saddest to happiest. */
  const Faces: seq<string> := ["\U{1F622}", "\U{1F614}", "\U{1F610}", "\U{1F642}", "\U{1F60A}"]

  /** The face shown next to a score: a chain of thresholds at 2, 4, 6 and 8. */
  function MoodEmoji(score: int): (face: string)
    ensures face in Faces
  {
    if score <= 2 then "\U{1F622}"
    else if score <= 4 then "\U{1F614}"
    else if score <= 6 then "\U{1F610}"
    else if score <= 8 then "\U{1F642}"
    else "\U{1F60A}"
  }

  /** Reference banding: scores are paired (1-2, 3-4, 5-6, 7-8, 9-10), and
      everything below or above the slider range joins the outer bands. */
  function Band(score: int): (b: nat)
    ensures b < |Faces|
  {
    if score <= 2 then 0 else if score >= 9 then 4 else (score - 1) / 2
  }

  /** The threshold chain and the paired banding agree on every score. */
  lemma EmojiIsBandFace(score: int)
    ensures MoodEmoji(score) == Faces[Band(score)]
  {
  }

  /** The five faces are pairwise different, so a face identifies its band. */
  lemma SameFaceIffSameBand(s1: int, s2: int)
    ensures MoodEmoji(s1) == MoodEmoji(s2) <==> Band(s1) == Band(s2)
  {
    EmojiIsBandFace(s1);
    EmojiIsBandFace(s2);
    assert Faces[0] != Faces[1] && Faces[0] != Faces[2] && Faces[0] != Faces[3] && Faces[0] != Faces[4];
    assert Faces[1] != Faces[2] && Faces[1] != Faces[3] && Faces[1] != Faces[4];
    assert Faces[2] != Faces[3] && Faces[2] != Faces[4] && Faces[3] != Faces[4];
  }

  /** A higher score never shows a sadder face. */
  lemma BandMonotone(s1: int, s2: int)
    requires s1 <= s2
    ensures Band(s1) <= Band(s2)
  {
  }

  /** Every one of the five bands is reached by some slider score. */
  lemma EveryBandReached(b: nat)
    requires b < |Faces|
    ensures 1 <= 2 * b + 1 <= 10 && Band(2 * b + 1) == b && Band(2 * b + 2) == b
  {
  }
}
