/** The Mood Journal screen: a 1-10 mood scale, a form, and a newest-first list of entries. */
module MoodJournal {
  import Lists
  import opened Wrappers

  /** One row of the mood scale. */
  datatype MoodOption = MoodOption(value: int, emoji: string, caption: string)

  /** The scale as the screen defines it. */
  const MoodTable: seq<MoodOption> := [
    MoodOption(1, "😢", "Very Sad"),
    MoodOption(2, "😟", "Sad"),
    MoodOption(3, "😐", "Okay"),
    MoodOption(4, "🙂", "Good"),
    MoodOption(5, "😊", "Happy"),
    MoodOption(6, "😄", "Very Happy"),
    MoodOption(7, "🤗", "Excited"),
    MoodOption(8, "😍", "Loved"),
    MoodOption(9, "🤩", "Amazing"),
    MoodOption(10, "🥳", "Euphoric")
  ]

  const DefaultEmoji: string := "😐"
  const DefaultLabel: string := "Neutral"

  predicate InScale(mood: int) {
    1 <= mood <= 10
  }

  /** The scale lists the values 1 to 10 in ascending order, each once, with a non-empty emoji and label. */
  lemma MoodTableShape()
    ensures |MoodTable| == 10
    ensures forall i :: 0 <= i < |MoodTable| ==> MoodTable[i].value == i + 1
    ensures forall i :: 0 <= i < |MoodTable| ==> MoodTable[i].emoji != [] && MoodTable[i].caption != []
  {
  }

  /** `Array.prototype.find`: the first option carrying `mood`, if there is one. */
  function FindOption(table: seq<MoodOption>, mood: int): (r: Option<MoodOption>)
    ensures r.None? <==> forall i :: 0 <= i < |table| ==> table[i].value != mood
    ensures r.Some? ==> exists i :: 0 <= i < |table| && table[i] == r.value && table[i].value == mood
                                    && forall j :: 0 <= j < i ==> table[j].value != mood
  {
    if |table| == 0 then None
    else if table[0].value == mood then Some(table[0])
    else
      var r := FindOption(table[1..], mood);
      if r.Some? then
        var i :| 0 <= i < |table[1..]| && table[1..][i] == r.value && table[1..][i].value == mood
                 && forall j :: 0 <= j < i ==> table[1..][j].value != mood;
        assert table[i + 1] == r.value && forall j :: 0 <= j < i + 1 ==> table[j].value != mood by {
          forall j | 0 <= j < i + 1 ensures table[j].value != mood {
            if j > 0 { assert table[j] == table[1..][j - 1]; }
          }
        }
        r
      else
        assert forall i :: 1 <= i < |table| ==> table[i] == table[1..][i - 1];
        r
  }

  /** In a table numbered 1, 2, 3, ... the option for `mood` is the one at position `mood - 1`. */
  lemma FindNumbered(table: seq<MoodOption>, mood: int)
    requires forall i :: 0 <= i < |table| ==> table[i].value == i + 1
    requires 1 <= mood <= |table|
    ensures FindOption(table, mood) == Some(table[mood - 1])
  {
    assert table[mood - 1].value == mood;
  }

  /** The table row for a mood on the scale. */
  lemma FindOnScale(mood: int)
    ensures InScale(mood) ==> FindOption(MoodTable, mood) == Some(MoodTable[mood - 1])
  {
    MoodTableShape();
    if InScale(mood) {
      FindNumbered(MoodTable, mood);
    }
  }

  /** `getMoodEmoji`: the scale's emoji for 1 to 10, the neutral face for anything else. */
  function GetMoodEmoji(mood: int): (e: string)
    ensures InScale(mood) ==> e == MoodTable[mood - 1].emoji
    ensures !InScale(mood) ==> e == DefaultEmoji
  {
    MoodTableShape();
    FindOnScale(mood);
    match FindOption(MoodTable, mood)
    case Some(o) => if o.emoji != [] then o.emoji else DefaultEmoji
    case None => DefaultEmoji
  }

  /** `getMoodLabel`: the scale's label for 1 to 10, "Neutral" for anything else. */
  function GetMoodLabel(mood: int): (l: string)
    ensures InScale(mood) ==> l == MoodTable[mood - 1].caption
    ensures !InScale(mood) ==> l == DefaultLabel
  {
    MoodTableShape();
    FindOnScale(mood);
    match FindOption(MoodTable, mood)
    case Some(o) => if o.caption != [] then o.caption else DefaultLabel
    case None => DefaultLabel
  }

  /** A saved entry: `id` and `date` come from the clock when it is saved. */
  datatype MoodEntry = MoodEntry(id: string, date: string, mood: int, note: string, emoji: string)

  /**
   * The screen's state: the entries (newest first), the form's mood and note,
   * and the id of the entry last loaded for editing.
   */
  datatype Journal = Journal(entries: seq<MoodEntry>, currentMood: int, note: string, editing: Option<string>)

  /** The journal on mount, with its five sample entries. */
  const Seeded := Journal([
      MoodEntry("1", "2024-01-10", 8, "Had a great meditation session this morning. Feeling centered and focused.", "😊"),
      MoodEntry("2", "2024-01-09", 6, "Work was stressful but managed to take regular breaks.", "😐"),
      MoodEntry("3", "2024-01-08", 9, "Perfect digital detox day! Spent time in nature and felt incredibly peaceful.", "😍"),
      MoodEntry("4", "2024-01-07", 7, "Good day overall. Practiced mindfulness during lunch break.", "🙂"),
      MoodEntry("5", "2024-01-06", 5, "Feeling neutral today. Need to focus more on self-care.", "😑")
    ], 5, "", None)

  /** An entry whose stored emoji is the one the scale gives its mood. */
  predicate EmojiAgrees(e: MoodEntry) {
    e.emoji == GetMoodEmoji(e.mood)
  }

  predicate AllAgree(entries: seq<MoodEntry>) {
    forall k :: 0 <= k < |entries| ==> EmojiAgrees(entries[k])
  }

  /** The sample entries do not follow the scale: mood 8 is stored with 😊 where the scale has 😍. */
  lemma SeededDisagrees()
    ensures !EmojiAgrees(Seeded.entries[0])
    ensures !AllAgree(Seeded.entries)
  {
    assert GetMoodEmoji(8) == "😍";
  }

  /**
   * `handleSaveMood`: a new entry with the form's mood, note and the scale's
   * emoji goes in front of the list, whose older entries stay as they were;
   * the form goes back to mood 5 and an empty note.
   */
  function SaveMood(j: Journal, id: string, date: string): (r: Journal)
    ensures |r.entries| == |j.entries| + 1
    ensures r.entries[1..] == j.entries
    ensures r.entries[0].id == id && r.entries[0].date == date
    ensures r.entries[0].mood == j.currentMood && r.entries[0].note == j.note
    ensures EmojiAgrees(r.entries[0])
    ensures r.currentMood == 5 && r.note == [] && r.editing == j.editing
  {
    var entry := MoodEntry(id, date, j.currentMood, j.note, GetMoodEmoji(j.currentMood));
    Journal([entry] + j.entries, 5, [], j.editing)
  }

  /**
   * `handleDeleteEntry`: every entry with the id goes, the others keep their
   * order; an id not in the list changes nothing. The form is untouched.
   */
  function DeleteEntry(j: Journal, id: string): (r: Journal)
    ensures forall k :: 0 <= k < |r.entries| ==> r.entries[k].id != id && r.entries[k] in j.entries
    ensures forall k :: 0 <= k < |j.entries| && j.entries[k].id != id ==> j.entries[k] in r.entries
    ensures |r.entries| == |j.entries| - Lists.CountWhere(j.entries, (e: MoodEntry) => e.id == id)
    ensures Lists.IsSubsequence(r.entries, j.entries)
    ensures (forall k :: 0 <= k < |j.entries| ==> j.entries[k].id != id) ==> r == j
    ensures r.currentMood == j.currentMood && r.note == j.note && r.editing == j.editing
  {
    var keep := (e: MoodEntry) => e.id != id;
    Lists.FilterLength(j.entries, keep, (e: MoodEntry) => e.id == id);
    j.(entries := Lists.Filter(j.entries, keep))
  }

  /** `handleEditEntry`: loads the entry's mood and note into the form and remembers its id; the list is untouched. */
  function EditEntry(j: Journal, e: MoodEntry): (r: Journal)
    ensures r.entries == j.entries
    ensures r.editing == Some(e.id)
    ensures r.currentMood == e.mood && r.note == e.note
  {
    j.(editing := Some(e.id), currentMood := e.mood, note := e.note)
  }

  /** What the user can do on the screen. */
  datatype Action =
    | PickMood(index: int)             // one of the ten emoji buttons
    | Slide(level: int)                // the range input, min 1, max 10
    | TypeNote(text: string)
    | Save(id: string, date: string)
    | Delete(id: string)
    | Edit(position: int)              // the edit button of a listed entry

  /** The inputs the screen's controls can produce. */
  predicate Offered(j: Journal, a: Action) {
    match a
    case PickMood(i) => 0 <= i < |MoodTable|
    case Slide(v) => 1 <= v <= 10
    case Edit(k) => 0 <= k < |j.entries|
    case _ => true
  }

  /** The form's mood and every stored mood are on the scale. */
  predicate Valid(j: Journal) {
    InScale(j.currentMood) && forall k :: 0 <= k < |j.entries| ==> InScale(j.entries[k].mood)
  }

  /**
   * One user action. Through the screen's controls the form's mood never
   * leaves the scale and neither does any stored mood, and a list whose emojis
   * follow the scale keeps following it.
   */
  function Act(j: Journal, a: Action): (r: Journal)
    requires Offered(j, a)
    ensures Valid(j) ==> Valid(r)
    ensures AllAgree(j.entries) ==> AllAgree(r.entries)
  {
    match a
    case PickMood(i) => MoodTableShape(); j.(currentMood := MoodTable[i].value)
    case Slide(v) => j.(currentMood := v)
    case TypeNote(t) => j.(note := t)
    case Save(id, date) =>
      var r := SaveMood(j, id, date);
      assert forall k :: 1 <= k < |r.entries| ==> r.entries[k] == j.entries[k - 1];
      r
    case Delete(id) => DeleteEntry(j, id)
    case Edit(k) => EditEntry(j, j.entries[k])
  }

  lemma SeededValid()
    ensures Valid(Seeded)
  {
  }

  /** Loading an entry for editing and saving creates a second entry; the original stays in the list. */
  lemma EditThenSaveKeepsOriginal(j: Journal, k: int, id: string, date: string)
    requires 0 <= k < |j.entries|
    ensures var r := SaveMood(EditEntry(j, j.entries[k]), id, date);
      |r.entries| == |j.entries| + 1 && j.entries[k] in r.entries
      && r.entries[0].mood == j.entries[k].mood && r.entries[0].note == j.entries[k].note
  {
    var r := SaveMood(EditEntry(j, j.entries[k]), id, date);
    assert r.entries[k + 1] == j.entries[k];
  }
}
