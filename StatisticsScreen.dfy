/**
  `calculateStatistics`: the total, the per-category counts built in a
  dictionary one note at a time, and the longest and shortest notes by
  content length found in one left-to-right scan in which a later note
  replaces the current pick only when strictly longer (strictly shorter).
 */
module StatisticsScreen {
  import opened Wrappers
  import opened Types

  datatype Statistics = Statistics(
    totalNotes: nat,
    notesByCategory: map<string, nat>,
    longestNote: Option<Note>,
    shortestNote: Option<Note>)

  /** How many of the notes have the category (the reference for the
      per-category counts). */
  function CountCategory(notes: seq<Note>, category: string): (count: nat) {
    if notes == [] then 0
    else CountCategory(notes[..|notes| - 1], category)
         + (if notes[|notes| - 1].category == category then 1 else 0)
  }

  /** A category is counted at least once exactly when some note has it. */
  lemma {:induction false} CountCategoryPositive(notes: seq<Note>, category: string)
    ensures CountCategory(notes, category) > 0 <==> exists i :: 0 <= i < |notes| && notes[i].category == category
  {
    if notes != [] {
      var init := notes[..|notes| - 1];
      CountCategoryPositive(init, category);
      if exists i :: 0 <= i < |notes| && notes[i].category == category {
        var i :| 0 <= i < |notes| && notes[i].category == category;
        if i < |init| {
          assert init[i] == notes[i];
        }
      }
      if exists i :: 0 <= i < |init| && init[i].category == category {
        var i :| 0 <= i < |init| && init[i].category == category;
        assert notes[i] == init[i];
      }
    }
  }

  /** The sum of a dictionary's values. */
  ghost function SumValues(m: map<string, nat>): (sum: nat)
    decreases |m|
  {
    if m == map[] then 0
    else
      var k :| k in m;
      m[k] + SumValues(m - {k})
  }

  /** Any key can be taken out first. */
  lemma SumValuesRemove(m: map<string, nat>, k: string)
    requires k in m
    ensures SumValues(m) == m[k] + SumValues(m - {k})
    decreases |m|
  {
    var j :| j in m && SumValues(m) == m[j] + SumValues(m - {j});
    if j != k {
      SumValuesRemove(m - {j}, k);
      SumValuesRemove(m - {k}, j);
      assert m - {j} - {k} == m - {k} - {j};
    }
  }

  /** Counting one more note under a key adds one to the sum. */
  lemma SumValuesIncrement(m: map<string, nat>, k: string)
    ensures SumValues(m[k := (if k in m then m[k] else 0) + 1]) == SumValues(m) + 1
  {
    var m' := m[k := (if k in m then m[k] else 0) + 1];
    SumValuesRemove(m', k);
    if k in m {
      SumValuesRemove(m, k);
      assert m' - {k} == m - {k};
    } else {
      assert m' - {k} == m;
    }
  }

  /** The first note of greatest content length. */
  ghost predicate IsFirstLongest(notes: seq<Note>, i: int) {
    && 0 <= i < |notes|
    && (forall j :: 0 <= j < |notes| ==> |notes[j].content| <= |notes[i].content|)
    && (forall j :: 0 <= j < i ==> |notes[j].content| < |notes[i].content|)
  }

  /** The first note of least content length. */
  ghost predicate IsFirstShortest(notes: seq<Note>, i: int) {
    && 0 <= i < |notes|
    && (forall j :: 0 <= j < |notes| ==> |notes[i].content| <= |notes[j].content|)
    && (forall j :: 0 <= j < i ==> |notes[i].content| < |notes[j].content|)
  }

  /** The first `forEach`: `categoryCount[note.category] =
      (categoryCount[note.category] || 0) + 1` for each note in turn. */
  method CountByCategory(notes: seq<Note>) returns (categoryCount: map<string, nat>)
    ensures forall c :: c in categoryCount <==> exists i :: 0 <= i < |notes| && notes[i].category == c
    ensures forall c :: c in categoryCount ==> categoryCount[c] == CountCategory(notes, c)
    ensures SumValues(categoryCount) == |notes|
  {
    categoryCount := map[];
    for i := 0 to |notes|
      invariant forall c :: c in categoryCount <==> CountCategory(notes[..i], c) > 0
      invariant forall c :: c in categoryCount ==> categoryCount[c] == CountCategory(notes[..i], c)
      invariant SumValues(categoryCount) == i
    {
      var category := notes[i].category;
      assert notes[..i + 1][..i] == notes[..i] && notes[..i + 1][i] == notes[i];
      assert forall c :: CountCategory(notes[..i + 1], c)
                         == CountCategory(notes[..i], c) + (if category == c then 1 else 0);
      SumValuesIncrement(categoryCount, category);
      categoryCount := categoryCount[category := (if category in categoryCount then categoryCount[category] else 0) + 1];
    }
    assert notes[..|notes|] == notes;
    forall c ensures c in categoryCount <==> exists i :: 0 <= i < |notes| && notes[i].category == c {
      CountCategoryPositive(notes, c);
    }
  }

  /** The second `forEach`, over a non-empty list: both picks start at the
      first note and move only to a strictly longer (shorter) one. */
  method LongestAndShortest(notes: seq<Note>) returns (longest: Note, shortest: Note)
    requires notes != []
    ensures exists i :: IsFirstLongest(notes, i) && longest == notes[i]
    ensures exists i :: IsFirstShortest(notes, i) && shortest == notes[i]
  {
    longest, shortest := notes[0], notes[0];
    ghost var li, si := 0, 0;
    for i := 0 to |notes|
      invariant li < |notes| && li <= i && longest == notes[li]
      invariant forall j :: 0 <= j < i ==> |notes[j].content| <= |longest.content|
      invariant forall j :: 0 <= j < li ==> |notes[j].content| < |longest.content|
      invariant si < |notes| && si <= i && shortest == notes[si]
      invariant forall j :: 0 <= j < i ==> |shortest.content| <= |notes[j].content|
      invariant forall j :: 0 <= j < si ==> |shortest.content| < |notes[j].content|
    {
      var note := notes[i];
      if |note.content| > |longest.content| {
        longest, li := note, i;
      }
      if |note.content| < |shortest.content| {
        shortest, si := note, i;
      }
    }
    assert IsFirstLongest(notes, li) && IsFirstShortest(notes, si);
  }

  /** `calculateStatistics()`, returning what it hands to the state setters. */
  method CalculateStatistics(notes: seq<Note>) returns (stats: Statistics)
    ensures stats.totalNotes == |notes|
    ensures forall c :: c in stats.notesByCategory <==> exists i :: 0 <= i < |notes| && notes[i].category == c
    ensures forall c :: c in stats.notesByCategory ==> stats.notesByCategory[c] == CountCategory(notes, c)
    ensures SumValues(stats.notesByCategory) == |notes|
    ensures stats.longestNote.None? <==> notes == []
    ensures stats.shortestNote.None? <==> notes == []
    ensures notes != [] ==> exists i :: IsFirstLongest(notes, i) && stats.longestNote == Some(notes[i])
    ensures notes != [] ==> exists i :: IsFirstShortest(notes, i) && stats.shortestNote == Some(notes[i])
  {
    var totalNotes := |notes|;
    var categoryCount := CountByCategory(notes);
    var longestNote: Option<Note> := None;
    var shortestNote: Option<Note> := None;
    if |notes| > 0 {
      var longest, shortest := LongestAndShortest(notes);
      longestNote, shortestNote := Some(longest), Some(shortest);
    }
    stats := Statistics(totalNotes, categoryCount, longestNote, shortestNote);
  }
}
