/**
 * The analytics panel: image totals, recent activity over the last seven
 * days, the per-category breakdown and the colour of each category.
 */
module Analytics {
  import opened Wrappers
  import opened Text
  import opened Seqs
  import opened NoteSchema
  import opened NoteView

  /** `notes.reduce((acc, note) => acc + (note.images?.length || 0), 0)`. */
  function TotalImages(notes: seq<ViewNote>): nat
    decreases |notes|
  {
    if notes == [] then 0 else ImageCount(notes[0]) + TotalImages(notes[1..])
  }

  /** Notes with images are among the notes, and each of them holds at least one of the images. */
  lemma {:induction false} ImageCountersBounded(notes: seq<ViewNote>)
    ensures NotesWithImages(notes) <= |notes|
    ensures NotesWithImages(notes) <= TotalImages(notes)
    ensures NotesWithImages(notes) == 0 <==> TotalImages(notes) == 0
    decreases |notes|
  {
    if notes != [] {
      ImageCountersBounded(notes[1..]);
    }
  }

  /** Seven days, in milliseconds. */
  const Week := 7 * 24 * 60 * 60 * 1000

  function RecentBy(now: Time): ViewNote -> bool {
    (n: ViewNote) => n.createdAt >= now - Week
  }

  /** `recentNotes`: the notes created at or after one week before `now`. */
  function RecentNotes(notes: seq<ViewNote>, now: Time): nat {
    Count(notes, RecentBy(now))
  }

  /**
   * A note is recent exactly when it was created at most a week before
   * `now`; and the later the clock, the fewer the recent notes.
   */
  lemma RecentNotesSpec(notes: seq<ViewNote>, now: Time, later: Time, n: ViewNote)
    ensures n in Filter(notes, RecentBy(now)) <==> n in notes && n.createdAt >= now - Week
    ensures RecentNotes(notes, now) <= |notes|
    ensures now <= later ==> RecentNotes(notes, later) <= RecentNotes(notes, now)
  {
    FilterMembership(notes, RecentBy(now), n);
    if now <= later {
      FilterWeaker(notes, RecentBy(later), RecentBy(now));
    }
  }

  /** A predicate that holds wherever another does keeps at least as many elements. */
  lemma {:induction false} FilterWeaker<T>(s: seq<T>, p: T -> bool, q: T -> bool)
    requires forall x :: p(x) ==> q(x)
    ensures |Filter(s, p)| <= |Filter(s, q)|
  {
    if s != [] {
      FilterWeaker(s[1..], p, q);
    }
  }

  /** How often `c` occurs in `s`. */
  function Occurrences(s: seq<string>, c: string): nat
    decreases |s|
  {
    if s == [] then 0 else Occurrences(s[..|s| - 1], c) + (if s[|s| - 1] == c then 1 else 0)
  }

  /** `categoryStats`: each lowercased category with the number of notes filed under it. */
  function CategoryCounts(notes: seq<ViewNote>): map<string, nat> {
    map c | c in LowerCategories(notes) :: Occurrences(LowerCategories(notes), c)
  }

  /**
   * The reduce that builds `categoryStats`, as an in-place update of a
   * dictionary keyed by lowercased category: one more for the category
   * of each note, counting from nothing when the category is new.
   */
  method CategoryStats(notes: seq<ViewNote>) returns (stats: map<string, nat>)
    ensures stats == CategoryCounts(notes)
  {
    stats := map[];
    var lower := LowerCategories(notes);
    for i := 0 to |notes|
      invariant forall c :: c in stats <==> c in lower[..i]
      invariant forall c :: c in stats ==> stats[c] == Occurrences(lower[..i], c)
    {
      var category := ToLower(notes[i].category);
      ghost var seen := lower[..i];
      assert lower[..i + 1] == seen + [category];
      stats := stats[category := (if category in stats then stats[category] else 0) + 1];
      forall c ensures Occurrences(seen + [category], c) == Occurrences(seen, c) + (if c == category then 1 else 0) {
        OccurrencesSnoc(seen, category, c);
      }
      forall c | c !in seen ensures Occurrences(seen, c) == 0 {
        OccurrencesAbsent(seen, c);
      }
    }
    assert lower[..|notes|] == lower;
  }

  lemma OccurrencesSnoc(s: seq<string>, x: string, c: string)
    ensures Occurrences(s + [x], c) == Occurrences(s, c) + (if x == c then 1 else 0)
  {
    assert (s + [x])[..|s|] == s;
  }

  /** The counts of the categories listed in `keys`, added up. */
  function SumCounts(keys: seq<string>, s: seq<string>): nat
    decreases |keys|
  {
    if keys == [] then 0 else SumCounts(keys[..|keys| - 1], s) + Occurrences(s, keys[|keys| - 1])
  }

  /**
   * The breakdown covers every note once: its values add up to the number
   * of notes, and it has as many entries as there are distinct categories.
   */
  lemma CategoryCountsTotal(notes: seq<ViewNote>)
    ensures CategoryCounts(notes).Keys == set c | c in Distinct(LowerCategories(notes))
    ensures forall c :: c in Distinct(LowerCategories(notes)) ==>
      CategoryCounts(notes)[c] == Occurrences(LowerCategories(notes), c)
    ensures SumCounts(Distinct(LowerCategories(notes)), LowerCategories(notes)) == |notes|
    ensures |CategoryCounts(notes).Keys| == CategoriesCount(notes)
  {
    var lower := LowerCategories(notes);
    DistinctSpec(lower);
    SumOverDistinct(lower);
    assert CategoryCounts(notes).Keys == set c | c in lower;
  }

  /** Adding up, over the distinct values of `s`, how often each occurs gives the length of `s`. */
  lemma {:induction false} SumOverDistinct(s: seq<string>)
    ensures SumCounts(Distinct(s), s) == |s|
    decreases |s|
  {
    if s != [] {
      var init, x := s[..|s| - 1], s[|s| - 1];
      assert s == init + [x];
      SumOverDistinct(init);
      DistinctSpec(init);
      var d := Distinct(init);
      SumCountsSnoc(d, init, x);
      if x !in d {
        var d' := d + [x];
        assert d'[..|d'| - 1] == d;
        OccurrencesAbsent(init, x);
        assert Occurrences(s, x) == 1;
      }
    }
  }

  /** One more element in `s` adds one to the sum exactly when it is among the keys. */
  lemma {:induction false} SumCountsSnoc(keys: seq<string>, s: seq<string>, x: string)
    requires NoDuplicates(keys)
    ensures SumCounts(keys, s + [x]) == SumCounts(keys, s) + (if x in keys then 1 else 0)
    decreases |keys|
  {
    var t := s + [x];
    assert t[..|t| - 1] == s;
    if keys != [] {
      var init := keys[..|keys| - 1];
      assert NoDuplicates(init);
      SumCountsSnoc(init, s, x);
      assert keys == init + [keys[|keys| - 1]];
      assert keys[|keys| - 1] !in init;
    }
  }

  lemma {:induction false} OccurrencesAbsent(s: seq<string>, c: string)
    requires c !in s
    ensures Occurrences(s, c) == 0
    decreases |s|
  {
    if s != [] {
      assert c !in s[..|s| - 1];
      OccurrencesAbsent(s[..|s| - 1], c);
    }
  }

  /** The one key an accumulator object literal cannot hold as its own property. */
  const ProtoKey := "__proto__"

  /**
   * `categoryStats` as the reduce runs on a plain object literal `{}`,
   * for the "__proto__" key: `acc["__proto__"] || 0` reads
   * `Object.prototype`, so the value assigned is the string
   * "[object Object]1", which the prototype setter ignores because it is
   * neither an object nor null. Notes under that category are never
   * counted. The other inherited name that survives lowercasing,
   * "constructor", is counted here as an ordinary key, although in
   * JavaScript its value becomes a string; that case is not modelled.
   */
  function CategoryStatsAsWritten(lower: seq<string>): map<string, nat>
    decreases |lower|
  {
    if lower == [] then map[]
    else
      var acc := CategoryStatsAsWritten(lower[..|lower| - 1]);
      var c := lower[|lower| - 1];
      if c == ProtoKey then acc else acc[c := (if c in acc then acc[c] else 0) + 1]
  }

  /** One note filed under "__proto__": the object literal breakdown shows no entry, where one with count 1 was meant. */
  lemma ProtoCategoryLost()
    ensures var notes := [ViewNote(0, "t", "__proto__", "", None, false, 0)];
      && CategoryStatsAsWritten(LowerCategories(notes)) == map[]
      && CategoryCounts(notes) == map["__proto__" := 1]
      && CategoriesCount(notes) == 1
  {
    var notes := [ViewNote(0, "t", "__proto__", "", None, false, 0)];
    var lower := LowerCategories(notes);
    assert ToLower("__proto__") == "__proto__";
    assert lower == ["__proto__"];
    assert lower[..0] == [];
    assert (set c | c in lower) == {"__proto__"};
  }

  /** `getCategoryColor`: the six known categories have a colour; anything else is grey. */
  function CategoryColor(category: string): string {
    if category == "personal" then "bg-blue-500"
    else if category == "work" then "bg-green-500"
    else if category == "ideas" then "bg-purple-500"
    else if category == "important" then "bg-red-500"
    else if category == "passwords" then "bg-yellow-500"
    else "bg-gray-500"
  }

  /** A category is grey exactly when it is "other" or none of the five coloured ones; no two of those share a colour. */
  lemma CategoryColorSpec(a: string, b: string)
    ensures CategoryColor(a) == "bg-gray-500" <==>
      a !in ["personal", "work", "ideas", "important", "passwords"]
    ensures CategoryColor(a) == CategoryColor(b) && CategoryColor(a) != "bg-gray-500" ==> a == b
  {
  }
}
