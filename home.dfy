/**
 * The list logic of the home page: the search/category/favourites filter,
 * the category buttons, selection for bulk actions, the counters, the
 * optimistic favourite update and the greeting.
 */
module Home {
  import opened Text
  import opened Seqs
  import opened NoteSchema
  import opened NoteView

  /** The case-insensitive search term occurs in the title or in the content. */
  predicate MatchesSearch(n: ViewNote, term: string) {
    Contains(ToLower(n.title), ToLower(term)) || Contains(ToLower(n.content), ToLower(term))
  }

  /** The category filter: "all", or the note's category ignoring case. */
  predicate MatchesCategory(n: ViewNote, selected: string) {
    selected == "all" || ToLower(n.category) == ToLower(selected)
  }

  predicate MatchesFavorites(n: ViewNote, favoritesOnly: bool) {
    !favoritesOnly || n.isFavorite
  }

  predicate Shown(n: ViewNote, term: string, selected: string, favoritesOnly: bool) {
    MatchesSearch(n, term) && MatchesCategory(n, selected) && MatchesFavorites(n, favoritesOnly)
  }

  function ShownBy(term: string, selected: string, favoritesOnly: bool): ViewNote -> bool {
    n => Shown(n, term, selected, favoritesOnly)
  }

  /** `filteredNotes`. */
  function FilteredNotes(notes: seq<ViewNote>, term: string, selected: string, favoritesOnly: bool): seq<ViewNote> {
    Filter(notes, ShownBy(term, selected, favoritesOnly))
  }

  /**
   * A note is listed exactly when it is one of the notes and the search
   * term occurs in its title or content (ignoring case), its category is
   * the selected one (ignoring case) or "all" is selected, and it is a
   * favourite or the favourites-only switch is off.
   */
  lemma FilteredNotesIff(notes: seq<ViewNote>, term: string, selected: string, favoritesOnly: bool, n: ViewNote)
    ensures n in FilteredNotes(notes, term, selected, favoritesOnly) <==>
      && n in notes
      && ((exists i: nat :: OccursAt(ToLower(n.title), ToLower(term), i))
          || (exists i: nat :: OccursAt(ToLower(n.content), ToLower(term), i)))
      && (selected == "all" || ToLower(n.category) == ToLower(selected))
      && (!favoritesOnly || n.isFavorite)
  {
    FilterMembership(notes, ShownBy(term, selected, favoritesOnly), n);
    ContainsIff(ToLower(n.title), ToLower(term));
    ContainsIff(ToLower(n.content), ToLower(term));
  }

  /** The list keeps the notes' order, and the initial filter settings list every note. */
  lemma FilteredNotesOrder(notes: seq<ViewNote>, term: string, selected: string, favoritesOnly: bool)
    ensures IsSubsequence(FilteredNotes(notes, term, selected, favoritesOnly), notes)
    ensures FilteredNotes(notes, "", "all", false) == notes
  {
    FilterIsSubsequence(notes, ShownBy(term, selected, favoritesOnly));
    assert ToLower("") == "";
    FilterKeepsAll(notes, ShownBy("", "all", false));
  }

  /** `["all", ...new Set(notes.map(note => note.category.toLowerCase()))]`. */
  function Categories(notes: seq<ViewNote>): seq<string> {
    ["all"] + Distinct(LowerCategories(notes))
  }

  /**
   * The category buttons: "all" first, then every lowercased category
   * once, in the order in which they first occur among the notes; there
   * are as many of them, after "all", as the categories counter says.
   */
  lemma CategoriesSpec(notes: seq<ViewNote>)
    ensures Categories(notes)[0] == "all"
    ensures forall c :: c in Categories(notes)[1..] <==> exists i :: 0 <= i < |notes| && ToLower(notes[i].category) == c
    ensures NoDuplicates(Categories(notes)[1..])
    ensures forall i, j :: 1 <= i < j < |Categories(notes)| ==>
      && Categories(notes)[i] in LowerCategories(notes) && Categories(notes)[j] in LowerCategories(notes)
      && FirstIndex(LowerCategories(notes), Categories(notes)[i]) < FirstIndex(LowerCategories(notes), Categories(notes)[j])
    ensures |Categories(notes)| == 1 + CategoriesCount(notes)
  {
    var lower := LowerCategories(notes);
    var cs := Categories(notes);
    DistinctSpec(lower);
    DistinctSize(lower);
    assert cs[1..] == Distinct(lower);
    forall c ensures c in cs[1..] <==> exists i :: 0 <= i < |notes| && ToLower(notes[i].category) == c {
      if c in lower {
        var i :| 0 <= i < |lower| && lower[i] == c;
        assert ToLower(notes[i].category) == c;
      }
      if exists i :: 0 <= i < |notes| && ToLower(notes[i].category) == c {
        var i :| 0 <= i < |notes| && ToLower(notes[i].category) == c;
        assert lower[i] == c;
      }
    }
    forall i, j | 1 <= i < j < |cs|
      ensures cs[i] in lower && cs[j] in lower && FirstIndex(lower, cs[i]) < FirstIndex(lower, cs[j])
    {
      assert cs[i] == Distinct(lower)[i - 1] && cs[j] == Distinct(lower)[j - 1];
    }
  }

  function Other(id: NoteId): NoteId -> bool {
    x => x != id
  }

  /** `handleSelectNote`: remove the id if it is selected, append it otherwise. */
  function SelectNote(selected: seq<NoteId>, id: NoteId): seq<NoteId> {
    if id in selected then Filter(selected, Other(id)) else selected + [id]
  }

  /**
   * Selecting flips the membership of `id` and of nothing else; a
   * selection without repeats stays without repeats; and selecting a new
   * id twice gives back the original selection.
   */
  lemma SelectNoteFlips(selected: seq<NoteId>, id: NoteId)
    ensures id in SelectNote(selected, id) <==> id !in selected
    ensures forall x :: x != id ==> (x in SelectNote(selected, id) <==> x in selected)
    ensures NoDuplicates(selected) ==> NoDuplicates(SelectNote(selected, id))
    ensures id !in selected ==> SelectNote(SelectNote(selected, id), id) == selected
  {
    var p := Other(id);
    forall x ensures x in Filter(selected, p) <==> x in selected && x != id {
      FilterMembership(selected, p, x);
    }
    if id in selected {
      if NoDuplicates(selected) {
        FilterNoDuplicates(selected, p);
      }
    } else {
      FilterAppend(selected, [id], p);
      FilterKeepsAll(selected, p);
      assert Filter([id], p) == [];
    }
  }

  /** A filter of a sequence without repeats has no repeats. */
  lemma {:induction false} FilterNoDuplicates<T>(s: seq<T>, p: T -> bool)
    requires NoDuplicates(s)
    ensures NoDuplicates(Filter(s, p))
  {
    if s != [] {
      FilterNoDuplicates(s[1..], p);
      FilterMembership(s[1..], p, s[0]);
      assert s[0] !in s[1..] by {
        forall i | 0 <= i < |s[1..]| ensures s[1..][i] != s[0] { assert s[1..][i] == s[i + 1]; }
      }
    }
  }

  /** The ids of some notes, in order. */
  function Ids(notes: seq<ViewNote>): seq<NoteId> {
    Map(notes, (n: ViewNote) => n.id)
  }

  /** `handleSelectAll`: clear when as many are selected as are listed, otherwise select the listed ones. */
  function SelectAll(selected: seq<NoteId>, filtered: seq<ViewNote>): seq<NoteId> {
    if |selected| == |filtered| then [] else Ids(filtered)
  }

  /**
   * Select-all clears a full selection and otherwise selects exactly the
   * listed notes, in list order; pressing it twice on an empty selection
   * of a non-empty list clears it again.
   */
  lemma SelectAllSpec(selected: seq<NoteId>, filtered: seq<ViewNote>)
    ensures |selected| == |filtered| ==> SelectAll(selected, filtered) == []
    ensures |selected| != |filtered| ==>
      |SelectAll(selected, filtered)| == |filtered| &&
      forall i :: 0 <= i < |filtered| ==> SelectAll(selected, filtered)[i] == filtered[i].id
    ensures filtered != [] ==> SelectAll(SelectAll([], filtered), filtered) == []
  {
  }

  function FavoriteNotes(notes: seq<ViewNote>): nat {
    Count(notes, (n: ViewNote) => n.isFavorite)
  }

  /** The counters: notes with images and favourites are among the notes; distinct categories are at most the notes. */
  lemma CountersBounded(notes: seq<ViewNote>)
    ensures NotesWithImages(notes) <= |notes|
    ensures FavoriteNotes(notes) <= |notes|
    ensures CategoriesCount(notes) <= |notes|
    ensures notes != [] ==> CategoriesCount(notes) >= 1
  {
    DistinctSize(LowerCategories(notes));
    DistinctSpec(LowerCategories(notes));
    if notes != [] {
      assert LowerCategories(notes)[0] in Distinct(LowerCategories(notes));
    }
    DistinctBounded(LowerCategories(notes));
  }

  lemma {:induction false} DistinctBounded<T>(s: seq<T>)
    ensures |Distinct(s)| <= |s|
    decreases |s|
  {
    if s != [] {
      DistinctBounded(s[..|s| - 1]);
    }
  }

  /** `handleFavoriteChange`: the note with this id gets the new flag. */
  function FavoriteChange(notes: seq<ViewNote>, id: NoteId, isFavorite: bool): seq<ViewNote> {
    seq(|notes|, i requires 0 <= i < |notes| =>
      if notes[i].id == id then notes[i].(isFavorite := isFavorite) else notes[i])
  }

  /**
   * Only the flag of the notes with this id changes; every other note and
   * every other field stays, and doing it again changes nothing more.
   */
  lemma FavoriteChangeSpec(notes: seq<ViewNote>, id: NoteId, isFavorite: bool)
    ensures var r := FavoriteChange(notes, id, isFavorite);
      && |r| == |notes|
      && (forall i :: 0 <= i < |notes| && notes[i].id != id ==> r[i] == notes[i])
      && (forall i :: 0 <= i < |notes| && notes[i].id == id ==>
            r[i].isFavorite == isFavorite && r[i].(isFavorite := notes[i].isFavorite) == notes[i])
      && FavoriteChange(r, id, isFavorite) == r
      && Ids(r) == Ids(notes)
  {
  }

  /** `getGreeting` for the hour of the local clock. */
  function Greeting(hour: int): string {
    if hour < 12 then "Good morning"
    else if hour < 17 then "Good afternoon"
    else "Good evening"
  }

  function GreetingRank(g: string): nat {
    if g == "Good morning" then 0 else if g == "Good afternoon" then 1 else 2
  }

  /**
   * Morning before noon, afternoon until five, evening after; and the
   * greeting only ever moves forward through the day.
   */
  lemma GreetingSpec(h: int, h': int)
    ensures Greeting(h) == "Good morning" <==> h < 12
    ensures Greeting(h) == "Good afternoon" <==> 12 <= h < 17
    ensures Greeting(h) == "Good evening" <==> 17 <= h
    ensures h <= h' ==> GreetingRank(Greeting(h)) <= GreetingRank(Greeting(h'))
  {
  }
}
