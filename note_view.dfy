/**
 * A note as the browser holds it: the JSON the server sent, in which the
 * `images` array may be missing on older or partial records.
 */
module NoteView {
  import opened Wrappers
  import opened Text
  import opened Seqs
  import opened NoteSchema

  datatype ViewNote = ViewNote(
    id: NoteId,
    title: string,
    category: string,
    content: string,
    images: Option<seq<Image>>,
    isFavorite: bool,
    createdAt: Time)

  /** The view of a stored note, as it arrives from the server. */
  function FromServer(n: Note): ViewNote {
    ViewNote(n.id, n.title, n.category, n.content, Some(n.images), n.isFavorite, n.createdAt)
  }

  /** `note.images?.length || 0`. */
  function ImageCount(n: ViewNote): nat {
    if n.images.Some? then |n.images.value| else 0
  }

  /** `note.images && note.images.length > 0`. */
  predicate HasImages(n: ViewNote) {
    n.images.Some? && |n.images.value| > 0
  }

  /** `notes.map(note => note.category.toLowerCase())`. */
  function LowerCategories(notes: seq<ViewNote>): seq<string> {
    Map(notes, (n: ViewNote) => ToLower(n.category))
  }

  /** `new Set(notes.map(note => note.category.toLowerCase())).size`, shown on the home page and in the analytics panel. */
  function CategoriesCount(notes: seq<ViewNote>): nat {
    |set c | c in LowerCategories(notes)|
  }

  /** `notes.filter(note => note.images && note.images.length > 0).length`, shown on both pages too. */
  function NotesWithImages(notes: seq<ViewNote>): nat {
    Count(notes, HasImages)
  }
}
