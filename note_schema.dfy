/**
 * The Note document of the persistence layer: its fields, the defaults the
 * schema fills in when a field is left undefined, the `trim` setters on
 * `title` and `category`, and the `required` checks run when a note is saved.
 */
module NoteSchema {
  import opened Wrappers
  import opened Text

  type NoteId = nat
  type UserId = nat
  type ImageId = nat
  /** A point in time, in milliseconds since the epoch. */
  type Time = int

  /** One entry of a note's `images` array: the subdocument id, the image URL and its deletion handle. */
  datatype Image = Image(id: ImageId, url: string, publicId: string)

  datatype Note = Note(
    id: NoteId,
    title: string,
    category: string,
    content: string,
    images: seq<Image>,
    owner: UserId,
    isFavorite: bool,
    tags: seq<string>,
    template: Option<string>,
    lastViewed: Time,
    createdAt: Time)

  /**
   * The values handed to the Note constructor. `None` is a field left
   * undefined, for which the schema's default applies; for `template`,
   * `None` also stands for an explicit `null`, which is the default anyway.
   */
  datatype NoteFields = NoteFields(
    title: string,
    category: string,
    content: Option<string>,
    images: seq<Image>,
    owner: UserId,
    isFavorite: Option<bool>,
    template: Option<string>,
    lastViewed: Option<Time>)

  /** The `trim: true` setter of `title`: assigning a title stores it trimmed. */
  function SetTitle(n: Note, v: string): Note {
    n.(title := Trim(v))
  }

  /** The `trim: true` setter of `category`. */
  function SetCategory(n: Note, v: string): Note {
    n.(category := Trim(v))
  }

  /** A new document: setters applied, defaults filled in, `createdAt` stamped with `now`. */
  function Construct(f: NoteFields, id: NoteId, now: Time): Note {
    Note(
      id := id,
      title := Trim(f.title),
      category := Trim(f.category),
      content := f.content.GetOr(""),
      images := f.images,
      owner := f.owner,
      isFavorite := f.isFavorite.GetOr(false),
      tags := [],
      template := f.template,
      lastViewed := f.lastViewed.GetOr(now),
      createdAt := now)
  }

  /** An image entry that has both of its required fields (an empty string counts as missing). */
  predicate ImageComplete(img: Image) {
    img.url != "" && img.publicId != ""
  }

  /** The `required` validators: title, category, and url and publicId of every image. */
  predicate Validates(n: Note) {
    && n.title != ""
    && n.category != ""
    && forall i :: 0 <= i < |n.images| ==> ImageComplete(n.images[i])
  }

  const ValidationFailed := "Note validation failed"

  /** `note.save()`: the validators run, and a note that fails them is not stored. */
  function Save(n: Note): (r: Result<Note, string>)
    ensures r.Ok? <==> Validates(n)
    ensures r.Ok? ==> r.value == n
    ensures r.Err? ==> r.error == ValidationFailed
  {
    if Validates(n) then Ok(n) else Err(ValidationFailed)
  }

  /** The defaults of the schema: content "", not a favourite, no template, no tags, last viewed now. */
  lemma ConstructDefaults(f: NoteFields, id: NoteId, now: Time)
    requires f.content.None? && f.isFavorite.None? && f.template.None? && f.lastViewed.None?
    ensures var n := Construct(f, id, now);
      && n.content == "" && !n.isFavorite && n.template.None? && n.tags == []
      && n.lastViewed == now && n.createdAt == now
  {
  }

  /** Stored titles and categories carry no surrounding white space. */
  lemma ConstructTrims(f: NoteFields, id: NoteId, now: Time)
    ensures var n := Construct(f, id, now);
      Trim(n.title) == n.title && Trim(n.category) == n.category
  {
    TrimIdempotent(f.title);
    TrimIdempotent(f.category);
  }

  /**
   * A constructed note passes validation exactly when its title and its
   * category are not white space only and every image entry is complete.
   */
  lemma ConstructValidatesIff(f: NoteFields, id: NoteId, now: Time)
    ensures Validates(Construct(f, id, now)) <==>
      && !AllSpace(f.title) && !AllSpace(f.category)
      && forall i :: 0 <= i < |f.images| ==> ImageComplete(f.images[i])
  {
    TrimEmptyIff(f.title);
    TrimEmptyIff(f.category);
  }
}
