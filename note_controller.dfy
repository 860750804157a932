/**
 * The note lifecycle: create, list, get, update, toggle-favourite, delete
 * and delete-one-image over a store of notes keyed by id, each scoped to
 * the authenticated owner, with best-effort calls to the image host.
 */
module NoteController {
  import opened Wrappers
  import opened Text
  import opened Seqs
  import opened NoteSchema
  import opened ImageGateway

  /** At most this many files are accepted per create or update request. */
  const MaxFiles := 10
  /** Each uploaded file may be at most 10 MiB. */
  const MaxFileSize := 10 * 1024 * 1024

  /** A file part of a multipart request, as the upload middleware sees it. */
  datatype UploadFile = UploadFile(mimetype: string, size: nat)

  /** The upload file filter: image types are accepted, anything else is refused. */
  function FileFilter(f: UploadFile): Result<bool, string> {
    if "image/" <= f.mimetype then Ok(true) else Err("Only images allowed")
  }

  /**
   * The upload middleware on the files of a request, in order: the first
   * file beyond the tenth, the first refused by the filter, or the first
   * over the size limit rejects the whole request.
   */
  function Admit(files: seq<UploadFile>, seen: nat): (r: Result<seq<UploadFile>, string>)
    decreases |files|
  {
    if files == [] then Ok([])
    else if seen >= MaxFiles then Err("Unexpected field")
    else if FileFilter(files[0]).Err? then Err(FileFilter(files[0]).error)
    else if files[0].size > MaxFileSize then Err("File too large")
    else match Admit(files[1..], seen + 1)
      case Ok(rest) => Ok([files[0]] + rest)
      case Err(e) => Err(e)
  }

  /** A request's files reach the controller exactly when there are at most ten, all images, none too large. */
  lemma {:induction false} AdmitIff(files: seq<UploadFile>, seen: nat)
    ensures Admit(files, seen).Ok? <==>
      && (files == [] || seen + |files| <= MaxFiles)
      && forall i :: 0 <= i < |files| ==> "image/" <= files[i].mimetype && files[i].size <= MaxFileSize
    ensures Admit(files, seen).Ok? ==> Admit(files, seen).value == files
    decreases |files|
  {
    if files != [] && seen < MaxFiles && "image/" <= files[0].mimetype && files[0].size <= MaxFileSize {
      AdmitIff(files[1..], seen + 1);
      assert [files[0]] + files[1..] == files;
    }
  }

  /** What a controller sends back: a note, a list of notes, or a message, each with its HTTP status. */
  datatype Reply =
    | NoteReply(status: nat, note: Note)
    | NotesReply(status: nat, notes: seq<Note>)
    | MessageReply(status: nat, message: string)

  const NoteNotFound := MessageReply(404, "Note not found")
  const ImageNotFound := MessageReply(404, "Image not found")
  const TitleAndCategoryRequired := MessageReply(400, "Title and category required")

  /** One upload call per file, in file order. */
  function UploadCalls(n: nat): seq<GatewayCall> {
    seq(n, (i: nat) => Upload(i))
  }

  /** One destroy call per image, in image order. */
  function DestroyCalls(images: seq<Image>): seq<GatewayCall> {
    seq(|images|, i requires 0 <= i < |images| => Destroy(images[i].publicId))
  }

  /** The image entries made from uploaded images, the k-th getting subdocument id `start + k`. */
  function Attach(data: seq<ImageData>, start: nat): seq<Image> {
    seq(|data|, i requires 0 <= i < |data| => Image(start + i, data[i].url, data[i].publicId))
  }

  lemma AttachSnoc(data: seq<ImageData>, d: ImageData, start: nat)
    ensures Attach(data + [d], start) == Attach(data, start) + [Image(start + |data|, d.url, d.publicId)]
  {
  }

  /** The note `createNote` builds from the request body and the uploaded images. */
  function NewNote(id: NoteId, caller: UserId, title: string, category: string,
                   content: Option<string>, template: Option<string>,
                   images: seq<Image>, now: Time): Note
  {
    Construct(NoteFields(
      title := Trim(title),
      category := Trim(category),
      content := Some(if content.Some? then Trim(content.value) else ""),
      images := images,
      owner := caller,
      isFavorite := Some(false),
      template := if Truthy(template) then template else None,
      lastViewed := Some(now)), id, now)
  }

  /** The note `updateNote` makes of `n`: uploaded images appended, then the fields the body supplies. */
  function Updated(n: Note, title: Option<string>, category: Option<string>,
                   content: Option<string>, added: seq<Image>): Note
  {
    Assigned(n.(images := n.images + added), title, category, content)
  }

  /** The field assignments of `updateNote`: title and category when truthy, content whenever given. */
  function Assigned(n: Note, title: Option<string>, category: Option<string>, content: Option<string>): Note {
    var titled := if Truthy(title) then SetTitle(n, Trim(title.value)) else n;
    var categorised := if Truthy(category) then SetCategory(titled, Trim(category.value)) else titled;
    if content.Some? then categorised.(content := Trim(content.value)) else categorised
  }

  /** `images.splice(k, 1)`. */
  function Splice(images: seq<Image>, k: nat): seq<Image>
    requires k < |images|
  {
    images[..k] + images[k + 1..]
  }

  /** `images.findIndex(img => img._id == imageId)`: the first matching position, or -1. */
  function FindImage(images: seq<Image>, imageId: ImageId): (k: int)
    ensures -1 <= k < |images|
    ensures k == -1 <==> forall j :: 0 <= j < |images| ==> images[j].id != imageId
    ensures k >= 0 ==> images[k].id == imageId && forall j :: 0 <= j < k ==> images[j].id != imageId
  {
    if images == [] then -1
    else if images[0].id == imageId then 0
    else
      var k := FindImage(images[1..], imageId);
      if k == -1 then -1 else k + 1
  }

  /** Title, category and content as stored: no surrounding white space. */
  predicate Trimmed(n: Note) {
    IsTrimmed(n.title) && IsTrimmed(n.category) && IsTrimmed(n.content)
  }

  /** Subdocument ids increase along the images array, so they are distinct. */
  predicate IdsIncreasing(images: seq<Image>) {
    forall i, j :: 0 <= i < j < |images| ==> images[i].id < images[j].id
  }

  predicate IdsBelow(images: seq<Image>, bound: nat) {
    forall i :: 0 <= i < |images| ==> images[i].id < bound
  }

  predicate IdsFrom(images: seq<Image>, bound: nat) {
    forall i :: 0 <= i < |images| ==> bound <= images[i].id
  }

  /** How every stored note looks: filed under its own id, valid, trimmed, with well-numbered images. */
  predicate StoredWell(n: Note, k: NoteId, nextNote: nat, nextImage: nat) {
    && n.id == k && k < nextNote
    && Validates(n) && Trimmed(n)
    && IdsIncreasing(n.images) && IdsBelow(n.images, nextImage)
  }

  /** Every note of a store is stored well, under the given counters. */
  predicate StoreWell(notes: map<NoteId, Note>, nextNote: nat, nextImage: nat) {
    forall k :: k in notes ==> StoredWell(notes[k], k, nextNote, nextImage)
  }

  /** Raising the counters keeps a store well. */
  lemma StoreWellRaise(notes: map<NoteId, Note>, nextNote: nat, nextImage: nat, nextNote': nat, nextImage': nat)
    requires StoreWell(notes, nextNote, nextImage)
    requires nextNote <= nextNote' && nextImage <= nextImage'
    ensures StoreWell(notes, nextNote', nextImage')
  {
  }

  /** Raising the counters and filing a well-stored note keeps a store well. */
  lemma StoreWellPut(notes: map<NoteId, Note>, k: NoteId, n: Note,
                     nextNote: nat, nextImage: nat, nextNote': nat, nextImage': nat)
    requires StoreWell(notes, nextNote, nextImage)
    requires nextNote <= nextNote' && nextImage <= nextImage'
    requires StoredWell(n, k, nextNote', nextImage')
    ensures StoreWell(notes[k := n], nextNote', nextImage')
  {
  }

  /** A note `createNote` manages to save is stored well under the advanced counters. */
  lemma NewNoteStoredWell(id: NoteId, caller: UserId, title: string, category: string,
                          content: Option<string>, template: Option<string>,
                          data: seq<ImageData>, start: nat, now: Time)
    requires Validates(NewNote(id, caller, title, category, content, template, Attach(data, start), now))
    ensures StoredWell(NewNote(id, caller, title, category, content, template, Attach(data, start), now),
                       id, id + 1, start + |data|)
  {
    AttachWellNumbered(data, start);
    TrimmedIff(Trim(title));
    TrimmedIff(Trim(category));
    if content.Some? { TrimmedIff(content.value); }
  }

  /** An update appends the new images, keeps id and owner, and leaves the text fields trimmed if they were. */
  lemma UpdatedShape(n: Note, title: Option<string>, category: Option<string>,
                     content: Option<string>, added: seq<Image>)
    requires Trimmed(n)
    ensures var r := Updated(n, title, category, content, added);
      && r.images == n.images + added && r.id == n.id && r.owner == n.owner && Trimmed(r)
  {
    if Truthy(title) { TrimmedIff(Trim(title.value)); }
    if Truthy(category) { TrimmedIff(Trim(category.value)); }
    if content.Some? { TrimmedIff(content.value); }
  }

  /** A note `updateNote` manages to save is stored well under the advanced image counter. */
  lemma UpdatedStoredWell(n: Note, k: NoteId, nextNote: nat, title: Option<string>, category: Option<string>,
                          content: Option<string>, data: seq<ImageData>, start: nat)
    requires StoredWell(n, k, nextNote, start)
    requires Validates(Updated(n, title, category, content, Attach(data, start)))
    ensures StoredWell(Updated(n, title, category, content, Attach(data, start)), k, nextNote, start + |data|)
  {
    var added := Attach(data, start);
    AttachWellNumbered(data, start);
    IdsIncreasingAppend(n.images, added, start);
    UpdatedShape(n, title, category, content, added);
  }

  /** Newest first: `createdAt` never increases along the list. */
  predicate NewestFirst(s: seq<Note>) {
    forall i, j :: 0 <= i < j < |s| ==> s[i].createdAt >= s[j].createdAt
  }

  /** `n` placed into a newest-first list before the first note not newer than it. */
  function InsertNewest(s: seq<Note>, n: Note): seq<Note> {
    if s == [] || s[0].createdAt <= n.createdAt then [n] + s
    else [s[0]] + InsertNewest(s[1..], n)
  }

  /** Where `InsertNewest` puts `n`: after the notes strictly newer than it. */
  function InsertPos(s: seq<Note>, n: Note): (p: nat)
    ensures p <= |s|
  {
    if s == [] || s[0].createdAt <= n.createdAt then 0 else 1 + InsertPos(s[1..], n)
  }

  /** Inserting only adds `n`, at its position. */
  lemma {:induction false} InsertNewestShape(s: seq<Note>, n: Note)
    ensures var p := InsertPos(s, n);
      InsertNewest(s, n) == s[..p] + [n] + s[p..]
  {
    if s != [] && s[0].createdAt > n.createdAt {
      InsertNewestShape(s[1..], n);
      var p := InsertPos(s[1..], n);
      assert s[..p + 1] == [s[0]] + s[1..][..p];
      assert s[p + 1..] == s[1..][p..];
    }
  }

  /** The notes before the insertion point are newer than `n`; the one at it, if any, is not. */
  lemma {:induction false} InsertPosSpec(s: seq<Note>, n: Note)
    ensures forall i :: 0 <= i < InsertPos(s, n) ==> s[i].createdAt > n.createdAt
    ensures InsertPos(s, n) < |s| ==> s[InsertPos(s, n)].createdAt <= n.createdAt
  {
    if s != [] && s[0].createdAt > n.createdAt {
      InsertPosSpec(s[1..], n);
      forall i | 1 <= i < InsertPos(s, n) ensures s[i].createdAt > n.createdAt {
        assert s[i] == s[1..][i - 1];
      }
    }
  }

  /** A note placed between the newer and the not newer notes of a newest-first list keeps it newest first. */
  lemma NewestFirstInsert(s: seq<Note>, p: nat, n: Note)
    requires p <= |s| && NewestFirst(s)
    requires forall i :: 0 <= i < p ==> s[i].createdAt >= n.createdAt
    requires p < |s| ==> s[p].createdAt <= n.createdAt
    ensures NewestFirst(s[..p] + [n] + s[p..])
  {
    var r := s[..p] + [n] + s[p..];
    forall i, j | 0 <= i < j < |r| ensures r[i].createdAt >= r[j].createdAt {
      if i != p && j != p {
        var i' := if i < p then i else i - 1;
        var j' := if j < p then j else j - 1;
        assert r[i] == s[i'] && r[j] == s[j'];
      } else if i == p {
        assert r[j] == s[j - 1];
        assert s[p].createdAt >= s[j - 1].createdAt || j - 1 == p;
      } else {
        assert r[i] == s[i];
      }
    }
  }

  /** Inserting keeps a newest-first list newest first. */
  lemma InsertNewestSorted(s: seq<Note>, n: Note)
    requires NewestFirst(s)
    ensures NewestFirst(InsertNewest(s, n))
  {
    InsertNewestShape(s, n);
    InsertPosSpec(s, n);
    NewestFirstInsert(s, InsertPos(s, n), n);
  }

  /** Inserting keeps the list newest first and only adds `n`, at its position. */
  lemma InsertNewestSpec(s: seq<Note>, n: Note)
    requires NewestFirst(s)
    ensures var p := InsertPos(s, n);
      InsertNewest(s, n) == s[..p] + [n] + s[p..]
    ensures NewestFirst(InsertNewest(s, n))
  {
    InsertNewestShape(s, n);
    InsertNewestSorted(s, n);
  }

  /** One turn of `getNotes`: a note with an id not yet listed joins the list, which stays distinct and newest first. */
  lemma InsertStep(s: seq<Note>, n: Note)
    requires NewestFirst(s) && DistinctIds(s)
    requires forall x :: x in s ==> x.id != n.id
    ensures forall x :: x in InsertNewest(s, n) <==> x in s || x == n
    ensures NewestFirst(InsertNewest(s, n)) && DistinctIds(InsertNewest(s, n))
  {
    InsertNewestSpec(s, n);
    var p := InsertPos(s, n);
    assert s == s[..p] + s[p..];
    assert forall i :: 0 <= i < |s| ==> s[i] in s;
    DistinctIdsInsert(s, p, n);
  }

  /** Notes with pairwise distinct ids. */
  predicate DistinctIds(s: seq<Note>) {
    forall i, j :: 0 <= i < j < |s| ==> s[i].id != s[j].id
  }

  /** Placing a note whose id is new anywhere in a list of distinct ids keeps them distinct. */
  lemma DistinctIdsInsert(s: seq<Note>, p: nat, n: Note)
    requires p <= |s| && DistinctIds(s)
    requires forall i :: 0 <= i < |s| ==> s[i].id != n.id
    ensures DistinctIds(s[..p] + [n] + s[p..])
  {
    var r := s[..p] + [n] + s[p..];
    forall i, j | 0 <= i < j < |r| ensures r[i].id != r[j].id {
      if i != p && j != p {
        var i' := if i < p then i else i - 1;
        var j' := if j < p then j else j - 1;
        assert r[i] == s[i'] && r[j] == s[j'];
      } else if i == p {
        assert r[j] == s[j - 1];
      } else {
        assert r[i] == s[i];
      }
    }
  }

  lemma IdsIncreasingAppend(a: seq<Image>, b: seq<Image>, bound: nat)
    requires IdsIncreasing(a) && IdsIncreasing(b) && IdsBelow(a, bound) && IdsFrom(b, bound)
    ensures IdsIncreasing(a + b)
  {
  }

  lemma AttachWellNumbered(data: seq<ImageData>, start: nat)
    ensures IdsIncreasing(Attach(data, start))
    ensures IdsFrom(Attach(data, start), start)
    ensures IdsBelow(Attach(data, start), start + |data|)
  {
  }

  lemma IdsIncreasingSplice(images: seq<Image>, k: nat)
    requires k < |images| && IdsIncreasing(images)
    ensures IdsIncreasing(Splice(images, k))
  {
    var r := Splice(images, k);
    forall i, j | 0 <= i < j < |r| ensures r[i].id < r[j].id {
      var i' := if i < k then i else i + 1;
      var j' := if j < k then j else j + 1;
      assert r[i] == images[i'] && r[j] == images[j'];
    }
  }

  class NoteService {
    /** The note collection, by id. */
    var notes: map<NoteId, Note>
    /** The id the next created note gets. */
    var nextNoteId: NoteId
    /** The subdocument id the next attached image gets. */
    var nextImageId: ImageId

    ghost predicate Valid()
      reads this
    {
      StoreWell(notes, nextNoteId, nextImageId)
    }

    constructor ()
      ensures Valid() && notes == map[]
    {
      notes := map[];
      nextNoteId := 0;
      nextImageId := 0;
    }

    /** The note `id` exists and belongs to `caller`: the `{ _id, owner }` lookup every operation starts with. */
    predicate Owned(caller: UserId, id: NoteId)
      reads this
    {
      id in notes && notes[id].owner == caller
    }

    /**
     * createNote. Title and category must be present and non-empty before
     * anything else happens; then every file is uploaded in turn, a failed
     * upload is skipped, and the note is built from the successful ones.
     */
    method CreateNote(caller: UserId, title: Option<string>, category: Option<string>,
                      content: Option<string>, template: Option<string>,
                      uploads: seq<UploadResult>, now: Time)
      returns (reply: Reply, calls: seq<GatewayCall>)
      requires Valid()
      requires |uploads| <= MaxFiles
      modifies this
      ensures Valid()
      ensures !Truthy(title) || !Truthy(category) ==>
        reply == TitleAndCategoryRequired && calls == [] && notes == old(notes)
      ensures Truthy(title) && Truthy(category) ==> calls == UploadCalls(|uploads|)
      ensures Truthy(title) && Truthy(category) ==>
        var n := NewNote(old(nextNoteId), caller, title.value, category.value, content, template,
                         Attach(Successes(uploads), old(nextImageId)), now);
        if Validates(n) then
          && reply == NoteReply(201, n) && n.id == old(nextNoteId) && n.id !in old(notes)
          && notes == old(notes)[old(nextNoteId) := n]
        else
          reply == MessageReply(500, ValidationFailed) && notes == old(notes)
    {
      if !Truthy(title) || !Truthy(category) {
        return TitleAndCategoryRequired, [];
      }
      var images: seq<Image> := [];
      calls := [];
      for i := 0 to |uploads|
        invariant calls == UploadCalls(i)
        invariant images == Attach(Successes(uploads[..i]), old(nextImageId))
        invariant nextImageId == old(nextImageId) + |images|
        invariant notes == old(notes) && nextNoteId == old(nextNoteId)
      {
        calls := calls + [Upload(i)];
        SuccessesSnoc(uploads, i);
        match uploads[i] {
          case Uploaded(data) =>
            AttachSnoc(Successes(uploads[..i]), data, old(nextImageId));
            images := images + [Image(nextImageId, data.url, data.publicId)];
            nextImageId := nextImageId + 1;
          case UploadFailed(_) =>
        }
      }
      assert uploads[..|uploads|] == uploads;
      assert images == Attach(Successes(uploads), old(nextImageId));
      StoreWellRaise(notes, nextNoteId, old(nextImageId), nextNoteId, nextImageId);
      var id := nextNoteId;
      var note := NewNote(id, caller, title.value, category.value, content, template, images, now);
      var saved := Save(note);
      if saved.Err? {
        return MessageReply(500, saved.error), calls;
      }
      NewNoteStoredWell(id, caller, title.value, category.value, content, template,
                        Successes(uploads), old(nextImageId), now);
      StoreWellPut(notes, id, note, nextNoteId, nextImageId, nextNoteId + 1, nextImageId);
      notes := notes[id := note];
      nextNoteId := nextNoteId + 1;
      reply := NoteReply(201, note);
    }

    /** getNotes: the caller's notes, each once, newest first. */
    method GetNotes(caller: UserId) returns (r: seq<Note>)
      requires Valid()
      ensures forall n :: n in r <==> n.id in notes && notes[n.id] == n && n.owner == caller
      ensures DistinctIds(r)
      ensures NewestFirst(r)
    {
      r := [];
      var pending := notes.Keys;
      while pending != {}
        invariant pending <= notes.Keys
        invariant forall n :: n in r <==> n.id in notes.Keys - pending && notes[n.id] == n && n.owner == caller
        invariant DistinctIds(r)
        invariant NewestFirst(r)
        decreases pending
      {
        var k :| k in pending;
        pending := pending - {k};
        if notes[k].owner == caller {
          var n := notes[k];
          InsertStep(r, n);
          r := InsertNewest(r, n);
        }
      }
    }

    /** getNoteById: the owner's note, with `lastViewed` set to now and saved. */
    method GetNoteById(caller: UserId, id: NoteId, now: Time) returns (reply: Reply)
      requires Valid()
      modifies this
      ensures Valid()
      ensures nextNoteId == old(nextNoteId) && nextImageId == old(nextImageId)
      ensures !old(Owned(caller, id)) ==> reply == NoteNotFound && notes == old(notes)
      ensures old(Owned(caller, id)) ==>
        var n := old(notes)[id].(lastViewed := now);
        notes == old(notes)[id := n] && reply == NoteReply(200, n)
    {
      if !Owned(caller, id) {
        return NoteNotFound;
      }
      var note := notes[id].(lastViewed := now);
      assert Validates(note);
      notes := notes[id := note];
      reply := NoteReply(200, note);
    }

    /**
     * The upload loop of updateNote: each file is uploaded in turn and each
     * success pushed onto the note's images under the next subdocument id.
     */
    method PushUploads(note: Note, uploads: seq<UploadResult>) returns (r: Note, calls: seq<GatewayCall>)
      requires Valid()
      modifies this
      ensures Valid()
      ensures r == note.(images := note.images + Attach(Successes(uploads), old(nextImageId)))
      ensures nextImageId == old(nextImageId) + |Successes(uploads)|
      ensures calls == UploadCalls(|uploads|)
      ensures notes == old(notes) && nextNoteId == old(nextNoteId)
    {
      r := note;
      calls := [];
      for i := 0 to |uploads|
        invariant calls == UploadCalls(i)
        invariant r == note.(images := note.images + Attach(Successes(uploads[..i]), old(nextImageId)))
        invariant nextImageId == old(nextImageId) + |Successes(uploads[..i])|
        invariant notes == old(notes) && nextNoteId == old(nextNoteId)
      {
        calls := calls + [Upload(i)];
        SuccessesSnoc(uploads, i);
        match uploads[i] {
          case Uploaded(data) =>
            AttachSnoc(Successes(uploads[..i]), data, old(nextImageId));
            r := r.(images := r.images + [Image(nextImageId, data.url, data.publicId)]);
            nextImageId := nextImageId + 1;
          case UploadFailed(_) =>
        }
      }
      assert uploads[..|uploads|] == uploads;
      StoreWellRaise(notes, nextNoteId, old(nextImageId), nextNoteId, nextImageId);
    }

    /**
     * updateNote: new uploads are appended after the existing images, then
     * title and category are replaced if truthy and content whenever it is
     * given; the note is saved if it still validates.
     */
    method UpdateNote(caller: UserId, id: NoteId, title: Option<string>, category: Option<string>,
                      content: Option<string>, uploads: seq<UploadResult>)
      returns (reply: Reply, calls: seq<GatewayCall>)
      requires Valid()
      requires |uploads| <= MaxFiles
      modifies this
      ensures Valid()
      ensures nextNoteId == old(nextNoteId)
      ensures !old(Owned(caller, id)) ==> reply == NoteNotFound && calls == [] && notes == old(notes)
      ensures old(Owned(caller, id)) ==> calls == UploadCalls(|uploads|)
      ensures old(Owned(caller, id)) ==>
        var n := Updated(old(notes)[id], title, category, content, Attach(Successes(uploads), old(nextImageId)));
        if Validates(n) then notes == old(notes)[id := n] && reply == NoteReply(200, n)
        else notes == old(notes) && reply == MessageReply(500, ValidationFailed)
    {
      if !Owned(caller, id) {
        return NoteNotFound, [];
      }
      var note := notes[id];
      ghost var before := note;
      assert StoredWell(before, id, nextNoteId, nextImageId);
      note, calls := PushUploads(note, uploads);
      ghost var added := Attach(Successes(uploads), old(nextImageId));
      note := AssignFields(note, title, category, content);
      ghost var expected := Updated(old(notes)[id], title, category, content, added);
      assert note == expected;
      ghost var store := notes;
      var saved := Save(note);
      if saved.Err? {
        return MessageReply(500, saved.error), calls;
      }
      notes := notes[id := note];
      reply := NoteReply(200, note);
      assert Validates(expected) && notes == old(notes)[id := expected] && reply == NoteReply(200, expected);
      assert Valid() by {
        UpdatedStoredWell(before, id, nextNoteId, title, category, content, Successes(uploads), old(nextImageId));
        assert StoredWell(note, id, nextNoteId, nextImageId);
        assert StoreWell(store, nextNoteId, nextImageId);
        StoreWellPut(store, id, note, nextNoteId, nextImageId, nextNoteId, nextImageId);
      }
    }

    /** The assignments of `updateNote` on the loaded note, each trimmed by the schema's setter. */
    static method AssignFields(note: Note, title: Option<string>, category: Option<string>, content: Option<string>)
      returns (r: Note)
      ensures r == Assigned(note, title, category, content)
    {
      r := note;
      if Truthy(title) { r := SetTitle(r, Trim(title.value)); }
      if Truthy(category) { r := SetCategory(r, Trim(category.value)); }
      if content.Some? { r := r.(content := Trim(content.value)); }
    }

    /** toggleFavorite: the owner's note with `isFavorite` negated. */
    method ToggleFavorite(caller: UserId, id: NoteId) returns (reply: Reply)
      requires Valid()
      modifies this
      ensures Valid()
      ensures nextNoteId == old(nextNoteId) && nextImageId == old(nextImageId)
      ensures !old(Owned(caller, id)) ==> reply == NoteNotFound && notes == old(notes)
      ensures old(Owned(caller, id)) ==>
        var n := old(notes)[id].(isFavorite := !old(notes)[id].isFavorite);
        notes == old(notes)[id := n] && reply == NoteReply(200, n)
    {
      if !Owned(caller, id) {
        return NoteNotFound;
      }
      var note := notes[id];
      note := note.(isFavorite := !note.isFavorite);
      assert Validates(note);
      notes := notes[id := note];
      reply := NoteReply(200, note);
    }

    /**
     * deleteNote: a destroy call for every image, in order, whatever each
     * answers; then the note is removed.
     */
    method DeleteNote(caller: UserId, id: NoteId) returns (reply: Reply, calls: seq<GatewayCall>)
      requires Valid()
      modifies this
      ensures Valid()
      ensures nextNoteId == old(nextNoteId) && nextImageId == old(nextImageId)
      ensures !old(Owned(caller, id)) ==> reply == NoteNotFound && calls == [] && notes == old(notes)
      ensures old(Owned(caller, id)) ==>
        && calls == DestroyCalls(old(notes)[id].images)
        && notes == old(notes) - {id}
        && reply == MessageReply(200, "Note deleted")
    {
      if !Owned(caller, id) {
        return NoteNotFound, [];
      }
      var images := notes[id].images;
      calls := [];
      for i := 0 to |images|
        invariant calls == DestroyCalls(images[..i])
      {
        // The destroy call's outcome, success or failure, is only logged.
        calls := calls + [Destroy(images[i].publicId)];
      }
      assert images[..|images|] == images;
      notes := notes - {id};
      reply := MessageReply(200, "Note deleted");
    }

    /**
     * deleteNoteImage: the image with the given subdocument id is destroyed
     * at the host, best-effort, and spliced out of the note.
     */
    method DeleteNoteImage(caller: UserId, id: NoteId, imageId: ImageId)
      returns (reply: Reply, calls: seq<GatewayCall>)
      requires Valid()
      modifies this
      ensures Valid()
      ensures nextNoteId == old(nextNoteId) && nextImageId == old(nextImageId)
      ensures !old(Owned(caller, id)) ==> reply == NoteNotFound && calls == [] && notes == old(notes)
      ensures old(Owned(caller, id)) && FindImage(old(notes)[id].images, imageId) == -1 ==>
        reply == ImageNotFound && calls == [] && notes == old(notes)
      ensures old(Owned(caller, id)) && FindImage(old(notes)[id].images, imageId) >= 0 ==>
        var images := old(notes)[id].images;
        var k := FindImage(images, imageId);
        && calls == [Destroy(images[k].publicId)]
        && notes == old(notes)[id := old(notes)[id].(images := Splice(images, k))]
        && reply == MessageReply(200, "Image deleted")
    {
      if !Owned(caller, id) {
        return NoteNotFound, [];
      }
      var note := notes[id];
      var k := FindImage(note.images, imageId);
      if k == -1 {
        return ImageNotFound, [];
      }
      // The destroy call's outcome, success or failure, is only logged.
      calls := [Destroy(note.images[k].publicId)];
      IdsIncreasingSplice(note.images, k);
      note := note.(images := Splice(note.images, k));
      assert Validates(note);
      notes := notes[id := note];
      reply := MessageReply(200, "Image deleted");
    }
  }

  /** Toggling a note's favourite flag twice gives the store back as it was. */
  method ToggleTwice(service: NoteService, caller: UserId, id: NoteId) returns (first: Reply, second: Reply)
    requires service.Valid() && service.Owned(caller, id)
    modifies service
    ensures service.notes == old(service.notes)
    ensures first.NoteReply? && first.note.isFavorite == !old(service.notes)[id].isFavorite
    ensures second == NoteReply(200, old(service.notes)[id])
  {
    first := service.ToggleFavorite(caller, id);
    second := service.ToggleFavorite(caller, id);
    assert service.notes[id] == old(service.notes)[id];
  }
}
