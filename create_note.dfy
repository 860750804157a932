/**
 * The create-note page: the chosen image files and the edits on them, the
 * prefill from a template, the multipart form the submit sends, and the
 * category icons. The server's answer to the submit is a parameter.
 */
module CreateNote {
  import opened Wrappers
  import opened Text
  import opened Seqs
  import opened NoteSchema
  import opened ImageGateway
  import opened NoteController
  import opened NoteTemplates

  /** A file chosen in the browser: its name, MIME type and size in bytes. */
  datatype File = File(name: string, mimeType: string, size: nat)

  datatype NoteForm = NoteForm(title: string, category: string, content: string)

  /** One part of the multipart form: a text field or a file field. */
  datatype FormEntry = TextEntry(name: string, value: string) | FileEntry(name: string, file: File)

  /** What the server answered: the created note's id, or an error whose body may carry a message. */
  datatype Answer = Created(noteId: NoteId) | Failed(serverMessage: Option<string>)

  const EmptyForm := NoteForm("", "", "")
  const CreateFailed := "Failed to create note"

  /** `images.filter((_, index) => index !== indexToRemove)`. */
  function RemoveImage(images: seq<File>, indexToRemove: int): seq<File>
    decreases |images|
  {
    if images == [] then []
    else
      RemoveImage(images[..|images| - 1], indexToRemove)
        + (if |images| - 1 != indexToRemove then [images[|images| - 1]] else [])
  }

  /**
   * Removing drops exactly the file at that index and keeps the others in
   * order; an index outside the list removes nothing.
   */
  lemma {:induction false} RemoveImageSpec(images: seq<File>, k: int)
    ensures 0 <= k < |images| ==> RemoveImage(images, k) == images[..k] + images[k + 1..]
    ensures !(0 <= k < |images|) ==> RemoveImage(images, k) == images
    decreases |images|
  {
    if images != [] {
      var n := |images| - 1;
      var init := images[..n];
      RemoveImageSpec(init, k);
      if 0 <= k < n {
        assert images[..k] == init[..k];
        assert images[k + 1..] == init[k + 1..] + [images[n]];
      } else if k == n {
        assert images[k + 1..] == [];
      } else {
        assert init + [images[n]] == images;
      }
    }
  }

  predicate IsImageFile(f: File) {
    "image/" <= f.mimeType
  }

  function ImageFileOf(): File -> bool {
    (f: File) => IsImageFile(f)
  }

  /** The files a drop selects: those whose type starts with "image/", in drop order. */
  function DropSelection(dropped: seq<File>): seq<File> {
    Filter(dropped, ImageFileOf())
  }

  /**
   * A dropped file is selected exactly when its type starts with "image/",
   * the order is kept, and every selected file passes the server's upload
   * filter.
   */
  lemma DropSelectionSpec(dropped: seq<File>, f: File)
    ensures f in DropSelection(dropped) <==> f in dropped && "image/" <= f.mimeType
    ensures IsSubsequence(DropSelection(dropped), dropped)
    ensures forall i :: 0 <= i < |DropSelection(dropped)| ==>
      FileFilter(UploadFile(DropSelection(dropped)[i].mimeType, DropSelection(dropped)[i].size)).Ok?
  {
    FilterMembership(dropped, ImageFileOf(), f);
    FilterIsSubsequence(dropped, ImageFileOf());
    FilterAll(dropped, ImageFileOf());
  }

  /** The form a template fills in: its name as title, its category and its content. */
  function Prefill(t: Template): NoteForm {
    NoteForm(t.name, t.category, t.content)
  }

  /**
   * A form filled from one of the templates is accepted by the server as
   * it stands: its title and category are present, and the note built
   * from them passes validation whenever its uploaded images are complete.
   */
  lemma TemplateFormAccepted(contents: seq<string>, i: nat, id: NoteId, caller: UserId,
                             images: seq<Image>, now: Time)
    requires |contents| == 8 && i < 8
    requires forall j :: 0 <= j < |images| ==> ImageComplete(images[j])
    ensures var f := Prefill(Table(contents)[i]);
      && Truthy(Some(f.title)) && Truthy(Some(f.category))
      && Validates(NewNote(id, caller, f.title, f.category, Some(f.content), Some(Table(contents)[i].id), images, now))
  {
    var t := Table(contents)[i];
    TemplateTable(contents);
    TrimIdempotent(t.name);
    TrimIdempotent(t.category);
  }

  /** The text part of the form: title, category, content, and the template id when there is a template. */
  function TextEntries(form: NoteForm, template: Option<Template>): seq<FormEntry> {
    [TextEntry("title", form.title), TextEntry("category", form.category), TextEntry("content", form.content)]
      + if template.Some? then [TextEntry("template", template.value.id)] else []
  }

  /** The file part of the form: the first `k` selected images, each under "images". */
  function FileEntries(images: seq<File>, k: nat): seq<FormEntry>
    requires k <= |images|
  {
    if k == 0 then [] else FileEntries(images, k - 1) + [FileEntry("images", images[k - 1])]
  }

  /** The value of the first text field of this name, as the server reads it. */
  function Field(entries: seq<FormEntry>, name: string): Option<string>
    decreases |entries|
  {
    if entries == [] then None
    else if entries[0].TextEntry? && entries[0].name == name then Some(entries[0].value)
    else Field(entries[1..], name)
  }

  /** The files sent under this name, in order, as the upload middleware collects them. */
  function Files(entries: seq<FormEntry>, name: string): seq<File>
    decreases |entries|
  {
    if entries == [] then []
    else (if entries[0].FileEntry? && entries[0].name == name then [entries[0].file] else []) + Files(entries[1..], name)
  }

  lemma {:induction false} FilesAppend(a: seq<FormEntry>, b: seq<FormEntry>, name: string)
    ensures Files(a + b, name) == Files(a, name) + Files(b, name)
    decreases |a|
  {
    if a == [] {
      assert a + b == b;
    } else {
      assert (a + b)[1..] == a[1..] + b;
      FilesAppend(a[1..], b, name);
    }
  }

  lemma {:induction false} FileEntriesFiles(images: seq<File>, k: nat)
    requires k <= |images|
    ensures Files(FileEntries(images, k), "images") == images[..k]
    ensures forall name :: Field(FileEntries(images, k), name) == None
  {
    if k > 0 {
      FileEntriesFiles(images, k - 1);
      var last := [FileEntry("images", images[k - 1])];
      FilesAppend(FileEntries(images, k - 1), last, "images");
      assert images[..k] == images[..k - 1] + [images[k - 1]];
      forall name ensures Field(FileEntries(images, k), name) == None {
        FieldSkipsFiles(FileEntries(images, k - 1), last, name);
      }
    }
  }

  lemma {:induction false} FieldSkipsFiles(a: seq<FormEntry>, b: seq<FormEntry>, name: string)
    requires Field(a, name) == None
    requires forall i :: 0 <= i < |b| ==> b[i].FileEntry?
    ensures Field(a + b, name) == None
    decreases |a| + |b|
  {
    if a == [] {
      assert a + b == b;
      if b != [] {
        FieldSkipsFiles([], b[1..], name);
        assert [] + b[1..] == b[1..];
      }
    } else {
      assert (a + b)[1..] == a[1..] + b;
      FieldSkipsFiles(a[1..], b, name);
    }
  }

  /**
   * The form the submit sends: the text fields, then one file field per
   * selected image.
   */
  function FormEntries(form: NoteForm, template: Option<Template>, images: seq<File>): seq<FormEntry> {
    TextEntries(form, template) + FileEntries(images, |images|)
  }

  /** A field of the first part is found there; otherwise it is looked up in the second. */
  lemma {:induction false} FieldAppend(a: seq<FormEntry>, b: seq<FormEntry>, name: string)
    ensures Field(a + b, name) == if Field(a, name).Some? then Field(a, name) else Field(b, name)
    decreases |a|
  {
    if a == [] {
      assert a + b == b;
    } else {
      assert (a + b)[1..] == a[1..] + b;
      FieldAppend(a[1..], b, name);
    }
  }

  lemma TextEntriesFields(form: NoteForm, template: Option<Template>)
    ensures var t := TextEntries(form, template);
      && Field(t, "title") == Some(form.title)
      && Field(t, "category") == Some(form.category)
      && Field(t, "content") == Some(form.content)
      && Field(t, "template") == (if template.Some? then Some(template.value.id) else None)
      && Files(t, "images") == []
  {
    var t := TextEntries(form, template);
    var t1, t2, t3 := t[1..], t[2..], t[3..];
    assert t1[1..] == t2 && t2[1..] == t3;
    if template.Some? {
      assert t3 == [TextEntry("template", template.value.id)] && t3[1..] == [];
    } else {
      assert t3 == [];
    }
    assert Field(t3, "template") == (if template.Some? then Some(template.value.id) else None);
    assert Files(t3, "images") == [];
    assert Field(t2, "content") == Some(form.content) && Field(t2, "template") == Field(t3, "template");
    assert Files(t2, "images") == [];
    assert Field(t1, "template") == Field(t2, "template") && Field(t1, "content") == Field(t2, "content");
    assert Files(t1, "images") == [];
  }

  /**
   * What the server reads back from the form is what the page holds:
   * title, category and content; the template id exactly when there is a
   * template; and the selected images, all of them and in order.
   */
  lemma FormRoundTrip(form: NoteForm, template: Option<Template>, images: seq<File>)
    ensures var e := FormEntries(form, template, images);
      && Field(e, "title") == Some(form.title)
      && Field(e, "category") == Some(form.category)
      && Field(e, "content") == Some(form.content)
      && Field(e, "template") == (if template.Some? then Some(template.value.id) else None)
      && Files(e, "images") == images
  {
    var t := TextEntries(form, template);
    var f := FileEntries(images, |images|);
    TextEntriesFields(form, template);
    FileEntriesFiles(images, |images|);
    assert images[..|images|] == images;
    PartsRead(t, f, "title");
    PartsRead(t, f, "category");
    PartsRead(t, f, "content");
    PartsRead(t, f, "template");
  }

  /** Text parts followed by file parts that hold no text field: the fields are the text parts' and the files add up. */
  lemma PartsRead(t: seq<FormEntry>, f: seq<FormEntry>, name: string)
    requires Files(t, "images") == [] && forall n :: Field(f, n) == None
    ensures Field(t + f, name) == Field(t, name)
    ensures Files(t + f, "images") == Files(f, "images")
  {
    FieldAppend(t, f, name);
    FilesAppend(t, f, "images");
  }

  /** `getCategoryIcon`: the six categories of the editor have their own icon, anything else a memo. */
  function CategoryIcon(category: string): string {
    if category == "Personal" then "\U{1F464}"
    else if category == "Work" then "\U{1F4BC}"
    else if category == "Ideas" then "\U{1F4A1}"
    else if category == "Important" then "\U{2B50}"
    else if category == "Passwords" then "\U{1F510}"
    else if category == "Other" then "\U{1F4C1}"
    else "\U{1F4DD}"
  }

  /** The lookup is by exact name: the default icon exactly for other names, and no two of the six share one. */
  lemma CategoryIconSpec(a: string, b: string)
    ensures CategoryIcon(a) == "\U{1F4DD}" <==> a !in ["Personal", "Work", "Ideas", "Important", "Passwords", "Other"]
    ensures CategoryIcon(a) == CategoryIcon(b) && CategoryIcon(a) != "\U{1F4DD}" ==> a == b
  {
  }

  class CreateNotePage {
    var formData: NoteForm
    var images: seq<File>
    var loading: bool
    var error: string

    constructor ()
      ensures formData == EmptyForm && images == [] && !loading && error == ""
    {
      formData := EmptyForm;
      images := [];
      loading := false;
      error := "";
    }

    /** The effect run when a template arrives: it fills in the form. */
    method LoadTemplate(template: Option<Template>)
      modifies this
      ensures formData == (if template.Some? then Prefill(template.value) else old(formData))
      ensures images == old(images) && loading == old(loading) && error == old(error)
    {
      if template.Some? {
        formData := NoteForm(template.value.name, template.value.category, template.value.content);
      }
    }

    /** `handleImageChange`: the picked files replace the selection. */
    method HandleImageChange(files: seq<File>)
      modifies this
      ensures images == files
      ensures formData == old(formData) && loading == old(loading) && error == old(error)
    {
      images := files;
    }

    /** `handleDrop`: the dropped image files replace the selection. */
    method HandleDrop(dropped: seq<File>)
      modifies this
      ensures images == DropSelection(dropped)
      ensures formData == old(formData) && loading == old(loading) && error == old(error)
    {
      images := Filter(dropped, ImageFileOf());
    }

    /** `removeImage`. */
    method RemoveImageAt(indexToRemove: int)
      modifies this
      ensures images == RemoveImage(old(images), indexToRemove)
      ensures formData == old(formData) && loading == old(loading) && error == old(error)
    {
      images := RemoveImage(images, indexToRemove);
    }

    /**
     * `handleSubmit`: the form is assembled field by field and sent; on
     * success the page moves to the new note, otherwise it shows the
     * server's message or a fallback.
     */
    method HandleSubmit(template: Option<Template>, answer: Answer)
      returns (sent: seq<FormEntry>, navigateTo: Option<string>)
      modifies this
      ensures sent == FormEntries(old(formData), template, old(images))
      ensures formData == old(formData) && images == old(images) && !loading
      ensures answer.Created? ==> navigateTo == Some("/note/" + NatToString(answer.noteId)) && error == ""
      ensures answer.Failed? ==> navigateTo == None && error == ErrorOf(answer.serverMessage)
    {
      loading := true;
      error := "";
      sent := [];
      sent := sent + [TextEntry("title", formData.title)];
      sent := sent + [TextEntry("category", formData.category)];
      sent := sent + [TextEntry("content", formData.content)];
      if template.Some? {
        sent := sent + [TextEntry("template", template.value.id)];
      }
      assert sent == TextEntries(formData, template);
      for i := 0 to |images|
        invariant sent == TextEntries(formData, template) + FileEntries(images, i)
      {
        sent := sent + [FileEntry("images", images[i])];
      }
      if answer.Created? {
        navigateTo := Some("/note/" + NatToString(answer.noteId));
      } else {
        navigateTo := None;
        error := ErrorOf(answer.serverMessage);
      }
      loading := false;
    }
  }

  /** The error shown for a failed submit: the server's message when it has one. */
  function ErrorOf(serverMessage: Option<string>): string {
    if Truthy(serverMessage) then serverMessage.value else CreateFailed
  }
}
