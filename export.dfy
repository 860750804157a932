/**
 * The export dialog: which notes are exported, the plain-text export
 * built by appending to a string note by note, and the layout of the
 * printable (PDF) export. Locale date formatting and image loading are
 * parameters: `dateOf` renders a timestamp, `load` is what the image
 * loader resolves an image URL to (a data URL, or the URL itself).
 */
module Export {
  import opened Wrappers
  import opened Text
  import opened Seqs
  import opened NoteSchema
  import opened NoteView

  function SelectedBy(selected: seq<NoteId>): ViewNote -> bool {
    (n: ViewNote) => n.id in selected
  }

  /** `handleExport`: all notes, unless the type is "selected" and something is selected. */
  function NotesToExport(notes: seq<ViewNote>, exportType: string, selected: seq<NoteId>): seq<ViewNote> {
    if exportType == "selected" && |selected| > 0 then Filter(notes, SelectedBy(selected)) else notes
  }

  /**
   * Exporting "selected" with a non-empty selection exports exactly the
   * selected notes, in notes order; anything else exports every note.
   */
  lemma NotesToExportSpec(notes: seq<ViewNote>, exportType: string, selected: seq<NoteId>, n: ViewNote)
    ensures !(exportType == "selected" && |selected| > 0) ==> NotesToExport(notes, exportType, selected) == notes
    ensures exportType == "selected" && |selected| > 0 ==>
      && (n in NotesToExport(notes, exportType, selected) <==> n in notes && n.id in selected)
      && IsSubsequence(NotesToExport(notes, exportType, selected), notes)
  {
    FilterMembership(notes, SelectedBy(selected), n);
    FilterIsSubsequence(notes, SelectedBy(selected));
  }

  /**
   * The separator line under the header. The source computes `"=" * 50`,
   * a numeric multiplication: "=" converts to NaN, so the line reads "NaN".
   */
  const SeparatorLine := "NaN"

  /** The text that a run of appended pieces adds up to. */
  function Concat(pieces: seq<string>): string
    decreases |pieces|
  {
    if pieces == [] then "" else Concat(pieces[..|pieces| - 1]) + pieces[|pieces| - 1]
  }

  lemma ConcatSnoc(pieces: seq<string>, x: string)
    ensures Concat(pieces + [x]) == Concat(pieces) + x
  {
    assert (pieces + [x])[..|pieces|] == pieces;
  }

  /** Appending two runs of pieces appends their texts. */
  lemma {:induction false} ConcatAppend(a: seq<string>, b: seq<string>)
    ensures Concat(a + b) == Concat(a) + Concat(b)
    decreases |b|
  {
    if b == [] {
      assert a + b == a;
    } else {
      var b', x := b[..|b| - 1], b[|b| - 1];
      assert (a + b)[..|a + b| - 1] == a + b';
      ConcatAppend(a, b');
      calc {
        Concat(a + b);
        Concat(a + b') + x;
        (Concat(a) + Concat(b')) + x;
        Concat(a) + (Concat(b') + x);
      }
    }
  }

  /** What `exportAsText` puts before the first note, piece by piece. */
  function HeaderPieces(exportDate: string, total: nat): seq<string> {
    [ "# My Notes Export\n\n",
      "Exported on: " + exportDate + "\n",
      "Total Notes: " + NatToString(total) + "\n\n",
      SeparatorLine + "\n\n" ]
  }

  /** The line of image number `number`. */
  function ImageLine(img: Image, number: nat): string {
    "  " + NatToString(number) + ". " + img.url + "\n"
  }

  /** The lines of the first `k` images, numbered from 1. */
  function ImageLines(images: seq<Image>, k: nat): seq<string>
    requires k <= |images|
  {
    if k == 0 then [] else ImageLines(images, k - 1) + [ImageLine(images[k - 1], k)]
  }

  /** The first four lines of the section of a note numbered `number`. */
  function HeadingPieces(n: ViewNote, number: nat, dateOf: Time -> string): seq<string> {
    [ "## " + NatToString(number) + ". " + n.title + "\n",
      "**Category:** " + n.category + "\n",
      "**Created:** " + dateOf(n.createdAt) + "\n",
      "**Favorite:** " + (if n.isFavorite then "Yes" else "No") + "\n\n" ]
  }

  /** The content block: present only when the content is not empty. */
  function ContentPieces(n: ViewNote): seq<string> {
    if n.content != "" then ["**Content:**\n" + n.content + "\n\n"] else []
  }

  /** The images block: present only when the note has images. */
  function ImagePieces(n: ViewNote): seq<string> {
    if HasImages(n) then
      ["**Images:** " + NatToString(|n.images.value|) + " attached\n"]
        + ImageLines(n.images.value, |n.images.value|) + ["\n"]
    else []
  }

  /** The rule of fifty dashes that closes every section. */
  function Rule(): string {
    Repeat('-', 50) + "\n\n"
  }

  /** The rule is fifty dashes followed by one blank line. */
  lemma RuleIsDashes()
    ensures |Rule()| == 52
    ensures forall i :: 0 <= i < 50 ==> Rule()[i] == '-'
    ensures Rule()[50..] == "\n\n"
  {
  }

  /** What `exportAsText` appends for one note numbered `number`, piece by piece. */
  function SectionPieces(n: ViewNote, number: nat, dateOf: Time -> string): seq<string> {
    HeadingPieces(n, number, dateOf) + ContentPieces(n) + ImagePieces(n) + [Rule()]
  }

  function SectionOf(dateOf: Time -> string): (ViewNote, nat) -> seq<string> {
    (n: ViewNote, number: nat) => SectionPieces(n, number, dateOf)
  }

  /** The sections `section` makes of `notes`, one after the other, numbered from `offset + 1`. */
  function Joined(notes: seq<ViewNote>, offset: nat, section: (ViewNote, nat) -> seq<string>): seq<string>
    decreases |notes|
  {
    if notes == [] then []
    else Joined(notes[..|notes| - 1], offset, section) + section(notes[|notes| - 1], offset + |notes|)
  }

  /** Everything `exportAsText` appends, in order. */
  function TextPieces(notes: seq<ViewNote>, exportDate: string, dateOf: Time -> string): seq<string> {
    HeaderPieces(exportDate, |notes|) + Joined(notes, 0, SectionOf(dateOf))
  }

  /** The plain-text export of `notes`. */
  function TextExport(notes: seq<ViewNote>, exportDate: string, dateOf: Time -> string): string {
    Concat(TextPieces(notes, exportDate, dateOf))
  }

  /**
   * Sections follow the notes' order and are numbered consecutively: the
   * sections of `a + b` are those of `a`, then those of `b` numbered on
   * from where `a` stopped.
   */
  lemma {:induction false} JoinedAppend(a: seq<ViewNote>, b: seq<ViewNote>, offset: nat,
                                        section: (ViewNote, nat) -> seq<string>)
    ensures Joined(a + b, offset, section) == Joined(a, offset, section) + Joined(b, offset + |a|, section)
    decreases |b|
  {
    if b == [] {
      assert a + b == a;
    } else {
      var b' := b[..|b| - 1];
      assert (a + b)[..|a + b| - 1] == a + b';
      JoinedAppend(a, b', offset, section);
    }
  }

  /**
   * A note's section, numbered one more than the notes before it, comes
   * after the sections of those notes and before the sections of the notes
   * after it.
   */
  lemma SectionsInOrder(before: seq<ViewNote>, x: ViewNote, after: seq<ViewNote>, offset: nat,
                        section: (ViewNote, nat) -> seq<string>)
    ensures Joined(before + ([x] + after), offset, section)
      == Joined(before, offset, section) + (section(x, offset + |before| + 1) + Joined(after, offset + |before| + 1, section))
  {
    var k := offset + |before|;
    JoinedAppend(before, [x] + after, offset, section);
    JoinedCons(x, after, k, section);
  }

  lemma JoinedCons(x: ViewNote, after: seq<ViewNote>, offset: nat, section: (ViewNote, nat) -> seq<string>)
    ensures Joined([x] + after, offset, section) == section(x, offset + 1) + Joined(after, offset + 1, section)
  {
    JoinedAppend([x], after, offset, section);
    JoinedOne(x, offset, section);
  }

  lemma JoinedOne(n: ViewNote, offset: nat, section: (ViewNote, nat) -> seq<string>)
    ensures Joined([n], offset, section) == section(n, offset + 1)
  {
    assert [n][..0] == [];
  }

  /**
   * The shape of a section: the title line numbered `number` first, then
   * category, created date and Yes/No favourite; the content block exactly
   * when the content is not empty; with images, a count line and one line
   * per image in order, numbered from 1, then a blank line; and the rule
   * last.
   */
  lemma SectionShape(n: ViewNote, number: nat, dateOf: Time -> string)
    ensures var p := SectionPieces(n, number, dateOf);
      var c := if n.content != "" then 1 else 0;
      var m := if HasImages(n) then |n.images.value| else 0;
      && |p| == 4 + c + (if HasImages(n) then m + 2 else 0) + 1
      && p[0] == "## " + NatToString(number) + ". " + n.title + "\n"
      && p[3] == "**Favorite:** " + (if n.isFavorite then "Yes" else "No") + "\n\n"
      && (n.content != "" ==> p[4] == "**Content:**\n" + n.content + "\n\n")
      && (HasImages(n) ==>
            && p[4 + c] == "**Images:** " + NatToString(m) + " attached\n"
            && (forall j :: 0 <= j < m ==> p[5 + c + j] == ImageLine(n.images.value[j], j + 1))
            && p[5 + c + m] == "\n")
      && p[|p| - 1] == Rule()
  {
    if HasImages(n) {
      ImageLinesSpec(n.images.value, |n.images.value|);
    }
  }

  lemma {:induction false} ImageLinesSpec(images: seq<Image>, k: nat)
    requires k <= |images|
    ensures |ImageLines(images, k)| == k
    ensures forall j :: 0 <= j < k ==> ImageLines(images, k)[j] == ImageLine(images[j], j + 1)
  {
    if k > 0 {
      ImageLinesSpec(images, k - 1);
    }
  }

  /** Appending one more piece to a text built from pieces. */
  lemma Extend(text: string, pieces: seq<string>, x: string)
    ensures text + Concat(pieces + [x]) == (text + Concat(pieces)) + x
  {
    ConcatSnoc(pieces, x);
  }

  lemma Regroup(t: string, a: string, b: string, c: string, d: string)
    ensures t + (((a + b) + c) + d) == (((t + a) + b) + c) + d
  {
  }

  /** A text built from four runs of pieces in turn is the text of the four runs together. */
  lemma ExtendByParts(text: string, a: seq<string>, b: seq<string>, c: seq<string>, d: seq<string>)
    ensures text + Concat(a + b + c + d) == (((text + Concat(a)) + Concat(b)) + Concat(c)) + Concat(d)
  {
    ConcatAppend(a + b + c, d);
    ConcatAppend(a + b, c);
    ConcatAppend(a, b);
    Regroup(text, Concat(a), Concat(b), Concat(c), Concat(d));
  }

  /** The inner loop of `exportAsText`: one numbered line per image URL. */
  method AppendImageLines(text: string, images: seq<Image>) returns (t: string)
    ensures t == text + Concat(ImageLines(images, |images|))
  {
    t := text;
    for imgIndex := 0 to |images|
      invariant t == text + Concat(ImageLines(images, imgIndex))
    {
      var line := "  " + NatToString(imgIndex + 1) + ". " + images[imgIndex].url + "\n";
      Extend(text, ImageLines(images, imgIndex), line);
      t := t + line;
    }
  }

  /** Four pieces appended one at a time. */
  lemma ExtendByFour(text: string, a: string, b: string, c: string, d: string)
    ensures text + Concat([a, b, c, d]) == (((text + a) + b) + c) + d
  {
    var p := [a, b, c, d];
    assert p[..3][..2][..1][..0] == [];
    calc {
      Concat(p);
      Concat(p[..3]) + d;
      (Concat(p[..3][..2]) + c) + d;
      ((Concat(p[..3][..2][..1]) + b) + c) + d;
      ((("" + a) + b) + c) + d;
    }
    assert "" + a == a;
  }

  /** The title, category, created and favourite lines of one note. */
  method AppendHeading(text: string, note: ViewNote, number: nat, dateOf: Time -> string) returns (t: string)
    ensures t == text + Concat(HeadingPieces(note, number, dateOf))
  {
    var title := "## " + NatToString(number) + ". " + note.title + "\n";
    var category := "**Category:** " + note.category + "\n";
    var created := "**Created:** " + dateOf(note.createdAt) + "\n";
    var favorite := "**Favorite:** " + (if note.isFavorite then "Yes" else "No") + "\n\n";
    t := text + title;
    t := t + category;
    t := t + created;
    t := t + favorite;
    ExtendByFour(text, title, category, created, favorite);
  }

  /** The content block of one note, when its content is not empty. */
  method AppendContent(text: string, note: ViewNote) returns (t: string)
    ensures t == text + Concat(ContentPieces(note))
  {
    t := text;
    if note.content != "" {
      var line := "**Content:**\n" + note.content + "\n\n";
      Extend(text, [], line);
      t := t + line;
    }
  }

  /** The count line, the image lines and the closing blank line, appended in turn. */
  lemma ExtendImages(text: string, count: string, lines: seq<string>)
    ensures text + Concat([count] + lines + ["\n"]) == ((text + count) + Concat(lines)) + "\n"
  {
    ConcatAppend([count] + lines, ["\n"]);
    ConcatAppend([count], lines);
    Extend("", [], count);
    Extend("", [], "\n");
  }

  /** The images block of one note, when it has images. */
  method AppendImages(text: string, note: ViewNote) returns (t: string)
    ensures t == text + Concat(ImagePieces(note))
  {
    t := text;
    if HasImages(note) {
      var images := note.images.value;
      var count := "**Images:** " + NatToString(|images|) + " attached\n";
      t := t + count;
      t := AppendImageLines(t, images);
      t := t + "\n";
      ExtendImages(text, count, ImageLines(images, |images|));
    }
  }

  /** The body of the loop of `exportAsText`: the lines of one note, numbered `number`. */
  method AppendSection(text: string, note: ViewNote, number: nat, dateOf: Time -> string) returns (t: string)
    ensures t == text + Concat(SectionPieces(note, number, dateOf))
  {
    t := AppendHeading(text, note, number, dateOf);
    t := AppendContent(t, note);
    t := AppendImages(t, note);
    Extend(t, [], Rule());
    t := t + (Repeat('-', 50) + "\n\n");
    ExtendByParts(text, HeadingPieces(note, number, dateOf), ContentPieces(note), ImagePieces(note), [Rule()]);
  }

  /** The four header lines of `exportAsText`. */
  method AppendHeader(exportDate: string, total: nat) returns (text: string)
    ensures text == Concat(HeaderPieces(exportDate, total))
  {
    var title := "# My Notes Export\n\n";
    var exported := "Exported on: " + exportDate + "\n";
    var count := "Total Notes: " + NatToString(total) + "\n\n";
    var separator := SeparatorLine + "\n\n";
    text := title;
    text := text + exported;
    text := text + count;
    text := text + separator;
    ExtendByFour("", title, exported, count, separator);
    assert "" + title == title;
  }

  /** `exportAsText`: the header, then each note's section appended in turn. */
  method ExportAsText(notes: seq<ViewNote>, exportDate: string, dateOf: Time -> string) returns (text: string)
    ensures text == TextExport(notes, exportDate, dateOf)
  {
    text := AppendHeader(exportDate, |notes|);
    ghost var header := HeaderPieces(exportDate, |notes|);
    assert notes[..0] == [] && header + [] == header;
    for index := 0 to |notes|
      invariant text == Concat(header + Joined(notes[..index], 0, SectionOf(dateOf)))
    {
      text := AppendSection(text, notes[index], index + 1, dateOf);
      ExportStep(header, notes, index, dateOf);
    }
    assert notes[..|notes|] == notes;
  }

  /** One turn of the loop of `exportAsText`: the next section is appended. */
  lemma ExportStep(header: seq<string>, notes: seq<ViewNote>, index: nat, dateOf: Time -> string)
    requires index < |notes|
    ensures Concat(header + Joined(notes[..index + 1], 0, SectionOf(dateOf)))
      == Concat(header + Joined(notes[..index], 0, SectionOf(dateOf))) + Concat(SectionPieces(notes[index], index + 1, dateOf))
  {
    var done := Joined(notes[..index], 0, SectionOf(dateOf));
    var next := SectionPieces(notes[index], index + 1, dateOf);
    assert notes[..index + 1] == notes[..index] + [notes[index]];
    JoinedAppend(notes[..index], [notes[index]], 0, SectionOf(dateOf));
    assert [notes[index]][..0] == [];
    assert Joined(notes[..index + 1], 0, SectionOf(dateOf)) == done + next;
    assert header + (done + next) == (header + done) + next;
    ConcatAppend(header + done, next);
  }

  /** A block of the printable export, in document order. */
  datatype PdfBlock =
    | PdfHeader(total: nat, imagesIncluded: bool)
    | NoteCard(title: string, category: string, created: string, favorite: bool,
               imageBadge: Option<nat>, content: string)
    | ImageGallery(sources: seq<string>)
    | PageBreak

  /** The card of one note: the image badge only for notes with images, and a placeholder for empty content. */
  function Card(n: ViewNote, dateOf: Time -> string): PdfBlock {
    NoteCard(n.title, n.category, dateOf(n.createdAt), n.isFavorite,
             if HasImages(n) then Some(|n.images.value|) else None,
             if n.content != "" then n.content else "No content available")
  }

  /** The sources of a gallery: the loaded form of each image URL. */
  function Sources(images: seq<Image>, load: string -> string): seq<string> {
    seq(|images|, j requires 0 <= j < |images| => load(images[j].url))
  }

  /** The blocks of one note: its card, then its images when images are included and it has any. */
  function NoteBlocks(n: ViewNote, withImages: bool, dateOf: Time -> string, load: string -> string): seq<PdfBlock> {
    [Card(n, dateOf)] + if withImages && HasImages(n) then [ImageGallery(Sources(n.images.value, load))] else []
  }

  function BlocksOf(withImages: bool, dateOf: Time -> string, load: string -> string): ViewNote -> seq<PdfBlock> {
    (n: ViewNote) => NoteBlocks(n, withImages, dateOf, load)
  }

  /** The page-break rule, after the note at index `i` of `total`. */
  predicate PageBreakAfter(i: int, total: int) {
    i > 0 && (i + 1) % 2 == 0 && i < total - 1
  }

  /** A break follows every second note, except the last one. */
  lemma PageBreakAfterIff(i: nat, total: nat)
    ensures PageBreakAfter(i, total) <==> i % 2 == 1 && i + 1 < total
  {
  }

  /** The blocks of the first `k` notes, each note's blocks given by `blocks`. */
  function PdfUpTo(notes: seq<ViewNote>, k: nat, blocks: ViewNote -> seq<PdfBlock>): seq<PdfBlock>
    requires k <= |notes|
  {
    if k == 0 then []
    else
      PdfUpTo(notes, k - 1, blocks) + blocks(notes[k - 1])
        + (if PageBreakAfter(k - 1, |notes|) then [PageBreak] else [])
  }

  function PdfLayout(notes: seq<ViewNote>, withImages: bool, dateOf: Time -> string, load: string -> string): seq<PdfBlock> {
    [PdfHeader(|notes|, withImages)] + PdfUpTo(notes, |notes|, BlocksOf(withImages, dateOf, load))
  }

  /** The card and, when images are included and the note has some, the gallery of one note. */
  method AppendNote(blocks: seq<PdfBlock>, note: ViewNote, withImages: bool, dateOf: Time -> string,
                    load: string -> string) returns (r: seq<PdfBlock>)
    ensures r == blocks + NoteBlocks(note, withImages, dateOf, load)
  {
    r := blocks + [Card(note, dateOf)];
    if withImages && HasImages(note) {
      var sources := LoadImages(note.images.value, load);
      assert sources == Sources(note.images.value, load);
      r := r + [ImageGallery(sources)];
    }
  }

  /** `exportAsPDF`: the header, then for each note its card, its images, and possibly a page break. */
  method ExportAsPdf(notes: seq<ViewNote>, withImages: bool, dateOf: Time -> string, load: string -> string)
    returns (blocks: seq<PdfBlock>)
    ensures blocks == PdfLayout(notes, withImages, dateOf, load)
  {
    ghost var blocksOf := BlocksOf(withImages, dateOf, load);
    blocks := [PdfHeader(|notes|, withImages)];
    for i := 0 to |notes|
      invariant blocks == [PdfHeader(|notes|, withImages)] + PdfUpTo(notes, i, blocksOf)
    {
      PdfStep([PdfHeader(|notes|, withImages)], notes, i, blocksOf);
      blocks := AppendNote(blocks, notes[i], withImages, dateOf, load);
      if i > 0 && (i + 1) % 2 == 0 && i < |notes| - 1 {
        blocks := blocks + [PageBreak];
      }
    }
  }

  /** One turn of the loop of `exportAsPDF`: the next note's blocks, then a break if the rule asks for one. */
  lemma PdfStep(header: seq<PdfBlock>, notes: seq<ViewNote>, i: nat, blocks: ViewNote -> seq<PdfBlock>)
    requires i < |notes|
    ensures header + PdfUpTo(notes, i + 1, blocks)
      == (header + PdfUpTo(notes, i, blocks) + blocks(notes[i]))
         + (if PageBreakAfter(i, |notes|) then [PageBreak] else [])
  {
  }

  /** The gallery loop of `exportAsPDF`: what the loader gives for each image, in order. */
  method LoadImages(images: seq<Image>, load: string -> string) returns (sources: seq<string>)
    ensures |sources| == |images|
    ensures forall k :: 0 <= k < |images| ==> sources[k] == load(images[k].url)
  {
    sources := [];
    for j := 0 to |images|
      invariant |sources| == j && forall k :: 0 <= k < j ==> sources[k] == load(images[k].url)
    {
      sources := sources + [load(images[j].url)];
    }
  }

  /** The number of page breaks among some blocks. */
  function Breaks(blocks: seq<PdfBlock>): nat
    decreases |blocks|
  {
    if blocks == [] then 0 else Breaks(blocks[..|blocks| - 1]) + (if blocks[|blocks| - 1].PageBreak? then 1 else 0)
  }

  lemma {:induction false} BreaksAppend(a: seq<PdfBlock>, b: seq<PdfBlock>)
    ensures Breaks(a + b) == Breaks(a) + Breaks(b)
    decreases |b|
  {
    if b == [] {
      assert a + b == a;
    } else {
      assert (a + b)[..|a + b| - 1] == a + b[..|b| - 1];
      BreaksAppend(a, b[..|b| - 1]);
    }
  }

  /** Blocks with no page break among them count none. */
  lemma {:induction false} BreaksNone(b: seq<PdfBlock>)
    requires forall i :: 0 <= i < |b| ==> !b[i].PageBreak?
    ensures Breaks(b) == 0
    decreases |b|
  {
    if b != [] {
      BreaksNone(b[..|b| - 1]);
    }
  }

  /** The breaks up to note `k + 1`: those up to note `k`, those of note `k`'s blocks, and one if a break follows it. */
  lemma BreaksStep(notes: seq<ViewNote>, k: nat, blocks: ViewNote -> seq<PdfBlock>)
    requires k < |notes|
    ensures Breaks(PdfUpTo(notes, k + 1, blocks))
      == Breaks(PdfUpTo(notes, k, blocks)) + Breaks(blocks(notes[k])) + (if PageBreakAfter(k, |notes|) then 1 else 0)
  {
    var prev := PdfUpTo(notes, k, blocks);
    var n := blocks(notes[k]);
    var tail: seq<PdfBlock> := if PageBreakAfter(k, |notes|) then [PageBreak] else [];
    assert PdfUpTo(notes, k + 1, blocks) == prev + n + tail;
    BreaksAppend(prev, n);
    BreaksAppend(prev + n, tail);
    assert Breaks(tail) == (if PageBreakAfter(k, |notes|) then 1 else 0) by {
      assert [PageBreak][..0] == [];
    }
  }

  lemma {:induction false} BreaksUpTo(notes: seq<ViewNote>, k: nat, blocks: ViewNote -> seq<PdfBlock>)
    requires k < |notes|
    requires forall n :: Breaks(blocks(n)) == 0
    ensures Breaks(PdfUpTo(notes, k, blocks)) == k / 2
  {
    if k > 0 {
      BreaksUpTo(notes, k - 1, blocks);
      BreaksStep(notes, k - 1, blocks);
      var extra := if PageBreakAfter(k - 1, |notes|) then 1 else 0;
      assert Breaks(blocks(notes[k - 1])) == 0;
      assert Breaks(PdfUpTo(notes, k, blocks)) == (k - 1) / 2 + extra;
      HalfStep(k - 1, |notes|);
    }
  }

  /** One note more before the last adds a break exactly when it makes the count of notes even. */
  lemma HalfStep(i: nat, total: nat)
    requires i + 1 < total
    ensures i / 2 + (if PageBreakAfter(i, total) then 1 else 0) == (i + 1) / 2
  {
    PageBreakAfterIff(i, total);
  }

  /** All the notes: no break after the last one. */
  lemma BreaksAll(notes: seq<ViewNote>, blocks: ViewNote -> seq<PdfBlock>)
    requires notes != []
    requires forall n :: Breaks(blocks(n)) == 0
    ensures Breaks(PdfUpTo(notes, |notes|, blocks)) == (|notes| - 1) / 2
  {
    BreaksUpTo(notes, |notes| - 1, blocks);
    BreaksStep(notes, |notes| - 1, blocks);
    assert !PageBreakAfter(|notes| - 1, |notes|);
  }

  /** A printout of `n` notes has `(n - 1) / 2` page breaks: one after every second note but the last. */
  lemma PageBreakCount(notes: seq<ViewNote>, withImages: bool, dateOf: Time -> string, load: string -> string)
    ensures Breaks(PdfLayout(notes, withImages, dateOf, load)) == if notes == [] then 0 else (|notes| - 1) / 2
  {
    var blocks := BlocksOf(withImages, dateOf, load);
    forall n ensures Breaks(blocks(n)) == 0 {
      BreaksNone(blocks(n));
    }
    var header := [PdfHeader(|notes|, withImages)];
    BreaksAppend(header, PdfUpTo(notes, |notes|, blocks));
    BreaksNone(header);
    if notes != [] {
      BreaksAll(notes, blocks);
    }
  }

  /** A note's images appear in the printout exactly when images are included and the note has some, one source per image in order. */
  lemma GalleryIff(n: ViewNote, withImages: bool, dateOf: Time -> string, load: string -> string)
    ensures var b := NoteBlocks(n, withImages, dateOf, load);
      && b[0] == Card(n, dateOf)
      && (|b| == 2 <==> withImages && HasImages(n))
      && (|b| == 2 ==>
            && |b[1].sources| == |n.images.value|
            && forall j :: 0 <= j < |n.images.value| ==> b[1].sources[j] == load(n.images.value[j].url))
  {
  }
}
