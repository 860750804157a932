# Notes app core, modelled in Dafny

This project models the core of a notes application that has an Express/Mongoose server and a React client.

**Server.** The server keeps notes and user accounts:
- Each note has a title, category and content, an ordered list of images held by an image host, a favourite flag, a template and a last-viewed time.
- Every note operation is scoped to the authenticated owner.
- Image uploads and deletes at the host are best-effort.
- The account operations cover register, login, profile update, password change, and a two-step forgotten-password flow.

**Client.** The client computes over the notes it has fetched:
- the home-page list filter, its category buttons, its selection and its counters;
- the analytics panel;
- the plain-text and printable exports;
- the template picker;
- the profile forms;
- the create-note form.

## Modules

| module | models |
|---|---|
| `Wrappers` | `Option` and `Result` |
| `Text` | JavaScript's `trim`, `toLowerCase` (ASCII), `includes`, `repeat`, the decimal rendering of a number, string truthiness |
| `Seqs` | `filter` and `[...new Set(xs)]`, with order and membership facts |
| `NoteSchema` | the Note document: fields, defaults, `trim` setters, `required` validation on save |
| `NoteView` | a note as the browser holds it, where `images` may be missing |
| `ImageGateway` | the image host: an upload gives `{url, publicId}` or fails; destroy calls are recorded |
| `NoteController` | the note lifecycle as a `NoteService` class over a `map` of notes, plus the upload middleware's file checks |
| `AuthController` | the account operations as a `UserTable` class over a `map` of users |
| `Home`, `Analytics`, `Export`, `NoteTemplates`, `Profile`, `CreateNote` | the client pages and components |

## How the outside world becomes parameters

**Image host.** It is a parameter:
- A create or update gets one `UploadResult` per request file, in order.
- Every method returns the host calls it made, in order.
- Destroy outcomes are never observed, except in logs, so they are not parameters.

**Other parameters:**
- The clock is a `now: Time` parameter.
- Password hashing is a `matches(candidate, stored)` predicate.
- Locale date formatting is a `dateOf` function.
- The browser's image loader is a `load` function.
- The server's answers to the client pages are `Answer` values.

**Middleware guarantee.** The upload middleware admits at most ten files per request (`upload.array("images", 10)`). The controllers therefore require `|uploads| <= MaxFiles`; `Admit` models the middleware itself.

**Behaviour of the code worth knowing:**
- Emails are compared exactly (`findOne({ email })`), so emails that differ only in letter case belong to different accounts.
- A title or category that is white space only passes the controller's `!title` check. The uploads still happen, then `save()` fails its `required` validator, so the reply is 500 and not 400. `NoteService.CreateNote` states this.
- The server has no length check on a new password. Only the profile page checks the length (`Profile.PasswordCheck`).
- `"=" * 50` in the text export's header evaluates to `NaN`, so the export contains a literal `NaN` line (`Export.SeparatorLine`).

## Model

| member | source | states |
|---|---|---|
| Text.TrimStartSpec | server/controllers/noteController.js:32-33 | leading trim drops only white space and leaves a suffix that does not start with white space |
| Text.TrimEndSpec | server/controllers/noteController.js:32-33 | trailing trim drops only white space and leaves a prefix that does not end with white space |
| Text.TrimIsSlice | server/controllers/noteController.js:32-34 | `trim()` is the slice of the string between its leading and its trailing white space |
| Text.TrimmedIff | server/models/Note.js:5-6 | a trimmed string has no surrounding white space, and a string is its own trim exactly when it has none |
| Text.TrimIdempotent | server/models/Note.js:5-6 | the schema setter's trim of a value the controller already trimmed changes nothing |
| Text.TrimEmptyIff | server/controllers/noteController.js:17 | a string trims to "" exactly when it is white space only, which is the case the truthiness check lets through |
| Text.ToLower | client/src/pages/Home.jsx:44-46 | lowercasing keeps the length, leaves no upper-case ASCII letter, and leaves a string without one unchanged |
| Text.ToLowerIdempotent | client/src/pages/Home.jsx:46 | lowercasing twice is lowercasing once |
| Text.ContainsIff | client/src/pages/Home.jsx:44-45 | `includes` holds exactly when the needle occurs at some position |
| Text.NatToString | client/src/components/ExportModals.jsx:48 | a rendered number is never empty |
| Text.NatToStringRoundTrip | client/src/components/ExportModals.jsx:52 | the numeral printed in the export reads back as the number it came from, and has only digits |
| Seqs.Filter | client/src/pages/Home.jsx:42 | a filter is never longer than its input |
| Seqs.FilterMembership | client/src/pages/Home.jsx:42-49 | an element survives a filter exactly when it is in the input and satisfies the predicate |
| Seqs.FilterAll | client/src/pages/CreateNote.jsx:64 | every element a filter keeps satisfies its predicate and comes from the input |
| Seqs.FilterIsSubsequence | client/src/pages/Home.jsx:42-49 | a filter keeps the relative order of the elements it keeps |
| Seqs.FilterKeepsAll | client/src/pages/Home.jsx:42-49 | a filter whose predicate holds everywhere returns its input |
| Seqs.FilterAppend | client/src/pages/Home.jsx:54 | filtering a concatenation filters each part |
| Seqs.FirstIndex | client/src/pages/Home.jsx:51 | the first position of an element holds it, and no earlier one does |
| Seqs.DistinctSpec | client/src/pages/Home.jsx:51 | `[...new Set(s)]` holds exactly the elements of `s`, each once, ordered by first occurrence |
| Seqs.DistinctSize | client/src/pages/Home.jsx:94 | the spread of a Set has as many elements as the Set's `size` |
| NoteSchema.Save | server/models/Note.js:5-14 | `save()` stores the note exactly when every `required` validator passes, and fails with a validation error otherwise |
| NoteSchema.ConstructDefaults | server/models/Note.js:7-18 | undefined fields get the schema defaults: content "", not a favourite, template null, no tags, last viewed now |
| NoteSchema.ConstructTrims | server/models/Note.js:5-6 | a constructed note's title and category carry no surrounding white space |
| NoteSchema.ConstructValidatesIff | server/models/Note.js:5-12 | a constructed note validates exactly when title and category are not blank and every image has url and publicId |
| ImageGateway.Successes | server/controllers/noteController.js:19-28 | the images of a run of uploads are at most as many as the files |
| ImageGateway.SuccessesAppend | server/controllers/noteController.js:21-28 | the images of two runs of uploads are those of the first run followed by those of the second |
| ImageGateway.SuccessesSnoc | server/controllers/noteController.js:22-27 | one more upload appends its image if it succeeded and nothing if it failed, so a failure never aborts the loop |
| ImageGateway.SuccessPosition | server/controllers/noteController.js:21-28 | a successful file's image sits right after the images of the earlier files |
| ImageGateway.SuccessesOrdered | server/controllers/noteController.js:21-28 | a later file's image never precedes an earlier file's image |
| ImageGateway.SuccessesExtremes | server/config/cloudinary.js:41-47 | when every upload fails the note gets no images, and when none fails it gets every one in order |
| NoteController.AdmitIff | server/controllers/noteController.js:5-12 | a request's files reach the controller exactly when there are at most ten, all images and none over 10 MiB, and then all of them in order |
| NoteController.FindImage | server/controllers/noteController.js:148-149 | `findIndex`: -1 exactly when no image has the id, otherwise the first position that has it |
| NoteController.AttachSnoc | server/controllers/noteController.js:24 | attaching one more uploaded image appends one entry with the next subdocument id |
| NoteController.StoreWellRaise | server/controllers/noteController.js:19-28 | advancing the id counters keeps every stored note well-formed |
| NoteController.StoreWellPut | server/controllers/noteController.js:42 | filing a well-formed note keeps the store well-formed |
| NoteController.NewNoteStoredWell | server/controllers/noteController.js:31-40 | a saved new note is filed under its id, trimmed, with increasing image ids below the counter |
| NoteController.UpdatedShape | server/controllers/noteController.js:85-98 | an update appends the new images after the old ones, keeps id and owner, and keeps the text fields trimmed |
| NoteController.UpdatedStoredWell | server/controllers/noteController.js:79-106 | a saved updated note is still well-formed under the advanced image counter |
| NoteController.InsertNewestShape | server/controllers/noteController.js:54 | inserting into the sorted list only adds the note, at its position |
| NoteController.InsertPosSpec | server/controllers/noteController.js:54 | the notes before the insertion point are newer than the note, and the one at it is not |
| NoteController.NewestFirstInsert | server/controllers/noteController.js:54 | a note placed between the newer and the not-newer notes keeps a list sorted by `createdAt` descending |
| NoteController.InsertNewestSorted | server/controllers/noteController.js:54 | inserting keeps a newest-first list newest first |
| NoteController.InsertNewestSpec | server/controllers/noteController.js:54 | inserting keeps the list newest first and adds exactly the note |
| NoteController.InsertStep | server/controllers/noteController.js:52-54 | a note with a new id joins the list as the only new member, and the list stays newest first with distinct ids |
| NoteController.DistinctIdsInsert | server/controllers/noteController.js:52 | placing a note with a new id keeps the ids of the list distinct |
| NoteController.IdsIncreasingAppend | server/controllers/noteController.js:89 | pushing images with higher ids keeps image ids increasing |
| NoteController.AttachWellNumbered | server/controllers/noteController.js:24 | attached images get increasing ids in the counter's range |
| NoteController.IdsIncreasingSplice | server/controllers/noteController.js:157 | splicing out one image keeps the other ids increasing |
| NoteController.NoteService.CreateNote | server/controllers/noteController.js:14-48 | missing or empty title or category gives 400 with no upload and no change; otherwise one upload per file in order, then success and exactly one note added, or 500 and no change |
| NoteController.NoteService.GetNotes | server/controllers/noteController.js:50-59 | exactly the caller's stored notes, each once, sorted by `createdAt` descending |
| NoteController.NoteService.GetNoteById | server/controllers/noteController.js:61-77 | a non-owner gets 404 and no change; the owner gets the note with only `lastViewed` set to now, and it is saved |
| NoteController.NoteService.PushUploads | server/controllers/noteController.js:85-94 | one upload per file in order; the successful images are pushed after the existing ones, numbered from the counter |
| NoteController.NoteService.UpdateNote | server/controllers/noteController.js:79-106 | a non-owner gets 404 and no change; otherwise uploads then assignments; the note is saved if it validates, else 500 and no change |
| NoteController.NoteService.AssignFields | server/controllers/noteController.js:96-98 | title and category are replaced, trimmed, only when truthy; content is replaced, trimmed, whenever defined |
| NoteController.NoteService.ToggleFavorite | server/controllers/noteController.js:108-120 | a non-owner gets 404 and no change; otherwise only `isFavorite` is negated |
| NoteController.NoteService.DeleteNote | server/controllers/noteController.js:122-140 | a non-owner gets 404 and no call; otherwise one destroy per image in order, whatever it answers, and then the note is removed |
| NoteController.NoteService.DeleteNoteImage | server/controllers/noteController.js:142-163 | 404 for a non-owner or an unknown image id with no change; otherwise one destroy call and exactly that image spliced out, the rest kept in order |
| NoteController.ToggleTwice | server/controllers/noteController.js:113 | two toggles give back the store and the note as they were |
| AuthController.RenamedIdempotent | server/controllers/authController.js:58-59 | nothing truthy changes nothing, and repeating an update changes nothing more |
| AuthController.UserTable.FindOne | server/controllers/authController.js:10 | finds a user exactly when one has this exact email |
| AuthController.UserTable.Register | server/controllers/authController.js:6-24 | a taken email gives 400 and no change; otherwise exactly one user is added under a fresh id, and a session for it is returned |
| AuthController.UserTable.Login | server/controllers/authController.js:26-43 | a session exactly when a user has the email and the password matches; an unknown email and a wrong password get the same reply |
| AuthController.UserTable.UpdateProfile | server/controllers/authController.js:51-69 | a missing user gives 404; otherwise only the names change, when truthy, and email and password stay |
| AuthController.UserTable.ChangePassword | server/controllers/authController.js:71-96 | email mismatch first, then a missing user, then a wrong current password, each without change; otherwise only the password is replaced, with no length check |
| AuthController.UserTable.ForgotPassword | server/controllers/authController.js:98-111 | tells whether the email is known (404 if not) and changes nothing |
| AuthController.UserTable.ResetPassword | server/controllers/authController.js:113-127 | an unknown email gives 404 and no change; otherwise that user's password alone is replaced, with no other check |
| AuthController.ResetThenLogin | server/controllers/authController.js:117-121 | after a reset, the new password logs in |
| AuthController.RegisterTwice | server/controllers/authController.js:10-14 | a second registration with the same email is refused, and the table keeps exactly one more user |
| Home.FilteredNotesIff | client/src/pages/Home.jsx:42-49 | a note is listed exactly when the term occurs, ignoring case, in its title or content, its category matches or "all" is selected, and it is a favourite or the switch is off |
| Home.FilteredNotesOrder | client/src/pages/Home.jsx:42-49 | the list keeps the notes' order, and with "", "all" and the switch off it is every note |
| Home.CategoriesSpec | client/src/pages/Home.jsx:51 | "all" first, then each lowercased category once, in first-occurrence order, as many as the categories counter |
| Home.SelectNoteFlips | client/src/pages/Home.jsx:53-55 | selecting flips the id's membership and no other id's; no repeats stay no repeats; selecting a new id twice restores the selection |
| Home.FilterNoDuplicates | client/src/pages/Home.jsx:54 | filtering a selection without repeats gives one without repeats |
| Home.SelectAllSpec | client/src/pages/Home.jsx:57-63 | a selection as long as the list is cleared; otherwise the selection becomes the listed ids in order; pressing twice from empty clears again |
| Home.CountersBounded | client/src/pages/Home.jsx:93-96 | notes with images, favourites and distinct categories are each at most the total, and at least one category exists when there are notes |
| Home.DistinctBounded | client/src/pages/Home.jsx:94 | there are no more distinct categories than notes |
| Home.FavoriteChangeSpec | client/src/pages/Home.jsx:98-100 | only the flag of the notes with the id changes; other notes and fields stay; repeating changes nothing more; ids keep their order |
| Home.GreetingSpec | client/src/pages/Home.jsx:85-90 | morning before 12, afternoon from 12 to before 17, evening after, and the greeting only moves forward through the day |
| Analytics.ImageCountersBounded | client/src/components/AnalyticsDashboard.jsx:11-12 | notes with images are at most the notes and at most the images, and are zero exactly when there are no images |
| Analytics.RecentNotesSpec | client/src/components/AnalyticsDashboard.jsx:15-20 | a note is recent exactly when it was created at most a week before now; a later clock never counts more notes |
| Analytics.FilterWeaker | client/src/components/AnalyticsDashboard.jsx:19 | a weaker condition keeps at least as many notes |
| Analytics.CategoryStats | client/src/components/AnalyticsDashboard.jsx:23-27 | the in-place reduce maps exactly the lowercased categories, each to its number of notes |
| Analytics.CategoryCountsTotal | client/src/components/AnalyticsDashboard.jsx:23-27 | the breakdown's keys are the distinct categories, its counts add up to the number of notes, and it has as many keys as the categories counter |
| Analytics.SumOverDistinct | client/src/components/AnalyticsDashboard.jsx:23-27 | adding up each distinct value's occurrences gives the length |
| Analytics.SumCountsSnoc | client/src/components/AnalyticsDashboard.jsx:25 | one more note adds one to the total exactly when its category is a key |
| Analytics.ProtoCategoryLost | client/src/components/AnalyticsDashboard.jsx:23-27 | one note filed under "__proto__": the reduce as written shows no entry, where the intended breakdown has it with count 1 |
| Analytics.CategoryColorSpec | client/src/components/AnalyticsDashboard.jsx:29-39 | grey exactly for "other" and unknown names; no two coloured categories share a colour |
| Export.NotesToExportSpec | client/src/components/ExportModals.jsx:14-17 | "selected" with a non-empty selection exports exactly the selected notes in notes order; anything else exports every note |
| Export.ConcatAppend | client/src/components/ExportModals.jsx:51-70 | appending two runs of pieces appends their texts |
| Export.JoinedAppend | client/src/components/ExportModals.jsx:51-70 | the sections of `a + b` are those of `a`, then those of `b` numbered on from where `a` stopped |
| Export.SectionsInOrder | client/src/components/ExportModals.jsx:51-52 | a note's section, numbered one more than the notes before it, sits between their sections and those of the notes after it |
| Export.JoinedCons | client/src/components/ExportModals.jsx:51-52 | the first note's section comes first, numbered 1 past the offset |
| Export.JoinedOne | client/src/components/ExportModals.jsx:51-52 | one note gives one section, numbered next |
| Export.SectionShape | client/src/components/ExportModals.jsx:51-69 | a section is the numbered title, category, created date and Yes/No favourite lines; the content block exactly when content is non-empty; the count line and one numbered line per image in order, then a blank line, exactly when there are images; and the rule last |
| Export.RuleIsDashes | client/src/components/ExportModals.jsx:69 | the rule closing each section is fifty dashes followed by a blank line |
| Export.ImageLinesSpec | client/src/components/ExportModals.jsx:63-65 | one line per image, in order, numbered from 1 |
| Export.AppendImageLines | client/src/components/ExportModals.jsx:63-65 | the inner loop appends the numbered image lines |
| Export.AppendHeading | client/src/components/ExportModals.jsx:52-55 | appends the four heading lines of a section |
| Export.AppendContent | client/src/components/ExportModals.jsx:57-59 | appends the content block only for non-empty content |
| Export.AppendImages | client/src/components/ExportModals.jsx:61-67 | appends the images block only when the note has images |
| Export.AppendSection | client/src/components/ExportModals.jsx:51-70 | one turn of the loop appends exactly the note's section |
| Export.AppendHeader | client/src/components/ExportModals.jsx:46-49 | the header: title, export date, note count, then the `NaN` line and a blank line |
| Export.ExportAsText | client/src/components/ExportModals.jsx:45-79 | the string built by `+=` is the header followed by every note's section, in order, numbered from 1 |
| Export.ExportStep | client/src/components/ExportModals.jsx:51-70 | each turn of the loop appends the next note's section to the text so far |
| Export.PageBreakAfterIff | client/src/components/ExportModals.jsx:282 | a break follows the note at index `i` exactly when `i` is odd and it is not the last note |
| Export.AppendNote | client/src/components/ExportModals.jsx:231-277 | a note's card, then its gallery exactly when images are included and it has some |
| Export.ExportAsPdf | client/src/components/ExportModals.jsx:228-285 | the printout is the header, then per note its card, its gallery and a break when the rule asks for one |
| Export.PdfStep | client/src/components/ExportModals.jsx:228-285 | each turn of the loop appends the next note's blocks and possibly a break |
| Export.LoadImages | client/src/components/ExportModals.jsx:250-271 | one loaded source per image, in order |
| Export.BreaksAppend | client/src/components/ExportModals.jsx:283 | the breaks of two block runs add up |
| Export.BreaksNone | client/src/components/ExportModals.jsx:231-277 | blocks without a break count none |
| Export.BreaksStep | client/src/components/ExportModals.jsx:282-284 | the breaks up to the next note grow by that note's breaks and one if the rule fires |
| Export.BreaksUpTo | client/src/components/ExportModals.jsx:282-284 | before note `k`, with `k` short of the last, there are `k / 2` breaks |
| Export.HalfStep | client/src/components/ExportModals.jsx:282 | one more note before the last adds a break exactly when the count of notes becomes even |
| Export.BreaksAll | client/src/components/ExportModals.jsx:282-284 | all notes, with none after the last: `(n - 1) / 2` breaks |
| Export.PageBreakCount | client/src/components/ExportModals.jsx:282-284 | a printout of `n` notes has `(n - 1) / 2` page breaks, none for no notes |
| Export.GalleryIff | client/src/components/ExportModals.jsx:243 | the card comes first; a gallery follows exactly when images are included and the note has some, with one source per image in order |
| NoteTemplates.TemplateTable | client/src/components/NoteTemplates.jsx:6-238 | eight templates with distinct ids, and no name or category blank |
| NoteTemplates.TableIdsDistinct | client/src/components/NoteTemplates.jsx:8-208 | no two template ids are equal |
| NoteTemplates.TableNamesNotBlank | client/src/components/NoteTemplates.jsx:6-238 | every name and category trims to something non-empty |
| NoteTemplates.NotBlank | client/src/components/NoteTemplates.jsx:6-238 | a string with a non-space character does not trim to nothing |
| NoteTemplates.FilteredTemplatesSpec | client/src/components/NoteTemplates.jsx:242-244 | "all" lists every template in order; otherwise exactly those of the category, ignoring case, in order |
| NoteTemplates.TableCategories | client/src/components/NoteTemplates.jsx:8-246 | lowercasing the table's categories gives work, personal, work, four times personal, then ideas |
| NoteTemplates.CategoryButtonsSpec | client/src/components/NoteTemplates.jsx:246 | the buttons read "all", "work", "personal", "ideas" |
| NoteTemplates.CategoryRun | client/src/components/NoteTemplates.jsx:246 | the distinct lowercased table categories are work, personal, ideas, in first-occurrence order |
| NoteTemplates.PreviewSpec | client/src/components/NoteTemplates.jsx:313 | the preview is the longest prefix of the content of at most 150 characters |
| NoteTemplates.ChosenFromTable | client/src/components/NoteTemplates.jsx:300 | the chosen template is one the filter listed, so one of the table's, of the selected category |
| Profile.ChangeHandlersSpec | client/src/pages/Profile.jsx:43-55 | a change handler sets the named field and no other, and re-setting a field to its value changes nothing |
| Profile.PasswordCheckSpec | client/src/pages/Profile.jsx:81-91 | a mismatch is reported first; a short password only when the two agree; the form passes exactly when they agree and the password has at least 6 characters |
| Profile.RequestIgnoresConfirmation | client/src/pages/Profile.jsx:94-98 | the request never depends on the confirmation field |
| Profile.ProfilePage.LoadUser | client/src/pages/Profile.jsx:29-41 | with a user, the profile form is set from it with missing fields as "", and the password form's email is set and its other fields kept |
| Profile.ProfilePage.HandleProfileChange | client/src/pages/Profile.jsx:43-48 | only the named profile field changes |
| Profile.ProfilePage.HandlePasswordChange | client/src/pages/Profile.jsx:50-55 | only the named password field changes |
| Profile.ProfilePage.HandleProfileSubmit | client/src/pages/Profile.jsx:57-73 | the whole profile form is sent, followed by a success message or the server's error or the fallback |
| Profile.ProfilePage.HandlePasswordSubmit | client/src/pages/Profile.jsx:75-111 | a failed check shows its error and sends nothing; otherwise the request is sent, success clears the password fields, and failure shows the error and keeps the form |
| Profile.ChangeThenResubmit | client/src/pages/Profile.jsx:99-105 | after a successful change, submitting again is refused as too short and keeps the user's email |
| CreateNote.RemoveImageSpec | client/src/pages/CreateNote.jsx:45-47 | exactly the file at the index is removed, the others kept in order; an index outside the list removes nothing |
| CreateNote.DropSelectionSpec | client/src/pages/CreateNote.jsx:59-66 | a dropped file is kept exactly when its type starts with "image/", in drop order, and each kept file passes the server's filter |
| CreateNote.TemplateFormAccepted | client/src/pages/CreateNote.jsx:23-31 | a form filled from a table template passes the server's title/category check and validation when its images are complete |
| CreateNote.FilesAppend | client/src/pages/CreateNote.jsx:82-84 | the files of two form parts are those of the first followed by those of the second |
| CreateNote.FileEntriesFiles | client/src/pages/CreateNote.jsx:82-84 | the file entries carry the selected images in order and no text field |
| CreateNote.FieldSkipsFiles | client/src/pages/CreateNote.jsx:82-84 | file entries never supply a text field |
| CreateNote.FieldAppend | client/src/pages/CreateNote.jsx:74-84 | a text field is read from the first part that has it |
| CreateNote.TextEntriesFields | client/src/pages/CreateNote.jsx:75-80 | the text part gives title, category, content, and the template id exactly when there is a template |
| CreateNote.FormRoundTrip | client/src/pages/CreateNote.jsx:74-84 | what the server reads back from the form is the page's title, category and content, the template id exactly when present, and every selected image in order |
| CreateNote.CategoryIconSpec | client/src/pages/CreateNote.jsx:95-105 | the default icon exactly for names other than the six, matched exactly; no two of the six share an icon |
| CreateNote.CreateNotePage.LoadTemplate | client/src/pages/CreateNote.jsx:23-31 | a template replaces the form with its prefill; without one nothing changes |
| CreateNote.CreateNotePage.HandleImageChange | client/src/pages/CreateNote.jsx:40-43 | the picked files replace the selection |
| CreateNote.CreateNotePage.HandleDrop | client/src/pages/CreateNote.jsx:59-66 | the dropped image files replace the selection |
| CreateNote.CreateNotePage.RemoveImageAt | client/src/pages/CreateNote.jsx:45-47 | the selection loses the file at the index |
| CreateNote.CreateNotePage.HandleSubmit | client/src/pages/CreateNote.jsx:68-93 | the form sent is the text fields then one entry per image in order; success moves to the new note, failure shows the server's message or the fallback |

## Left out

**String and date semantics**
- String length and `substring` count Unicode scalar values, not UTF-16 code units. This affects the 6-character password check, the 150-character preview, and trimming of surrogate pairs.
- `toLowerCase` folds only ASCII letters.
- Locale date formatting is a `dateOf` parameter, and the export date is a string parameter.
- Analytics.RecentNotesSpec: "a week ago" is `now - 7 × 24 h`. `setDate` on a local calendar can differ by an hour across a daylight-saving change.
- Dates embedded in template contents are a parameter. The contents are plain strings.

**What the Note document leaves out**
- `createdAt` is set to `now` on create. `updatedAt` and the other timestamp plumbing are not modelled.
- The `populate("owner", ...)` calls are not modelled.
- `tags` is never written by the controllers; it stays empty.
- Note and image ids are natural numbers from counters. The arbitrary ObjectIds are not modelled.
- CreateNote.CreateNotePage.HandleSubmit: the navigation path renders the note id as a decimal number, not as an ObjectId string.
- The 500 replies for database or connection errors are not modelled. Only the validation failure on `save()` is.
- NoteSchema.Save: the error models only the "Note validation failed" prefix of Mongoose's message. The real message goes on to name each failing path and its reason, such as "title: Path `title` is required.".
- NoteController.NoteService.CreateNote: its 500 reply carries `error.message`, which is only modelled as that prefix.
- NoteController.NoteService.UpdateNote: its 500 reply carries `error.message`, which is only modelled as that prefix.

**Accounts**
- The User model, with its schema, password hashing and `comparePassword`, is not part of this model. Password matching is a parameter. Register's `save()` is taken to succeed.
- JWT signing and its 7-day expiry are not modelled. A token is modelled as the user id it carries.
- `getProfile` only echoes the authenticated user, so it has no operation here.

**Upload middleware**
- Admit covers the file count limit, the type filter and the size limit. The HTTP status of its errors and multer's buffering are not modelled.

**Client: browser and rendering**
- Logging (`console.error` and `console.log`) is not modelled.
- The JSON export, Blob and URL downloads, and `window.open`/`print` are not modelled.
- The PDF export is modelled as a sequence of blocks. Its HTML and CSS markup is not modelled.
- Loading an image in the printout: `load` gives what the loader resolves to. The branch where a load is rejected never happens, because the loader always resolves.
- `window.location.reload()` after a profile update is not modelled.
- The concurrent bulk delete via `Promise.all` is not modelled.
- The analytics bar width and the MB size display use floating point; they are not modelled.

**Dictionary lookups on object literals**
- Analytics.CategoryColor and CreateNote.CategoryIcon treat every name outside their table as unknown. In JavaScript, an inherited name such as "constructor" reads a function from the object's prototype.
- Analytics.CategoryStats likewise counts every category. "__proto__" is the finding below. Categories are lowercased before the reduce, so of the inherited names only "constructor" reaches it; there the reduce concatenates the source text of `Object` with `1`. This is not modelled.
- Analytics.CategoryStatsAsWritten: models the reduce as written only for "__proto__". It counts "constructor" as an ordinary key with counts 1, 2, …. In JavaScript the first such note gives the string "function Object() { [native code] }1", and each further note appends another "1".
- Analytics.CategoryStats: being a `map`, it does not capture the order in which `Object.entries` lists the breakdown (AnalyticsDashboard.jsx:185). That order is integer-like keys ascending, then the other keys in insertion order.

**Template table**
- NoteTemplates.TemplateTable, NoteTemplates.CategoryButtonsSpec and CreateNote.TemplateFormAccepted are stated for the table around any eight contents. The real contents are long literals that are expensive for the verifier.
- These lemmas do not depend on the contents, so they hold for `Templates(today)`.

## Findings

| source | as written | input that shows it | evidently intended | confidence | as-written member | corrected member |
|---|---|---|---|---|---|---|
| client/src/components/AnalyticsDashboard.jsx:23-27 | the breakdown is reduced into a plain object literal `{}`, and `acc["__proto__"] || 0` reads `Object.prototype`, so `acc["__proto__"] = …` hands the string "[object Object]1" to the prototype setter, which ignores any value that is neither an object nor null | one note whose category is "__proto__" (or "__PROTO__") gives an empty breakdown while the categories counter says 1 | every lowercased category is a key with its count, and the counts add up to the number of notes | not executed | Analytics.CategoryStatsAsWritten, Analytics.ProtoCategoryLost | Analytics.CategoryStats, Analytics.CategoryCountsTotal |
