# Fitra: a Dafny model of the journal, the login form, the workout editor and signup

Fitra is a fitness and wellness web application. Most of it is static markup.
This project models the four places where it holds real logic, and proves
what each one does:

- **Journal** (`Journal.dfy`). The journal page keeps a list of notes, an undo
  stack and a redo stack of earlier lists, a draft for the next note and the
  id of the note being edited. Adding, pinning, favouriting, deleting and
  saving a note all go through `PushUndo`: the current list is pushed on the
  undo stack and the redo stack is emptied. Undo and redo move one list
  between the stacks. The list on screen shows pinned notes first and keeps
  only the notes whose title, content or some attachment name contains the
  search text, ignoring case. The page is the class `JournalPage`. The list
  transforms inside its handlers, and the displayed list, are pure
  functions with lemmas about ordering, membership and "nothing else changes".
- **Login form** (`LoginForm.dfy`). `validateForm` builds an error
  dictionary from the form fields and the mode (sign in or sign up). The
  email check is the regular expression `\S+@\S+\.\S+`, searched anywhere in
  the text. It is specified as its language (some substring splits as
  `a@b.c` with non-empty runs of non-white-space characters). An executable
  check is proved equivalent to it. `ErrorsFor` states each key rule of the
  dictionary. The key-by-key builder `BuildErrors` is proved to meet it, and
  `ValidateForm`, `HandleInputChange` and `HandleSubmit` are methods of the
  page class `AuthPage`.
- **Workouts** (`Fitness.dfy`). The class `FitnessPage` holds the workout
  list and the "New Workout" draft. Adding a workout puts it at the head of
  the list and resets the draft. Rows of the draft can be appended, removed
  by position, and edited one field at a time (copy the rows into an array,
  assign one field, store the array back).
- **Signup** (`Signup.dfy`). The `POST /api/auth/signup` handler is the
  method `Register` on a user store keyed by email. It refuses a taken email
  with status 400 and "User already exists". Otherwise it stores the user
  with the hashed password and answers "User created" with the email and
  name only. The hash is a function passed with each request.

Shared helpers: `Seqs.dfy` (`filter` and drop-one-position), `Text.dfy`
(JavaScript white space, ASCII lower-casing, `includes`, decimal numerals)
and `Options.dfy`.

The signup handler (fitra/src/app/api/auth/signup/route.ts:6-22) does not
check that fields are present, does not normalise the email and reports no
storage error; the model does the same.

The inline title and content edits of the journal (`EditTitleInPlace`,
`EditContentInPlace`) write the list directly. The save button then passes
the note's current text. So the history entry recorded by a save that follows
such edits holds the edited text, not the text before the edit.
`SaveAfterInPlaceEdit` states this.

## Model

| member | source | states |
|---|---|---|
| `Journal.TogglePin` | fitra/src/app/journal/page.tsx:88-90 | same length and order; the pin flag flips exactly on the notes with the given id; every other field of every note is unchanged |
| `Journal.ToggleFavorite` | fitra/src/app/journal/page.tsx:123-125 | same for the favourite flag |
| `Journal.TogglePinTwice` | fitra/src/app/journal/page.tsx:88-90 | pinning the same id twice restores the list |
| `Journal.ToggleFavoriteTwice` | fitra/src/app/journal/page.tsx:123-125 | favouriting the same id twice restores the list |
| `Journal.UpdateWhere` | fitra/src/app/journal/page.tsx:89 | the `map` that replaces the notes with the given id: same length, each such note becomes its image under the update, every other note is kept |
| `Journal.DeleteNote` | fitra/src/app/journal/page.tsx:108-110 | a note stays iff its id differs from the deleted one, each kept note as often as before, and no note with that id is left |
| `Journal.DeleteConcat` | fitra/src/app/journal/page.tsx:109 | deleting distributes over concatenation, so the kept notes keep their relative order |
| `Journal.DeleteAbsent` | fitra/src/app/journal/page.tsx:109 | deleting an id no note carries leaves the list unchanged |
| `Journal.Saved` | fitra/src/app/journal/page.tsx:114-117 | a saved note gets the new title and content, its history grows by the previous title, content and date, and nothing else changes |
| `Journal.SaveNote` | fitra/src/app/journal/page.tsx:112-119 | only notes with the id change, each as `Saved` says; length and all other notes unchanged |
| `Journal.RetitleNote` | fitra/src/app/journal/page.tsx:385 | in-place title edit: only the matching notes get the new title |
| `Journal.RewriteNote` | fitra/src/app/journal/page.tsx:392 | in-place content edit: only the matching notes get the new content |
| `Journal.SaveAfterInPlaceEdit` | fitra/src/app/journal/page.tsx:385-428 | after in-place edits and a save, the note's newest history entry holds the edited title and content |
| `Journal.Visible` | fitra/src/app/journal/page.tsx:298-303 | a note is shown iff it is in the list and its lowered title, content or some attachment name includes the lowered search; no more notes than the list holds |
| `Journal.VisibleSplits` | fitra/src/app/journal/page.tsx:298 | the shown list is the shown pinned notes followed by the shown unpinned notes |
| `Journal.PinnedFirst` | fitra/src/app/journal/page.tsx:298-303 | every shown pinned note precedes every shown unpinned note |
| `Journal.PinnedGroupKeepsOrder` | fitra/src/app/journal/page.tsx:298-303 | the shown pinned notes are the pinned notes in list order, narrowed by the search |
| `Journal.UnpinnedGroupKeepsOrder` | fitra/src/app/journal/page.tsx:298-303 | the shown unpinned notes are the unpinned notes in list order, narrowed by the search |
| `Journal.PinnedShownAreHits` | fitra/src/app/journal/page.tsx:298-303 | the shown pinned notes are exactly the pinned notes among the search hits, in list order |
| `Journal.UnpinnedShownAreHits` | fitra/src/app/journal/page.tsx:298-303 | the shown unpinned notes are exactly the unpinned notes among the search hits, in list order |
| `Journal.EmptySearchMatches` | fitra/src/app/journal/page.tsx:299-302 | every note passes an empty search |
| `Journal.EmptySearchShowsAll` | fitra/src/app/journal/page.tsx:298-303 | with an empty search every note is shown exactly once, pinned ones first |
| `Journal.CollectAttachments` | fitra/src/app/journal/page.tsx:131-141 | one attachment per picked file, in order, with id `name-stamp-i`, the file's name and type and the object URL of that round |
| `Journal.JournalPage.constructor` | fitra/src/app/journal/page.tsx:41-46 | no notes, both stacks empty, an empty yellow draft, nothing being edited |
| `Journal.JournalPage.PushUndo` | fitra/src/app/journal/page.tsx:51-55 | the old list is pushed on the undo stack, the redo stack is emptied and the new list is shown |
| `Journal.JournalPage.Undo` | fitra/src/app/journal/page.tsx:57-62 | no-op on an empty undo stack; otherwise the top snapshot is shown and the old list goes on the redo stack; the total stack height is unchanged |
| `Journal.JournalPage.Redo` | fitra/src/app/journal/page.tsx:64-69 | the mirror image of `Undo` |
| `Journal.JournalPage.AddNote` | fitra/src/app/journal/page.tsx:72-87 | an empty draft changes nothing; otherwise one unpinned, unfavoured note with empty history is put before the old notes, the push is recorded for undo and the draft is reset |
| `Journal.JournalPage.Pin` | fitra/src/app/journal/page.tsx:88-90 | shows `TogglePin` of the old list and records the old list for undo |
| `Journal.JournalPage.Favorite` | fitra/src/app/journal/page.tsx:123-125 | shows `ToggleFavorite` of the old list and records the old list for undo |
| `Journal.JournalPage.Delete` | fitra/src/app/journal/page.tsx:108-110 | shows `DeleteNote` of the old list and records the old list for undo |
| `Journal.JournalPage.Edit` | fitra/src/app/journal/page.tsx:111 | sets the id being edited and nothing else |
| `Journal.JournalPage.CancelEdit` | fitra/src/app/journal/page.tsx:436 | clears the id being edited and nothing else |
| `Journal.JournalPage.Save` | fitra/src/app/journal/page.tsx:112-122 | shows `SaveNote` of the old list, records the old list for undo and clears the id being edited |
| `Journal.JournalPage.EditTitleInPlace` | fitra/src/app/journal/page.tsx:385 | replaces the list by `RetitleNote` without touching either stack |
| `Journal.JournalPage.EditContentInPlace` | fitra/src/app/journal/page.tsx:392 | replaces the list by `RewriteNote` without touching either stack |
| `Journal.JournalPage.AttachmentChange` | fitra/src/app/journal/page.tsx:128-142 | no file list changes nothing; otherwise the new attachments are appended after the old ones, and the rest of the draft and of the page are unchanged |
| `Journal.JournalPage.SetDraftTitle` | fitra/src/app/journal/page.tsx:214 | only the draft title changes |
| `Journal.JournalPage.SetDraftContent` | fitra/src/app/journal/page.tsx:220 | only the draft content changes |
| `Journal.JournalPage.SetDraftColor` | fitra/src/app/journal/page.tsx:247 | only the draft colour changes |
| `Journal.JournalPage.RemoveAttachment` | fitra/src/app/journal/page.tsx:146-148 | drops the draft attachment at the given position; nothing else changes |
| `Journal.PushThenUndo` | fitra/src/app/journal/page.tsx:51-62 | an edit followed by an undo restores the list and the undo stack and leaves the edited list alone on the redo stack; draft and editing id are kept |
| `Journal.PushUndoRedo` | fitra/src/app/journal/page.tsx:51-69 | an edit, an undo and a redo leave the same list, stacks, draft and editing id as the edit alone |
| `Text.Lower` | fitra/src/app/journal/page.tsx:300-302 | `toLowerCase` on ASCII: same length, each upper-case letter lowered, every other character kept |
| `Text.ContainsEmpty` | fitra/src/app/journal/page.tsx:300 | every string includes the empty string |
| `Text.DecimalString` | fitra/src/app/journal/page.tsx:136 | the numeral of a number in a template literal is a non-empty run of digits that denotes the number, with no leading zero; 0 is the single digit "0" |
| `Seqs.RemoveAt` | fitra/src/app/fitness/page.tsx:170 | dropping position `idx` removes exactly that position and keeps the others in order; an index outside the list drops nothing |
| `Seqs.Filter` | fitra/src/app/journal/page.tsx:109 | `filter` keeps exactly the elements that pass, each as often as before |
| `Seqs.FilterConcat` | fitra/src/app/journal/page.tsx:298 | filtering distributes over concatenation |
| `Seqs.FilterCommutes` | fitra/src/app/journal/page.tsx:298-303 | two filters commute |
| `Seqs.FilterPartition` | fitra/src/app/journal/page.tsx:298 | the pinned and unpinned filters together hold every note exactly once |
| `LoginForm.ShapedIsMatch` | fitra/src/app/auth/login/page.tsx:75 | an `@` and a later `.` with non-space characters around and between them give a match of the pattern |
| `LoginForm.MatchIsShaped` | fitra/src/app/auth/login/page.tsx:75 | every match of the pattern has such an `@` and `.` |
| `LoginForm.EmailShapeIsPatternMatch` | fitra/src/app/auth/login/page.tsx:75 | the executable email check holds iff `/\S+@\S+\.\S+/.test` does |
| `LoginForm.BuildErrors` | fitra/src/app/auth/login/page.tsx:71-98 | email error iff the email is empty ("Email is required") or fails the pattern ("Please enter a valid email"); password error iff shorter than 6 ("Password is required" when empty); first name, last name, confirmation and terms errors only in signup mode, each iff its own condition |
| `LoginForm.NoErrorsIffAcceptable` | fitra/src/app/auth/login/page.tsx:100-101 | the dictionary is empty exactly when every rule is met |
| `LoginForm.ErrorsForIsUnique` | fitra/src/app/auth/login/page.tsx:70-98 | the rules determine the dictionary completely |
| `LoginForm.AuthPage.constructor` | fitra/src/app/auth/login/page.tsx:20-32 | sign-in mode, empty fields, no errors, not loading |
| `LoginForm.AuthPage.HandleInputChange` | fitra/src/app/auth/login/page.tsx:55-68 | only the named field changes (`checked` for the terms box, the text otherwise); that field's error is blanked if it showed one; other errors untouched |
| `LoginForm.AuthPage.ValidateForm` | fitra/src/app/auth/login/page.tsx:70-102 | the errors are replaced by the dictionary of the rules; the result is true iff it is empty, iff the form is acceptable |
| `LoginForm.AuthPage.HandleSubmit` | fitra/src/app/auth/login/page.tsx:106-111 | a failed validation leaves `isLoading` as it was; a passed one sets it |
| `Fitness.FitnessPage.constructor` | fitra/src/app/fitness/page.tsx:11-31 | the two demo workouts, the default draft, the dialog closed |
| `Fitness.FitnessPage.AddWorkout` | fitra/src/app/fitness/page.tsx:34-39 | a draft without name or date changes nothing; otherwise the draft with the new id is put before the old workouts, the dialog closes and the draft becomes one row `{"", 3, 10, 0}` |
| `Fitness.FitnessPage.SetDraftName` | fitra/src/app/fitness/page.tsx:108 | only the draft name changes |
| `Fitness.FitnessPage.SetDraftDate` | fitra/src/app/fitness/page.tsx:114 | only the draft date changes |
| `Fitness.FitnessPage.AddExercise` | fitra/src/app/fitness/page.tsx:180 | one default row is appended after the unchanged rows |
| `Fitness.FitnessPage.RemoveExercise` | fitra/src/app/fitness/page.tsx:170 | the rows become `RemoveAt` of the old rows |
| `Fitness.FitnessPage.CopyRows` | fitra/src/app/fitness/page.tsx:127 | a fresh array holding the draft rows |
| `Fitness.FitnessPage.SetExerciseName` | fitra/src/app/fitness/page.tsx:126-130 | only the name of row `idx` changes |
| `Fitness.FitnessPage.SetExerciseSets` | fitra/src/app/fitness/page.tsx:138-142 | only the sets of row `idx` change |
| `Fitness.FitnessPage.SetExerciseReps` | fitra/src/app/fitness/page.tsx:150-154 | only the reps of row `idx` change |
| `Fitness.FitnessPage.SetExerciseWeight` | fitra/src/app/fitness/page.tsx:162-166 | only the weight of row `idx` changes |
| `Signup.UserStore.FindOne` | fitra/src/app/api/auth/signup/route.ts:11 | finds a user iff the email is stored, and it is the user with that email |
| `Signup.UserStore.Register` | fitra/src/app/api/auth/signup/route.ts:6-22 | a taken email gives 400 "User already exists" and leaves the store unchanged; otherwise exactly one record `{email, hash(password), name}` is added and the answer is 200 "User created" with email and name only |
| `Signup.RegisterTwice` | fitra/src/app/api/auth/signup/route.ts:11-20 | after a successful signup a second one with the same email is refused and the first record stays |

## Left out

- Clipboard, share, alerts and the context-menu position of the journal (journal/page.tsx:91-106): browser APIs with no state of the model.
- Opening and closing the dialogs (`showAddCard`, `showAddWorkout` opening), the password-visibility toggles, the sign-in/sign-up switch and the search input's setter: plain UI flags. The search text is the `query` parameter of `Visible`; the mode is the `isLogin` field.
- `URL.createObjectURL`, `Date.now()` and `toLocaleDateString()` are parameters (`urls`, `stamps`, `now`, `today`). The model does not assume the ids they give are unique.
- Clearing the file input after a pick (journal/page.tsx:143): DOM state.
- `toLowerCase` lowers ASCII letters only; Unicode case mapping is not modelled.
- `Text.Lower`: does not model non-ASCII lower-casing, because Unicode case tables are out of scope.
- String lengths are counted in Unicode code points. JavaScript counts UTF-16 code units, so the 6-character password rule differs for characters outside the Basic Multilingual Plane.
- The simulated submit delay and the later reset of `isLoading` (login/page.tsx:113-118): timer plumbing.
- `Number(...)` parsing in the workout fields: sets, reps and weight are integers here. Fractions, `NaN` and empty input are not modelled.
- The workout field editors copy the row array shallowly and then assign a field of the shared row object. The model copies rows by value. The sharing is not observable on the page, because adding a workout resets the draft to new rows.
- Signup: bcrypt, mongoose, the database connection and JSON request parsing stay abstract. Fields missing from the request body are not modelled.
- Signup: two concurrent signups with the same email can race between the lookup and the insert. The model is sequential.
- `Signup.UserStore.Register`: does not promise that the stored hash differs from the password or cannot be reversed, because the hash is an abstract function.
- The credentials login of fitra/src/app/api/auth/[...nextauth]/route.ts, sessions and logout are not part of this model.
- The static pages (landing, home, yoga, sidebar) and the settings page hold no logic beyond wiring inputs to setters.
