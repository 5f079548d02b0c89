# Recipe card (reddcipes) — Dafny model

A model of the recipe post in `src/main.tsx`. It covers three parts:

- **Rendering the recipe text.**
  - The intro banner.
  - The bulleted ingredient list.
  - The numbered instruction list.
  - JavaScript's `split("\n")` is modelled exactly: n separators give n + 1 segments, and empty segments are kept.
- **The two store writes.**
  - Creating a post from the "Post a Recipe" form.
  - Submitting the card's "Edit the Recipe" form.
  - The Redis store is a map from post id to a string-to-string hash.
  - `hSet` merges into that hash.
- **The card itself.**
  - The single `showInstructions` flag and its toggle button.
  - Choosing between the picture panel and the directions panel.
  - The notices shown while the record loads, when the load fails, or when there is no data.

Modules:

- `Wrappers`: `Option`. It stands for a JavaScript value that may be `undefined`, and for an upload that may be rejected.
- `Lines`: `Split` and `Join` (JavaScript `split`/`join` with one separator character).
  - Proved: `Split` is the unique list of separator-free segments that joins back to its input.
- `Decimal`: the decimal text of a step number, and reading it back.
- `Format`: `formatIntro`, `formatIngredients`, `formatInstructions`.
  - Each comes with an inverse that recovers the original text from the rendered lines.
- `Store`: `hGetAll`, `hSet`, and the rule that an absent field reads as "".
- `Recipe`: `makeRecipePost`, the post-form handler, and the edit-form handler.
  - The create and edit handlers each appear both as written and as evidently intended (see Findings).
- `Card`: the view state, the toggle, the card projection and the load-state notices.
- `Scenarios`: creating a post, loading its card and rendering it, end to end.

Inputs in place of external services:
- The picture upload is a function parameter `string -> Option<string>`. `None` means the upload was rejected, and the handler then stops before writing anything.
- The id of the submitted post is an input.
- The load result (`useAsync`) is an input datatype `AsyncLoad`.

## Model

| member | source | states |
|---|---|---|
| Lines.SplitCharacterization | src/main.tsx:96 | the segments `split("\n")` yields are exactly the newline-free list (at least one element) that joins back to the text; both directions |
| Lines.JoinSplit | src/main.tsx:96 | joining the segments with the separator restores the original text |
| Lines.SplitJoin | src/main.tsx:96 | splitting a join of newline-free segments gives those segments back, empty ones included |
| Lines.Split | src/main.tsx:96 | the segment count is the separator count plus one, and no segment contains the separator |
| Decimal.ToNatFromNat | src/main.tsx:104 | the decimal text written for a step number reads back as that number |
| Format.FormatIntro | src/main.tsx:86-92 | a banner exactly when the intro is non-empty, and the banner shows the intro text unchanged |
| Format.FormatIngredients | src/main.tsx:94-98 | one line per newline-separated segment, in order; line k is "- " followed by segment k |
| Format.IngredientsRoundTrip | src/main.tsx:94-98 | removing the bullets and joining the lines with newlines gives back the ingredient text |
| Format.FormatInstructions | src/main.tsx:100-108 | line k (from 0) is the number k + 1, then ". ", then segment k; numbering is 1-based, contiguous and in order |
| Format.StepLineParses | src/main.tsx:104 | a step line parses back into its number and its text, even when the text contains digits or ". " |
| Format.InstructionsRoundTrip | src/main.tsx:100-108 | each rendered line reads back as its 1-based position and its segment, and the instruction text is recoverable from the list |
| Store.HSet | src/main.tsx:21 | `hSet` merges: the given fields overwrite, the hash's other fields are kept, and no other post's record changes |
| Recipe.MakeRecipePost | src/main.tsx:10-23 | the record holds the given title, picture, ingredients and instructions. Whether it has an intro is unchanged, so a new post has exactly those four fields. The store gains no key except the post id, and other posts are untouched |
| Recipe.SubmitPostForm | src/main.tsx:64-72 | a rejected upload writes nothing. Otherwise: the picture is the hosted URL; missing instructions are stored as ""; the intro is never written, so a new post holds exactly title, picture, ingredients and instructions. No record is added except the post's own, and other posts are untouched |
| Recipe.SubmitPostFormWithIntro | src/main.tsx:10-21 | the intended create: like the one above, but the intro passed to `makeRecipePost` is stored too (missing as ""), so a new post holds exactly the five fields |
| Recipe.SubmitEditForm | src/main.tsx:172-183 | a rejected upload writes nothing. Otherwise the write touches exactly ingredients, intro and instructions (missing values as ""), title (copied from the loaded data, when it has one) and, only with a new picture, picture (the form value). Every other field and every other post keeps its value, and no other record is added, so with no new picture the stored picture survives |
| Recipe.EditWriteIsEdit | src/main.tsx:179-181 | merging the edit's fields into the stored record changes exactly the edit's keys; no other post is changed or added |
| Recipe.EditKeepsTitle | src/main.tsx:179-181 | an edit made from the stored record keeps the record's title and keeps all four required fields |
| Recipe.EditStoresFormPicture | src/main.tsx:174-179 | a concrete edit whose upload succeeds stores the form's picture value rather than the hosted URL |
| Recipe.SubmitEditFormHosted | src/main.tsx:174-179 | the intended edit: the same key set and frame as the edit above (no other post changed or added), but a new picture is stored as the URL the upload returned |
| Recipe.HostedPicturesThroughEdit | src/main.tsx:67-71 | under the intended edit, a created-then-edited record keeps its title and its picture is always an upload result |
| Card.Toggle | src/main.tsx:196 | a press always changes which panel is shown |
| Card.ToggleLabelNamesNextPanel | src/main.tsx:196 | the button's label ("Picture" / "Instructions") names the panel a press switches to, never the current one; two presses restore the state |
| Card.Press | src/main.tsx:193-198 | a press changes the state exactly when the card is drawn with a toggle button, and then it flips the panel |
| Card.PressParity | src/main.tsx:124-198 | starting from false, with both text fields stored, the directions show after n presses exactly when the instructions are non-empty and n is odd. Without ingredients nothing changes. With ingredients but no instructions field, the first press switches for good |
| Card.NoInstructionsShowsPicture | src/main.tsx:193-207 | a record whose instructions are stored as "" has no toggle button, stays in the initial state and shows its picture |
| Card.MissingInstructionsThrowOnPress | src/main.tsx:193-203 | a record with ingredients but no instructions field shows the "Instructions" button, and after any press drawing the card throws |
| Card.NoticesIgnoreViewState | src/main.tsx:128-138 | the loading, error and no-data notices do not depend on the view state |
| Card.IntroPanelOf | src/main.tsx:190 | the intro area as drawn: a banner exactly when the intro field is missing (`undefined != ""`) or non-empty; it shows the stored intro, and nothing when the field is missing |
| Card.CardFor | src/main.tsx:185-211 | drawing throws exactly when the ingredients field is missing, or the directions show and the instructions field is missing. Otherwise: the toggle button exists exactly when `data.instructions != ""` (a missing field counts) and shows the state's label; the directions panel, with the numbered instructions, shows exactly when `showInstructions` is set; otherwise the picture panel |
| Card.Render | src/main.tsx:128-138 | a notice is shown exactly when the load is pending, failed or empty, checked in order: "Loading...", then "Error: " with the message, then "No data available". Otherwise the card is shown, or the render throws exactly when the card cannot be drawn |
| Scenarios.CreatedPostShowsEmptyBanner | src/main.tsx:21 | as written, every newly created post is drawn with an empty intro banner, whatever intro was typed |
| Scenarios.CreatedPostShowsTypedIntro | src/main.tsx:86-92 | with the intended create, a new post's banner is `formatIntro` of the typed intro: drawn with that text exactly when it is non-empty |
| Scenarios.IntroBannerFollowsStoredIntro | src/main.tsx:179-181 | an edit always stores an intro, so afterwards the card's banner is `formatIntro` of the edit's intro (missing as "") |
| Scenarios.WrittenRecordsDraw | src/main.tsx:192-206 | a record holding the four fields both handlers write is always drawn as a card, in either view state |
| Scenarios.UnwrittenPostCrashes | src/main.tsx:125-138 | a post whose record has not been written loads as an empty hash, which is data, so the render goes past the notices and throws |
| Scenarios.TwoLineRoundTrip | src/main.tsx:21 | create a recipe with two ingredient lines and two steps, then load it: the stored texts split into exactly those lines, the card lists "- " plus each ingredient beside the picture, and one press shows steps 1 and 2 |

## Left out

- Registration with the platform is not modelled: `Devvit.configure`, `Devvit.addMenuItem` and `Devvit.addCustomPostType`. It is wiring with no logic.
- The platform's network calls are not modelled: `reddit.getCurrentSubreddit`, `reddit.submitPost` and its "Loading..." preview. The post id is an input instead.
- `context.media.upload` is an opaque parameter.
- The form field definitions are not modelled: fields, labels, defaults and `required` flags. The platform enforces them. The forms' values come in as the `PostForm` and `EditForm` datatypes.
- The `useState`/`useAsync` hook lifecycle and async ordering are not modelled. The load result is an input, and the view state is an explicit value.
- Concurrent edits are not modelled. Each handler is one `hSet`.
- JSX layout and styling are not modelled: sizes, colours, spacers, `resizeMode`, the image description. The picture panel is reduced to its URL.
- The "Edit" button and `ui.showForm` are not modelled. The button is always drawn and only opens the form, so it carries no logic.
- Card.CardFor: a missing picture field is drawn as a picture panel with URL "". The code passes `undefined` to `<image url>`, and what the platform draws for it is not part of this code.
- Card.CardFor: a missing ingredients field, or a missing instructions field while the directions show, is modelled as a render that throws (`Screen.Crashed`), since the code calls `.split` on `undefined`. The model does not say what the platform shows in its place.
- Recipe.SubmitEditForm: a loaded record without a title would pass `undefined` as the title to `hSet`. The model leaves the title out of the write in that case, because what the store client does with `undefined` is not part of this code.
- Recipe.SubmitEditForm: the stored picture is kept only when the form's picture is `undefined`. A blank string is a new picture: it is uploaded and, if the upload accepts it, written as "".

## Findings

| source | as written | input that shows it | evidently intended | confidence | as-written member | corrected member |
|---|---|---|---|---|---|---|
| src/main.tsx:21 | `makeRecipePost` receives the intro typed in the form but its `hSet` leaves it out; the card then draws `formatIntro(undefined)`, and `undefined != ""` gives an empty banner | any post created from the form, e.g. with intro "Serves 4" | the created record holds the intro, and the card shows "Serves 4" in the banner (no banner for an empty intro) | medium, not executed | Recipe.SubmitPostForm | Recipe.SubmitPostFormWithIntro |
| src/main.tsx:179 | a new picture is uploaded, but the upload's `mediaUrl` is discarded and the raw form value `values.picture` is stored | an edit with picture "picture-upload-id" whose upload is hosted at "https://i.redd.it/hosted.png" | store the hosted `mediaUrl`, as the create path does at line 71 | medium, not executed | Recipe.SubmitEditForm | Recipe.SubmitEditFormHosted |

Lemmas that show each discrepancy:
- Intro: `Scenarios.CreatedPostShowsEmptyBanner` shows it for the code as written. `Scenarios.CreatedPostShowsTypedIntro` proves the intended behaviour.
- Edit picture: `Recipe.EditStoresFormPicture` shows it for the code as written. `Recipe.HostedPicturesThroughEdit` proves the intended behaviour.
- The card (`Card.CardFor`) draws the intro as line 190 does. The corrected create and edit are the ones the intended-behaviour lemmas build on.
