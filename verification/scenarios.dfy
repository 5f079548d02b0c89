/** Whole-post behaviour: a post created through the form, read back by
    the card, and rendered. */
module Scenarios {
  import opened Wrappers
  import opened Lines
  import opened Store
  import opened Format
  import opened Recipe
  import opened Card

  /** The card a successful load of the post's record shows. */
  function Loaded(db: Db, postId: string, s: ViewState): Screen
  {
    Render(AsyncLoad(false, None, Some(HGetAll(db, postId))), s)
  }

  /** As written, every freshly created post draws an empty intro
      banner: the create path stores no intro, and the card's check of the
      missing intro against "" succeeds. The intro the author typed is lost. */
  lemma CreatedPostShowsEmptyBanner(db: Db, postId: string, values: PostForm,
                                    upload: string -> Option<string>, s: ViewState)
    requires postId !in db
    ensures var created := SubmitPostForm(db, postId, values, upload);
      created.Some? ==>
        Loaded(created.value, postId, s).Shown?
        && Loaded(created.value, postId, s).view.intro == Banner("")
  {
  }

  /** With the intro stored at creation, a new post shows the intro its
      author typed: a banner with that text exactly when it is non-empty. */
  lemma CreatedPostShowsTypedIntro(db: Db, postId: string, values: PostForm,
                                   upload: string -> Option<string>, s: ViewState)
    ensures var created := SubmitPostFormWithIntro(db, postId, values, upload);
      created.Some? ==>
        Loaded(created.value, postId, s).Shown?
        && Loaded(created.value, postId, s).view.intro == FormatIntro(values.intro.GetOr(""))
        && (Loaded(created.value, postId, s).view.intro.Banner? <==> values.intro.GetOr("") != "")
  {
  }

  /** An edit always stores an intro, so after it the banner follows the
      edit's intro: drawn exactly when that intro is non-empty. */
  lemma IntroBannerFollowsStoredIntro(db: Db, postId: string, data: Hash, edit: EditForm,
                                      upload: string -> Option<string>, s: ViewState)
    ensures var edited := SubmitEditForm(db, postId, data, edit, upload);
      edited.Some? ==>
        Loaded(edited.value, postId, s).Shown?
        && Loaded(edited.value, postId, s).view.intro == FormatIntro(edit.intro.GetOr(""))
  {
  }

  /** A record written by either handler is always drawn as a card: it
      holds the ingredients and instructions the card splits. */
  lemma WrittenRecordsDraw(h: Hash, s: ViewState)
    requires WellFormed(h)
    ensures CardFor(h, s).Some?
    ensures Render(AsyncLoad(false, None, Some(h)), s).Shown?
  {
  }

  /** A post whose record has not been written yet (the post is submitted
      before its `hSet`) loads as an empty hash, which is data, and drawing
      the card throws. */
  lemma UnwrittenPostCrashes(db: Db, postId: string, s: ViewState)
    requires postId !in db
    ensures Loaded(db, postId, s) == Crashed
  {
  }

  /** Two newline-free lines joined by a newline split back into those two. */
  lemma SplitTwoLines(a: string, b: string)
    requires Newline !in a && Newline !in b
    ensures Split(a + [Newline] + b, Newline) == [a, b]
  {
    SplitAfterSegment(a, Newline, b);
    SplitSegment(b, Newline);
  }

  /** The ingredient list of a two-line text. */
  lemma TwoIngredients(a: string, b: string)
    requires Newline !in a && Newline !in b
    ensures FormatIngredients(a + [Newline] + b) == [BulletMark + a, BulletMark + b]
  {
    SplitTwoLines(a, b);
  }

  /** The directions list of a two-line text. */
  lemma TwoInstructions(a: string, b: string)
    requires Newline !in a && Newline !in b
    ensures FormatInstructions(a + [Newline] + b) == [StepLine(1, a), StepLine(2, b)]
  {
    SplitTwoLines(a, b);
  }

  /** Creating a recipe with two ingredient lines and two steps and
      loading its card shows both ingredients and the picture, and one press
      on the toggle shows both steps, numbered 1 and 2. */
  lemma TwoLineRoundTrip(values: PostForm, i1: string, i2: string, s1: string, s2: string,
                         upload: string -> Option<string>)
    requires Newline !in i1 && Newline !in i2 && Newline !in s1 && Newline !in s2
    requires values.ingredients == i1 + [Newline] + i2
    requires values.instructions == Some(s1 + [Newline] + s2)
    requires upload(values.picture).Some?
    ensures var created := SubmitPostForm(map[], "t3_post", values, upload);
      created.Some?
      && var h := HGetAll(created.value, "t3_post");
      Split(h["ingredients"], Newline) == [i1, i2]
      && Split(h["instructions"], Newline) == [s1, s2]
      && Loaded(created.value, "t3_post", Initial).Shown?
      && Loaded(created.value, "t3_post", Press(h, Initial)).Shown?
      && Loaded(created.value, "t3_post", Initial).view.ingredients == [BulletMark + i1, BulletMark + i2]
      && Loaded(created.value, "t3_post", Initial).view.right == PicturePanel(upload(values.picture).value)
      && Loaded(created.value, "t3_post", Press(h, Initial)).view.right
           == DirectionsPanel([StepLine(1, s1), StepLine(2, s2)])
  {
    var created := SubmitPostForm(map[], "t3_post", values, upload);
    var h := HGetAll(created.value, "t3_post");
    SplitTwoLines(i1, i2);
    SplitTwoLines(s1, s2);
    TwoIngredients(i1, i2);
    TwoInstructions(s1, s2);
    assert h["instructions"] == s1 + [Newline] + s2;
    assert h["instructions"] != "";
    assert Press(h, Initial).showInstructions;
  }
}
