/** The two paths that write a recipe to the store: creating a post from
    the "Post a Recipe" form, and submitting the card's "Edit the Recipe"
    form. Both write with `hSet` under the post id. The picture upload is a
    parameter: it maps the form's picture to a hosted media URL, or to None
    when the upload is rejected, which aborts the handler before any write. */
module Recipe {
  import opened Wrappers
  import opened Store

  /** The fields every recipe written by this code carries. */
  predicate WellFormed(h: Hash)
  {
    "title" in h && "picture" in h && "ingredients" in h && "instructions" in h
  }

  /** `makeRecipePost`, after the post has been submitted as `postId`:
      writes title, picture, ingredients and instructions. The `intro`
      argument is accepted but never stored. */
  function MakeRecipePost(db: Db, postId: string, title: string, picture: string,
                          ingredients: string, intro: string, instructions: string): (r: Db)
    ensures WellFormed(HGetAll(r, postId))
    ensures var h := HGetAll(r, postId);
      h["title"] == title && h["picture"] == picture
      && h["ingredients"] == ingredients && h["instructions"] == instructions
    ensures ("intro" in HGetAll(r, postId)) <==> ("intro" in HGetAll(db, postId))
    ensures postId !in db ==> HGetAll(r, postId).Keys == {"title", "picture", "ingredients", "instructions"}
    ensures r.Keys == db.Keys + {postId}
    ensures forall k :: k in db && k != postId ==> k in r && r[k] == db[k]
  {
    HSet(db, postId, map["title" := title, "picture" := picture,
                         "ingredients" := ingredients, "instructions" := instructions])
  }

  /** Values of the "Post a Recipe" form; optional fields may be undefined. */
  datatype PostForm = PostForm(title: string, picture: string, intro: Option<string>,
                               ingredients: string, instructions: Option<string>)

  /** The post form's submit handler: upload the picture, then create the
      post with the hosted URL and with missing optional fields as "". */
  function SubmitPostForm(db: Db, postId: string, values: PostForm,
                          upload: string -> Option<string>): (r: Option<Db>)
    ensures r.None? <==> upload(values.picture).None?
    ensures r.Some? ==>
      var h := HGetAll(r.value, postId);
      WellFormed(h)
      && h["title"] == values.title
      && h["picture"] == upload(values.picture).value
      && h["ingredients"] == values.ingredients
      && h["instructions"] == values.instructions.GetOr("")
    ensures r.Some? && postId !in db ==>
      HGetAll(r.value, postId).Keys == {"title", "picture", "ingredients", "instructions"}
    ensures r.Some? ==> ("intro" in HGetAll(r.value, postId) <==> "intro" in HGetAll(db, postId))
    ensures r.Some? ==> r.value.Keys == db.Keys + {postId}
    ensures r.Some? ==> forall k :: k in db && k != postId ==> k in r.value && r.value[k] == db[k]
  {
    match upload(values.picture)
    case None => None
    case Some(mediaUrl) =>
      Some(MakeRecipePost(db, postId, values.title, mediaUrl, values.ingredients,
                          values.intro.GetOr(""), values.instructions.GetOr("")))
  }

  /** The create path as evidently intended: `makeRecipePost` receives the
      intro from the form, and this version stores it with the other four
      fields. */
  function SubmitPostFormWithIntro(db: Db, postId: string, values: PostForm,
                                   upload: string -> Option<string>): (r: Option<Db>)
    ensures r.None? <==> upload(values.picture).None?
    ensures r.Some? ==>
      var h := HGetAll(r.value, postId);
      WellFormed(h)
      && h["title"] == values.title
      && h["picture"] == upload(values.picture).value
      && h["ingredients"] == values.ingredients
      && "intro" in h && h["intro"] == values.intro.GetOr("")
      && h["instructions"] == values.instructions.GetOr("")
    ensures r.Some? && postId !in db ==>
      HGetAll(r.value, postId).Keys == {"title", "picture", "intro", "ingredients", "instructions"}
    ensures r.Some? ==> r.value.Keys == db.Keys + {postId}
    ensures r.Some? ==> forall k :: k in db && k != postId ==> k in r.value && r.value[k] == db[k]
  {
    match upload(values.picture)
    case None => None
    case Some(mediaUrl) =>
      Some(HSet(db, postId, map["title" := values.title, "picture" := mediaUrl,
                                "intro" := values.intro.GetOr(""),
                                "ingredients" := values.ingredients,
                                "instructions" := values.instructions.GetOr("")]))
  }

  /** Values of the "Edit the Recipe" form; picture, intro and instructions
      may be undefined. */
  datatype EditForm = EditForm(picture: Option<string>, intro: Option<string>,
                               ingredients: string, instructions: Option<string>)

  /** The fields an edit writes: the three text fields, the title when the
      loaded record has one, and the picture when one is stored. */
  function EditKeys(data: Hash, picture: Option<string>): set<string>
  {
    {"ingredients", "intro", "instructions"}
    + (if "title" in data then {"title"} else {})
    + (if picture.Some? then {"picture"} else {})
  }

  /** The hash the edit handler passes to `hSet`: the title copied from the
      loaded record `data`, the form's ingredients, intro and instructions
      (missing ones as ""), and `picture` only when one is given. */
  function EditFields(data: Hash, values: EditForm, picture: Option<string>): (r: Hash)
    ensures r.Keys == EditKeys(data, picture)
  {
    var fields := map["ingredients" := values.ingredients,
                      "intro" := values.intro.GetOr(""),
                      "instructions" := values.instructions.GetOr("")];
    var withTitle := if "title" in data then fields["title" := data["title"]] else fields;
    match picture
    case None => withTitle
    case Some(p) => withTitle["picture" := p]
  }

  /** What every edit write does to the record, whichever picture it stores:
      title from the loaded data, form values for the text fields, and the
      stored picture untouched when `picture` is None; no other field is
      added, removed or changed. */
  predicate EditedFrom(before: Hash, after: Hash, data: Hash, values: EditForm, picture: Option<string>)
  {
    && after.Keys == before.Keys + EditKeys(data, picture)
    && (forall f :: f in before && f !in EditKeys(data, picture) ==> f in after && after[f] == before[f])
    && "ingredients" in after && after["ingredients"] == values.ingredients
    && "intro" in after && after["intro"] == values.intro.GetOr("")
    && "instructions" in after && after["instructions"] == values.instructions.GetOr("")
    && ("title" in data ==> "title" in after && after["title"] == data["title"])
    && ("title" !in data ==> ("title" in after <==> "title" in before))
    && ("title" !in data && "title" in before ==> after["title"] == before["title"])
    && (picture.None? ==> ("picture" in after <==> "picture" in before))
    && (picture.None? && "picture" in before ==> after["picture"] == before["picture"])
    && (picture.Some? ==> "picture" in after && after["picture"] == picture.value)
  }

  /** Merging an edit's fields into the stored record is an edit in the
      sense of `EditedFrom`. */
  lemma EditWriteIsEdit(db: Db, postId: string, data: Hash, values: EditForm, picture: Option<string>)
    ensures var r := HSet(db, postId, EditFields(data, values, picture));
      EditedFrom(HGetAll(db, postId), HGetAll(r, postId), data, values, picture)
      && r.Keys == db.Keys + {postId}
      && forall k :: k in db && k != postId ==> k in r && r[k] == db[k]
  {
    var fields := EditFields(data, values, picture);
    var r := HSet(db, postId, fields);
    assert HGetAll(r, postId) == HGetAll(db, postId) + fields;
  }

  /** The edit form's submit handler as written: with a new picture, it
      uploads it but stores the form's picture value, not the upload's
      media URL; without one, it leaves the stored picture alone. */
  function SubmitEditForm(db: Db, postId: string, data: Hash, values: EditForm,
                          upload: string -> Option<string>): (r: Option<Db>)
    ensures r.None? <==> values.picture.Some? && upload(values.picture.value).None?
    ensures r.Some? ==>
      EditedFrom(HGetAll(db, postId), HGetAll(r.value, postId), data, values, values.picture)
    ensures r.Some? ==> r.value.Keys == db.Keys + {postId}
    ensures r.Some? ==> forall k :: k in db && k != postId ==> k in r.value && r.value[k] == db[k]
  {
    match values.picture
    case None =>
      EditWriteIsEdit(db, postId, data, values, None);
      Some(HSet(db, postId, EditFields(data, values, None)))
    case Some(p) =>
      match upload(p)
      case None => None
      case Some(_) =>
        EditWriteIsEdit(db, postId, data, values, Some(p));
        Some(HSet(db, postId, EditFields(data, values, Some(p))))
  }

  /** The edit handler as evidently intended: like `SubmitEditForm`, but a
      new picture is stored as the hosted URL the upload returned, as the
      create path does. */
  function SubmitEditFormHosted(db: Db, postId: string, data: Hash, values: EditForm,
                                upload: string -> Option<string>): (r: Option<Db>)
    ensures r.None? <==> values.picture.Some? && upload(values.picture.value).None?
    ensures r.Some? ==>
      EditedFrom(HGetAll(db, postId), HGetAll(r.value, postId), data, values,
                    if values.picture.Some? then upload(values.picture.value) else None)
    ensures r.Some? && values.picture.Some? ==>
      HGetAll(r.value, postId)["picture"] == upload(values.picture.value).value
    ensures r.Some? ==> r.value.Keys == db.Keys + {postId}
    ensures r.Some? ==> forall k :: k in db && k != postId ==> k in r.value && r.value[k] == db[k]
  {
    match values.picture
    case None =>
      EditWriteIsEdit(db, postId, data, values, None);
      Some(HSet(db, postId, EditFields(data, values, None)))
    case Some(p) =>
      match upload(p)
      case None => None
      case Some(mediaUrl) =>
        EditWriteIsEdit(db, postId, data, values, Some(mediaUrl));
        Some(HSet(db, postId, EditFields(data, values, Some(mediaUrl))))
  }

  /** Editing from a snapshot of the stored record never changes the title,
      and a well-formed record stays well-formed. */
  lemma EditKeepsTitle(db: Db, postId: string, values: EditForm, upload: string -> Option<string>)
    requires WellFormed(HGetAll(db, postId))
    ensures var r := SubmitEditForm(db, postId, HGetAll(db, postId), values, upload);
      r.Some? ==>
        WellFormed(HGetAll(r.value, postId))
        && HGetAll(r.value, postId)["title"] == HGetAll(db, postId)["title"]
  {
  }

  /** The discrepancy in the edit handler: a concrete edit whose upload is
      accepted and hosted at a new URL, after which the store holds the
      form's picture value instead of that URL. */
  lemma EditStoresFormPicture()
    ensures var hosted := "https://i.redd.it/hosted.png";
      var values := EditForm(Some("picture-upload-id"), None, "Flour", None);
      var upload := (src: string) => Some(hosted);
      var r := SubmitEditForm(map[], "t3_post", map["title" := "Bread"], values, upload);
      r.Some? && HGetAll(r.value, "t3_post")["picture"] == "picture-upload-id"
      && HGetAll(r.value, "t3_post")["picture"] != hosted
  {
  }

  /** Under the intended handler, every picture a record holds came out of
      the upload, whether it was set at creation or by an edit. */
  lemma HostedPicturesThroughEdit(db: Db, postId: string, create: PostForm, edit: EditForm,
                                  upload: string -> Option<string>)
    requires postId !in db
    ensures var created := SubmitPostForm(db, postId, create, upload);
      created.Some? ==>
        var edited := SubmitEditFormHosted(created.value, postId, HGetAll(created.value, postId), edit, upload);
        edited.Some? ==>
          var h := HGetAll(edited.value, postId);
          WellFormed(h)
          && (h["picture"] == upload(create.picture).value
              || (edit.picture.Some? && h["picture"] == upload(edit.picture.value).value))
          && h["title"] == create.title
  {
  }
}
