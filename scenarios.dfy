/** Call sequences of the procedures whose outcomes follow from the contracts alone,
    whatever the `slugify` library and the URL check do. */
module Scenarios {
  import opened Outcomes
  import opened Slugify
  import opened Schema
  import PostRouter
  import CategoryRouter

  /** Two posts with the same title: the first is stored with the defaults, the second
      fails on the unique slug and leaves the store as it was. */
  method DuplicateTitle(slugify: string -> string, isUrl: string -> bool)
  {
    var db := new Database();
    var input := PostRouter.PostCreate("My Post", "<p>hi</p>", None, None, None);
    var first := PostRouter.Create(db, slugify, isUrl, input);
    assert first.Ok?;
    assert first.value.id == 1 && !first.value.published && first.value.imageUrl == None;
    assert first.value.slug == MakeSlug(slugify, "My Post");
    var second := PostRouter.Create(db, slugify, isUrl, input);
    assert second == Err(UniqueViolation);
    assert |db.posts| == 1;
  }

  /** A post created with one category, then updated with an empty `categoryIds`, reads
      back with an empty category list; the category itself stays. */
  method ReplaceCategories(slugify: string -> string, isUrl: string -> bool)
  {
    var db := new Database();
    var tech := CategoryRouter.Create(db, slugify, CategoryRouter.CategoryInput("Tech", None));
    assert tech.Ok? && tech.value.id == 1;
    assert tech.value in db.categories;
    var input := PostRouter.PostCreate("Hello, World!", "<p>hi</p>", None, None, Some([1]));
    var created := PostRouter.Create(db, slugify, isUrl, input);
    assert created.Ok?;
    var post := created.value;
    var read := PostRouter.GetBySlug(db, post.slug);
    assert read.Some? && read.value.post == post;
    assert JoinedCategoryIds(read.value.categories) == [1];

    var cleared := PostRouter.Update(db, slugify, isUrl, post.id, input.(categoryIds := Some([])));
    assert db.posts == [post];
    assert cleared == Ok(Some(post));
    read := PostRouter.GetBySlug(db, post.slug);
    assert read.Some? && read.value.categories == [];
    assert |db.categories| == 1;
  }

  /** `post.update` on an id no post has: `null` when `categoryIds` is omitted or empty, a
      foreign-key failure when it is not; the tables are unchanged either way. */
  method UpdateUnknownPost(slugify: string -> string, isUrl: string -> bool)
  {
    var db := new Database();
    var tech := CategoryRouter.Create(db, slugify, CategoryRouter.CategoryInput("Tech", None));
    assert tech.Ok?;
    var input := PostRouter.PostCreate("Ghost", "<p>boo</p>", None, Some(true), None);
    var r := PostRouter.Update(db, slugify, isUrl, 7, input);
    assert r == Ok(None);
    r := PostRouter.Update(db, slugify, isUrl, 7, input.(categoryIds := Some([])));
    assert r == Ok(None);
    r := PostRouter.Update(db, slugify, isUrl, 7, input.(categoryIds := Some([1])));
    assert r == Err(ForeignKeyViolation);
    assert db.posts == [] && db.postCategories == [];
  }
}
