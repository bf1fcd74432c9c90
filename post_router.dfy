/** The procedures of the `post` router: create, update, delete and getBySlug. */
module PostRouter {
  import opened Outcomes
  import opened Slugify
  import opened Schema

  /** The fields of the `PostCreate` input schema. */
  datatype PostCreate = PostCreate(
    title: string,
    content: string,
    imageUrl: Option<string>,
    published: Option<bool>,
    categoryIds: Option<seq<int>>)

  /** What `post.getBySlug` returns: the post row and its category join rows. */
  datatype PostWithCategories = PostWithCategories(post: Post, categories: seq<CategoryJoinRow>)

  /** `PostCreate` accepts the input: a non-empty title and content, and a well-formed
      URL as `imageUrl` when one is given. `isUrl` is the input library's URL check. */
  predicate AcceptsPostInput(isUrl: string -> bool, input: PostCreate): (ok: bool)
    ensures ok <==>
      input.title != [] && input.content != [] && (input.imageUrl.Some? ==> isUrl(input.imageUrl.value))
  {
    && MinLength(input.title, 1)
    && MinLength(input.content, 1)
    && OptionalPasses(input.imageUrl, isUrl)
  }

  /** `!!input.published`: an omitted flag stores `false`. */
  function PublishedFlag(published: Option<bool>): (r: bool)
    ensures r <==> published == Some(true)
  {
    match published
    case None => false
    case Some(b) => b
  }

  /** The row values `create` and `update` write for `input` under `id`. */
  function PostRow(slugify: string -> string, id: int, input: PostCreate): (r: Post)
    ensures r.id == id && r.title == input.title && r.content == input.content
    ensures r.slug == MakeSlug(slugify, input.title) && |r.slug| <= MaxSlugLength
    ensures r.imageUrl == input.imageUrl
    ensures r.published <==> input.published == Some(true)
  {
    Post(id, input.title, input.content, MakeSlug(slugify, input.title), input.imageUrl, PublishedFlag(input.published))
  }

  /** Every id in `categoryIds` names an existing category. */
  predicate AllCategoriesExist(categoryIds: seq<int>, categories: seq<Category>) {
    forall c :: c in categoryIds ==> c in CategoryIds(categories)
  }

  /** `post.create`. The post row is inserted first; the join rows, one per entry of
      `categoryIds`, follow in a second statement when the list is non-empty. The two
      statements do not form a transaction: when a category id names no category, the
      join insert fails and the post row stays. */
  method Create(db: Database, slugify: string -> string, isUrl: string -> bool, input: PostCreate)
    returns (r: Result<Post>)
    requires db.Valid()
    modifies db
    ensures db.Valid()
    ensures !AcceptsPostInput(isUrl, input) ==> r == Err(ValidationError) && unchanged(db)
    ensures AcceptsPostInput(isUrl, input) && MakeSlug(slugify, input.title) in old(PostSlugs(db.posts)) ==>
      r == Err(UniqueViolation) && unchanged(db)
    ensures AcceptsPostInput(isUrl, input) && MakeSlug(slugify, input.title) !in old(PostSlugs(db.posts)) ==>
      var row := PostRow(slugify, old(db.nextPostId), input);
      var cats := if input.categoryIds.Some? then input.categoryIds.value else [];
      && row.id !in old(PostIds(db.posts))
      && db.posts == old(db.posts) + [row]
      && db.categories == old(db.categories)
      && db.nextPostId == old(db.nextPostId) + 1
      && db.nextCategoryId == old(db.nextCategoryId)
      && if cats == [] then
           r == Ok(row) && db.postCategories == old(db.postCategories)
           && db.nextPostCategoryId == old(db.nextPostCategoryId)
         else if AllCategoriesExist(cats, old(db.categories)) then
           && r == Ok(row)
           && db.postCategories == old(db.postCategories) + NumberRows(old(db.nextPostCategoryId), LinkValues(row.id, cats))
           && db.nextPostCategoryId == old(db.nextPostCategoryId) + |cats|
         else
           r == Err(ForeignKeyViolation) && db.postCategories == old(db.postCategories)
           && db.nextPostCategoryId == old(db.nextPostCategoryId)
    ensures r.Ok? ==>
      CategoryIdsOf(db.postCategories, r.value.id) == if input.categoryIds.Some? then input.categoryIds.value else []
    ensures forall q :: q in old(PostIds(db.posts)) ==>
      CategoryIdsOf(db.postCategories, q) == CategoryIdsOf(old(db.postCategories), q)
  {
    if !AcceptsPostInput(isUrl, input) {
      return Err(ValidationError);
    }
    var slug := MakeSlug(slugify, input.title);
    var created := db.InsertPost(input.title, input.content, slug, input.imageUrl, PublishedFlag(input.published));
    if created.Err? {
      return Err(created.error);
    }
    var post := created.value;
    assert PostIds(db.posts) == old(PostIds(db.posts)) + {post.id} by {
      assert post in db.posts;
      assert forall p :: p in db.posts <==> p in old(db.posts) || p == post;
    }
    ghost var before := db.postCategories;
    CategoryIdsOfNone(before, post.id);
    r := Ok(post);
    if input.categoryIds.Some? && |input.categoryIds.value| > 0 {
      var cats := input.categoryIds.value;
      LinkValuesReferenceExisting(post.id, cats, db.posts, db.categories);
      var inserted := db.InsertPostCategories(LinkValues(post.id, cats));
      if inserted.Err? {
        return Err(inserted.error);
      }
      ghost var added := NumberRows(old(db.nextPostCategoryId), LinkValues(post.id, cats));
      assert db.postCategories == before + added;
      CategoryIdsOfAppend(before, added, post.id);
      CategoryIdsOfNewRows(old(db.nextPostCategoryId), post.id, cats, post.id);
      forall q | q in old(PostIds(db.posts))
        ensures CategoryIdsOf(db.postCategories, q) == CategoryIdsOf(before, q)
      {
        CategoryIdsOfAppend(before, added, q);
        CategoryIdsOfNewRows(old(db.nextPostCategoryId), post.id, cats, q);
      }
    }
  }

  /** `post.update`. The row is overwritten when `id` names a post; when `categoryIds` is
      given (even empty), the post's join rows are then deleted and one is inserted per
      entry, so the post's category list becomes exactly `categoryIds`. An unknown `id`
      yields `null`, unless `categoryIds` is non-empty: the join rows it inserts name no
      post and the foreign key refuses them. The statements do not form a transaction. */
  method Update(db: Database, slugify: string -> string, isUrl: string -> bool, id: int, input: PostCreate)
    returns (r: Result<Option<Post>>)
    requires db.Valid()
    modifies db
    ensures db.Valid()
    ensures !AcceptsPostInput(isUrl, input) ==> r == Err(ValidationError) && unchanged(db)
    ensures AcceptsPostInput(isUrl, input) && id in old(PostIds(db.posts))
            && SlugHeldByOtherPost(old(db.posts), id, MakeSlug(slugify, input.title)) ==>
      r == Err(UniqueViolation) && unchanged(db)
    ensures AcceptsPostInput(isUrl, input)
            && !(id in old(PostIds(db.posts)) && SlugHeldByOtherPost(old(db.posts), id, MakeSlug(slugify, input.title))) ==>
      var row := PostRow(slugify, id, input);
      var found := id in old(PostIds(db.posts));
      var returned := if found then Some(row) else None;
      && db.posts == (if found then UpdatePostRow(old(db.posts), row) else old(db.posts))
      && db.categories == old(db.categories)
      && db.nextPostId == old(db.nextPostId) && db.nextCategoryId == old(db.nextCategoryId)
      && match input.categoryIds
         case None =>
           r == Ok(returned) && db.postCategories == old(db.postCategories)
           && db.nextPostCategoryId == old(db.nextPostCategoryId)
         case Some(cats) =>
           var cleared := DeleteWherePostId(old(db.postCategories), id);
           if cats == [] then
             r == Ok(returned) && db.postCategories == cleared
             && db.nextPostCategoryId == old(db.nextPostCategoryId)
           else if found && AllCategoriesExist(cats, old(db.categories)) then
             && r == Ok(returned)
             && db.postCategories == cleared + NumberRows(old(db.nextPostCategoryId), LinkValues(id, cats))
             && db.nextPostCategoryId == old(db.nextPostCategoryId) + |cats|
           else
             r == Err(ForeignKeyViolation) && db.postCategories == cleared
             && db.nextPostCategoryId == old(db.nextPostCategoryId)
    ensures r.Ok? && r.value.Some? && input.categoryIds.Some? ==>
      CategoryIdsOf(db.postCategories, id) == input.categoryIds.value
    ensures input.categoryIds.None? ==> db.postCategories == old(db.postCategories)
    ensures forall q :: q != id ==> CategoryIdsOf(db.postCategories, q) == CategoryIdsOf(old(db.postCategories), q)
    ensures id !in old(PostIds(db.posts)) ==>
      db.posts == old(db.posts) && db.postCategories == old(db.postCategories)
  {
    if !AcceptsPostInput(isUrl, input) {
      return Err(ValidationError);
    }
    var slug := MakeSlug(slugify, input.title);
    var updated := db.UpdatePost(id, input.title, input.content, slug, input.imageUrl, PublishedFlag(input.published));
    if updated.Err? {
      return Err(updated.error);
    }
    if id !in PostIds(db.posts) {
      assert forall l :: l in db.postCategories ==> l.postId != id;
      DeleteWherePostIdNoMatch(db.postCategories, id);
    }
    r := Ok(updated.value);
    if input.categoryIds.Some? {
      var replaced := ReplacePostCategories(db, id, input.categoryIds.value);
      if replaced.Err? {
        return Err(replaced.error);
      }
    }
  }

  /** The second half of `post.update` when `categoryIds` is given: every join row of
      `id` is deleted, then one is inserted per entry of `categoryIds` when there is one.
      The insert fails on the foreign key when `id` names no post or an entry names no
      category, and the delete stays done. */
  method ReplacePostCategories(db: Database, id: int, categoryIds: seq<int>) returns (r: Result<()>)
    requires db.Valid()
    modifies db
    ensures db.Valid()
    ensures db.posts == old(db.posts) && db.categories == old(db.categories)
    ensures db.nextPostId == old(db.nextPostId) && db.nextCategoryId == old(db.nextCategoryId)
    ensures
      var cleared := DeleteWherePostId(old(db.postCategories), id);
      if categoryIds == [] then
        r == Ok(()) && db.postCategories == cleared && db.nextPostCategoryId == old(db.nextPostCategoryId)
      else if id in old(PostIds(db.posts)) && AllCategoriesExist(categoryIds, old(db.categories)) then
        && r == Ok(())
        && db.postCategories == cleared + NumberRows(old(db.nextPostCategoryId), LinkValues(id, categoryIds))
        && db.nextPostCategoryId == old(db.nextPostCategoryId) + |categoryIds|
      else
        r == Err(ForeignKeyViolation) && db.postCategories == cleared
        && db.nextPostCategoryId == old(db.nextPostCategoryId)
    ensures r.Ok? ==> CategoryIdsOf(db.postCategories, id) == categoryIds
    ensures forall q :: q != id ==> CategoryIdsOf(db.postCategories, q) == CategoryIdsOf(old(db.postCategories), q)
  {
    ghost var before := db.postCategories;
    db.DeletePostCategoriesOfPost(id);
    ghost var cleared := db.postCategories;
    CategoryIdsOfNone(cleared, id);
    forall q | q != id ensures CategoryIdsOf(cleared, q) == CategoryIdsOf(before, q) {
      CategoryIdsOfDeleteOther(before, id, q);
    }
    r := Ok(());
    if |categoryIds| > 0 {
      LinkValuesReferenceExisting(id, categoryIds, db.posts, db.categories);
      var inserted := db.InsertPostCategories(LinkValues(id, categoryIds));
      if inserted.Err? {
        return Err(inserted.error);
      }
      ghost var added := NumberRows(old(db.nextPostCategoryId), LinkValues(id, categoryIds));
      assert db.postCategories == cleared + added;
      CategoryIdsOfAppend(cleared, added, id);
      CategoryIdsOfNewRows(old(db.nextPostCategoryId), id, categoryIds, id);
      forall q | q != id ensures CategoryIdsOf(db.postCategories, q) == CategoryIdsOf(before, q) {
        CategoryIdsOfAppend(cleared, added, q);
        CategoryIdsOfNewRows(old(db.nextPostCategoryId), id, categoryIds, q);
      }
    }
  }

  /** `post.delete`: deletes the post row (the cascade takes its join rows with it), then
      deletes its join rows explicitly, which finds none left; always reports success. */
  method Delete(db: Database, id: int) returns (success: bool)
    requires db.Valid()
    modifies db
    ensures db.Valid()
    ensures success
    ensures db.posts == DeletePostById(old(db.posts), id)
    ensures db.postCategories == DeleteWherePostId(old(db.postCategories), id)
    ensures db.categories == old(db.categories)
    ensures unchanged(db`nextPostId, db`nextCategoryId, db`nextPostCategoryId)
    ensures id !in PostIds(db.posts) && CategoryIdsOf(db.postCategories, id) == []
    ensures id !in old(PostIds(db.posts)) ==>
      db.posts == old(db.posts) && db.postCategories == old(db.postCategories)
  {
    if id !in PostIds(db.posts) {
      assert forall l :: l in db.postCategories ==> l.postId != id;
      DeletePostByIdNoMatch(db.posts, id);
      DeleteWherePostIdNoMatch(db.postCategories, id);
    }
    db.DeletePost(id);
    DeleteWherePostIdIdempotent(old(db.postCategories), id);
    db.DeletePostCategoriesOfPost(id);
    CategoryIdsOfNone(db.postCategories, id);
    success := true;
  }

  /** `post.getBySlug`: the post with that slug and its category join rows, or `null`. */
  method GetBySlug(db: Database, slug: string) returns (r: Option<PostWithCategories>)
    requires db.Valid()
    ensures r.None? <==> slug !in PostSlugs(db.posts)
    ensures r.Some? ==> r.value.post in db.posts && r.value.post.slug == slug
    ensures r.Some? ==> forall p :: p in db.posts && p.slug == slug ==> p == r.value.post
    ensures r.Some? ==> JoinedLinks(r.value.categories) == LinksOf(db.postCategories, r.value.post.id)
    ensures r.Some? ==> JoinedCategoryIds(r.value.categories) == CategoryIdsOf(db.postCategories, r.value.post.id)
    ensures r.Some? ==> forall row :: row in r.value.categories ==>
      && row.link in db.postCategories && row.link.postId == r.value.post.id
      && row.category in db.categories && row.category.id == row.link.categoryId
  {
    var found := FindPostBySlug(db.posts, slug);
    if found.None? {
      return None;
    }
    var post := found.value;
    forall p | p in db.posts && p.slug == slug ensures p == post {
      var i :| 0 <= i < |db.posts| && db.posts[i] == p;
      var j :| 0 <= j < |db.posts| && db.posts[j] == post;
      assert i == j;
    }
    JoinCategoriesIds(db.postCategories, db.categories, post.id);
    JoinCategoriesLinks(db.postCategories, db.categories, post.id);
    r := Some(PostWithCategories(post, JoinCategories(db.postCategories, db.categories, post.id)));
  }
}
