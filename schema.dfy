/** The three tables of db/schema.ts, their constraints, and the statements the
    procedures issue against them. */
module Schema {
  import opened Outcomes
  import opened Collation

  /** A row of `posts`. The `createdAt`/`updatedAt` timestamps are not modelled. */
  datatype Post = Post(
    id: int,
    title: string,
    content: string,
    slug: string,
    imageUrl: Option<string>,
    published: bool)

  /** A row of `categories`. */
  datatype Category = Category(id: int, name: string, description: Option<string>, slug: string)

  /** A row of `post_categories`, the join table. */
  datatype PostCategory = PostCategory(id: int, postId: int, categoryId: int)

  /** The values of a join row a procedure inserts; the row's id is drawn by the store. */
  datatype PostCategoryValues = PostCategoryValues(postId: int, categoryId: int)

  /** A row of `categories INNER JOIN post_categories`. */
  datatype CategoryJoinRow = CategoryJoinRow(category: Category, link: PostCategory)

  // ---------------------------------------------------------------------------
  // Columns of a table, as sets

  function PostIds(posts: seq<Post>): set<int> { set p | p in posts :: p.id }
  function PostSlugs(posts: seq<Post>): set<string> { set p | p in posts :: p.slug }
  function CategoryIds(categories: seq<Category>): set<int> { set c | c in categories :: c.id }
  function CategorySlugs(categories: seq<Category>): set<string> { set c | c in categories :: c.slug }

  // ---------------------------------------------------------------------------
  // Constraints

  /** `posts.id` is the primary key and `posts.slug` is unique. */
  ghost predicate PostKeysDistinct(posts: seq<Post>) {
    forall i, j :: 0 <= i < j < |posts| ==> posts[i].id != posts[j].id && posts[i].slug != posts[j].slug
  }

  /** `categories.id` is the primary key and `categories.slug` is unique. */
  ghost predicate CategoryKeysDistinct(categories: seq<Category>) {
    forall i, j :: 0 <= i < j < |categories| ==>
      categories[i].id != categories[j].id && categories[i].slug != categories[j].slug
  }

  /** `post_categories.id` is the primary key. */
  ghost predicate PostCategoryKeysDistinct(links: seq<PostCategory>) {
    forall i, j :: 0 <= i < j < |links| ==> links[i].id != links[j].id
  }

  /** Both foreign keys of `post_categories` hold. */
  ghost predicate ReferencesHold(links: seq<PostCategory>, posts: seq<Post>, categories: seq<Category>) {
    forall l :: l in links ==> l.postId in PostIds(posts) && l.categoryId in CategoryIds(categories)
  }

  /** The values of every join row name an existing post and an existing category. */
  predicate ValuesReferenceExisting(values: seq<PostCategoryValues>, posts: seq<Post>, categories: seq<Category>) {
    forall v :: v in values ==> v.postId in PostIds(posts) && v.categoryId in CategoryIds(categories)
  }

  // ---------------------------------------------------------------------------
  // What the write statements do to a table's rows

  /** `UPDATE posts SET ... WHERE id = row.id`: the row with that id, if any, is replaced
      by `row` in place; every other row stays. */
  function UpdatePostRow(posts: seq<Post>, row: Post): (r: seq<Post>)
    ensures |r| == |posts|
    ensures forall p :: p in r <==> (p in posts && p.id != row.id) || (p == row && row.id in PostIds(posts))
    ensures PostIds(r) == PostIds(posts)
    ensures PostKeysDistinct(posts) && !SlugHeldByOtherPost(posts, row.id, row.slug) ==> PostKeysDistinct(r)
  {
    var r := seq(|posts|, k requires 0 <= k < |posts| => if posts[k].id == row.id then row else posts[k]);
    assert forall p :: p in posts && p.id != row.id ==> p in r by {
      forall p | p in posts && p.id != row.id ensures p in r {
        var k :| 0 <= k < |posts| && posts[k] == p;
        assert r[k] == p;
      }
    }
    assert row.id in PostIds(posts) ==> row in r by {
      if row.id in PostIds(posts) {
        var k :| 0 <= k < |posts| && posts[k].id == row.id;
        assert r[k] == row;
      }
    }
    assert forall p :: p in r && p != row ==> p in posts && p.id != row.id by {
      forall p | p in r && p != row ensures p in posts && p.id != row.id {
        var k :| 0 <= k < |r| && r[k] == p;
        assert posts[k] == p;
      }
    }
    assert row in r ==> row.id in PostIds(posts) by {
      if row in r {
        var k :| 0 <= k < |r| && r[k] == row;
        assert posts[k] in posts;
      }
    }
    assert PostKeysDistinct(posts) && !SlugHeldByOtherPost(posts, row.id, row.slug) ==> PostKeysDistinct(r) by {
      if PostKeysDistinct(posts) && !SlugHeldByOtherPost(posts, row.id, row.slug) {
        forall i, j | 0 <= i < j < |r| ensures r[i].id != r[j].id && r[i].slug != r[j].slug {
          assert posts[i] in posts && posts[j] in posts;
        }
      }
    }
    r
  }

  /** `UPDATE categories SET ... WHERE id = row.id`. */
  function UpdateCategoryRow(categories: seq<Category>, row: Category): (r: seq<Category>)
    ensures |r| == |categories|
    ensures forall c :: c in r <==>
      (c in categories && c.id != row.id) || (c == row && row.id in CategoryIds(categories))
    ensures CategoryIds(r) == CategoryIds(categories)
    ensures CategoryKeysDistinct(categories) && !SlugHeldByOtherCategory(categories, row.id, row.slug) ==>
      CategoryKeysDistinct(r)
  {
    var r := seq(|categories|, k requires 0 <= k < |categories| =>
      if categories[k].id == row.id then row else categories[k]);
    assert forall c :: c in categories && c.id != row.id ==> c in r by {
      forall c | c in categories && c.id != row.id ensures c in r {
        var k :| 0 <= k < |categories| && categories[k] == c;
        assert r[k] == c;
      }
    }
    assert row.id in CategoryIds(categories) ==> row in r by {
      if row.id in CategoryIds(categories) {
        var k :| 0 <= k < |categories| && categories[k].id == row.id;
        assert r[k] == row;
      }
    }
    assert forall c :: c in r && c != row ==> c in categories && c.id != row.id by {
      forall c | c in r && c != row ensures c in categories && c.id != row.id {
        var k :| 0 <= k < |r| && r[k] == c;
        assert categories[k] == c;
      }
    }
    assert row in r ==> row.id in CategoryIds(categories) by {
      if row in r {
        var k :| 0 <= k < |r| && r[k] == row;
        assert categories[k] in categories;
      }
    }
    assert CategoryKeysDistinct(categories) && !SlugHeldByOtherCategory(categories, row.id, row.slug) ==>
      CategoryKeysDistinct(r) by {
      if CategoryKeysDistinct(categories) && !SlugHeldByOtherCategory(categories, row.id, row.slug) {
        forall i, j | 0 <= i < j < |r| ensures r[i].id != r[j].id && r[i].slug != r[j].slug {
          assert categories[i] in categories && categories[j] in categories;
        }
      }
    }
    r
  }

  /** `DELETE FROM posts WHERE id = id`. */
  function DeletePostById(posts: seq<Post>, id: int): (r: seq<Post>)
    ensures forall p :: p in r <==> p in posts && p.id != id
    ensures PostKeysDistinct(posts) ==> PostKeysDistinct(r)
  {
    if posts == [] then []
    else
      var rest := DeletePostById(posts[1..], id);
      if posts[0].id == id then rest
      else
        assert forall p :: p in rest ==> p in posts[1..];
        [posts[0]] + rest
  }

  /** `DELETE FROM categories WHERE id = id`. */
  function DeleteCategoryById(categories: seq<Category>, id: int): (r: seq<Category>)
    ensures forall c :: c in r <==> c in categories && c.id != id
    ensures CategoryKeysDistinct(categories) ==> CategoryKeysDistinct(r)
  {
    if categories == [] then []
    else
      var rest := DeleteCategoryById(categories[1..], id);
      if categories[0].id == id then rest
      else
        assert forall c :: c in rest ==> c in categories[1..];
        [categories[0]] + rest
  }

  /** `DELETE FROM post_categories WHERE post_id = postId`. */
  function DeleteWherePostId(links: seq<PostCategory>, postId: int): (r: seq<PostCategory>)
    ensures forall l :: l in r <==> l in links && l.postId != postId
    ensures PostCategoryKeysDistinct(links) ==> PostCategoryKeysDistinct(r)
  {
    if links == [] then []
    else
      var rest := DeleteWherePostId(links[1..], postId);
      if links[0].postId == postId then rest
      else
        assert forall l :: l in rest ==> l in links[1..];
        [links[0]] + rest
  }

  /** `DELETE FROM post_categories WHERE category_id = categoryId`. */
  function DeleteWhereCategoryId(links: seq<PostCategory>, categoryId: int): (r: seq<PostCategory>)
    ensures forall l :: l in r <==> l in links && l.categoryId != categoryId
    ensures PostCategoryKeysDistinct(links) ==> PostCategoryKeysDistinct(r)
  {
    if links == [] then []
    else
      var rest := DeleteWhereCategoryId(links[1..], categoryId);
      if links[0].categoryId == categoryId then rest
      else
        assert forall l :: l in rest ==> l in links[1..];
        [links[0]] + rest
  }

  /** The rows `INSERT INTO post_categories VALUES ...` adds: the serial hands out
      `firstId`, `firstId + 1`, ... in the order of `values`. */
  function NumberRows(firstId: int, values: seq<PostCategoryValues>): (r: seq<PostCategory>)
    ensures |r| == |values|
    ensures forall k :: 0 <= k < |values| ==> r[k] == PostCategory(firstId + k, values[k].postId, values[k].categoryId)
    ensures forall l :: l in r ==> firstId <= l.id < firstId + |values|
    ensures forall l :: l in r ==> PostCategoryValues(l.postId, l.categoryId) in values
    ensures PostCategoryKeysDistinct(r)
  {
    var r := seq(|values|, k requires 0 <= k < |values| => PostCategory(firstId + k, values[k].postId, values[k].categoryId));
    assert forall l :: l in r ==> firstId <= l.id < firstId + |values| && PostCategoryValues(l.postId, l.categoryId) in values by {
      forall l | l in r ensures firstId <= l.id < firstId + |values| && PostCategoryValues(l.postId, l.categoryId) in values {
        var k :| 0 <= k < |r| && r[k] == l;
        assert values[k] == PostCategoryValues(l.postId, l.categoryId);
      }
    }
    r
  }

  // ---------------------------------------------------------------------------
  // Read statements

  /** `SELECT * FROM posts WHERE slug = slug LIMIT 1`. */
  function FindPostBySlug(posts: seq<Post>, slug: string): (r: Option<Post>)
    ensures r.None? <==> slug !in PostSlugs(posts)
    ensures r.Some? ==> r.value in posts && r.value.slug == slug
  {
    if posts == [] then None
    else if posts[0].slug == slug then Some(posts[0])
    else FindPostBySlug(posts[1..], slug)
  }

  /** `SELECT * FROM categories WHERE slug = slug LIMIT 1`. */
  function FindCategoryBySlug(categories: seq<Category>, slug: string): (r: Option<Category>)
    ensures r.None? <==> slug !in CategorySlugs(categories)
    ensures r.Some? ==> r.value in categories && r.value.slug == slug
  {
    if categories == [] then None
    else if categories[0].slug == slug then Some(categories[0])
    else FindCategoryBySlug(categories[1..], slug)
  }

  /** The category row with primary key `id`, if any. */
  function FindCategoryById(categories: seq<Category>, id: int): (r: Option<Category>)
    ensures r.None? <==> id !in CategoryIds(categories)
    ensures r.Some? ==> r.value in categories && r.value.id == id
  {
    if categories == [] then None
    else if categories[0].id == id then Some(categories[0])
    else FindCategoryById(categories[1..], id)
  }

  /** `SELECT * FROM categories INNER JOIN post_categories ON post_categories.category_id
      = categories.id WHERE post_categories.post_id = postId`, in join-table order. */
  function JoinCategories(links: seq<PostCategory>, categories: seq<Category>, postId: int): (r: seq<CategoryJoinRow>)
    ensures forall row :: row in r ==>
      && row.link in links && row.link.postId == postId
      && row.category in categories && row.category.id == row.link.categoryId
  {
    if links == [] then []
    else
      var rest := JoinCategories(links[1..], categories, postId);
      var found := FindCategoryById(categories, links[0].categoryId);
      if links[0].postId == postId && found.Some? then [CategoryJoinRow(found.value, links[0])] + rest
      else rest
  }

  /** The category ids of a join result, in order. */
  function JoinedCategoryIds(rows: seq<CategoryJoinRow>): seq<int> {
    if rows == [] then [] else [rows[0].category.id] + JoinedCategoryIds(rows[1..])
  }

  /** The join rows of a join result, in order. */
  function JoinedLinks(rows: seq<CategoryJoinRow>): seq<PostCategory> {
    if rows == [] then [] else [rows[0].link] + JoinedLinks(rows[1..])
  }

  /** The join rows of `postId`, in join-table order:
      `SELECT * FROM post_categories WHERE post_id = postId`. */
  function LinksOf(links: seq<PostCategory>, postId: int): seq<PostCategory> {
    if links == [] then []
    else (if links[0].postId == postId then [links[0]] else []) + LinksOf(links[1..], postId)
  }

  /** The ids of the categories joined to `postId`, in join-table order (with repeats). */
  function CategoryIdsOf(links: seq<PostCategory>, postId: int): seq<int> {
    if links == [] then []
    else (if links[0].postId == postId then [links[0].categoryId] else []) + CategoryIdsOf(links[1..], postId)
  }

  // ---------------------------------------------------------------------------
  // ORDER BY name

  ghost predicate SortedByName(s: seq<Category>) {
    forall i, j :: 0 <= i < j < |s| ==> NameLe(s[i].name, s[j].name)
  }

  /** Inserts `c` before the first row whose name sorts at or after its own. */
  function InsertByName(c: Category, s: seq<Category>): (r: seq<Category>)
    ensures multiset(r) == multiset(s) + multiset{c}
  {
    if s == [] || NameLe(c.name, s[0].name) then [c] + s
    else
      assert s == [s[0]] + s[1..];
      [s[0]] + InsertByName(c, s[1..])
  }

  /** `SELECT * FROM categories ORDER BY name`. */
  function SortByName(s: seq<Category>): (r: seq<Category>)
    ensures multiset(r) == multiset(s)
  {
    if s == [] then []
    else
      assert s == [s[0]] + s[1..];
      InsertByName(s[0], SortByName(s[1..]))
  }

  // ---------------------------------------------------------------------------
  // Lemmas about the statements

  /** A name that sorts at or before `c` and every row of `s` sorts at or before every
      row of `InsertByName(c, s)`. */
  lemma InsertByNameLowerBound(name: string, c: Category, s: seq<Category>)
    requires NameLe(name, c.name)
    requires forall x :: x in s ==> NameLe(name, x.name)
    ensures forall x :: x in InsertByName(c, s) ==> NameLe(name, x.name)
  {
  }

  /** Inserting into a name-sorted list keeps it sorted. */
  lemma {:induction false} InsertByNameSorted(c: Category, s: seq<Category>)
    requires SortedByName(s)
    ensures SortedByName(InsertByName(c, s))
  {
    if s == [] {
    } else if NameLe(c.name, s[0].name) {
      forall j | 0 < j < |s| ensures NameLe(c.name, s[j].name) {
        NameLeTransitive(c.name, s[0].name, s[j].name);
      }
    } else {
      NameLeTotal(c.name, s[0].name);
      InsertByNameSorted(c, s[1..]);
      var rest := InsertByName(c, s[1..]);
      var r := [s[0]] + rest;
      forall x | x in s[1..] ensures NameLe(s[0].name, x.name) {
        var k :| 0 <= k < |s[1..]| && s[1..][k] == x;
        assert s[k + 1] == x;
      }
      InsertByNameLowerBound(s[0].name, c, s[1..]);
      forall i, j | 0 <= i < j < |r| ensures NameLe(r[i].name, r[j].name) {
        if i == 0 {
          assert r[j] in rest;
        } else {
          assert r[i] == rest[i - 1] && r[j] == rest[j - 1];
        }
      }
    }
  }

  /** Sorting by name yields a permutation of the table, in non-decreasing name order. */
  lemma {:induction false} SortByNameCorrect(s: seq<Category>)
    ensures SortedByName(SortByName(s))
    ensures multiset(SortByName(s)) == multiset(s)
  {
    if s != [] {
      SortByNameCorrect(s[1..]);
      InsertByNameSorted(s[0], SortByName(s[1..]));
    }
  }

  lemma {:induction false} CategoryIdsOfAppend(a: seq<PostCategory>, b: seq<PostCategory>, postId: int)
    ensures CategoryIdsOf(a + b, postId) == CategoryIdsOf(a, postId) + CategoryIdsOf(b, postId)
  {
    if a == [] {
      assert a + b == b;
    } else {
      var head := if a[0].postId == postId then [a[0].categoryId] else [];
      assert (a + b)[0] == a[0];
      assert (a + b)[1..] == a[1..] + b;
      CategoryIdsOfAppend(a[1..], b, postId);
      assert CategoryIdsOf(a + b, postId) == head + (CategoryIdsOf(a[1..], postId) + CategoryIdsOf(b, postId));
      assert CategoryIdsOf(a, postId) == head + CategoryIdsOf(a[1..], postId);
    }
  }

  /** A post with no join rows has no categories. */
  lemma {:induction false} CategoryIdsOfNone(links: seq<PostCategory>, postId: int)
    requires forall l :: l in links ==> l.postId != postId
    ensures CategoryIdsOf(links, postId) == []
  {
    if links != [] {
      assert links[0] in links;
      assert forall l :: l in links[1..] ==> l in links;
      CategoryIdsOfNone(links[1..], postId);
    }
  }

  /** A delete by `post_id` leaves every other post's categories as they were. */
  lemma {:induction false} CategoryIdsOfDeleteOther(links: seq<PostCategory>, postId: int, other: int)
    requires other != postId
    ensures CategoryIdsOf(DeleteWherePostId(links, postId), other) == CategoryIdsOf(links, other)
  {
    if links != [] {
      CategoryIdsOfDeleteOther(links[1..], postId, other);
      if links[0].postId != postId {
        var rest := DeleteWherePostId(links[1..], postId);
        assert ([links[0]] + rest)[1..] == rest;
      }
    }
  }

  /** A delete by `post_id` that matches no row leaves the table as it was. */
  lemma {:induction false} DeleteWherePostIdNoMatch(links: seq<PostCategory>, postId: int)
    requires forall l :: l in links ==> l.postId != postId
    ensures DeleteWherePostId(links, postId) == links
  {
    if links != [] {
      DeleteWherePostIdNoMatch(links[1..], postId);
      assert [links[0]] + links[1..] == links;
    }
  }

  /** A delete by primary key that matches no row leaves the posts table as it was. */
  lemma {:induction false} DeletePostByIdNoMatch(posts: seq<Post>, id: int)
    requires id !in PostIds(posts)
    ensures DeletePostById(posts, id) == posts
  {
    if posts != [] {
      assert posts[0] in posts;
      assert PostIds(posts[1..]) <= PostIds(posts) by {
        forall x | x in PostIds(posts[1..]) ensures x in PostIds(posts) {
          var p :| p in posts[1..] && p.id == x;
          assert p in posts;
        }
      }
      DeletePostByIdNoMatch(posts[1..], id);
      assert [posts[0]] + posts[1..] == posts;
    }
  }

  /** The join result lists exactly the categories joined to the post, one per join row,
      in join-table order, when every join row names an existing category. */
  lemma {:induction false} JoinCategoriesIds(links: seq<PostCategory>, categories: seq<Category>, postId: int)
    requires forall l :: l in links ==> l.categoryId in CategoryIds(categories)
    ensures JoinedCategoryIds(JoinCategories(links, categories, postId)) == CategoryIdsOf(links, postId)
  {
    if links != [] {
      JoinCategoriesIds(links[1..], categories, postId);
      var rest := JoinCategories(links[1..], categories, postId);
      var found := FindCategoryById(categories, links[0].categoryId);
      if links[0].postId == postId {
        assert ([CategoryJoinRow(found.value, links[0])] + rest)[1..] == rest;
      }
    }
  }

  /** The join result holds exactly one row per join row of the post, in join-table order,
      when every join row names an existing category. */
  lemma {:induction false} JoinCategoriesLinks(links: seq<PostCategory>, categories: seq<Category>, postId: int)
    requires forall l :: l in links ==> l.categoryId in CategoryIds(categories)
    ensures JoinedLinks(JoinCategories(links, categories, postId)) == LinksOf(links, postId)
  {
    if links != [] {
      JoinCategoriesLinks(links[1..], categories, postId);
      var rest := JoinCategories(links[1..], categories, postId);
      var found := FindCategoryById(categories, links[0].categoryId);
      if links[0].postId == postId {
        assert ([CategoryJoinRow(found.value, links[0])] + rest)[1..] == rest;
      }
    }
  }

  /** The `.map` of a procedure: one join-row value `(postId, c)` per category id `c`. */
  function LinkValues(postId: int, categoryIds: seq<int>): (r: seq<PostCategoryValues>)
    ensures |r| == |categoryIds|
    ensures forall k :: 0 <= k < |categoryIds| ==> r[k] == PostCategoryValues(postId, categoryIds[k])
    decreases |categoryIds|
  {
    if categoryIds == [] then []
    else [PostCategoryValues(postId, categoryIds[0])] + LinkValues(postId, categoryIds[1..])
  }

  /** The join rows for `postId` and `categoryIds` meet both foreign keys exactly when
      the post exists and every id in `categoryIds` names an existing category. */
  lemma LinkValuesReferenceExisting(postId: int, categoryIds: seq<int>, posts: seq<Post>, categories: seq<Category>)
    requires categoryIds != []
    ensures ValuesReferenceExisting(LinkValues(postId, categoryIds), posts, categories) <==>
      postId in PostIds(posts) && forall c :: c in categoryIds ==> c in CategoryIds(categories)
  {
  }

  /** The serial numbering of the rows after the first starts one later. */
  lemma NumberRowsTail(firstId: int, values: seq<PostCategoryValues>)
    requires values != []
    ensures NumberRows(firstId, values)[1..] == NumberRows(firstId + 1, values[1..])
  {
  }

  /** Inserting the join rows of `LinkValues(postId, categoryIds)` gives `postId` exactly
      `categoryIds`, and gives no other post anything. */
  lemma {:induction false} CategoryIdsOfNewRows(firstId: int, postId: int, categoryIds: seq<int>, other: int)
    ensures CategoryIdsOf(NumberRows(firstId, LinkValues(postId, categoryIds)), postId) == categoryIds
    ensures other != postId ==> CategoryIdsOf(NumberRows(firstId, LinkValues(postId, categoryIds)), other) == []
    decreases |categoryIds|
  {
    if categoryIds != [] {
      CategoryIdsOfNewRows(firstId + 1, postId, categoryIds[1..], other);
      var values := LinkValues(postId, categoryIds);
      assert values[1..] == LinkValues(postId, categoryIds[1..]);
      var rows := NumberRows(firstId, values);
      NumberRowsTail(firstId, values);
      assert CategoryIdsOf(rows, postId) == [categoryIds[0]] + CategoryIdsOf(rows[1..], postId);
      assert [categoryIds[0]] + categoryIds[1..] == categoryIds;
    }
  }

  /** Deleting by `post_id` twice is deleting once: the explicit join-row delete of
      `post.delete` finds nothing left once the cascade has run. */
  lemma {:induction false} DeleteWherePostIdIdempotent(links: seq<PostCategory>, postId: int)
    ensures DeleteWherePostId(DeleteWherePostId(links, postId), postId) == DeleteWherePostId(links, postId)
  {
    DeleteWherePostIdNoMatch(DeleteWherePostId(links, postId), postId);
  }

  // ---------------------------------------------------------------------------
  // The store

  /** The database: the three tables and the serial sequence of each table's id. */
  class Database {
    var posts: seq<Post>
    var categories: seq<Category>
    var postCategories: seq<PostCategory>
    // The next value each `serial` column hands out.
    var nextPostId: int
    var nextCategoryId: int
    var nextPostCategoryId: int

    /** The constraints db/schema.ts declares: primary keys, unique slugs, ids drawn from
        the serials (which start at 1), and both foreign keys of `post_categories`. */
    ghost predicate Valid()
      reads this
      ensures Valid() ==>
        nextPostId !in PostIds(posts) && nextCategoryId !in CategoryIds(categories)
      ensures Valid() ==> forall l :: l in postCategories ==>
        FindCategoryById(categories, l.categoryId).Some? && l.id != nextPostCategoryId
    {
      && PostKeysDistinct(posts)
      && CategoryKeysDistinct(categories)
      && PostCategoryKeysDistinct(postCategories)
      && 1 <= nextPostId && 1 <= nextCategoryId && 1 <= nextPostCategoryId
      && (forall p :: p in posts ==> 1 <= p.id < nextPostId)
      && (forall c :: c in categories ==> 1 <= c.id < nextCategoryId)
      && (forall l :: l in postCategories ==> 1 <= l.id < nextPostCategoryId)
      && ReferencesHold(postCategories, posts, categories)
    }

    /** An empty database. */
    constructor ()
      ensures Valid()
      ensures posts == [] && categories == [] && postCategories == []
      ensures nextPostId == 1 && nextCategoryId == 1 && nextPostCategoryId == 1
    {
      posts, categories, postCategories := [], [], [];
      nextPostId, nextCategoryId, nextPostCategoryId := 1, 1, 1;
    }

    /** `INSERT INTO posts ... RETURNING *`: fails on a slug already in the table,
        otherwise appends the row under the next serial id. */
    method InsertPost(title: string, content: string, slug: string, imageUrl: Option<string>, published: bool)
      returns (r: Result<Post>)
      requires Valid()
      modifies this
      ensures Valid()
      ensures slug in old(PostSlugs(posts)) ==> r == Err(UniqueViolation) && unchanged(this)
      ensures slug !in old(PostSlugs(posts)) ==>
        && r == Ok(Post(old(nextPostId), title, content, slug, imageUrl, published))
        && r.value.id !in old(PostIds(posts))
        && posts == old(posts) + [r.value]
        && nextPostId == old(nextPostId) + 1
        && unchanged(`categories, `postCategories, `nextCategoryId, `nextPostCategoryId)
    {
      if slug in PostSlugs(posts) {
        return Err(UniqueViolation);
      }
      var row := Post(nextPostId, title, content, slug, imageUrl, published);
      forall i | 0 <= i < |posts| ensures posts[i].slug != slug {
        assert posts[i] in posts;
      }
      posts := posts + [row];
      nextPostId := nextPostId + 1;
      r := Ok(row);
    }

    /** `UPDATE posts SET ... WHERE id = id RETURNING *`: no matching row returns no row;
        a slug held by another row fails; otherwise the row is overwritten. */
    method UpdatePost(id: int, title: string, content: string, slug: string, imageUrl: Option<string>, published: bool)
      returns (r: Result<Option<Post>>)
      requires Valid()
      modifies this
      ensures Valid()
      ensures id !in old(PostIds(posts)) ==> r == Ok(None) && unchanged(this)
      ensures id in old(PostIds(posts)) && SlugHeldByOtherPost(old(posts), id, slug) ==>
        r == Err(UniqueViolation) && unchanged(this)
      ensures id in old(PostIds(posts)) && !SlugHeldByOtherPost(old(posts), id, slug) ==>
        && r == Ok(Some(Post(id, title, content, slug, imageUrl, published)))
        && posts == UpdatePostRow(old(posts), r.value.value)
        && PostIds(posts) == old(PostIds(posts))
        && unchanged(`categories, `postCategories, `nextPostId, `nextCategoryId, `nextPostCategoryId)
    {
      if id !in PostIds(posts) {
        return Ok(None);
      }
      if SlugHeldByOtherPost(posts, id, slug) {
        return Err(UniqueViolation);
      }
      var row := Post(id, title, content, slug, imageUrl, published);
      posts := UpdatePostRow(posts, row);
      r := Ok(Some(row));
    }

    /** `DELETE FROM posts WHERE id = id`; the `ON DELETE CASCADE` of `post_id` removes
        the post's join rows with it. */
    method DeletePost(id: int)
      requires Valid()
      modifies this
      ensures Valid()
      ensures posts == DeletePostById(old(posts), id)
      ensures postCategories == DeleteWherePostId(old(postCategories), id)
      ensures unchanged(`categories, `nextPostId, `nextCategoryId, `nextPostCategoryId)
    {
      var remaining := DeletePostById(posts, id);
      var links := DeleteWherePostId(postCategories, id);
      forall l | l in links ensures l.postId in PostIds(remaining) {
        var p :| p in posts && p.id == l.postId;
        assert p in remaining;
      }
      posts := remaining;
      postCategories := links;
    }

    /** `INSERT INTO post_categories VALUES ...` with at least one row (the query builder
        refuses an empty list, and both callers check for one): all rows are added under
        the next serial ids, or none is when one of them breaks a foreign key. */
    method InsertPostCategories(values: seq<PostCategoryValues>) returns (r: Result<seq<PostCategory>>)
      requires Valid()
      requires |values| > 0
      modifies this
      ensures Valid()
      ensures !old(ValuesReferenceExisting(values, posts, categories)) ==>
        r == Err(ForeignKeyViolation) && unchanged(this)
      ensures old(ValuesReferenceExisting(values, posts, categories)) ==>
        && r == Ok(NumberRows(old(nextPostCategoryId), values))
        && postCategories == old(postCategories) + r.value
        && nextPostCategoryId == old(nextPostCategoryId) + |values|
        && unchanged(`posts, `categories, `nextPostId, `nextCategoryId)
    {
      if !ValuesReferenceExisting(values, posts, categories) {
        return Err(ForeignKeyViolation);
      }
      var rows := NumberRows(nextPostCategoryId, values);
      var links := postCategories + rows;
      forall i, j | 0 <= i < j < |links| ensures links[i].id != links[j].id {
        if j >= |postCategories| {
          assert links[j] in rows;
          if i < |postCategories| {
            assert links[i] in postCategories;
          }
        }
      }
      forall l | l in rows ensures l.postId in PostIds(posts) && l.categoryId in CategoryIds(categories) {
        assert PostCategoryValues(l.postId, l.categoryId) in values;
      }
      postCategories := links;
      nextPostCategoryId := nextPostCategoryId + |values|;
      r := Ok(rows);
    }

    /** `DELETE FROM post_categories WHERE post_id = postId`. */
    method DeletePostCategoriesOfPost(postId: int)
      requires Valid()
      modifies this
      ensures Valid()
      ensures postCategories == DeleteWherePostId(old(postCategories), postId)
      ensures unchanged(`posts, `categories, `nextPostId, `nextCategoryId, `nextPostCategoryId)
    {
      postCategories := DeleteWherePostId(postCategories, postId);
    }

    /** `INSERT INTO categories ... RETURNING *`: fails on a slug already in the table,
        otherwise appends the row under the next serial id. */
    method InsertCategory(name: string, description: Option<string>, slug: string) returns (r: Result<Category>)
      requires Valid()
      modifies this
      ensures Valid()
      ensures slug in old(CategorySlugs(categories)) ==> r == Err(UniqueViolation) && unchanged(this)
      ensures slug !in old(CategorySlugs(categories)) ==>
        && r == Ok(Category(old(nextCategoryId), name, description, slug))
        && r.value.id !in old(CategoryIds(categories))
        && categories == old(categories) + [r.value]
        && nextCategoryId == old(nextCategoryId) + 1
        && unchanged(`posts, `postCategories, `nextPostId, `nextPostCategoryId)
    {
      if slug in CategorySlugs(categories) {
        return Err(UniqueViolation);
      }
      var row := Category(nextCategoryId, name, description, slug);
      forall i | 0 <= i < |categories| ensures categories[i].slug != slug {
        assert categories[i] in categories;
      }
      categories := categories + [row];
      nextCategoryId := nextCategoryId + 1;
      r := Ok(row);
    }

    /** `UPDATE categories SET ... WHERE id = id RETURNING *`. */
    method UpdateCategory(id: int, name: string, description: Option<string>, slug: string)
      returns (r: Result<Option<Category>>)
      requires Valid()
      modifies this
      ensures Valid()
      ensures id !in old(CategoryIds(categories)) ==> r == Ok(None) && unchanged(this)
      ensures id in old(CategoryIds(categories)) && SlugHeldByOtherCategory(old(categories), id, slug) ==>
        r == Err(UniqueViolation) && unchanged(this)
      ensures id in old(CategoryIds(categories)) && !SlugHeldByOtherCategory(old(categories), id, slug) ==>
        && r == Ok(Some(Category(id, name, description, slug)))
        && categories == UpdateCategoryRow(old(categories), r.value.value)
        && CategoryIds(categories) == old(CategoryIds(categories))
        && unchanged(`posts, `postCategories, `nextPostId, `nextCategoryId, `nextPostCategoryId)
    {
      if id !in CategoryIds(categories) {
        return Ok(None);
      }
      if SlugHeldByOtherCategory(categories, id, slug) {
        return Err(UniqueViolation);
      }
      var row := Category(id, name, description, slug);
      categories := UpdateCategoryRow(categories, row);
      r := Ok(Some(row));
    }

    /** `DELETE FROM categories WHERE id = id`; the `ON DELETE CASCADE` of `category_id`
        removes the category's join rows with it. */
    method DeleteCategory(id: int)
      requires Valid()
      modifies this
      ensures Valid()
      ensures categories == DeleteCategoryById(old(categories), id)
      ensures postCategories == DeleteWhereCategoryId(old(postCategories), id)
      ensures unchanged(`posts, `nextPostId, `nextCategoryId, `nextPostCategoryId)
    {
      var remaining := DeleteCategoryById(categories, id);
      var links := DeleteWhereCategoryId(postCategories, id);
      forall l | l in links ensures l.categoryId in CategoryIds(remaining) {
        var c :| c in categories && c.id == l.categoryId;
        assert c in remaining;
      }
      categories := remaining;
      postCategories := links;
    }
  }

  /** Another post than `id` already has `slug`: the unique index refuses the update. */
  predicate SlugHeldByOtherPost(posts: seq<Post>, id: int, slug: string) {
    exists p :: p in posts && p.id != id && p.slug == slug
  }

  /** Another category than `id` already has `slug`. */
  predicate SlugHeldByOtherCategory(categories: seq<Category>, id: int, slug: string) {
    exists c :: c in categories && c.id != id && c.slug == slug
  }
}
