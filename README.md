# Blogio post/category access layer in Dafny

This project models the server side of the Blogio blogging application: the `post` and
`category` procedures, the three tables they read and write, and the `makeSlug` helper
that derives a slug from a title or a name. The procedures cover creating, updating and
deleting posts and categories, looking either up by slug, and listing categories
ordered by name.

The model has these parts:

- `Outcomes` (outcomes.dfy): nullable values (`Option`) and call outcomes (`Result`). An
  error is one of three kinds. An input-schema rejection happens before any statement
  runs. A unique-slug violation and a foreign-key violation are raised by the store. The
  module also holds the two input-schema checks the procedures use, `min(n)` and
  `.optional()`.
- `Slugify` (slugify.dfy): `makeSlug`. The third-party `slugify` library is a
  function-valued parameter, so the model only fixes the `.slice(0, 240)` that follows it.
- `Collation` (collation.dfy): the text order that `ORDER BY name` uses.
- `Schema` (schema.dfy): the rows of `posts`, `categories` and `post_categories`, and
  the `Database` class that holds the three tables and their `serial` counters.
  `Database.Valid()` states the constraints of db/schema.ts:
  - primary keys and unique slugs;
  - ids drawn from serials that start at 1;
  - both foreign keys of the join table.

  Every write statement is a method of the class. It keeps `Valid()` and states the
  tables it leaves behind, including the `ON DELETE CASCADE` rules. Read statements are
  functions on the table values.
- `PostRouter` (post_router.dfy) and `CategoryRouter` (category_router.dfy): the
  procedures. Each one is a method that takes the store handle, as the source procedures
  take `ctx.db`. The method checks the input schema first. Then it issues the same
  statements in the same order as the source.
- `Scenarios` (scenarios.dfy): call sequences whose outcomes follow from the contracts
  alone. One has two posts with the same title. One replaces a post's categories with an
  empty list. One updates an unknown post id.

Each statement is atomic. The statements of one procedure are not. So when a later
statement fails on a constraint, the effects of the earlier statements remain, and the
model states those effects. Creating a post with a category id that names no category
keeps the post row but returns a foreign-key error. Updating an unknown post id with a
non-empty `categoryIds` returns a foreign-key error, not `null`, because the inserted
join rows name no post.

`makeSlug` is deterministic because the model defines it as a Dafny function: equal
inputs and an equal library give equal slugs.

Two behaviours of the code worth noting:
- `post.getBySlug` returns whole join rows (`{categories, post_categories}`), not just
  each category's id and name.
- Only the library's options promise the `[a-z0-9-]` alphabet of a slug. Here it is a
  precondition of `Slugify.MakeSlugCharacters`, not a proved property.

## Model

| member | source | states |
|---|---|---|
| Slugify.MakeSlug | server/utils/slugify.ts:3-5 | the slug has at most 240 characters, is a prefix of the library's slug, and equals it when that has 240 or fewer characters |
| Slugify.MakeSlugCharacters | server/utils/slugify.ts:4 | when the library's output uses only `[a-z0-9-]` (its `lower`/`strict`/`remove` options), the slug is lower-case and has none of `* + ~ . ( ) ' " ! : @` |
| Collation.NameLeTotal | server/routers/category.ts:56 | any two names are ordered one way or the other |
| Collation.NameLeTransitive | server/routers/category.ts:56 | the name order is transitive |
| Schema.Database.Valid | db/schema.ts:3-25 | the constraints of the three tables: primary keys, unique slugs, serial ids in `[1, next)`, both foreign keys; consequently each serial's next value is a fresh key, and every join row's category can be found by id |
| Schema.Database.constructor | db/schema.ts:3-25 | an empty store meets every constraint, and each serial starts at 1 |
| Schema.Database.InsertPost | db/schema.ts:4-9 | a slug already in `posts` fails with a unique violation and changes nothing; otherwise the row is appended under a fresh serial id, and nothing else changes |
| Schema.Database.UpdatePost | db/schema.ts:7 | no row with the id gives no row and changes nothing; a slug held by another post fails and changes nothing; otherwise only that row is overwritten, and the ids stay the same |
| Schema.Database.DeletePost | db/schema.ts:23 | the post row is removed, and the cascade removes every join row with its `post_id` |
| Schema.Database.InsertPostCategories | db/schema.ts:22-24 | all rows are added under consecutive fresh ids when every `post_id` and `category_id` exists; otherwise a foreign-key failure, and no row is added |
| Schema.Database.DeletePostCategoriesOfPost | server/routers/post.ts:61-63 | exactly the join rows of that post are removed |
| Schema.Database.InsertCategory | db/schema.ts:15-18 | a slug already in `categories` fails and changes nothing; otherwise the row is appended under a fresh serial id |
| Schema.Database.UpdateCategory | db/schema.ts:18 | no row gives no row; a slug held by another category fails; otherwise only that row is overwritten |
| Schema.Database.DeleteCategory | db/schema.ts:24 | the category row is removed, and the cascade removes every join row with its `category_id` |
| Schema.UpdatePostRow | server/routers/post.ts:47-58 | the rows after `UPDATE posts ... WHERE id`: same length, the row with that id (if any) becomes the new row and every other row stays; the id column is unchanged, and keys stay distinct when no other post holds the new slug |
| Schema.UpdateCategoryRow | server/routers/category.ts:34-38 | the rows after `UPDATE categories ... WHERE id`: same length, the matching row becomes the new row and every other row stays; the id column is unchanged, and keys stay distinct when no other category holds the new slug |
| Schema.DeletePostById | server/routers/post.ts:76 | keeps exactly the rows with another id; keeps ids and slugs distinct |
| Schema.DeleteCategoryById | server/routers/category.ts:46-48 | keeps exactly the rows with another id; keeps ids and slugs distinct |
| Schema.DeleteWherePostId | server/routers/post.ts:77 | keeps exactly the join rows of other posts; keeps ids distinct |
| Schema.DeleteWhereCategoryId | db/schema.ts:24 | keeps exactly the join rows of other categories; keeps ids distinct |
| Schema.NumberRows | db/schema.ts:22 | row k is value k under id `firstId + k`; so every id lies in `[firstId, firstId + n)`, every row carries one of the values, and the ids are distinct |
| Schema.LinkValues | server/routers/post.ts:36-39 | the `.map` of `categoryIds`: entry k is `(postId, categoryIds[k])` |
| Schema.FindPostBySlug | server/routers/post.ts:83-84 | absent exactly when no post has the slug; otherwise a post of the table with that slug |
| Schema.FindCategoryBySlug | server/routers/category.ts:62-67 | absent exactly when no category has the slug; otherwise a category of the table with that slug |
| Schema.FindCategoryById | server/routers/post.ts:91 | absent exactly when no category has the id; otherwise the category with that id |
| Schema.JoinCategories | server/routers/post.ts:88-92 | every joined row pairs a join row of the post with the category it names |
| Schema.InsertByName | server/routers/category.ts:53-56 | the result holds the input rows plus the new one |
| Schema.SortByName | server/routers/category.ts:53-56 | the result is a permutation of the table |
| Schema.InsertByNameLowerBound | server/routers/category.ts:56 | a name at or before the inserted row and every row of the list is at or before every row of the result |
| Schema.InsertByNameSorted | server/routers/category.ts:56 | inserting into a name-sorted list keeps it sorted |
| Schema.SortByNameCorrect | server/routers/category.ts:52-57 | `ORDER BY name` gives a permutation of the table in non-decreasing name order |
| Schema.CategoryIdsOfAppend | server/routers/post.ts:40 | appending join rows appends their category ids |
| Schema.CategoryIdsOfNone | db/schema.ts:23 | a post with no join rows has an empty category list |
| Schema.CategoryIdsOfDeleteOther | server/routers/post.ts:61-63 | deleting one post's join rows leaves every other post's category list unchanged |
| Schema.DeleteWherePostIdNoMatch | server/routers/post.ts:77 | a join-row delete that matches nothing leaves the table unchanged |
| Schema.DeletePostByIdNoMatch | server/routers/post.ts:76 | deleting an id no post has leaves `posts` unchanged |
| Schema.DeleteWherePostIdIdempotent | server/routers/post.ts:76-77 | after the cascade, the explicit join-row delete of `post.delete` removes nothing more |
| Schema.JoinCategoriesIds | server/routers/post.ts:88-94 | under the foreign key, the joined categories are exactly the post's join rows' categories, one each, in order |
| Schema.JoinCategoriesLinks | server/routers/post.ts:88-94 | under the foreign key, the join result holds exactly one row per join row of the post, in join-table order, so no join row is dropped or repeated |
| Schema.LinkValuesReferenceExisting | server/routers/post.ts:36-40 | for a non-empty list, the join rows of `(postId, categoryIds)` meet both foreign keys exactly when the post exists and every category id exists |
| Schema.CategoryIdsOfNewRows | server/routers/post.ts:64-69 | inserting the mapped rows gives the post exactly `categoryIds`, and gives no other post anything |
| PostRouter.AcceptsPostInput | server/routers/post.ts:10-18 | the `PostCreate` schema accepts exactly the inputs with a non-empty title, a non-empty content, and, when an image URL is given, a well-formed one; `published` and `categoryIds` are optional and never refused |
| PostRouter.PostRow | server/routers/post.ts:26-31 | the row written by `create` and `update` (lines 49-55 too): the given id, title and content, the slug `makeSlug(title)` of at most 240 characters, the image URL as given (null when omitted), and `published` true only when given as true |
| PostRouter.PublishedFlag | server/routers/post.ts:31 | an omitted `published` stores `false` |
| PostRouter.Create | server/routers/post.ts:10-44 | gives a validation error with no change on an empty title or content or a bad URL, and a unique violation with no change on a taken slug. Otherwise it appends the post with `slug = makeSlug(title)`, `imageUrl` null when omitted and `published` false when omitted. It adds one join row per category id, or none for an omitted or empty list. An unknown category id gives a foreign-key failure, but the post row stays. On success the post's categories are exactly `categoryIds` and no existing post's categories change |
| PostRouter.Update | server/routers/post.ts:45-73 | gives a validation error with no change on invalid input, and a unique violation with no change when another post holds the slug. Otherwise an existing post is overwritten (slug re-derived, `imageUrl` null and `published` false when omitted). An unknown id leaves `posts` and the join rows unchanged and yields null, or a foreign-key failure when `categoryIds` is non-empty. A given `categoryIds` replaces the post's category set exactly (an empty list clears it). An omitted one leaves the join table unchanged. The categories of other posts never change |
| PostRouter.ReplacePostCategories | server/routers/post.ts:60-70 | deletes the post's join rows, then inserts one per category id when the list is non-empty; a foreign-key failure (unknown post or category) keeps the delete; on success the post's categories are exactly the list, and other posts' categories never change |
| PostRouter.Delete | server/routers/post.ts:75-79 | always succeeds; removes the post and all its join rows and nothing else; an unknown id changes nothing |
| PostRouter.GetBySlug | server/routers/post.ts:82-95 | null exactly when no post has the slug; otherwise the one post with it, with one joined row per join row of the post, in join-table order, each paired with the category it names |
| CategoryRouter.AcceptsCategoryInput | server/routers/category.ts:9 | the input schema (also lines 26-30) accepts exactly the inputs with a non-empty name; the description is optional |
| CategoryRouter.Create | server/routers/category.ts:7-22 | gives a validation error with no change on an empty name, and a unique violation with no change on a taken slug. Otherwise it appends the category with `slug = makeSlug(name)`, `description` null when omitted, and a fresh id |
| CategoryRouter.Update | server/routers/category.ts:24-41 | gives a validation error on an empty name, and null with no change on an unknown id. A slug held by another category is a unique violation. Otherwise name, description (null when omitted) and the re-derived slug overwrite that row only |
| CategoryRouter.Delete | server/routers/category.ts:43-50 | always succeeds; removes the category and, by cascade, every join row naming it, and nothing else |
| CategoryRouter.GetAll | server/routers/category.ts:52-57 | a permutation of the categories table, in non-decreasing name order |
| CategoryRouter.GetBySlug | server/routers/category.ts:59-68 | null exactly when no category has the slug; otherwise the one category with it |

## Left out

- `post.getAll` and `post.getByFilter`: the pages call them, but server/routers/post.ts does not define them, so there is no code to model.
- The `slugify` library's algorithm is not modelled. It is the parameter `slugify`, and its `lower`/`strict`/`remove` options are a precondition of `Slugify.MakeSlugCharacters`, not a proved fact.
- The `z.string().url()` check on `imageUrl` is the parameter `isUrl`. URL parsing is not modelled.
- The `createdAt`/`updatedAt` timestamps and the `new Date()` that `post.update` writes are left out, because they read the wall clock.
- Integer widths are not modelled. `serial` and `integer` columns are 32-bit, and `z.number()` accepts any JavaScript number, including fractions. The model uses unbounded integers.
- A `serial` value drawn by a failed insert is not modelled: in the model, a counter advances only when the insert succeeds. Ids are still fresh and increasing.
- `ORDER BY name` is modelled as code-point order (the "C" collation). A locale collation of the database may order some names differently.
- SQL does not fix the row order of a `SELECT` without `ORDER BY`, of an inner join, or of the ties of an `ORDER BY`. The model picks table order, join-table order and a stable sort. The contracts of `PostRouter.GetBySlug`, `Schema.JoinCategoriesIds` and `Schema.JoinCategoriesLinks` state the join result in join-table order, and those of `PostRouter.Create`, `PostRouter.Update` and `PostRouter.ReplacePostCategories` state a post's category list in join-table order. A database that returns the join in another order returns a permutation of that list. The contract of `CategoryRouter.GetAll` does not depend on the order of ties.
- `min(1)` and `.slice(0, 240)` count UTF-16 code units in JavaScript. The model counts Dafny characters. The two counts agree on the ASCII slugs that `strict` mode yields.
- The `published` column is nullable in the schema, but both procedures always write a boolean, so the model stores a `bool`.
- The database client, the request context and the RPC plumbing are left out, and so are the error messages and codes: an error is only its kind. Connection failures between the statements of one procedure and concurrent callers are left out too, because the model is sequential.
