/** The procedures of the `category` router: create, update, delete, getAll and getBySlug. */
module CategoryRouter {
  import opened Outcomes
  import opened Slugify
  import opened Schema

  /** The fields of the input schema of `category.create` and `category.update`. */
  datatype CategoryInput = CategoryInput(name: string, description: Option<string>)

  /** The input schema accepts a non-empty name. */
  predicate AcceptsCategoryInput(input: CategoryInput): (ok: bool)
    ensures ok <==> input.name != []
  {
    MinLength(input.name, 1)
  }

  /** `category.create`: a single insert, with the slug derived from the name and an
      omitted description stored as `null`. */
  method Create(db: Database, slugify: string -> string, input: CategoryInput) returns (r: Result<Category>)
    requires db.Valid()
    modifies db
    ensures db.Valid()
    ensures !AcceptsCategoryInput(input) ==> r == Err(ValidationError) && unchanged(db)
    ensures AcceptsCategoryInput(input) && MakeSlug(slugify, input.name) in old(CategorySlugs(db.categories)) ==>
      r == Err(UniqueViolation) && unchanged(db)
    ensures AcceptsCategoryInput(input) && MakeSlug(slugify, input.name) !in old(CategorySlugs(db.categories)) ==>
      && r == Ok(Category(old(db.nextCategoryId), input.name, input.description, MakeSlug(slugify, input.name)))
      && r.value.id !in old(CategoryIds(db.categories))
      && db.categories == old(db.categories) + [r.value]
      && db.nextCategoryId == old(db.nextCategoryId) + 1
      && unchanged(db`posts, db`postCategories, db`nextPostId, db`nextPostCategoryId)
  {
    if !AcceptsCategoryInput(input) {
      return Err(ValidationError);
    }
    var slug := MakeSlug(slugify, input.name);
    r := db.InsertCategory(input.name, input.description, slug);
  }

  /** `category.update`: overwrites name, description (`null` when omitted) and the slug
      derived from the new name; an unknown id yields `null` and changes nothing. */
  method Update(db: Database, slugify: string -> string, id: int, input: CategoryInput)
    returns (r: Result<Option<Category>>)
    requires db.Valid()
    modifies db
    ensures db.Valid()
    ensures !AcceptsCategoryInput(input) ==> r == Err(ValidationError) && unchanged(db)
    ensures AcceptsCategoryInput(input) && id !in old(CategoryIds(db.categories)) ==> r == Ok(None) && unchanged(db)
    ensures AcceptsCategoryInput(input) && id in old(CategoryIds(db.categories))
            && SlugHeldByOtherCategory(old(db.categories), id, MakeSlug(slugify, input.name)) ==>
      r == Err(UniqueViolation) && unchanged(db)
    ensures AcceptsCategoryInput(input) && id in old(CategoryIds(db.categories))
            && !SlugHeldByOtherCategory(old(db.categories), id, MakeSlug(slugify, input.name)) ==>
      && r == Ok(Some(Category(id, input.name, input.description, MakeSlug(slugify, input.name))))
      && db.categories == UpdateCategoryRow(old(db.categories), r.value.value)
      && unchanged(db`posts, db`postCategories, db`nextPostId, db`nextCategoryId, db`nextPostCategoryId)
  {
    if !AcceptsCategoryInput(input) {
      return Err(ValidationError);
    }
    var slug := MakeSlug(slugify, input.name);
    r := db.UpdateCategory(id, input.name, input.description, slug);
  }

  /** `category.delete`: deletes the row; the `ON DELETE CASCADE` of `category_id` takes
      every join row naming it. Always reports success. */
  method Delete(db: Database, id: int) returns (success: bool)
    requires db.Valid()
    modifies db
    ensures db.Valid()
    ensures success
    ensures db.categories == DeleteCategoryById(old(db.categories), id)
    ensures db.postCategories == DeleteWhereCategoryId(old(db.postCategories), id)
    ensures unchanged(db`posts, db`nextPostId, db`nextCategoryId, db`nextPostCategoryId)
    ensures id !in CategoryIds(db.categories)
    ensures forall l :: l in db.postCategories ==> l.categoryId != id
  {
    db.DeleteCategory(id);
    success := true;
  }

  /** `category.getAll`: every category, ordered by name. */
  method GetAll(db: Database) returns (r: seq<Category>)
    ensures SortedByName(r)
    ensures multiset(r) == multiset(db.categories)
  {
    SortByNameCorrect(db.categories);
    r := SortByName(db.categories);
  }

  /** `category.getBySlug`: the category with exactly that slug, or `null`. */
  method GetBySlug(db: Database, slug: string) returns (r: Option<Category>)
    requires db.Valid()
    ensures r.None? <==> slug !in CategorySlugs(db.categories)
    ensures r.Some? ==> r.value in db.categories && r.value.slug == slug
    ensures r.Some? ==> forall c :: c in db.categories && c.slug == slug ==> c == r.value
  {
    r := FindCategoryBySlug(db.categories, slug);
    if r.Some? {
      forall c | c in db.categories && c.slug == slug ensures c == r.value {
        var i :| 0 <= i < |db.categories| && db.categories[i] == c;
        var j :| 0 <= j < |db.categories| && db.categories[j] == r.value;
        assert i == j;
      }
    }
  }
}
