/** `makeSlug`: the slug derived from a post title or a category name. */
module Slugify {

  /** The length `makeSlug` cuts the library's slug down to. */
  const MaxSlugLength: nat := 240

  /** `makeSlug(input)`. The third-party `slugify` call (with its `lower`, `strict` and
      `remove` options) is the parameter `slugify`, since its code is not part of this
      model; what remains is the `.slice(0, 240)` applied to its output. */
  function MakeSlug(slugify: string -> string, input: string): (r: string)
    ensures |r| <= MaxSlugLength
    ensures r <= slugify(input)
    ensures |slugify(input)| <= MaxSlugLength ==> r == slugify(input)
    ensures |slugify(input)| > MaxSlugLength ==> |r| == MaxSlugLength
  {
    var s := slugify(input);
    if |s| <= MaxSlugLength then s else s[..MaxSlugLength]
  }

  /** The characters a "strict", "lower" slug is made of: `[a-z0-9-]`. */
  predicate IsSlugChar(c: char) {
    ('a' <= c <= 'z') || ('0' <= c <= '9') || c == '-'
  }

  /** The characters the `remove` option strips: `* + ~ . ( ) ' " ! : @`. */
  predicate IsRemovedChar(c: char) {
    c in {'*', '+', '~', '.', '(', ')', '\'', '"', '!', ':', '@'}
  }

  predicate IsUpperCase(c: char) {
    'A' <= c <= 'Z'
  }

  /** What the library's options promise about one output is kept by the truncation:
      if `slugify(input)` is made of `[a-z0-9-]` only, the slug is lower-case, has
      none of the removed punctuation and is made of `[a-z0-9-]` only. */
  lemma MakeSlugCharacters(slugify: string -> string, input: string)
    requires forall i :: 0 <= i < |slugify(input)| ==> IsSlugChar(slugify(input)[i])
    ensures forall i :: 0 <= i < |MakeSlug(slugify, input)| ==>
      var c := MakeSlug(slugify, input)[i];
      IsSlugChar(c) && !IsRemovedChar(c) && !IsUpperCase(c)
  {
  }
}
