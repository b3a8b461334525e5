/**
 * The listing query shape `{q, tag, page, limit}` that both the cache key builder and the
 * snippet service destructure, with the defaults they both apply.
 */
module QueryParams {
  import opened Js
  import opened Wrappers

  /**
   * `q` and `tag` are untyped (`any`) in the source; `page` and `limit` are numbers or
   * absent (`None` stands for `undefined`, the only value a destructuring default replaces).
   */
  datatype Params = Params(q: Value, tag: Value, page: Option<int>, limit: Option<int>)

  const DefaultPage := 1
  const DefaultLimit := 20

  /** `page = 1` in the destructuring pattern. */
  function PageOf(p: Params): int
  {
    match p.page
    case None => DefaultPage
    case Some(n) => n
  }

  /** `limit = 20` in the destructuring pattern. */
  function LimitOf(p: Params): int
  {
    match p.limit
    case None => DefaultLimit
    case Some(n) => n
  }
}
