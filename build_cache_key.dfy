/**
 * `buildCacheKey(userId, params, snippetId)`: the deterministic cache key for a listing
 * query or for a single snippet. As written, the single-snippet template is
 * `snippets:${userId}:$snippetId}`, so the id itself never reaches the key.
 */
module BuildCacheKey {
  import opened Js
  import opened Wrappers
  import opened QueryParams

  /** Destructuring `undefined` (or `null`) throws a TypeError. */
  datatype KeyError = CannotDestructureParams

  /** The owner's namespace that every key starts with. */
  function Namespace(userId: string): string
  {
    "snippets:" + userId + ":"
  }

  /** The text the single-snippet template produces as written, whatever the id. */
  const LiteralIdSuffix := "$snippetId}"

  /** The listing part of a key: `${q}:${tag}:${page}:${limit}`. */
  function ListingPart(p: Params): string
  {
    ToJsString(p.q) + ":" + ToJsString(p.tag) + ":" +
    IntToDecimal(PageOf(p)) + ":" + IntToDecimal(LimitOf(p))
  }

  /** The key builder as written. `params` is `None` when it is `undefined` or `null`. */
  function BuildCacheKey(userId: string, params: Option<Params>, snippetId: Value): (r: Result<string, KeyError>)
    ensures r.Err? <==> !Truthy(snippetId) && params.None?
    ensures r.Ok? ==> StartsWith(r.value, Namespace(userId))
  {
    if Truthy(snippetId) then Ok(Namespace(userId) + LiteralIdSuffix)
    else match params
      case None => Err(CannotDestructureParams)
      case Some(p) => Ok(Namespace(userId) + ListingPart(p))
  }

  /** Any two truthy snippet ids give the same key: the id is not part of it. */
  lemma SingleKeyIgnoresId(userId: string, p1: Option<Params>, p2: Option<Params>, id1: Value, id2: Value)
    requires Truthy(id1) && Truthy(id2)
    ensures BuildCacheKey(userId, p1, id1) == BuildCacheKey(userId, p2, id2)
    ensures BuildCacheKey(userId, p1, id1) == Ok("snippets:" + userId + ":$snippetId}")
  {
    assert ":" + LiteralIdSuffix == ":$snippetId}";
    assert Namespace(userId) + LiteralIdSuffix == "snippets:" + userId + (":" + LiteralIdSuffix);
  }

  /** Two different snippets of one owner share one cache entry. */
  lemma SingleKeyCollides(userId: string)
    ensures Str("a") != Str("b")
    ensures BuildCacheKey(userId, None, Str("a")) == BuildCacheKey(userId, None, Str("b"))
  {
  }

  /** An absent `page` is rendered as 1 and an absent `limit` as 20. */
  lemma ListingDefaults(userId: string, q: Value, tag: Value, snippetId: Value)
    requires !Truthy(snippetId)
    ensures BuildCacheKey(userId, Some(Params(q, tag, None, None)), snippetId)
         == BuildCacheKey(userId, Some(Params(q, tag, Some(1), Some(20))), snippetId)
  {
  }

  /** An absent `q` or `tag` appears in the key as the text `undefined`. */
  lemma AbsentFiltersRenderUndefined(userId: string)
    ensures BuildCacheKey(userId, Some(Params(Undefined, Undefined, None, None)), Undefined)
         == Ok(Namespace(userId) + "undefined:undefined:1:20")
  {
    assert NatToDecimal(1) == "1";
    assert NatToDecimal(20) == NatToDecimal(2) + [DecimalDigit(0)];
    var rest := "undefined" + ":" + "undefined" + ":" + "1" + ":" + "20";
    assert rest == "undefined:undefined:1:20";
    assert ListingPart(Params(Undefined, Undefined, None, None)) == rest;
  }

  /** The listing fields are joined with `:` unescaped, so distinct query shapes can share a key. */
  lemma ListingKeysCanCollide(userId: string)
    ensures Params(Str("a:b"), Str("c"), None, None) != Params(Str("a"), Str("b:c"), None, None)
    ensures BuildCacheKey(userId, Some(Params(Str("a:b"), Str("c"), None, None)), Null)
         == BuildCacheKey(userId, Some(Params(Str("a"), Str("b:c"), None, None)), Null)
  {
    assert ListingPart(Params(Str("a:b"), Str("c"), None, None))
        == ListingPart(Params(Str("a"), Str("b:c"), None, None));
  }

  /** The key builder with the template evidently intended, `snippets:${userId}:${snippetId}`. */
  function BuildCacheKeyIntended(userId: string, params: Option<Params>, snippetId: Value): (r: Result<string, KeyError>)
    ensures r.Err? <==> !Truthy(snippetId) && params.None?
    ensures r.Ok? ==> StartsWith(r.value, Namespace(userId))
    ensures !Truthy(snippetId) ==> r == BuildCacheKey(userId, params, snippetId)
  {
    if Truthy(snippetId) then Ok(Namespace(userId) + ToJsString(snippetId))
    else BuildCacheKey(userId, params, snippetId)
  }

  /** With the intended template, distinct string ids of one owner get distinct keys. */
  lemma IntendedKeysSeparateIds(userId: string, p: Option<Params>, id1: string, id2: string)
    requires id1 != "" && id2 != "" && id1 != id2
    ensures BuildCacheKeyIntended(userId, p, Str(id1)) != BuildCacheKeyIntended(userId, p, Str(id2))
  {
    var ns := Namespace(userId);
    assert (ns + id1)[|ns|..] == id1;
    assert (ns + id2)[|ns|..] == id2;
  }
}
