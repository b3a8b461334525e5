/**
 * `isValidCachedSnippet(obj)`: the defensive shape check applied to a record read back
 * from the cache.
 */
module ValidateCachedSnippet {
  import opened Js

  /** The four properties a cached record must carry as strings. */
  const RequiredKeys: set<string> := {"_id", "title", "code", "userId"}

  predicate HasStringField(fields: map<string, Value>, k: string)
  {
    k in fields && fields[k].Str?
  }

  function IsValidCachedSnippet(obj: Value): (r: bool)
    ensures r <==> obj.Obj? && forall k :: k in RequiredKeys ==> HasStringField(obj.fields, k)
    ensures obj.Null? || obj.Undefined? ==> !r
  {
    Truthy(obj) &&
    TypeOf(obj) == "object" &&
    TypeOf(Get(obj, "_id")) == "string" &&
    TypeOf(Get(obj, "title")) == "string" &&
    TypeOf(Get(obj, "code")) == "string" &&
    TypeOf(Get(obj, "userId")) == "string"
  }

  /** Anything that is not an object (a string, a number, an array, ...) is rejected. */
  lemma NonObjectRejected(obj: Value)
    requires !obj.Obj?
    ensures !IsValidCachedSnippet(obj)
  {
  }

  /** Properties other than the four required ones never affect the verdict. */
  lemma OptionalFieldsIrrelevant(fields: map<string, Value>, k: string, v: Value)
    requires k !in RequiredKeys
    ensures IsValidCachedSnippet(Obj(fields[k := v])) == IsValidCachedSnippet(Obj(fields))
    ensures IsValidCachedSnippet(Obj(fields - {k})) == IsValidCachedSnippet(Obj(fields))
  {
    assert forall j :: j in RequiredKeys ==>
      (HasStringField(fields[k := v], j) <==> HasStringField(fields, j));
    assert forall j :: j in RequiredKeys ==>
      (HasStringField(fields - {k}, j) <==> HasStringField(fields, j));
  }
}
