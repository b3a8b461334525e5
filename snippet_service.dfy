/**
 * `SnippetService`: owner-scoped create, list/search, get, update and delete over the
 * snippet collection. The collection is the `records` field of the class, in insertion
 * order; identifiers are handed out by a counter standing for the store's id generator,
 * and the clock reading that fills the timestamps is a parameter.
 *
 * Behaviour of the document store that the outcome depends on is modelled explicitly:
 * the schema's `required` rule rejects an empty string on create (but is not run by
 * `findOneAndUpdate`), `[String]` and `String` paths cast numbers and booleans to text,
 * a negative `skip` is an error, `limit(0)` means no limit and a negative limit counts as
 * its absolute value.
 */
module SnippetService {
  import opened Js
  import opened Wrappers
  import opened QueryParams
  import opened Errors
  import opened ValidateSnippet

  type Id = nat

  /** A stored snippet. Full validation guarantees every text field and the tag list exist. */
  datatype Snippet = Snippet(
    id: Id,
    userId: string,
    title: string,
    code: string,
    language: string,
    framework: string,
    tags: seq<string>,
    summary: string,
    createdAt: int,
    updatedAt: int)

  /** What the document store rejects by itself: the schema paths that failed, or a bad skip. */
  datatype StoreFault = SchemaRejected(paths: seq<string>) | NegativeSkip

  /** A thrown application error or a failure raised by the store. */
  datatype ServiceError = Thrown(error: AppError) | StoreFailed(fault: StoreFault)

  const NotFound: ServiceError := Thrown(NotFoundError("Snippet not found"))

  // ---------------------------------------------------------------------------------------
  // From request data to a record
  // ---------------------------------------------------------------------------------------

  /** Casting a value to a schema `String`: text stays, numbers and booleans are rendered. */
  function CastString(v: Value): (r: Option<string>)
    ensures v.Str? ==> r == Some(v.s)
    ensures r.None? <==> !(v.Str? || v.Num? || v.Bool?)
  {
    match v
    case Str(s) => Some(s)
    case Num(n) => Some(IntToDecimal(n))
    case Bool(b) => Some(if b then "true" else "false")
    case _ => None
  }

  /** Casting an array to `[String]`: every element must cast. */
  function CastTags(items: seq<Value>): (r: Option<seq<string>>)
    ensures r.Some? <==> forall i :: 0 <= i < |items| ==> CastString(items[i]).Some?
    ensures r.Some? ==> |r.value| == |items|
    ensures r.Some? ==> forall i :: 0 <= i < |items| ==> Some(r.value[i]) == CastString(items[i])
  {
    if items == [] then Some([])
    else match (CastString(items[0]), CastTags(items[1..]))
      case (Some(t), Some(ts)) => Some([t] + ts)
      case _ => None
  }

  /** The text of a field that validation has already found to be a string. */
  function TextOf(data: map<string, Value>, k: string): string
  {
    var v := Field(data, k);
    if v.Str? then v.s else ""
  }

  /** The elements of the `tags` array (validation has already found it to be one). */
  function TagItems(data: map<string, Value>): seq<Value>
  {
    var v := Field(data, "tags");
    if v.Arr? then v.items else []
  }

  /** The schema paths that reject `{...snippetData, userId}` on create, in schema order. */
  function CreateFaults(userId: string, data: map<string, Value>): seq<string>
  {
    (if userId == "" then ["userId"] else []) +
    (if TextOf(data, "title") == "" then ["title"] else []) +
    (if TextOf(data, "code") == "" then ["code"] else []) +
    (if CastTags(TagItems(data)).None? then ["tags"] else [])
  }

  /** The record `Snippet.create({...snippetData, userId})` stores. */
  function NewSnippet(id: Id, userId: string, data: map<string, Value>, now: int): (s: Snippet)
    requires CastTags(TagItems(data)).Some?
    ensures s.id == id && s.userId == userId
    ensures s.createdAt == now && s.updatedAt == now
  {
    Snippet(id, userId, TextOf(data, "title"), TextOf(data, "code"), TextOf(data, "language"),
            TextOf(data, "framework"), CastTags(TagItems(data)).value, TextOf(data, "summary"),
            now, now)
  }

  /** The owner of a created record is the caller, whatever `userId` the data carries. */
  lemma CreateIgnoresDataOwner(id: Id, userId: string, data: map<string, Value>, other: Value, now: int)
    requires CastTags(TagItems(data)).Some?
    ensures CastTags(TagItems(data["userId" := other])).Some?
    ensures NewSnippet(id, userId, data["userId" := other], now) == NewSnippet(id, userId, data, now)
    ensures CreateFaults(userId, data["userId" := other]) == CreateFaults(userId, data)
  {
    assert forall k :: k != "userId" ==> Field(data["userId" := other], k) == Field(data, k);
  }

  /** An empty title or code is accepted by the validator but rejected by the schema. */
  lemma EmptyTitleRejectedByStore(userId: string, data: map<string, Value>)
    requires Field(data, "title") == Str("")
    ensures "title" in CreateFaults(userId, data)
  {
    var f := CreateFaults(userId, data);
    var a := if userId == "" then ["userId"] else [];
    assert f == a + ["title"] + (if TextOf(data, "code") == "" then ["code"] else []) +
                (if CastTags(TagItems(data)).None? then ["tags"] else []);
    assert f[|a|] == "title";
  }

  /** The schema paths that make `findOneAndUpdate` throw a cast error. */
  function UpdateFaults(data: map<string, Value>): seq<string>
  {
    (if "userId" in data && CastString(data["userId"]).None? then ["userId"] else []) +
    (if CastTags(TagItems(data)).None? then ["tags"] else [])
  }

  /** The record after `findOneAndUpdate(filter, snippetData, {new: true})`. */
  function Updated(s: Snippet, data: map<string, Value>, now: int): (u: Snippet)
    requires UpdateFaults(data) == []
    ensures u.id == s.id && u.createdAt == s.createdAt && u.updatedAt == now
    ensures "userId" !in data ==> u.userId == s.userId
  {
    assert CastTags(TagItems(data)).Some?;
    var owner := if "userId" in data then CastString(data["userId"]).value else s.userId;
    s.(userId := owner,
       title := TextOf(data, "title"), code := TextOf(data, "code"),
       language := TextOf(data, "language"), framework := TextOf(data, "framework"),
       tags := CastTags(TagItems(data)).value, summary := TextOf(data, "summary"),
       updatedAt := now)
  }

  /** The update data is passed to the store unfiltered, so a `userId` in it moves the record. */
  lemma UpdateCanReassignOwner(s: Snippet, data: map<string, Value>, other: string, now: int)
    requires UpdateFaults(data) == []
    ensures UpdateFaults(data["userId" := Str(other)]) == []
    ensures Updated(s, data["userId" := Str(other)], now).userId == other
  {
    assert TagItems(data["userId" := Str(other)]) == TagItems(data);
  }

  // ---------------------------------------------------------------------------------------
  // The listing query
  // ---------------------------------------------------------------------------------------

  /** Case-insensitive substring test, standing for `new RegExp(q, 'i').test(text)`. */
  predicate MatchesIgnoringCase(text: string, q: string)
  {
    Contains(Lower(text), Lower(q))
  }

  /** `query.tags = tag` when `tag` is a string: the record's tags must contain it. */
  predicate TagFilter(s: Snippet, tag: Value)
  {
    tag.Str? ==> tag.s in s.tags
  }

  /** `query.$or` when `q` is a string that is not blank: title or code must match. */
  predicate KeywordFilter(s: Snippet, q: Value)
  {
    (q.Str? && Trim(q.s) != "") ==>
      MatchesIgnoringCase(s.title, q.s) || MatchesIgnoringCase(s.code, q.s)
  }

  /** The whole `find` filter: the caller's records that pass the tag and keyword filters. */
  predicate Matches(s: Snippet, userId: string, p: Params)
  {
    s.userId == userId && TagFilter(s, p.tag) && KeywordFilter(s, p.q)
  }

  /** The matching records, in store order. */
  function Selected(records: seq<Snippet>, userId: string, p: Params): (r: seq<Snippet>)
    ensures |r| <= |records|
    ensures forall s :: s in r <==> s in records && Matches(s, userId, p)
  {
    if records == [] then []
    else (if Matches(records[0], userId, p) then [records[0]] else [])
         + Selected(records[1..], userId, p)
  }

  /** Newest first: `createdAt` never increases along the sequence. */
  predicate SortedNewestFirst(s: seq<Snippet>)
  {
    forall i, j :: 0 <= i < j < |s| ==> s[i].createdAt >= s[j].createdAt
  }

  /** Insert `x` in front of the first record that is not newer than it. */
  function InsertNewest(x: Snippet, sorted: seq<Snippet>): seq<Snippet>
  {
    if sorted == [] || x.createdAt >= sorted[0].createdAt then [x] + sorted
    else [sorted[0]] + InsertNewest(x, sorted[1..])
  }

  /** `.sort({createdAt: -1})`, stable: records created at the same time keep store order. */
  function NewestFirst(s: seq<Snippet>): seq<Snippet>
  {
    if s == [] then [] else InsertNewest(s[0], NewestFirst(s[1..]))
  }

  /** Inserting adds exactly the one record. */
  lemma {:induction false} InsertNewestPermutes(x: Snippet, sorted: seq<Snippet>)
    ensures multiset(InsertNewest(x, sorted)) == multiset(sorted) + multiset{x}
    ensures |InsertNewest(x, sorted)| == |sorted| + 1
  {
    if sorted != [] && x.createdAt < sorted[0].createdAt {
      InsertNewestPermutes(x, sorted[1..]);
      assert sorted == [sorted[0]] + sorted[1..];
    }
  }

  /** A record no older than every record behind it can head a sorted sequence. */
  lemma PrependSorted(h: Snippet, r: seq<Snippet>)
    requires SortedNewestFirst(r)
    requires forall y :: y in multiset(r) ==> y.createdAt <= h.createdAt
    ensures SortedNewestFirst([h] + r)
  {
    forall j | 0 < j < |[h] + r| ensures ([h] + r)[j].createdAt <= h.createdAt {
      assert ([h] + r)[j] == r[j - 1];
      assert r[j - 1] in multiset(r);
    }
  }

  /** Inserting into a sorted sequence keeps it sorted. */
  lemma {:induction false} InsertNewestSorted(x: Snippet, sorted: seq<Snippet>)
    requires SortedNewestFirst(sorted)
    ensures SortedNewestFirst(InsertNewest(x, sorted))
  {
    if sorted == [] || x.createdAt >= sorted[0].createdAt {
      forall y: Snippet | y in multiset(sorted) ensures y.createdAt <= x.createdAt {
        var k :| 0 <= k < |sorted| && sorted[k] == y;
        assert sorted[0].createdAt >= sorted[k].createdAt;
      }
      PrependSorted(x, sorted);
    } else {
      var tail := sorted[1..];
      assert SortedNewestFirst(tail);
      InsertNewestSorted(x, tail);
      InsertNewestPermutes(x, tail);
      var rest := InsertNewest(x, tail);
      forall y: Snippet | y in multiset(rest) ensures y.createdAt <= sorted[0].createdAt {
        if y != x {
          assert y in multiset(tail);
          var k :| 0 <= k < |tail| && tail[k] == y;
          assert sorted[k + 1] == y;
        }
      }
      PrependSorted(sorted[0], rest);
    }
  }

  /** The listing order is newest first and reorders the records without losing any. */
  lemma NewestFirstSortsAndPermutes(s: seq<Snippet>)
    ensures SortedNewestFirst(NewestFirst(s))
    ensures multiset(NewestFirst(s)) == multiset(s)
    ensures |NewestFirst(s)| == |s|
  {
    NewestFirstSorted(s);
    NewestFirstPermutes(s);
  }

  lemma {:induction false} NewestFirstSorted(s: seq<Snippet>)
    ensures SortedNewestFirst(NewestFirst(s))
  {
    if s != [] {
      NewestFirstSorted(s[1..]);
      InsertNewestSorted(s[0], NewestFirst(s[1..]));
    }
  }

  lemma {:induction false} NewestFirstPermutes(s: seq<Snippet>)
    ensures multiset(NewestFirst(s)) == multiset(s)
    ensures |NewestFirst(s)| == |s|
  {
    if s != [] {
      NewestFirstPermutes(s[1..]);
      InsertNewestPermutes(s[0], NewestFirst(s[1..]));
      assert s == [s[0]] + s[1..];
    }
  }

  /** `(page - 1) * limit`. */
  function SkipOf(p: Params): int
  {
    (PageOf(p) - 1) * LimitOf(p)
  }

  /** The most records `.limit(n)` lets through: none for 0, otherwise `|n|`. */
  function Cap(limit: int, available: nat): (n: nat)
    ensures n <= available
    ensures limit != 0 ==> n <= (if limit < 0 then -limit else limit)
  {
    if limit == 0 then available
    else var m := if limit < 0 then -limit else limit; if m < available then m else available
  }

  /** `.skip(skip).limit(limit)` on an ordered result. */
  function Window(s: seq<Snippet>, skip: nat, limit: int): (r: seq<Snippet>)
    ensures skip >= |s| ==> r == []
    ensures skip < |s| ==> r == s[skip..skip + Cap(limit, |s| - skip)]
  {
    if skip >= |s| then [] else s[skip..skip + Cap(limit, |s| - skip)]
  }

  /** The listing of an owner, as the store computes it. */
  function Listing(records: seq<Snippet>, userId: string, p: Params): Result<seq<Snippet>, ServiceError>
  {
    if SkipOf(p) < 0 then Err(StoreFailed(NegativeSkip))
    else Ok(Window(NewestFirst(Selected(records, userId, p)), SkipOf(p), LimitOf(p)))
  }

  /** A slice of a newest-first sequence is newest first. */
  lemma SliceSorted(s: seq<Snippet>, lo: nat, hi: nat)
    requires lo <= hi <= |s| && SortedNewestFirst(s)
    ensures SortedNewestFirst(s[lo..hi])
  {
    forall i, j | 0 <= i < j < hi - lo ensures s[lo..hi][i].createdAt >= s[lo..hi][j].createdAt {
      assert s[lo..hi][i] == s[lo + i] && s[lo..hi][j] == s[lo + j];
    }
  }

  /** A slice holds some of the occurrences of the whole. */
  lemma SliceSubMultiset(s: seq<Snippet>, lo: nat, hi: nat)
    requires lo <= hi <= |s|
    ensures multiset(s[lo..hi]) <= multiset(s)
  {
    assert s == s[..lo] + s[lo..hi] + s[hi..];
  }

  /** A window of a newest-first sequence is newest first, capped, and part of the whole. */
  lemma WindowOfSorted(s: seq<Snippet>, skip: nat, limit: int)
    requires SortedNewestFirst(s)
    ensures SortedNewestFirst(Window(s, skip, limit))
    ensures limit != 0 ==> |Window(s, skip, limit)| <= (if limit < 0 then -limit else limit)
    ensures multiset(Window(s, skip, limit)) <= multiset(s)
  {
    if skip < |s| {
      var n := Cap(limit, |s| - skip);
      var w := s[skip..skip + n];
      assert Window(s, skip, limit) == w && |w| == n;
      SliceSorted(s, skip, skip + n);
      SliceSubMultiset(s, skip, skip + n);
    } else {
      assert Window(s, skip, limit) == [];
    }
  }

  /**
   * Every listed record is one of the caller's records that passes the filters; the page is
   * newest first; it holds at most `|limit|` records (any number for limit 0); and its
   * records are distinct occurrences of records in the store.
   */
  lemma ListingProperties(records: seq<Snippet>, userId: string, p: Params)
    requires SkipOf(p) >= 0
    ensures var page := Listing(records, userId, p).value;
      && (forall s :: s in page ==> s in records && Matches(s, userId, p))
      && SortedNewestFirst(page)
      && (LimitOf(p) != 0 ==> |page| <= (if LimitOf(p) < 0 then -LimitOf(p) else LimitOf(p)))
      && multiset(page) <= multiset(Selected(records, userId, p))
  {
    var sel := Selected(records, userId, p);
    NewestFirstSortsAndPermutes(sel);
    var page := Window(NewestFirst(sel), SkipOf(p), LimitOf(p));
    WindowOfSorted(NewestFirst(sel), SkipOf(p), LimitOf(p));
    assert multiset(page) <= multiset(sel);
    forall s | s in page ensures s in records && Matches(s, userId, p) {
      assert s in multiset(page);
      assert s in multiset(sel);
    }
  }

  /** Identifiers are distinct and all below the next one to be handed out. */
  ghost predicate IdsBelow(records: seq<Snippet>, nextId: Id)
  {
    (forall i, j :: 0 <= i < j < |records| ==> records[i].id != records[j].id) &&
    (forall i :: 0 <= i < |records| ==> records[i].id < nextId)
  }

  /** Appending a record with the next identifier keeps identifiers distinct. */
  lemma AppendFreshId(records: seq<Snippet>, nextId: Id, s: Snippet)
    requires IdsBelow(records, nextId) && s.id == nextId
    ensures IdsBelow(records + [s], nextId + 1)
  {
    var r := records + [s];
    forall i | 0 <= i < |r| ensures r[i].id < nextId + 1 {
      if i < |records| { assert r[i] == records[i]; }
    }
    forall i, j | 0 <= i < j < |r| ensures r[i].id != r[j].id {
      assert r[i] == records[i];
      if j < |records| { assert r[j] == records[j]; }
    }
  }

  /** Owned and identified: the record `{_id: snippetId, userId}` selects. */
  predicate Owned(s: Snippet, userId: string, id: Id)
  {
    s.id == id && s.userId == userId
  }

  /** The index of the first record owned by `userId` with identifier `id`. */
  function FindOwned(records: seq<Snippet>, userId: string, id: Id): (r: Option<nat>)
    ensures r.Some? ==> r.value < |records| && Owned(records[r.value], userId, id)
    ensures r.Some? ==> forall k :: 0 <= k < r.value ==> !Owned(records[k], userId, id)
    ensures r.None? <==> forall k :: 0 <= k < |records| ==> !Owned(records[k], userId, id)
  {
    if records == [] then None
    else if Owned(records[0], userId, id) then Some(0)
    else match FindOwned(records[1..], userId, id)
      case None => None
      case Some(k) => Some(k + 1)
  }

  // ---------------------------------------------------------------------------------------
  // The service
  // ---------------------------------------------------------------------------------------

  class SnippetStore {
    /** The snippet collection, in insertion order. */
    var records: seq<Snippet>
    /** The identifier the store hands out next. */
    var nextId: Id

    /** Identifiers are unique and were all handed out already. */
    ghost predicate Valid()
      reads this
    {
      IdsBelow(records, nextId)
    }

    constructor ()
      ensures Valid() && records == [] && nextId == 0
    {
      records := [];
      nextId := 0;
    }

    /** `createSnippet(userId, snippetData)`: full validation, then `Snippet.create`. */
    method CreateSnippet(userId: string, snippetData: map<string, Value>, now: int)
      returns (r: Result<Snippet, ServiceError>)
      requires Valid()
      modifies this
      ensures Valid()
      ensures ExpectedErrors(snippetData, false) != [] ==>
                r == Err(Thrown(ValidationError(ExpectedErrors(snippetData, false))))
      ensures ExpectedErrors(snippetData, false) == [] && CreateFaults(userId, snippetData) != [] ==>
                r == Err(StoreFailed(SchemaRejected(CreateFaults(userId, snippetData))))
      ensures ExpectedErrors(snippetData, false) == [] && CreateFaults(userId, snippetData) == [] ==>
                r.Ok?
      ensures r.Err? ==> records == old(records) && nextId == old(nextId)
      ensures r.Ok? ==>
                && ExpectedErrors(snippetData, false) == [] && CreateFaults(userId, snippetData) == []
                && CastTags(TagItems(snippetData)).Some?
                && r.value == NewSnippet(old(nextId), userId, snippetData, now)
                && r.value.userId == userId
                && records == old(records) + [r.value] && nextId == old(nextId) + 1
    {
      var check := Validate(snippetData, false);
      if check.Failed? {
        return Err(Thrown(ValidationError(check.errors)));
      }
      var faults := CreateFaults(userId, snippetData);
      if faults != [] {
        return Err(StoreFailed(SchemaRejected(faults)));
      }
      assert CastTags(TagItems(snippetData)).Some?;
      var snippet := NewSnippet(nextId, userId, snippetData, now);
      AppendFreshId(records, nextId, snippet);
      records := records + [snippet];
      nextId := nextId + 1;
      r := Ok(snippet);
    }

    /** `getAllSnippets(userId, queryParams)`: filter, newest first, skip, limit. */
    method GetAllSnippets(userId: string, queryParams: Params) returns (r: Result<seq<Snippet>, ServiceError>)
      ensures SkipOf(queryParams) < 0 ==> r == Err(StoreFailed(NegativeSkip))
      ensures SkipOf(queryParams) >= 0 ==>
                r == Ok(Window(NewestFirst(Selected(records, userId, queryParams)),
                               SkipOf(queryParams), LimitOf(queryParams)))
      ensures r.Ok? ==> forall s :: s in r.value ==> s in records && Matches(s, userId, queryParams)
      ensures r.Ok? ==> SortedNewestFirst(r.value)
      ensures r.Ok? && LimitOf(queryParams) > 0 ==> |r.value| <= LimitOf(queryParams)
    {
      var skip := SkipOf(queryParams);
      if skip < 0 {
        return Err(StoreFailed(NegativeSkip));
      }
      ListingProperties(records, userId, queryParams);
      var found := Selected(records, userId, queryParams);
      r := Ok(Window(NewestFirst(found), skip, LimitOf(queryParams)));
    }

    /** `getSnippetById(userId, snippetId)`: the caller's record, or `NotFoundError`. */
    method GetSnippetById(userId: string, snippetId: Id) returns (r: Result<Snippet, ServiceError>)
      ensures r.Ok? ==> r.value in records && r.value.id == snippetId && r.value.userId == userId
      ensures r.Err? <==> forall k :: 0 <= k < |records| ==> !Owned(records[k], userId, snippetId)
      ensures r.Err? ==> r == Err(NotFound)
    {
      var i := FindOwned(records, userId, snippetId);
      if i.None? {
        return Err(NotFound);
      }
      r := Ok(records[i.value]);
    }

    /**
     * `updateSnippet(userId, snippetId, snippetData)`: full validation, then
     * `findOneAndUpdate` scoped by owner. Only the matched record changes.
     */
    method UpdateSnippet(userId: string, snippetId: Id, snippetData: map<string, Value>, now: int)
      returns (r: Result<Snippet, ServiceError>)
      requires Valid()
      modifies this
      ensures Valid() && nextId == old(nextId)
      ensures ExpectedErrors(snippetData, false) != [] ==>
                r == Err(Thrown(ValidationError(ExpectedErrors(snippetData, false))))
      ensures ExpectedErrors(snippetData, false) == [] && UpdateFaults(snippetData) != [] ==>
                r == Err(StoreFailed(SchemaRejected(UpdateFaults(snippetData))))
      ensures (ExpectedErrors(snippetData, false) == [] && UpdateFaults(snippetData) == [] &&
               FindOwned(old(records), userId, snippetId).None?) ==> r == Err(NotFound)
      ensures (ExpectedErrors(snippetData, false) == [] && UpdateFaults(snippetData) == []
               && FindOwned(old(records), userId, snippetId).Some?) ==> r.Ok?
      ensures r.Err? ==> records == old(records)
      ensures r.Ok? ==>
                && ExpectedErrors(snippetData, false) == [] && UpdateFaults(snippetData) == []
                && var i := FindOwned(old(records), userId, snippetId);
                && i.Some?
                && r.value == Updated(old(records)[i.value], snippetData, now)
                && records == old(records)[i.value := r.value]
    {
      var check := Validate(snippetData, false);
      if check.Failed? {
        return Err(Thrown(ValidationError(check.errors)));
      }
      var faults := UpdateFaults(snippetData);
      if faults != [] {
        return Err(StoreFailed(SchemaRejected(faults)));
      }
      var i := FindOwned(records, userId, snippetId);
      if i.None? {
        return Err(NotFound);
      }
      var updated := Updated(records[i.value], snippetData, now);
      records := records[i.value := updated];
      r := Ok(updated);
    }

    /** `deleteSnippet(userId, snippetId)`: `findOneAndDelete` scoped by owner. */
    method DeleteSnippet(userId: string, snippetId: Id) returns (r: Result<(), ServiceError>)
      requires Valid()
      modifies this
      ensures Valid() && nextId == old(nextId)
      ensures FindOwned(old(records), userId, snippetId).None? ==>
                r == Err(NotFound) && records == old(records)
      ensures FindOwned(old(records), userId, snippetId).Some? ==>
                var i := FindOwned(old(records), userId, snippetId).value;
                r == Ok(()) && records == old(records)[..i] + old(records)[i + 1..]
      ensures r.Ok? ==> forall k :: 0 <= k < |records| ==> records[k].id != snippetId
    {
      var i := FindOwned(records, userId, snippetId);
      if i.None? {
        return Err(NotFound);
      }
      ghost var before := records;
      records := records[..i.value] + records[i.value + 1..];
      forall k | 0 <= k < |records| ensures records[k].id != snippetId {
        if k < i.value {
          assert records[k] == before[k];
        } else {
          assert records[k] == before[k + 1];
        }
      }
      r := Ok(());
    }
  }
}
