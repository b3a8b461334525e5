/**
 * The snippet endpoints' cache behaviour on the frontend: the tags a listing provides, and
 * the optimistic update `createSnippet` applies to the cached home listing: prepend a
 * placeholder, replace it by the saved snippet on success, undo the patch on failure.
 * The request itself is not modelled; its outcome is a parameter.
 */
module SnippetApi {
  import opened Wrappers

  /** A snippet as the API returns it. The placeholder has no owner, hence `userId` is optional. */
  datatype UserSnippet = UserSnippet(
    id: string,
    userId: Option<string>,
    title: string,
    code: string,
    language: Option<string>,
    framework: Option<string>,
    tags: Option<seq<string>>,
    summary: Option<string>,
    createdAt: int,
    updatedAt: int)

  /** The body of a create request. */
  datatype CreateSnippetData = CreateSnippetData(
    title: string,
    code: string,
    tags: Option<seq<string>>,
    language: Option<string>,
    framework: Option<string>,
    summary: Option<string>)

  /** A cached listing: the page of snippets and the total number of matches. */
  datatype ListData = ListData(snippets: seq<UserSnippet>, totalCount: int)

  /** The arguments a listing was fetched with; a `None` argument is not sent. */
  datatype QueryArgs = QueryArgs(q: Option<string>, tag: Option<string>, page: Option<int>, limit: Option<int>)

  /** The arguments of the home page's first listing, the only entry the patch touches. */
  const HomeArgs := QueryArgs(Some(""), Some(""), Some(1), None)

  /** The placeholder identifier. */
  const TempId := "temp-id"

  /** A cache tag: a snippet id, or the `LIST` tag that stands for every listing. */
  datatype CacheTag = SnippetTag(id: string) | ListTag

  /** `providesTags`: one tag per listed snippet, in order, then the list tag. */
  function ProvidesTags(res: Option<ListData>): (r: seq<CacheTag>)
    ensures res.None? ==> r == [ListTag]
    ensures res.Some? ==> |r| == |res.value.snippets| + 1 && r[|r| - 1] == ListTag
    ensures res.Some? ==> forall i :: 0 <= i < |res.value.snippets| ==>
              r[i] == SnippetTag(res.value.snippets[i].id)
  {
    match res
    case None => [ListTag]
    case Some(data) =>
      seq(|data.snippets|, i requires 0 <= i < |data.snippets| => SnippetTag(data.snippets[i].id)) + [ListTag]
  }

  /** Every listed snippet's id is tagged, and the list tag is always there. */
  lemma ProvidedTagsCoverListing(res: Option<ListData>, s: UserSnippet)
    requires res.Some? && s in res.value.snippets
    ensures SnippetTag(s.id) in ProvidesTags(res)
    ensures ListTag in ProvidesTags(res)
  {
    var k :| 0 <= k < |res.value.snippets| && res.value.snippets[k] == s;
    assert ProvidesTags(res)[k] == SnippetTag(s.id);
  }

  /** `{...newData, _id: 'temp-id', createdAt: new Date(), updatedAt: new Date()}`. */
  function Placeholder(newData: CreateSnippetData, now: int): (p: UserSnippet)
    ensures p.id == TempId && p.userId.None?
    ensures p.title == newData.title && p.code == newData.code && p.tags == newData.tags
  {
    UserSnippet(TempId, None, newData.title, newData.code, newData.language, newData.framework,
                newData.tags, newData.summary, now, now)
  }

  /** The optimistic patch: the placeholder goes first and the total grows by one. */
  function Prepend(data: ListData, p: UserSnippet): (r: ListData)
    ensures r.snippets == [p] + data.snippets && r.totalCount == data.totalCount + 1
  {
    ListData([p] + data.snippets, data.totalCount + 1)
  }

  /** `findIndex(s => s._id == 'temp-id')`, with `None` for -1. */
  function FindTemp(snippets: seq<UserSnippet>): (r: Option<nat>)
    ensures r.Some? ==> r.value < |snippets| && snippets[r.value].id == TempId
    ensures r.Some? ==> forall k :: 0 <= k < r.value ==> snippets[k].id != TempId
    ensures r.None? <==> forall k :: 0 <= k < |snippets| ==> snippets[k].id != TempId
  {
    if snippets == [] then None
    else if snippets[0].id == TempId then Some(0)
    else match FindTemp(snippets[1..])
      case None => None
      case Some(k) => Some(k + 1)
  }

  /** The confirmation patch: the first placeholder becomes the saved snippet. */
  function ReplaceTemp(data: ListData, saved: UserSnippet): (r: ListData)
    ensures r.totalCount == data.totalCount && |r.snippets| == |data.snippets|
    ensures FindTemp(data.snippets).None? ==> r == data
    ensures FindTemp(data.snippets).Some? ==>
              r.snippets == data.snippets[FindTemp(data.snippets).value := saved]
  {
    match FindTemp(data.snippets)
    case None => data
    case Some(i) => data.(snippets := data.snippets[i := saved])
  }

  /**
   * A successful create, end to end: the placeholder is the element replaced, so the entry
   * ends up with the saved snippet in front of the old listing and the total one higher,
   * whatever placeholders the old listing held.
   */
  lemma SuccessPrependsSaved(data: ListData, newData: CreateSnippetData, now: int, saved: UserSnippet)
    ensures ReplaceTemp(Prepend(data, Placeholder(newData, now)), saved) ==
              ListData([saved] + data.snippets, data.totalCount + 1)
  {
    var patched := Prepend(data, Placeholder(newData, now));
    assert FindTemp(patched.snippets) == Some(0);
    assert patched.snippets[0 := saved] == [saved] + data.snippets;
  }

  /** The cached listings by their query arguments. */
  class ListCache {
    var entries: map<QueryArgs, ListData>

    constructor (entries: map<QueryArgs, ListData>)
      ensures this.entries == entries
    {
      this.entries := entries;
    }

    /**
     * `updateQueryData('getSnippets', HomeArgs, ...)` with the optimistic recipe. Returns what
     * `patch.undo()` restores: the entry as it was, or `None` when there was no such entry,
     * in which case nothing is patched.
     */
    method PatchHome(newData: CreateSnippetData, now: int) returns (before: Option<ListData>)
      modifies this
      ensures HomeArgs in old(entries) ==>
                before == Some(old(entries)[HomeArgs]) &&
                entries == old(entries)[HomeArgs := Prepend(old(entries)[HomeArgs], Placeholder(newData, now))]
      ensures HomeArgs !in old(entries) ==> before.None? && entries == old(entries)
    {
      if HomeArgs in entries {
        var data := entries[HomeArgs];
        entries := entries[HomeArgs := Prepend(data, Placeholder(newData, now))];
        before := Some(data);
      } else {
        before := None;
      }
    }

    /** The confirmation recipe on the home entry, when there is one. */
    method ConfirmHome(saved: UserSnippet)
      modifies this
      ensures HomeArgs in old(entries) ==>
                entries == old(entries)[HomeArgs := ReplaceTemp(old(entries)[HomeArgs], saved)]
      ensures HomeArgs !in old(entries) ==> entries == old(entries)
    {
      if HomeArgs in entries {
        entries := entries[HomeArgs := ReplaceTemp(entries[HomeArgs], saved)];
      }
    }

    /** `patch.undo()`: the home entry goes back to what it was before the patch. */
    method Undo(before: Option<ListData>)
      modifies this
      ensures before.Some? ==> entries == old(entries)[HomeArgs := before.value]
      ensures before.None? ==> entries == old(entries)
    {
      if before.Some? {
        entries := entries[HomeArgs := before.value];
      }
    }

    /**
     * `createSnippet`'s `onQueryStarted`, given how the request turns out (`Some(saved)` on
     * success). Only the home entry changes. On failure the cache is back where it started;
     * on success the saved snippet heads the home listing and its total is one higher.
     */
    method OnQueryStarted(newData: CreateSnippetData, now: int, outcome: Option<UserSnippet>)
      modifies this
      ensures outcome.None? ==> entries == old(entries)
      ensures outcome.Some? && HomeArgs in old(entries) ==>
                var data := old(entries)[HomeArgs];
                entries == old(entries)[HomeArgs := ListData([outcome.value] + data.snippets, data.totalCount + 1)]
      ensures HomeArgs !in old(entries) ==> entries == old(entries)
      ensures entries.Keys == old(entries).Keys
      ensures forall a :: a in entries && a != HomeArgs ==> entries[a] == old(entries)[a]
    {
      var before := PatchHome(newData, now);
      if outcome.Some? {
        SuccessPrependsSaved(if before.Some? then before.value else ListData([], 0), newData, now, outcome.value);
        ConfirmHome(outcome.value);
      } else {
        Undo(before);
      }
    }
  }
}
