/**
 * The `snippet` slice of the frontend store: list filters and selection for the home page,
 * the sandbox draft, and one edit buffer per snippet being edited. Each reducer is a method
 * of `SnippetSlice` that changes the state in place, as the reducers do on their draft state.
 */
module SnippetSlice {
  import opened Js
  import opened Wrappers

  /** A snippet as the editing forms hold it. */
  datatype SnippetDraft = SnippetDraft(
    title: string,
    code: string,
    tags: seq<string>,
    language: string,
    framework: string,
    summary: string)

  /** The form reset value: every text empty, no tags. */
  const EmptyDraft := SnippetDraft("", "", [], "", "", "")

  /** The text-valued fields of a draft. */
  datatype TextField = Title | Code | Language | Framework | Summary

  /** `{field, value}` payloads: a text field with its text, or the tag list. */
  datatype FieldUpdate = SetText(field: TextField, text: string) | SetTags(tags: seq<string>)

  /** The home page's list state. `filters` holds the search parameters by name. */
  datatype ListState = ListState(
    filters: map<string, Value>,
    selectedIds: seq<string>,
    lastOpenedId: Option<string>)

  /** The sandbox form. */
  datatype SandboxState = SandboxState(draft: SnippetDraft, isSaving: bool, error: Option<string>)

  const InitialFilters: map<string, Value> := map["q" := Str(""), "tag" := Str(""), "page" := Num(1)]
  const ClearedFilters: map<string, Value> := map["q" := Str(""), "tag" := Str("")]
  const InitialList := ListState(InitialFilters, [], None)
  const InitialSandbox := SandboxState(EmptyDraft, false, None)

  // ---------------------------------------------------------------------------------------
  // Pure parts of the reducers
  // ---------------------------------------------------------------------------------------

  /** `draft[field] = value`. */
  function WithField(d: SnippetDraft, u: FieldUpdate): (r: SnippetDraft)
    ensures u.SetTags? ==> r == d.(tags := u.tags)
    ensures u.SetText? ==> r.tags == d.tags
    ensures u.SetText? ==> (r.title == if u.field == Title then u.text else d.title)
    ensures u.SetText? ==> (r.code == if u.field == Code then u.text else d.code)
    ensures u.SetText? ==> (r.language == if u.field == Language then u.text else d.language)
    ensures u.SetText? ==> (r.framework == if u.field == Framework then u.text else d.framework)
    ensures u.SetText? ==> (r.summary == if u.field == Summary then u.text else d.summary)
  {
    match u
    case SetTags(ts) => d.(tags := ts)
    case SetText(f, t) =>
      match f
      case Title => d.(title := t)
      case Code => d.(code := t)
      case Language => d.(language := t)
      case Framework => d.(framework := t)
      case Summary => d.(summary := t)
  }

  /** No tag occurs twice. */
  predicate Distinct(tags: seq<string>)
  {
    forall i, j :: 0 <= i < j < |tags| ==> tags[i] != tags[j]
  }

  /** `if (!tags.includes(t)) tags.push(t)`. */
  function WithTag(tags: seq<string>, t: string): (r: seq<string>)
    ensures t in r
    ensures forall u :: u in r <==> u in tags || u == t
    ensures |tags| <= |r| <= |tags| + 1 && r[..|tags|] == tags
  {
    if t in tags then tags else tags + [t]
  }

  /** `tags.filter(x => x !== t)`. */
  function WithoutTag(tags: seq<string>, t: string): (r: seq<string>)
    ensures t !in r
    ensures forall u :: u != t ==> multiset(r)[u] == multiset(tags)[u]
    ensures |r| <= |tags|
  {
    if tags == [] then []
    else
      assert tags == [tags[0]] + tags[1..];
      (if tags[0] == t then [] else [tags[0]]) + WithoutTag(tags[1..], t)
  }

  /** Adding twice is adding once. */
  lemma WithTagIdempotent(tags: seq<string>, t: string)
    ensures WithTag(WithTag(tags, t), t) == WithTag(tags, t)
  {
  }

  /** Adding keeps a duplicate-free tag list duplicate-free. */
  lemma WithTagKeepsDistinct(tags: seq<string>, t: string)
    requires Distinct(tags)
    ensures Distinct(WithTag(tags, t))
  {
    if t !in tags {
      var r := tags + [t];
      forall i, j | 0 <= i < j < |r| ensures r[i] != r[j] {
        if j == |tags| {
          assert r[i] == tags[i];
        } else {
          assert r[i] == tags[i] && r[j] == tags[j];
        }
      }
    }
  }

  /** Removing keeps the remaining tags in their order: the result is `tags` without `t`'s slots. */
  lemma {:induction false} WithoutTagAbsent(tags: seq<string>, t: string)
    requires t !in tags
    ensures WithoutTag(tags, t) == tags
  {
    if tags != [] {
      WithoutTagAbsent(tags[1..], t);
      assert tags == [tags[0]] + tags[1..];
    }
  }

  /** Removal works piecewise on a concatenation. */
  lemma {:induction false} WithoutTagAppend(a: seq<string>, b: seq<string>, t: string)
    ensures WithoutTag(a + b, t) == WithoutTag(a, t) + WithoutTag(b, t)
  {
    if a != [] {
      WithoutTagAppend(a[1..], b, t);
      assert (a + b)[1..] == a[1..] + b;
      assert (a + b)[0] == a[0];
    } else {
      assert a + b == b;
    }
  }

  /** Removing a tag that was just added to a list without it gives the list back. */
  lemma RemoveUndoesAdd(tags: seq<string>, t: string)
    requires t !in tags
    ensures WithoutTag(WithTag(tags, t), t) == tags
  {
    WithoutTagAppend(tags, [t], t);
    WithoutTagAbsent(tags, t);
    assert WithoutTag([t], t) == [];
  }

  /** Removing twice is removing once. */
  lemma WithoutTagIdempotent(tags: seq<string>, t: string)
    ensures WithoutTag(WithoutTag(tags, t), t) == WithoutTag(tags, t)
  {
    WithoutTagAbsent(WithoutTag(tags, t), t);
  }

  /** Removing keeps a duplicate-free tag list duplicate-free. */
  lemma {:induction false} WithoutTagKeepsDistinct(tags: seq<string>, t: string)
    requires Distinct(tags)
    ensures Distinct(WithoutTag(tags, t))
  {
    if tags != [] {
      var h, rest := tags[0], tags[1..];
      assert Distinct(rest);
      WithoutTagKeepsDistinct(rest, t);
      var w := WithoutTag(rest, t);
      if h != t {
        assert h !in rest by {
          forall k | 0 <= k < |rest| ensures rest[k] != h {
            assert rest[k] == tags[k + 1];
          }
        }
        assert multiset(w)[h] == multiset(rest)[h] == 0;
        assert h !in w;
        var r := [h] + w;
        forall i, j | 0 <= i < j < |r| ensures r[i] != r[j] {
          assert r[j] == w[j - 1];
          if i > 0 {
            assert r[i] == w[i - 1];
          }
        }
      }
    }
  }

  // ---------------------------------------------------------------------------------------
  // The slice
  // ---------------------------------------------------------------------------------------

  class SnippetSlice {
    var list: ListState
    var sandbox: SandboxState
    /** One draft per snippet id being edited. */
    var editBuffers: map<string, SnippetDraft>

    /** Every draft, in the sandbox and in the buffers, has duplicate-free tags. */
    ghost predicate TagsDistinct()
      reads this
    {
      Distinct(sandbox.draft.tags) && forall id :: id in editBuffers ==> Distinct(editBuffers[id].tags)
    }

    /** `initialState`. */
    constructor ()
      ensures list == InitialList && sandbox == InitialSandbox && editBuffers == map[]
      ensures TagsDistinct()
    {
      list := InitialList;
      sandbox := InitialSandbox;
      editBuffers := map[];
    }

    // Home page actions

    /** `setFilters`: the payload's keys override, the other filters stay. */
    method SetFilters(payload: map<string, Value>)
      modifies this
      ensures list == old(list).(filters := old(list).filters + payload)
      ensures forall k :: k in payload ==> list.filters[k] == payload[k]
      ensures forall k :: k in old(list).filters && k !in payload ==> list.filters[k] == old(list).filters[k]
      ensures list.filters.Keys == old(list).filters.Keys + payload.Keys
      ensures sandbox == old(sandbox) && editBuffers == old(editBuffers)
    {
      list := list.(filters := list.filters + payload);
    }

    /** `clearFilters`: back to empty text filters, and the page key is gone. */
    method ClearFilters()
      modifies this
      ensures list == old(list).(filters := ClearedFilters)
      ensures "page" !in list.filters
      ensures sandbox == old(sandbox) && editBuffers == old(editBuffers)
    {
      list := list.(filters := ClearedFilters);
    }

    method SetSelectedIds(ids: seq<string>)
      modifies this
      ensures list == old(list).(selectedIds := ids)
      ensures sandbox == old(sandbox) && editBuffers == old(editBuffers)
    {
      list := list.(selectedIds := ids);
    }

    method ClearSelectedIds()
      modifies this
      ensures list == old(list).(selectedIds := [])
      ensures sandbox == old(sandbox) && editBuffers == old(editBuffers)
    {
      list := list.(selectedIds := []);
    }

    method SetLastOpenedId(id: Option<string>)
      modifies this
      ensures list == old(list).(lastOpenedId := id)
      ensures sandbox == old(sandbox) && editBuffers == old(editBuffers)
    {
      list := list.(lastOpenedId := id);
    }

    // Sandbox actions: each changes only `sandbox`.

    method SetDraft(d: SnippetDraft)
      modifies this
      ensures sandbox == old(sandbox).(draft := d)
      ensures list == old(list) && editBuffers == old(editBuffers)
    {
      sandbox := sandbox.(draft := d);
    }

    method ClearDraft()
      modifies this
      ensures sandbox == old(sandbox).(draft := EmptyDraft)
      ensures list == old(list) && editBuffers == old(editBuffers)
    {
      sandbox := sandbox.(draft := EmptyDraft);
    }

    method UpdateDraftField(u: FieldUpdate)
      modifies this
      ensures sandbox == old(sandbox).(draft := WithField(old(sandbox).draft, u))
      ensures list == old(list) && editBuffers == old(editBuffers)
    {
      sandbox := sandbox.(draft := WithField(sandbox.draft, u));
    }

    /** `addDraftTag`: the tag is appended when absent; duplicate-free tags stay so. */
    method AddDraftTag(t: string)
      modifies this
      ensures sandbox == old(sandbox).(draft := old(sandbox).draft.(tags := WithTag(old(sandbox).draft.tags, t)))
      ensures list == old(list) && editBuffers == old(editBuffers)
      ensures old(TagsDistinct()) ==> TagsDistinct()
    {
      if Distinct(sandbox.draft.tags) {
        WithTagKeepsDistinct(sandbox.draft.tags, t);
      }
      sandbox := sandbox.(draft := sandbox.draft.(tags := WithTag(sandbox.draft.tags, t)));
    }

    /** `removeDraftTag`: every occurrence goes, the other tags keep their order. */
    method RemoveDraftTag(t: string)
      modifies this
      ensures sandbox == old(sandbox).(draft := old(sandbox).draft.(tags := WithoutTag(old(sandbox).draft.tags, t)))
      ensures list == old(list) && editBuffers == old(editBuffers)
      ensures old(TagsDistinct()) ==> TagsDistinct()
    {
      if Distinct(sandbox.draft.tags) {
        WithoutTagKeepsDistinct(sandbox.draft.tags, t);
      }
      sandbox := sandbox.(draft := sandbox.draft.(tags := WithoutTag(sandbox.draft.tags, t)));
    }

    method SetDraftSaving(saving: bool)
      modifies this
      ensures sandbox == old(sandbox).(isSaving := saving)
      ensures list == old(list) && editBuffers == old(editBuffers)
    {
      sandbox := sandbox.(isSaving := saving);
    }

    method SetDraftError(error: Option<string>)
      modifies this
      ensures sandbox == old(sandbox).(error := error)
      ensures list == old(list) && editBuffers == old(editBuffers)
    {
      sandbox := sandbox.(error := error);
    }

    // Edit buffer actions: each changes only the buffer of its id.

    /** `loadEditBuffer`: the id's buffer becomes the data; other ids keep theirs. */
    method LoadEditBuffer(id: string, data: SnippetDraft)
      modifies this
      ensures editBuffers == old(editBuffers)[id := data]
      ensures forall other :: other != id ==>
                (other in editBuffers <==> other in old(editBuffers)) &&
                (other in editBuffers ==> editBuffers[other] == old(editBuffers)[other])
      ensures list == old(list) && sandbox == old(sandbox)
    {
      editBuffers := editBuffers[id := data];
    }

    /** `updateEditBufferField`: nothing happens when the id has no buffer. */
    method UpdateEditBufferField(id: string, u: FieldUpdate)
      modifies this
      ensures id in old(editBuffers) ==>
                editBuffers == old(editBuffers)[id := WithField(old(editBuffers)[id], u)]
      ensures id !in old(editBuffers) ==> editBuffers == old(editBuffers)
      ensures list == old(list) && sandbox == old(sandbox)
    {
      if id in editBuffers {
        editBuffers := editBuffers[id := WithField(editBuffers[id], u)];
      }
    }

    /** `addEditBufferTag`: nothing happens when the id has no buffer. */
    method AddEditBufferTag(id: string, t: string)
      modifies this
      ensures id in old(editBuffers) ==>
                var buf := old(editBuffers)[id];
                editBuffers == old(editBuffers)[id := buf.(tags := WithTag(buf.tags, t))]
      ensures id !in old(editBuffers) ==> editBuffers == old(editBuffers)
      ensures list == old(list) && sandbox == old(sandbox)
      ensures old(TagsDistinct()) ==> TagsDistinct()
    {
      if id in editBuffers {
        var buf := editBuffers[id];
        if Distinct(buf.tags) {
          WithTagKeepsDistinct(buf.tags, t);
        }
        editBuffers := editBuffers[id := buf.(tags := WithTag(buf.tags, t))];
      }
    }

    /** `removeEditBufferTag`: nothing happens when the id has no buffer. */
    method RemoveEditBufferTag(id: string, t: string)
      modifies this
      ensures id in old(editBuffers) ==>
                var buf := old(editBuffers)[id];
                editBuffers == old(editBuffers)[id := buf.(tags := WithoutTag(buf.tags, t))]
      ensures id !in old(editBuffers) ==> editBuffers == old(editBuffers)
      ensures list == old(list) && sandbox == old(sandbox)
      ensures old(TagsDistinct()) ==> TagsDistinct()
    {
      if id in editBuffers {
        var buf := editBuffers[id];
        if Distinct(buf.tags) {
          WithoutTagKeepsDistinct(buf.tags, t);
        }
        editBuffers := editBuffers[id := buf.(tags := WithoutTag(buf.tags, t))];
      }
    }

    /** `clearEditBuffer`: exactly the id's buffer is dropped. */
    method ClearEditBuffer(id: string)
      modifies this
      ensures editBuffers == old(editBuffers) - {id}
      ensures id !in editBuffers && editBuffers.Keys == old(editBuffers).Keys - {id}
      ensures list == old(list) && sandbox == old(sandbox)
      ensures old(TagsDistinct()) ==> TagsDistinct()
    {
      editBuffers := editBuffers - {id};
    }
  }
}
