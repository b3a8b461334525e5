/**
 * `validateSnippet(data, partial)`: a field-by-field type check of snippet input that
 * collects one message per failing field, in a fixed order, and reports `{ok: true}` when
 * nothing was collected. `data` is modelled as the property map of a plain object.
 */
module ValidateSnippet {
  import opened Js

  /** `{ok: true}` or `{ok: false, errors}`. */
  datatype Check = Passed | Failed(errors: seq<string>)

  /** One line of the validator: the field it looks at, whether it wants an array, its message. */
  datatype Rule = Rule(key: string, wantsArray: bool, message: string)

  const TitleMessage := "Title must be a string"
  const CodeMessage := "Code must be a string"
  const SummaryMessage := "Summary must be a string"
  const LanguageMessage := "Language must be a string"
  const FrameworkMessage := "Framework must be a string"
  const TagsMessage := "Tags must be an array of strings"

  const TitleKey := "title"
  const CodeKey := "code"
  const SummaryKey := "summary"
  const LanguageKey := "language"
  const FrameworkKey := "framework"
  const TagsKey := "tags"

  /** The six checks, in the order the validator runs them. */
  const Rules: seq<Rule> := [
    Rule(TitleKey, false, TitleMessage),
    Rule(CodeKey, false, CodeMessage),
    Rule(SummaryKey, false, SummaryMessage),
    Rule(LanguageKey, false, LanguageMessage),
    Rule(FrameworkKey, false, FrameworkMessage),
    Rule(TagsKey, true, TagsMessage)
  ]

  /** Every message the validator can produce, in order. */
  const AllMessages: seq<string> :=
    [TitleMessage, CodeMessage, SummaryMessage, LanguageMessage, FrameworkMessage, TagsMessage]

  /** The inner `must`: in partial mode only keys present in `data` are checked. */
  predicate Must(data: map<string, Value>, partial: bool, key: string)
  {
    !partial || key in data
  }

  /** What a rule demands of its field: a string, or (for tags) any array at all. */
  predicate Satisfies(data: map<string, Value>, rule: Rule)
  {
    if rule.wantsArray then Field(data, rule.key).Arr? else Field(data, rule.key).Str?
  }

  predicate Fails(data: map<string, Value>, partial: bool, rule: Rule)
  {
    Must(data, partial, rule.key) && !Satisfies(data, rule)
  }

  /** Reference definition: the messages of the failing rules from rule `i` on, in rule order. */
  function ErrorsFrom(data: map<string, Value>, partial: bool, i: nat): seq<string>
    requires i <= |Rules|
    decreases |Rules| - i
  {
    if i == |Rules| then []
    else (if Fails(data, partial, Rules[i]) then [Rules[i].message] else [])
         + ErrorsFrom(data, partial, i + 1)
  }

  function ExpectedErrors(data: map<string, Value>, partial: bool): seq<string>
  {
    ErrorsFrom(data, partial, 0)
  }

  /** `a` can be obtained from `b` by deleting elements. */
  predicate IsSubsequence(a: seq<string>, b: seq<string>)
  {
    if a == [] then true
    else if b == [] then false
    else if a[0] == b[0] then IsSubsequence(a[1..], b[1..])
    else IsSubsequence(a, b[1..])
  }

  /** The validator itself: a chain of checks that push messages onto `errors`. */
  method Validate(data: map<string, Value>, partial: bool) returns (r: Check)
    ensures r == if ExpectedErrors(data, partial) == [] then Passed
                 else Failed(ExpectedErrors(data, partial))
  {
    var errors: seq<string> := [];
    if Must(data, partial, TitleKey) && TypeOf(Field(data, TitleKey)) != "string" {
      errors := errors + [TitleMessage];
    }
    assert errors == Collected(data, partial, 1);
    if Must(data, partial, CodeKey) && TypeOf(Field(data, CodeKey)) != "string" {
      errors := errors + [CodeMessage];
    }
    assert errors == Collected(data, partial, 2);
    if Must(data, partial, SummaryKey) && TypeOf(Field(data, SummaryKey)) != "string" {
      errors := errors + [SummaryMessage];
    }
    assert errors == Collected(data, partial, 3);
    if Must(data, partial, LanguageKey) && TypeOf(Field(data, LanguageKey)) != "string" {
      errors := errors + [LanguageMessage];
    }
    assert errors == Collected(data, partial, 4);
    if Must(data, partial, FrameworkKey) && TypeOf(Field(data, FrameworkKey)) != "string" {
      errors := errors + [FrameworkMessage];
    }
    assert errors == Collected(data, partial, 5);
    if Must(data, partial, TagsKey) && !IsArray(Field(data, TagsKey)) {
      errors := errors + [TagsMessage];
    }
    assert errors == Collected(data, partial, 6);
    CollectedAll(data, partial);
    r := if |errors| > 0 then Failed(errors) else Passed;
  }

  /** The messages of the failing rules among the first `n`, as the validator collects them. */
  function Collected(data: map<string, Value>, partial: bool, n: nat): seq<string>
    requires n <= |Rules|
  {
    if n == 0 then []
    else if Fails(data, partial, Rules[n - 1]) then Collected(data, partial, n - 1) + [Rules[n - 1].message]
    else Collected(data, partial, n - 1)
  }

  /** Collecting over all six rules gives the expected messages. */
  lemma CollectedAll(data: map<string, Value>, partial: bool)
    ensures Collected(data, partial, |Rules|) == ExpectedErrors(data, partial)
  {
    var all := Collected(data, partial, |Rules|);
    CollectedThenRest(data, partial, |Rules|);
    assert ErrorsFrom(data, partial, |Rules|) == [];
    assert all + [] == all;
  }

  /** The messages collected from the first `n` rules, then those of the rest, are all of them. */
  lemma {:induction false} CollectedThenRest(data: map<string, Value>, partial: bool, n: nat)
    requires n <= |Rules|
    ensures Collected(data, partial, n) + ErrorsFrom(data, partial, n) == ExpectedErrors(data, partial)
  {
    if n == 0 {
      var rest := ErrorsFrom(data, partial, 0);
      assert Collected(data, partial, 0) == [];
      assert [] + rest == rest;
    } else {
      CollectedThenRest(data, partial, n - 1);
      CollectedStep(data, partial, n - 1);
      ErrorsFromStep(data, partial, n - 1);
      AppendAssociative(Collected(data, partial, n - 1), Contribution(data, partial, n - 1), ErrorsFrom(data, partial, n));
    }
  }

  lemma CollectedStep(data: map<string, Value>, partial: bool, n: nat)
    requires n < |Rules|
    ensures Collected(data, partial, n + 1) == Collected(data, partial, n) + Contribution(data, partial, n)
  {
  }

  /** The part of the message list contributed by rule `i`. */
  function Contribution(data: map<string, Value>, partial: bool, i: nat): seq<string>
    requires i < |Rules|
  {
    if Fails(data, partial, Rules[i]) then [Rules[i].message] else []
  }

  /** The collected messages are the six contributions, in rule order. */
  lemma ExpectedErrorsUnfolded(data: map<string, Value>, partial: bool)
    ensures ExpectedErrors(data, partial)
         == Contribution(data, partial, 0) + Contribution(data, partial, 1)
          + Contribution(data, partial, 2) + Contribution(data, partial, 3)
          + Contribution(data, partial, 4) + Contribution(data, partial, 5)
  {
    var c0 := Contribution(data, partial, 0);
    var c1 := Contribution(data, partial, 1);
    var c2 := Contribution(data, partial, 2);
    var c3 := Contribution(data, partial, 3);
    var c4 := Contribution(data, partial, 4);
    var c5 := Contribution(data, partial, 5);
    ErrorsFromStep(data, partial, 0);
    ErrorsFromStep(data, partial, 1);
    AppendAssociative(c0, c1, ErrorsFrom(data, partial, 2));
    ErrorsFromStep(data, partial, 2);
    AppendAssociative(c0 + c1, c2, ErrorsFrom(data, partial, 3));
    ErrorsFromStep(data, partial, 3);
    AppendAssociative(c0 + c1 + c2, c3, ErrorsFrom(data, partial, 4));
    ErrorsFromStep(data, partial, 4);
    AppendAssociative(c0 + c1 + c2 + c3, c4, ErrorsFrom(data, partial, 5));
    ErrorsFromStep(data, partial, 5);
    AppendAssociative(c0 + c1 + c2 + c3 + c4, c5, ErrorsFrom(data, partial, 6));
    assert ErrorsFrom(data, partial, 6) == [];
  }

  /** One rule's contribution followed by those of the rules after it. */
  lemma ErrorsFromStep(data: map<string, Value>, partial: bool, i: nat)
    requires i < |Rules|
    ensures ErrorsFrom(data, partial, i) == Contribution(data, partial, i) + ErrorsFrom(data, partial, i + 1)
  {
  }


  /**
   * A rule's message is collected exactly when that rule fails; the result is `{ok: true}`
   * exactly when no message was collected.
   */
  lemma ErrorsPresence(data: map<string, Value>, partial: bool)
    ensures forall i :: 0 <= i < |Rules| ==>
              (Rules[i].message in ExpectedErrors(data, partial) <==> Fails(data, partial, Rules[i]))
    ensures ExpectedErrors(data, partial) == [] <==>
              forall i :: 0 <= i < |Rules| ==> !Fails(data, partial, Rules[i])
  {
    forall i | 0 <= i < |Rules|
      ensures Rules[i].message in ExpectedErrors(data, partial) <==> Fails(data, partial, Rules[i])
    {
      MessageCountFrom(data, partial, 0, i);
    }
    if forall i :: 0 <= i < |Rules| ==> !Fails(data, partial, Rules[i]) {
      NoFailuresFrom(data, partial, 0);
    }
  }

  /** Where no rule from `i` on fails, nothing is collected from there on. */
  lemma {:induction false} NoFailuresFrom(data: map<string, Value>, partial: bool, i: nat)
    requires i <= |Rules|
    requires forall j :: i <= j < |Rules| ==> !Fails(data, partial, Rules[j])
    ensures ErrorsFrom(data, partial, i) == []
    decreases |Rules| - i
  {
    if i < |Rules| {
      NoFailuresFrom(data, partial, i + 1);
    }
  }

  /** In partial mode a key absent from `data` never produces its message. */
  lemma PartialSkipsAbsentKey(data: map<string, Value>, i: nat)
    requires i < |Rules| && Rules[i].key !in data
    ensures Rules[i].message !in ExpectedErrors(data, true)
  {
    ErrorsPresence(data, true);
  }

  /** No two rules share a message. */
  lemma MessagesDistinct()
    ensures forall j, k :: 0 <= j < k < |Rules| ==> Rules[j].message != Rules[k].message
  {
  }

  /** Counting from rule `i` on, rule `k`'s message occurs once if `k` is reached and fails. */
  lemma {:induction false} MessageCountFrom(data: map<string, Value>, partial: bool, i: nat, k: nat)
    requires i <= |Rules| && k < |Rules|
    ensures multiset(ErrorsFrom(data, partial, i))[Rules[k].message]
         == if i <= k && Fails(data, partial, Rules[k]) then 1 else 0
    decreases |Rules| - i
  {
    if i < |Rules| {
      MessageCountFrom(data, partial, i + 1, k);
      var head := Contribution(data, partial, i);
      ErrorsFromStep(data, partial, i);
      assert multiset(ErrorsFrom(data, partial, i))
          == multiset(head) + multiset(ErrorsFrom(data, partial, i + 1));
      if i != k {
        MessagesDistinct();
        assert Rules[i].message != Rules[k].message;
      }
    }
  }

  /**
   * In full mode each of title, code, summary, language and framework that is not a string
   * produces its message exactly once.
   */
  lemma FullModeReportsNonString(data: map<string, Value>, i: nat)
    requires i < 5 && !Field(data, Rules[i].key).Str?
    ensures multiset(ExpectedErrors(data, false))[Rules[i].message] == 1
  {
    var rule := Rules[i];
    assert !rule.wantsArray;
    assert Fails(data, false, rule);
    MessageCountFrom(data, false, 0, i);
  }

  /** `{title, code}` alone fails full validation with the four remaining messages. */
  lemma TitleAndCodeAloneFail(title: string, code: string)
    ensures ExpectedErrors(map["title" := Str(title), "code" := Str(code)], false)
         == [SummaryMessage, LanguageMessage, FrameworkMessage, TagsMessage]
  {
    ExpectedErrorsUnfolded(map["title" := Str(title), "code" := Str(code)], false);
  }

  /** The messages of the rules from `i` on. */
  function MessagesFrom(i: nat): seq<string>
    requires i <= |Rules|
    decreases |Rules| - i
  {
    if i == |Rules| then [] else [Rules[i].message] + MessagesFrom(i + 1)
  }

  /** The messages collected from rule `i` on are a subsequence of the messages from `i` on. */
  lemma {:induction false} ErrorsFollowRuleOrder(data: map<string, Value>, partial: bool, i: nat)
    requires i <= |Rules|
    ensures IsSubsequence(ErrorsFrom(data, partial, i), MessagesFrom(i))
    ensures |ErrorsFrom(data, partial, i)| <= |Rules| - i
    decreases |Rules| - i
  {
    if i < |Rules| {
      ErrorsFollowRuleOrder(data, partial, i + 1);
      var e := ErrorsFrom(data, partial, i);
      var m := MessagesFrom(i);
      if Fails(data, partial, Rules[i]) {
        assert e == [Rules[i].message] + ErrorsFrom(data, partial, i + 1);
        assert e[0] == m[0];
        assert e[1..] == ErrorsFrom(data, partial, i + 1);
        assert m[1..] == MessagesFrom(i + 1);
      } else {
        assert e == ErrorsFrom(data, partial, i + 1);
        assert m[1..] == MessagesFrom(i + 1);
        SkipFirstKeepsSubsequence(e, m);
      }
    }
  }

  /** Deleting one more element of `b` keeps `a` a subsequence when `a` was one of `b[1..]`. */
  lemma {:induction false} SkipFirstKeepsSubsequence(a: seq<string>, b: seq<string>)
    requires b != [] && IsSubsequence(a, b[1..])
    ensures IsSubsequence(a, b)
  {
    if a != [] && a[0] == b[0] {
      SubsequenceOfTail(a, b[1..]);
    }
  }

  lemma {:induction false} SubsequenceOfTail(a: seq<string>, b: seq<string>)
    requires a != [] && IsSubsequence(a, b)
    ensures IsSubsequence(a[1..], b)
  {
    if a[0] == b[0] {
      if a[1..] != [] { SkipFirstKeepsSubsequence(a[1..], b); }
    } else {
      SubsequenceOfTail(a, b[1..]);
      if a[1..] != [] { SkipFirstKeepsSubsequence(a[1..], b); }
    }
  }

  /** Messages come in the order title, code, summary, language, framework, tags; at most six. */
  lemma MessagesInFixedOrder(data: map<string, Value>, partial: bool)
    ensures IsSubsequence(ExpectedErrors(data, partial), AllMessages)
    ensures |ExpectedErrors(data, partial)| <= 6
  {
    ErrorsFollowRuleOrder(data, partial, 0);
    MessagesFromTail(0);
  }

  /** The rule table lists its messages as `AllMessages` does. */
  lemma {:induction false} MessagesFromTail(i: nat)
    requires i <= |Rules|
    ensures MessagesFrom(i) == AllMessages[i..]
    decreases |Rules| - i
  {
    if i < |Rules| {
      MessagesFromTail(i + 1);
      assert Rules[i].message == AllMessages[i];
      assert AllMessages[i..] == [AllMessages[i]] + AllMessages[i + 1..];
    }
  }

  /** The tags check wants only an array: the element values are never inspected. */
  lemma TagsNeedOnlyAnArray(data: map<string, Value>, partial: bool, items: seq<Value>)
    requires Field(data, "tags") == Arr(items)
    ensures TagsMessage !in ExpectedErrors(data, partial)
  {
    ErrorsPresence(data, partial);
    assert Rules[5].message == TagsMessage;
  }

  /** Only the type is checked, so an empty title or empty code passes. */
  lemma EmptyTextPasses(data: map<string, Value>, partial: bool)
    requires Field(data, "title") == Str("") && Field(data, "code") == Str("")
    ensures TitleMessage !in ExpectedErrors(data, partial)
    ensures CodeMessage !in ExpectedErrors(data, partial)
  {
    ErrorsPresence(data, partial);
    assert Rules[0].message == TitleMessage && Rules[1].message == CodeMessage;
  }

  /** When every checked key is present, partial and full mode give the same messages. */
  lemma {:induction false} ModesAgreeFrom(data: map<string, Value>, i: nat)
    requires i <= |Rules|
    requires forall j :: i <= j < |Rules| ==> Rules[j].key in data
    ensures ErrorsFrom(data, true, i) == ErrorsFrom(data, false, i)
    decreases |Rules| - i
  {
    if i < |Rules| {
      ModesAgreeFrom(data, i + 1);
    }
  }

  lemma ModesAgreeOnCompleteData(data: map<string, Value>)
    requires forall i :: 0 <= i < |Rules| ==> Rules[i].key in data
    ensures ExpectedErrors(data, true) == ExpectedErrors(data, false)
  {
    ModesAgreeFrom(data, 0);
  }
}
