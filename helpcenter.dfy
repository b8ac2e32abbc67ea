/** The FAQ list of app/support/helpCenter.tsx: the constant help data, the list
    `filteredFAQs` computes from the search text and the selected category, and
    the screen state the category and question handlers change. */
module HelpCenter {
  import opened Wrappers
  import opened Seqs

  datatype Qa = Qa(question: string, answer: string)

  /** One key of `helpData` with its questions, in declaration order. */
  datatype Category = Category(name: string, questions: seq<Qa>)

  /** An entry of the flattened list. */
  datatype Faq = Faq(category: string, question: string, answer: string)

  /** `helpData`; `Object.entries` yields its keys in the order written. */
  const HelpData: seq<Category> := [
    Category("Getting Started", [
      Qa("How do I create a new task?",
         "To create a new task, tap the + button at the bottom of the screen. Fill in the task details like title, due date, and priority, then tap Save."),
      Qa("How do I edit a task?",
         "Tap on any existing task to open the edit screen. Make your changes and tap Save to update the task.")]),
    Category("Account & Settings", [
      Qa("How do I change my profile picture?",
         "Go to Profile > Edit Profile, then tap on your current profile picture to select a new one from your device."),
      Qa("How do I change my password?",
         "Go to Settings > Security, then select Change Password and follow the prompts.")]),
    Category("Task Management", [
      Qa("How do I set task priority?",
         "When creating or editing a task, you can select priority levels: High, Medium, or Low. This helps organize tasks by importance."),
      Qa("How do I mark a task as complete?",
         "Simply tap the checkbox next to any task to mark it as complete. You can view completed tasks in the Completed tab.")]),
    Category("Troubleshooting", [
      Qa("The app is running slowly",
         "Try clearing the app cache in Settings > Storage, or restart the app. If issues persist, please contact support."),
      Qa("I can't sync my tasks",
         "Check your internet connection and ensure you're logged in. If problems continue, try logging out and back in.")])
  ]

  predicate DistinctNames(data: seq<Category>)
  {
    forall i, j :: 0 <= i < j < |data| ==> data[i].name != data[j].name
  }

  lemma HelpDataNamesDistinct()
    ensures DistinctNames(HelpData)
    ensures forall k :: 0 <= k < |HelpData| ==> HelpData[k].name != ""
  {
  }

  /** The entries pushed for the questions `qs` of category `name`. */
  function Entries(name: string, qs: seq<Qa>): (r: seq<Faq>)
    ensures |r| == |qs|
    ensures forall j :: 0 <= j < |qs| ==> r[j] == Faq(name, qs[j].question, qs[j].answer)
  {
    if |qs| == 0 then []
    else Entries(name, qs[..|qs| - 1]) + [Faq(name, qs[|qs| - 1].question, qs[|qs| - 1].answer)]
  }

  /** `f` is the entry of some question `j` of some category `i`. */
  predicate Listed(data: seq<Category>, f: Faq)
  {
    exists i, j :: 0 <= i < |data| && 0 <= j < |data[i].questions| &&
      f == Faq(data[i].name, data[i].questions[j].question, data[i].questions[j].answer)
  }

  /** The list `filteredFAQs` builds: every category's entries, category by category. */
  function Flattened(data: seq<Category>): (r: seq<Faq>)
    ensures forall f :: f in r <==> Listed(data, f)
    decreases |data|
  {
    if |data| == 0 then []
    else Flattened(data[..|data| - 1]) + Entries(data[|data| - 1].name, data[|data| - 1].questions)
  }

  lemma {:induction false} FlattenedAppend(a: seq<Category>, b: seq<Category>)
    ensures Flattened(a + b) == Flattened(a) + Flattened(b)
    decreases |b|
  {
    if |b| == 0 {
      assert a + b == a;
    } else {
      var b' := b[..|b| - 1];
      assert (a + b)[..|a + b| - 1] == a + b';
      FlattenedAppend(a, b');
    }
  }

  lemma FlattenedSnoc(data: seq<Category>, c: Category)
    ensures Flattened(data + [c]) == Flattened(data) + Entries(c.name, c.questions)
  {
    assert (data + [c])[..|data|] == data;
  }

  /** Entries are ordered by category, then by question: the block of a category
      follows the blocks of all categories before it and precedes those after it. */
  lemma FlattenedLayout(before: seq<Category>, c: Category, after: seq<Category>)
    ensures Flattened(before + [c] + after) == Flattened(before) + Entries(c.name, c.questions) + Flattened(after)
  {
    FlattenedSnoc(before, c);
    FlattenedAppend(before + [c], after);
  }

  /** The nested `forEach`/`push` loops at the start of `filteredFAQs`. */
  method FlattenFaqs(data: seq<Category>) returns (faqs: seq<Faq>)
    ensures faqs == Flattened(data)
  {
    faqs := [];
    var i := 0;
    while i < |data|
      invariant 0 <= i <= |data|
      invariant faqs == Flattened(data[..i])
    {
      var c := data[i];
      var j := 0;
      while j < |c.questions|
        invariant 0 <= j <= |c.questions|
        invariant faqs == Flattened(data[..i]) + Entries(c.name, c.questions[..j])
      {
        faqs := faqs + [Faq(c.name, c.questions[j].question, c.questions[j].answer)];
        assert c.questions[..j + 1][..j] == c.questions[..j];
        j := j + 1;
      }
      assert c.questions[..j] == c.questions;
      assert data[..i + 1][..i] == data[..i];
      i := i + 1;
    }
    assert data[..i] == data;
  }

  /** ASCII case folding; characters outside A-Z are kept. */
  function LowerChar(c: char): char
  {
    if 'A' <= c <= 'Z' then (c as int + 32) as char else c
  }

  /** `toLowerCase`, restricted to ASCII letters. */
  function ToLower(s: string): (r: string)
    ensures |r| == |s|
    ensures forall i :: 0 <= i < |s| ==> r[i] == LowerChar(s[i])
  {
    if |s| == 0 then "" else [LowerChar(s[0])] + ToLower(s[1..])
  }

  predicate OccursAt(s: string, sub: string, i: nat)
  {
    i + |sub| <= |s| && s[i..i + |sub|] == sub
  }

  /** `String.prototype.includes`. */
  function Contains(s: string, sub: string): (r: bool)
    ensures r <==> exists i: nat :: OccursAt(s, sub, i)
    decreases |s|
  {
    if sub <= s then
      assert OccursAt(s, sub, 0);
      true
    else if |s| == 0 then
      false
    else
      var r := Contains(s[1..], sub);
      if r then
        var i: nat :| OccursAt(s[1..], sub, i);
        assert s[1..][i..i + |sub|] == s[i + 1..i + 1 + |sub|];
        assert OccursAt(s, sub, i + 1);
        r
      else
        assert forall i: nat :: OccursAt(s, sub, i) ==> i > 0 && OccursAt(s[1..], sub, i - 1) by {
          forall i: nat | OccursAt(s, sub, i) ensures i > 0 && OccursAt(s[1..], sub, i - 1) {
            assert s[1..][i - 1..i - 1 + |sub|] == s[i..i + |sub|];
          }
        }
        r
  }

  /** The search test: the query occurs in the question or in the answer, both
      lower-cased. */
  predicate MatchesSearch(f: Faq, query: string)
  {
    Contains(ToLower(f.question), ToLower(query)) || Contains(ToLower(f.answer), ToLower(query))
  }

  function Matching(query: string): Faq -> bool
  {
    (f: Faq) => MatchesSearch(f, query)
  }

  function InCategory(name: string): Faq -> bool
  {
    (f: Faq) => f.category == name
  }

  /** The filters of `filteredFAQs`: a non-empty search wins over the category; a
      selected (non-empty) category comes next; otherwise everything. */
  function Filtered(faqs: seq<Faq>, searchQuery: string, selectedCategory: Option<string>): (r: seq<Faq>)
    ensures IsSubsequence(r, faqs)
    ensures searchQuery != "" ==> forall f :: f in r <==> f in faqs && MatchesSearch(f, searchQuery)
    ensures searchQuery != "" ==>
              forall f :: multiset(r)[f] == if MatchesSearch(f, searchQuery) then multiset(faqs)[f] else 0
    ensures searchQuery == "" && selectedCategory.Some? && selectedCategory.value != "" ==>
              forall f :: f in r <==> f in faqs && f.category == selectedCategory.value
    ensures searchQuery == "" && selectedCategory.Some? && selectedCategory.value != "" ==>
              forall f :: multiset(r)[f] == if f.category == selectedCategory.value then multiset(faqs)[f] else 0
    ensures searchQuery == "" && (selectedCategory.None? || selectedCategory.value == "") ==> r == faqs
  {
    if searchQuery != "" then
      FilterCounts(faqs, Matching(searchQuery));
      Filter(faqs, Matching(searchQuery))
    else if selectedCategory.Some? && selectedCategory.value != "" then
      FilterCounts(faqs, InCategory(selectedCategory.value));
      Filter(faqs, InCategory(selectedCategory.value))
    else
      SubsequenceReflexive(faqs);
      faqs
  }

  /** A non-empty search ignores the selected category. */
  lemma SearchIgnoresCategory(faqs: seq<Faq>, searchQuery: string, c1: Option<string>, c2: Option<string>)
    requires searchQuery != ""
    ensures Filtered(faqs, searchQuery, c1) == Filtered(faqs, searchQuery, c2)
  {
  }

  lemma {:induction false} NoEntriesOfOtherCategories(data: seq<Category>, name: string)
    requires forall i :: 0 <= i < |data| ==> data[i].name != name
    ensures Filter(Flattened(data), InCategory(name)) == []
    decreases |data|
  {
    if |data| > 0 {
      var last := data[|data| - 1];
      NoEntriesOfOtherCategories(data[..|data| - 1], name);
      FilterConcat(Flattened(data[..|data| - 1]), Entries(last.name, last.questions), InCategory(name));
      FilterNone(Entries(last.name, last.questions), InCategory(name));
    }
  }

  /** With distinct category names, filtering the flattened list by the name of
      category `k` gives exactly that category's entries, in order. */
  lemma {:induction false} CategoryFilterIsItsEntries(data: seq<Category>, k: nat)
    requires DistinctNames(data) && k < |data|
    ensures Filter(Flattened(data), InCategory(data[k].name)) == Entries(data[k].name, data[k].questions)
    decreases |data|
  {
    var n := |data| - 1;
    var front, last := data[..n], data[n];
    var p := InCategory(data[k].name);
    FilterConcat(Flattened(front), Entries(last.name, last.questions), p);
    if k == n {
      NoEntriesOfOtherCategories(front, last.name);
      FilterAll(Entries(last.name, last.questions), p);
    } else {
      assert front[k] == data[k];
      CategoryFilterIsItsEntries(front, k);
      FilterNone(Entries(last.name, last.questions), p);
    }
  }

  /** With an empty search, selecting category `k` (named, names distinct) shows
      exactly that category's entries, in order. */
  lemma SelectedCategoryShowsItsEntries(data: seq<Category>, k: nat)
    requires DistinctNames(data) && k < |data| && data[k].name != ""
    ensures Filtered(Flattened(data), "", Some(data[k].name)) == Entries(data[k].name, data[k].questions)
  {
    CategoryFilterIsItsEntries(data, k);
  }

  /** `expandedQuestion` after pressing `question`: collapsed if it was the
      expanded one, else it becomes the expanded one. */
  function NextExpanded(expanded: Option<string>, question: string): (r: Option<string>)
    ensures r == None <==> expanded == Some(question)
    ensures r.Some? ==> r.value == question
  {
    if expanded == Some(question) then None else Some(question)
  }

  /** Pressing the same question twice restores the state when that question
      was expanded, and otherwise leaves nothing expanded. */
  lemma PressTwice(expanded: Option<string>, question: string)
    ensures NextExpanded(NextExpanded(expanded, question), question) == if expanded == Some(question) then expanded else None
  {
  }

  /** The state of the help-center screen. */
  class HelpCenterScreen {
    var searchQuery: string
    var selectedCategory: Option<string>
    var expandedQuestion: Option<string>

    constructor ()
      ensures searchQuery == "" && selectedCategory == None && expandedQuestion == None
    {
      searchQuery := "";
      selectedCategory := None;
      expandedQuestion := None;
    }

    /** The search box's `onChangeText`, and its clear button with `text == ""`. */
    method SetSearchQuery(text: string)
      modifies this
      ensures searchQuery == text
      ensures selectedCategory == old(selectedCategory) && expandedQuestion == old(expandedQuestion)
    {
      searchQuery := text;
    }

    /** `handleCategoryPress`: selects the category and collapses any question. */
    method HandleCategoryPress(category: string)
      modifies this
      ensures selectedCategory == Some(category) && expandedQuestion == None
      ensures searchQuery == old(searchQuery)
    {
      selectedCategory := Some(category);
      expandedQuestion := None;
    }

    /** `handleQuestionPress`. */
    method HandleQuestionPress(question: string)
      modifies this
      ensures expandedQuestion == NextExpanded(old(expandedQuestion), question)
      ensures searchQuery == old(searchQuery) && selectedCategory == old(selectedCategory)
    {
      expandedQuestion := NextExpanded(expandedQuestion, question);
    }

    /** `filteredFAQs`: the list the screen shows for its current state. With an
        empty search and a category of `helpData` selected, that is exactly the
        category's entries. */
    method FilteredFaqs() returns (r: seq<Faq>)
      ensures r == Filtered(Flattened(HelpData), searchQuery, selectedCategory)
      ensures IsSubsequence(r, Flattened(HelpData))
      ensures searchQuery == "" ==> forall k :: 0 <= k < |HelpData| && selectedCategory == Some(HelpData[k].name) ==>
                r == Entries(HelpData[k].name, HelpData[k].questions)
    {
      var faqs := FlattenFaqs(HelpData);
      r := Filtered(faqs, searchQuery, selectedCategory);
      HelpDataNamesDistinct();
      forall k | 0 <= k < |HelpData| && searchQuery == "" && selectedCategory == Some(HelpData[k].name)
        ensures r == Entries(HelpData[k].name, HelpData[k].questions)
      {
        SelectedCategoryShowsItsEntries(HelpData, k);
      }
    }
  }
}
