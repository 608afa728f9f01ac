/**
 * The FAQ section of the patient site (frontend/src/components/FaqSection.jsx): fifteen
 * questions in five categories, category buttons built from the data, a category filter, and
 * an accordion where at most one question is open.
 */
module Faq {
  import opened Wrappers

  /** One entry of `faqData`; the question and answer texts are display copy and are not modelled. */
  datatype FaqItem = FaqItem(id: nat, category: string)

  const FaqData: seq<FaqItem> := [
    FaqItem(1, "General"), FaqItem(2, "General"), FaqItem(3, "General"),
    FaqItem(4, "For Patients"), FaqItem(5, "For Patients"), FaqItem(6, "For Patients"),
    FaqItem(7, "For Doctors"), FaqItem(8, "For Doctors"), FaqItem(9, "For Doctors"),
    FaqItem(10, "Technical Support"), FaqItem(11, "Technical Support"), FaqItem(12, "Technical Support"),
    FaqItem(13, "Privacy & Security"), FaqItem(14, "Privacy & Security"), FaqItem(15, "Privacy & Security")
  ]

  const AllCategories: string := "All"

  predicate NoDuplicates(s: seq<string>) {
    forall i, j :: 0 <= i < j < |s| ==> s[i] != s[j]
  }

  /** Where `x` first occurs in `s`. */
  function FirstIndex(s: seq<string>, x: string): (k: nat)
    requires x in s
    ensures k < |s| && s[k] == x && x !in s[..k]
  {
    if s[0] == x then 0 else 1 + FirstIndex(s[1..], x)
  }

  /** An element of a prefix first occurs in that prefix. */
  lemma {:induction false} FirstIndexPrefix(s: seq<string>, n: nat, x: string)
    requires n <= |s| && x in s[..n]
    ensures FirstIndex(s[..n], x) == FirstIndex(s, x)
  {
    if s[0] != x {
      assert s[..n][1..] == s[1..][..n - 1];
      FirstIndexPrefix(s[1..], n - 1, x);
    }
  }

  /** `[...new Set(values)]`: a value is added when it has not appeared yet. */
  function Distinct(s: seq<string>): seq<string> {
    if s == [] then []
    else
      var r := Distinct(s[..|s| - 1]);
      if s[|s| - 1] in r then r else r + [s[|s| - 1]]
  }

  /** The set's insertion order: each value once, all of them, in the order of first appearance. */
  lemma {:induction false} DistinctSpec(s: seq<string>)
    ensures var r := Distinct(s);
      && NoDuplicates(r)
      && (forall x :: x in r <==> x in s)
      && forall i, j :: 0 <= i < j < |r| ==> FirstIndex(s, r[i]) < FirstIndex(s, r[j])
  {
    if s != [] {
      var init := s[..|s| - 1];
      var last := s[|s| - 1];
      var r := Distinct(init);
      DistinctSpec(init);
      assert s == init + [last];
      forall x | x in r ensures FirstIndex(s, x) == FirstIndex(init, x) {
        FirstIndexPrefix(s, |s| - 1, x);
      }
      if last !in r {
        assert FirstIndex(s, last) == |s| - 1;
      }
    }
  }

  /** `faqData.map(item => item.category)`. */
  function CategoryOf(data: seq<FaqItem>): (r: seq<string>)
    ensures |r| == |data| && forall i :: 0 <= i < |data| ==> r[i] == data[i].category
  {
    seq(|data|, i requires 0 <= i < |data| => data[i].category)
  }

  /** `['All', ...new Set(faqData.map(item => item.category))]`. */
  function Categories(data: seq<FaqItem>): (r: seq<string>)
    ensures |r| >= 1 && r[0] == AllCategories
    ensures forall c :: c in r[1..] <==> exists i :: 0 <= i < |data| && data[i].category == c
  {
    var cats := CategoryOf(data);
    DistinctSpec(cats);
    assert forall c :: c in cats <==> exists i :: 0 <= i < |data| && data[i].category == c;
    [AllCategories] + Distinct(cats)
  }

  /** Each button is listed once, unless some entry is itself filed under `All`. */
  lemma CategoriesDistinct(data: seq<FaqItem>)
    ensures NoDuplicates(Categories(data)) <==> forall i :: 0 <= i < |data| ==> data[i].category != AllCategories
  {
    var r := Categories(data);
    DistinctSpec(CategoryOf(data));
    if !NoDuplicates(r) {
      var i, j :| 0 <= i < j < |r| && r[i] == r[j];
      assert i == 0;
      assert r[j] in r[1..];
    } else {
      forall k | 0 <= k < |data| ensures data[k].category != AllCategories {
        assert data[k].category in r[1..];
        var j :| 0 <= j < |r[1..]| && r[1..][j] == data[k].category;
        assert r[0] != r[j + 1];
      }
    }
  }

  /** Appending a value to the input appends it to the result unless it has already appeared. */
  lemma DistinctSnoc(s: seq<string>, x: string)
    ensures Distinct(s + [x]) == if x in Distinct(s) then Distinct(s) else Distinct(s) + [x]
  {
    assert (s + [x])[..|s|] == s;
  }

  /** Three copies of a new value add it once. */
  lemma DistinctSnocThree(s: seq<string>, x: string)
    requires x !in Distinct(s)
    ensures Distinct(s + [x, x, x]) == Distinct(s) + [x]
  {
    var one, two, three := s + [x], s + [x, x], s + [x, x, x];
    DistinctSnoc(s, x);
    assert x in Distinct(one);
    assert two == one + [x];
    DistinctSnoc(one, x);
    assert three == two + [x];
    DistinctSnoc(two, x);
  }

  /** The categories column of the site's data. */
  lemma SiteCategoryColumn()
    ensures CategoryOf(FaqData) ==
      ["General", "General", "General"] + ["For Patients", "For Patients", "For Patients"]
      + ["For Doctors", "For Doctors", "For Doctors"] + ["Technical Support", "Technical Support", "Technical Support"]
      + ["Privacy & Security", "Privacy & Security", "Privacy & Security"]
  {
  }

  /** Five different values, three copies each, give each value once in that order. */
  lemma DistinctOfBlocks(a: string, b: string, c: string, d: string, e: string)
    requires NoDuplicates([a, b, c, d, e])
    ensures Distinct([a, a, a] + [b, b, b] + [c, c, c] + [d, d, d] + [e, e, e]) == [a, b, c, d, e]
  {
    assert [a, b, c, d, e][0] == a && [a, b, c, d, e][1] == b && [a, b, c, d, e][2] == c;
    assert [a, b, c, d, e][3] == d && [a, b, c, d, e][4] == e;
    DistinctSnocThree([], a);
    assert [] + [a, a, a] == [a, a, a];
    var prefix := [a, a, a];
    DistinctSnocThree(prefix, b);
    prefix := prefix + [b, b, b];
    DistinctSnocThree(prefix, c);
    prefix := prefix + [c, c, c];
    DistinctSnocThree(prefix, d);
    prefix := prefix + [d, d, d];
    DistinctSnocThree(prefix, e);
  }

  /** The site's data gives the six buttons in this order. */
  lemma SiteCategories()
    ensures Categories(FaqData) == [AllCategories, "General", "For Patients", "For Doctors", "Technical Support", "Privacy & Security"]
  {
    var g, p, d, t, s := "General", "For Patients", "For Doctors", "Technical Support", "Privacy & Security";
    SiteCategoryColumn();
    assert |g| == 7 && |p| == 12 && |d| == 11 && |t| == 17 && |s| == 18;
    assert NoDuplicates([g, p, d, t, s]);
    DistinctOfBlocks(g, p, d, t, s);
  }

  /** `faqData.filter(faq => faq.category === activeCategory)`, or everything under `All`. */
  function Filtered(data: seq<FaqItem>, active: string): (r: seq<FaqItem>)
    ensures |r| <= |data|
    ensures active == AllCategories ==> r == data
    ensures forall f :: f in r <==> f in data && (active == AllCategories || f.category == active)
  {
    if active == AllCategories then data
    else if data == [] then []
    else (if data[0].category == active then [data[0]] else []) + Filtered(data[1..], active)
  }

  /** Filtering distributes over concatenation, so the kept questions stay in their original order. */
  lemma {:induction false} FilteredAppend(a: seq<FaqItem>, b: seq<FaqItem>, active: string)
    ensures Filtered(a + b, active) == Filtered(a, active) + Filtered(b, active)
  {
    if active != AllCategories {
      if a == [] {
        assert a + b == b;
      } else {
        assert (a + b)[0] == a[0];
        assert (a + b)[1..] == a[1..] + b;
        FilteredAppend(a[1..], b, active);
      }
    }
  }

  /** A single question is kept exactly when it is in the chosen category (or `All` is chosen). */
  lemma FilteredOne(f: FaqItem, active: string)
    ensures Filtered([f], active) == if active == AllCategories || f.category == active then [f] else []
  {
    assert [f][1..] == [];
  }

  /** Every category button shows at least one question: "No questions in this category." never appears for them. */
  lemma {:induction false} EveryButtonHasQuestions(data: seq<FaqItem>, c: string)
    requires data != [] && c in Categories(data)
    ensures Filtered(data, c) != []
  {
    if c != AllCategories {
      var r := Categories(data);
      var k :| 0 <= k < |r| && r[k] == c;
      assert k != 0;
      assert c in r[1..];
      var i :| 0 <= i < |data| && data[i].category == c;
      assert data[i] in Filtered(data, c);
    }
  }

  /** `openQuestionId === id ? null : id`. */
  function Toggled(open: Option<nat>, id: nat): (r: Option<nat>)
    ensures r == Some(id) <==> open != Some(id)
    ensures r.Some? ==> r.value == id
  {
    if open == Some(id) then None else Some(id)
  }

  /** Clicking one question twice restores it: closed if it was closed or another was open, open if it was open. */
  lemma ToggleTwice(open: Option<nat>, id: nat)
    ensures Toggled(Toggled(open, id), id) == (if open == Some(id) then Some(id) else None)
  {
  }

  /** The component's state. */
  class FaqSection {
    var openQuestionId: Option<nat>
    var activeCategory: string

    constructor ()
      ensures openQuestionId == None && activeCategory == AllCategories
    {
      openQuestionId := None;
      activeCategory := AllCategories;
    }

    /** The questions listed under the active category. */
    function Shown(): seq<FaqItem>
      reads this
    {
      Filtered(FaqData, activeCategory)
    }

    /** `isOpen={openQuestionId === faq.id}`. */
    predicate IsOpen(id: nat)
      reads this
    {
      openQuestionId == Some(id)
    }

    /** `handleToggle`: opening one question closes any other. */
    method HandleToggle(id: nat)
      modifies this
      ensures openQuestionId == Toggled(old(openQuestionId), id)
      ensures IsOpen(id) <==> !old(IsOpen(id))
      ensures forall other :: other != id ==> !IsOpen(other)
      ensures activeCategory == old(activeCategory)
    {
      openQuestionId := Toggled(openQuestionId, id);
    }

    /** A category button: switches the filter and closes any open question. */
    method SelectCategory(category: string)
      modifies this
      ensures activeCategory == category && openQuestionId == None
    {
      activeCategory := category;
      openQuestionId := None;
    }
  }
}
