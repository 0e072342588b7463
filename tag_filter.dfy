/** The tag filter of `src/components/ui/tag-filter.tsx`: the search filter, the
    two-group sort (run in place on the tag array), the collapsed view, and the
    toggle/clear rules that produce the next selection. */
module TagFilter {
  import opened Wrappers
  import opened Text
  import opened Seqs

  const DefaultMaxVisibleTags: nat := 12

  /** `tagAvailability`: how many projects carry each tag; a missing tag counts 0. */
  type Counts = map<string, nat>

  function Count(counts: Counts, tag: string): nat {
    if tag in counts then counts[tag] else 0
  }

  predicate HasProjects(counts: Counts, tag: string) {
    Count(counts, tag) > 0
  }

  /** The search keeps a tag when its lower-case form contains the lower-case query. */
  predicate Matches(tag: string, query: string) {
    Contains(Lower(tag), Lower(query))
  }

  function MatchesQuery(query: string): string -> bool {
    tag => Matches(tag, query)
  }

  /** The tags the search keeps, in their original order; an empty query keeps the list itself. */
  function KeepMatching(tags: seq<string>, query: string): (r: seq<string>)
    ensures query == "" ==> r == tags
    ensures query != "" ==> forall t :: t in r <==> t in tags && Matches(t, query)
    ensures query != "" ==> forall t :: multiset(r)[t] == if Matches(t, query) then multiset(tags)[t] else 0
    ensures IsSubsequence(r, tags)
  {
    SubsequenceReflexive(tags);
    if query == "" then tags else Filter(tags, MatchesQuery(query))
  }

  /** Every tag matches the empty query, so the empty-query shortcut changes nothing. */
  lemma EmptyQueryMatchesAll(tag: string)
    ensures Matches(tag, "")
  {
    assert StartsWith(Lower(tag), Lower(""));
  }

  /** The comparator's order, `cmp(a, b) <= 0`: a tag carried by some project comes
      before one carried by none; otherwise names are in ascending order. */
  predicate TagLe(counts: Counts, a: string, b: string) {
    (HasProjects(counts, a) && !HasProjects(counts, b))
    || (HasProjects(counts, a) == HasProjects(counts, b) && LexLe(a, b))
  }

  lemma TagLeTotal(counts: Counts, a: string, b: string)
    ensures TagLe(counts, a, b) || TagLe(counts, b, a)
  {
    LexLeTotal(a, b);
  }

  lemma TagLeTransitive(counts: Counts, a: string, b: string, c: string)
    requires TagLe(counts, a, b) && TagLe(counts, b, c)
    ensures TagLe(counts, a, c)
  {
    if HasProjects(counts, a) == HasProjects(counts, b) == HasProjects(counts, c) {
      LexLeTransitive(a, b, c);
    }
  }

  lemma TagLeAntisymmetric(counts: Counts, a: string, b: string)
    requires TagLe(counts, a, b) && TagLe(counts, b, a)
    ensures a == b
  {
    LexLeAntisymmetric(a, b);
  }

  predicate SortedBy(s: seq<string>, counts: Counts) {
    forall i, j | 0 <= i < j < |s| :: TagLe(counts, s[i], s[j])
  }

  /** The order the source promises: tags with projects first, each group ascending. */
  predicate AvailableFirst(s: seq<string>, counts: Counts) {
    forall i, j | 0 <= i < j < |s| ::
      (HasProjects(counts, s[j]) ==> HasProjects(counts, s[i]))
      && (HasProjects(counts, s[i]) == HasProjects(counts, s[j]) ==> LexLe(s[i], s[j]))
  }

  lemma SortedIsAvailableFirst(s: seq<string>, counts: Counts)
    requires SortedBy(s, counts)
    ensures AvailableFirst(s, counts)
  {
  }

  /** The head of a sorted list comes no later than any of its elements. */
  lemma SortedHeadFirst(x: seq<string>, counts: Counts, t: string)
    requires SortedBy(x, counts) && t in x
    ensures TagLe(counts, x[0], t)
  {
    var k :| 0 <= k < |x| && x[k] == t;
    if k == 0 {
      LexLeReflexive(t);
    }
  }

  /** Sorted arrangements of the same tags start with the same tag. */
  lemma SameHead(x: seq<string>, y: seq<string>, counts: Counts)
    requires SortedBy(x, counts) && SortedBy(y, counts)
    requires multiset(x) == multiset(y) && x != []
    ensures y != [] && x[0] == y[0]
  {
    assert x[0] in multiset(x);
    assert y != [];
    assert y[0] in multiset(y);
    SortedHeadFirst(x, counts, y[0]);
    SortedHeadFirst(y, counts, x[0]);
    TagLeAntisymmetric(counts, x[0], y[0]);
  }

  /** Removing the head removes one copy of it. */
  lemma TailMultiset(x: seq<string>)
    requires x != []
    ensures multiset(x[1..]) == multiset(x) - multiset{x[0]}
  {
    assert x == [x[0]] + x[1..];
  }

  /** Two sorted arrangements of the same tags are the same sequence: the result does
      not depend on which sorting algorithm the JavaScript engine uses. */
  lemma {:induction false} SortedUnique(x: seq<string>, y: seq<string>, counts: Counts)
    requires SortedBy(x, counts) && SortedBy(y, counts)
    requires multiset(x) == multiset(y)
    ensures x == y
    decreases |x|
  {
    if x == [] {
      assert |y| == |multiset(y)| == 0;
    } else {
      SameHead(x, y, counts);
      TailMultiset(x);
      TailMultiset(y);
      assert SortedBy(x[1..], counts) && SortedBy(y[1..], counts);
      SortedUnique(x[1..], y[1..], counts);
      assert x == [x[0]] + x[1..] && y == [y[0]] + y[1..];
    }
  }

  /** Exchanges two array elements. */
  method Swap(a: array<string>, i: nat, j: nat)
    requires i < a.Length && j < a.Length
    modifies a
    ensures a[i] == old(a[j]) && a[j] == old(a[i])
    ensures forall k | 0 <= k < a.Length && k != i && k != j :: a[k] == old(a[k])
    ensures multiset(a[..]) == multiset(old(a[..]))
  {
    a[i], a[j] := a[j], a[i];
    assert a[..] == old(a[..])[i := old(a[j])][j := old(a[i])];
  }

  /** One insertion step: the element at `i` moves down past every greater element
      of the sorted prefix before it. */
  method InsertLast(a: array<string>, i: nat, counts: Counts)
    requires i < a.Length && SortedBy(a[..i], counts)
    modifies a
    ensures SortedBy(a[..i + 1], counts)
    ensures multiset(a[..]) == multiset(old(a[..]))
    ensures a[i + 1..] == old(a[i + 1..])
  {
    assert forall p, q | 0 <= p < q < i :: TagLe(counts, a[p], a[q]) by {
      forall p, q | 0 <= p < q < i ensures TagLe(counts, a[p], a[q]) {
        assert a[..i][p] == a[p] && a[..i][q] == a[q];
      }
    }
    var j := i;
    while j > 0 && !TagLe(counts, a[j - 1], a[j])
      invariant 0 <= j <= i
      invariant multiset(a[..]) == multiset(old(a[..]))
      invariant forall k | i < k < a.Length :: a[k] == old(a[k])
      invariant forall p, q | 0 <= p < q <= i && p != j && q != j :: TagLe(counts, a[p], a[q])
      invariant forall q | j < q <= i :: TagLe(counts, a[j], a[q])
    {
      TagLeTotal(counts, a[j - 1], a[j]);
      Swap(a, j - 1, j);
      j := j - 1;
    }
    forall p, q | 0 <= p < q <= i
      ensures TagLe(counts, a[p], a[q])
    {
      if q == j && p < j - 1 {
        TagLeTransitive(counts, a[p], a[j - 1], a[j]);
      }
    }
    assert a[i + 1..] == old(a[i + 1..]);
  }

  /** `tags.sort(cmp)`: sorts the array in place by the comparator's order. */
  method SortTags(a: array<string>, counts: Counts)
    modifies a
    ensures SortedBy(a[..], counts)
    ensures multiset(a[..]) == multiset(old(a[..]))
  {
    var i := 0;
    while i < a.Length
      invariant 0 <= i <= a.Length
      invariant SortedBy(a[..i], counts)
      invariant multiset(a[..]) == multiset(old(a[..]))
    {
      InsertLast(a, i, counts);
      i := i + 1;
    }
    assert a[..a.Length] == a[..];
  }

  /** The `filteredTags` memo. With an empty query the `availableTags` array itself is
      what gets sorted, so the caller's array is reordered too; otherwise the filter's
      fresh copy is sorted and the caller's array is untouched. */
  method FilteredTags(availableTags: array<string>, searchQuery: string, counts: Counts)
    returns (r: seq<string>)
    modifies availableTags
    ensures AvailableFirst(r, counts)
    ensures multiset(r) == multiset(KeepMatching(old(availableTags[..]), searchQuery))
    ensures searchQuery == "" ==> availableTags[..] == r
    ensures searchQuery != "" ==> availableTags[..] == old(availableTags[..])
  {
    if searchQuery == "" {
      SortTags(availableTags, counts);
      r := availableTags[..];
    } else {
      var kept := KeepMatching(availableTags[..], searchQuery);
      var tags := new string[|kept|](i requires 0 <= i < |kept| => kept[i]);
      assert tags[..] == kept;
      SortTags(tags, counts);
      r := tags[..];
    }
    SortedIsAvailableFirst(r, counts);
  }

  /** `visibleTags`: everything when expanded, otherwise the first `maxVisibleTags`. */
  function VisibleTags(filteredTags: seq<string>, isExpanded: bool, maxVisibleTags: nat): (r: seq<string>)
    ensures |r| <= |filteredTags| && r == filteredTags[..|r|]
    ensures isExpanded ==> r == filteredTags
    ensures !isExpanded ==> |r| == if |filteredTags| < maxVisibleTags then |filteredTags| else maxVisibleTags
  {
    if isExpanded || |filteredTags| <= maxVisibleTags then filteredTags
    else filteredTags[..maxVisibleTags]
  }

  predicate HasMoreTags(filteredTags: seq<string>, maxVisibleTags: nat) {
    |filteredTags| > maxVisibleTags
  }

  /** The expand button is offered exactly when the collapsed view hides some tag. */
  lemma MoreTagsIffCollapsedHides(filteredTags: seq<string>, maxVisibleTags: nat)
    ensures HasMoreTags(filteredTags, maxVisibleTags)
      <==> |VisibleTags(filteredTags, false, maxVisibleTags)| < |filteredTags|
  {
  }

  function IsNot(tag: string): string -> bool {
    t => t != tag
  }

  /** `handleTagToggle`: a selected tag is removed (every occurrence), any other is appended. */
  function Toggle(selected: seq<string>, tag: string): (r: seq<string>)
    ensures tag in r <==> tag !in selected
    ensures tag in selected ==> IsSubsequence(r, selected)
    ensures tag in selected ==> forall t :: t in r <==> t in selected && t != tag
    ensures tag in selected ==> multiset(r) == multiset(selected)[tag := 0]
    ensures tag !in selected ==> r == selected + [tag]
  {
    if tag in selected then Filter(selected, IsNot(tag)) else selected + [tag]
  }

  /** `CompactTagFilter.handleTagToggle`, written out again in the source: the same rule. */
  function CompactToggle(selected: seq<string>, tag: string): (r: seq<string>)
    ensures r == Toggle(selected, tag)
  {
    if tag in selected then Filter(selected, IsNot(tag)) else selected + [tag]
  }

  /** Toggling a tag that is not selected, twice, restores the selection. */
  lemma ToggleTwiceRestores(selected: seq<string>, tag: string)
    requires tag !in selected
    ensures Toggle(Toggle(selected, tag), tag) == selected
  {
    FilterAppend(selected, [tag], IsNot(tag));
    FilterKeepsAll(selected, IsNot(tag));
    assert Filter([tag], IsNot(tag)) == [];
  }

  /** Toggling keeps a duplicate-free selection duplicate-free. */
  lemma ToggleKeepsNoDups(selected: seq<string>, tag: string)
    requires NoDups(selected)
    ensures NoDups(Toggle(selected, tag))
  {
    if tag in selected {
      SubsequenceNoDups(Toggle(selected, tag), selected);
    }
  }

  /** `isDisabled`: a tag is disabled when it is not selected and no project carries it. */
  predicate IsDisabled(selected: seq<string>, counts: Counts, tag: string) {
    tag !in selected && Count(counts, tag) == 0
  }

  /** The selection after clicking a tag button: a disabled button does nothing. */
  function ClickTag(selected: seq<string>, counts: Counts, tag: string): (r: seq<string>)
    ensures IsDisabled(selected, counts, tag) ==> r == selected
    ensures tag in selected ==> tag !in r && r == Toggle(selected, tag)
    ensures tag !in selected && HasProjects(counts, tag) ==> r == selected + [tag]
  {
    if IsDisabled(selected, counts, tag) then selected else Toggle(selected, tag)
  }

  /** The component's own state: the search box and the expanded flag. */
  class Panel {
    const maxVisibleTags: nat
    var searchQuery: string
    var isExpanded: bool

    constructor (maxVisibleTags: Option<nat>)
      ensures this.maxVisibleTags == maxVisibleTags.GetOr(DefaultMaxVisibleTags)
      ensures searchQuery == "" && !isExpanded
    {
      this.maxVisibleTags := maxVisibleTags.GetOr(DefaultMaxVisibleTags);
      searchQuery := "";
      isExpanded := false;
    }

    /** Typing in the search box. */
    method Search(query: string)
      modifies this
      ensures searchQuery == query && isExpanded == old(isExpanded)
    {
      searchQuery := query;
    }

    /** `handleClearSearch`: afterwards every tag passes the search. */
    method ClearSearch()
      modifies this
      ensures searchQuery == "" && isExpanded == old(isExpanded)
      ensures forall tags: seq<string> :: KeepMatching(tags, searchQuery) == tags
    {
      searchQuery := "";
    }

    /** The "Show more" / "Show less" button. */
    method ToggleExpanded()
      modifies this
      ensures isExpanded == !old(isExpanded) && searchQuery == old(searchQuery)
    {
      isExpanded := !isExpanded;
    }

    /** The tags on show, out of the sorted, filtered ones. */
    function Shown(filteredTags: seq<string>): (r: seq<string>)
      reads this
      ensures r <= filteredTags
      ensures |r| < |filteredTags| ==> !isExpanded && HasMoreTags(filteredTags, maxVisibleTags)
    {
      VisibleTags(filteredTags, isExpanded, maxVisibleTags)
    }
  }
}
