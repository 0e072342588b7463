/** The home page of `src/app/page.tsx`: the tag universe gathered from the
    projects, the OR filter over projects, and the selection state the page owns. */
module Home {
  import opened Text
  import opened Seqs
  import TagFilter

  datatype Project = Project(id: nat, title: string, description: seq<string>, tags: seq<string>)

  /** Some project among `projects` carries `tag`. */
  predicate InSomeProject(projects: seq<Project>, tag: string) {
    exists p | 0 <= p < |projects| :: tag in projects[p].tags
  }

  /** The `allTags` memo: every tag of every project, added to a set project by project,
      then sorted. */
  method AllTags(projects: seq<Project>) returns (tags: seq<string>)
    ensures forall t :: t in tags <==> InSomeProject(projects, t)
    ensures NoDups(tags)
    ensures forall i, j | 0 <= i < j < |tags| :: LexLe(tags[i], tags[j])
  {
    // the Set, as its insertion-ordered contents
    var seen: seq<string> := [];
    var i := 0;
    while i < |projects|
      invariant 0 <= i <= |projects|
      invariant NoDups(seen)
      invariant forall t :: t in seen <==> InSomeProject(projects[..i], t)
    {
      var j := 0;
      while j < |projects[i].tags|
        invariant 0 <= j <= |projects[i].tags|
        invariant NoDups(seen)
        invariant forall t :: t in seen <==> InSomeProject(projects[..i], t) || t in projects[i].tags[..j]
      {
        var tag := projects[i].tags[j];
        if tag !in seen {
          seen := seen + [tag];
        }
        assert projects[i].tags[..j + 1] == projects[i].tags[..j] + [tag];
        j := j + 1;
      }
      assert projects[i].tags[..j] == projects[i].tags;
      forall t ensures InSomeProject(projects[..i + 1], t) <==> InSomeProject(projects[..i], t) || t in projects[i].tags {
        if InSomeProject(projects[..i + 1], t) {
          var p :| 0 <= p < i + 1 && t in projects[..i + 1][p].tags;
          if p < i { assert projects[..i][p] == projects[p]; }
        }
        if InSomeProject(projects[..i], t) {
          var p :| 0 <= p < i && t in projects[..i][p].tags;
          assert projects[..i + 1][p] == projects[p];
        }
        if t in projects[i].tags {
          assert projects[..i + 1][i] == projects[i];
        }
      }
      i := i + 1;
    }
    assert projects[..i] == projects;
    var a := new string[|seen|](k requires 0 <= k < |seen| => seen[k]);
    assert a[..] == seen;
    TagFilter.SortTags(a, map[]);
    tags := a[..];
    PermutationNoDups(tags, seen);
    forall t ensures t in tags <==> t in seen {
      assert t in tags <==> t in multiset(tags);
      assert t in seen <==> t in multiset(seen);
    }
  }

  /** The project keeps its place when it carries at least one selected tag. */
  predicate SharesTag(selected: seq<string>, project: Project) {
    exists t | t in selected :: t in project.tags
  }

  function SharesTagWith(selected: seq<string>): Project -> bool {
    p => SharesTag(selected, p)
  }

  /** The `filteredProjects` memo. */
  function FilterProjects(projects: seq<Project>, selected: seq<string>): (r: seq<Project>)
    ensures selected == [] ==> r == projects
    ensures selected != [] ==> forall p :: p in r <==> p in projects && SharesTag(selected, p)
    ensures selected != [] ==>
      forall p :: multiset(r)[p] == if SharesTag(selected, p) then multiset(projects)[p] else 0
    ensures IsSubsequence(r, projects)
    ensures |r| <= |projects|
  {
    SubsequenceReflexive(projects);
    if |selected| == 0 then projects else Filter(projects, SharesTagWith(selected))
  }

  /** The number of projects carrying `tag`. */
  function ProjectsWithTag(projects: seq<Project>, tag: string): (n: nat)
    ensures n <= |projects|
  {
    if projects == [] then 0
    else (if tag in projects[0].tags then 1 else 0) + ProjectsWithTag(projects[1..], tag)
  }

  lemma {:induction false} CarriedTagCounts(projects: seq<Project>, tag: string)
    ensures ProjectsWithTag(projects, tag) > 0 <==> InSomeProject(projects, tag)
  {
    if projects != [] {
      CarriedTagCounts(projects[1..], tag);
      if InSomeProject(projects, tag) && tag !in projects[0].tags {
        var p :| 0 <= p < |projects| && tag in projects[p].tags;
        assert projects[1..][p - 1] == projects[p];
      }
      if InSomeProject(projects[1..], tag) {
        var p :| 0 <= p < |projects[1..]| && tag in projects[1..][p].tags;
        assert projects[p + 1] == projects[1..][p];
      }
    }
  }

  /** The availability counts the page should hand to the tag filter: for each tag of
      the catalogue, how many projects carry it. */
  function Availability(projects: seq<Project>): (counts: TagFilter.Counts)
    ensures forall t :: t in counts <==> exists p | p in projects :: t in p.tags
  {
    map t | t in (set p, t | p in projects && t in p.tags :: t) :: ProjectsWithTag(projects, t)
  }

  /** The clicks of a session, applied one after another. */
  function ClickAll(selected: seq<string>, counts: TagFilter.Counts, clicks: seq<string>): seq<string>
    decreases |clicks|
  {
    if clicks == [] then selected
    else ClickAll(TagFilter.ClickTag(selected, counts, clicks[0]), counts, clicks[1..])
  }

  /** As written, the page renders the tag filter without availability counts, so every
      tag counts 0 and every unselected tag is disabled: starting from the empty
      selection, no sequence of clicks ever selects a tag. */
  lemma {:induction false} NoCountsNothingSelectable(clicks: seq<string>)
    ensures ClickAll([], map[], clicks) == []
  {
    if clicks != [] {
      assert TagFilter.ClickTag([], map[], clicks[0]) == [];
      NoCountsNothingSelectable(clicks[1..]);
    }
  }

  /** With the catalogue's counts, every tag of the catalogue can be selected: clicking
      one that is not selected appends it. */
  lemma CatalogueTagsSelectable(projects: seq<Project>, selected: seq<string>, tag: string)
    requires InSomeProject(projects, tag) && tag !in selected
    ensures TagFilter.ClickTag(selected, Availability(projects), tag) == selected + [tag]
  {
    CarriedTagCounts(projects, tag);
    var p :| 0 <= p < |projects| && tag in projects[p].tags;
    assert projects[p] in projects;
    assert TagFilter.Count(Availability(projects), tag) == ProjectsWithTag(projects, tag);
  }

  /** The page's state: the project catalogue and the selected tags. */
  class HomePage {
    const projects: seq<Project>
    var selectedTags: seq<string>

    constructor (projects: seq<Project>)
      ensures this.projects == projects && selectedTags == []
    {
      this.projects := projects;
      selectedTags := [];
    }

    /** The projects on show. */
    function Shown(): (r: seq<Project>)
      reads this
      ensures IsSubsequence(r, projects)
    {
      FilterProjects(projects, selectedTags)
    }

    /** A click on a tag button of the tag filter as the page renders it: without
        availability counts, so only a selected tag reacts, and it is removed. */
    method ClickTag(tag: string)
      modifies this
      ensures selectedTags == TagFilter.ClickTag(old(selectedTags), map[], tag)
      ensures tag !in old(selectedTags) ==> selectedTags == old(selectedTags)
      ensures tag in old(selectedTags) ==> selectedTags == TagFilter.Toggle(old(selectedTags), tag)
    {
      selectedTags := TagFilter.ClickTag(selectedTags, map[], tag);
    }

    /** The click as the page evidently intends it, with the counts derived from the
        catalogue: an unselected catalogue tag is appended. */
    method ClickCatalogueTag(tag: string)
      modifies this
      ensures selectedTags == TagFilter.ClickTag(old(selectedTags), Availability(projects), tag)
      ensures InSomeProject(projects, tag) && tag !in old(selectedTags)
        ==> selectedTags == old(selectedTags) + [tag]
    {
      if InSomeProject(projects, tag) && tag !in selectedTags {
        CatalogueTagsSelectable(projects, selectedTags, tag);
      }
      selectedTags := TagFilter.ClickTag(selectedTags, Availability(projects), tag);
    }

    /** A click on an active-filter chip: toggles without the disabled check. */
    method RemoveActiveFilter(tag: string)
      modifies this
      ensures selectedTags == TagFilter.Toggle(old(selectedTags), tag)
    {
      selectedTags := TagFilter.Toggle(selectedTags, tag);
    }

    /** "Clear all filters" on the page, and the tag filter's "Clear all": the empty selection. */
    method ClearAllFilters()
      modifies this
      ensures selectedTags == [] && Shown() == projects
    {
      selectedTags := [];
    }
  }
}
