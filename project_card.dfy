/** The text-and-tag logic of a project card, `src/components/ui/project-card.tsx`. */
module ProjectCard {
  import opened Wrappers
  import opened Text

  const MaxVisibleTags: nat := 5

  /** The `tags` prop, `[]` when absent. */
  function TagsOrDefault(tags: Option<seq<string>>): (r: seq<string>)
    ensures tags.None? ==> r == []
    ensures tags.Some? ==> r == tags.value
  {
    tags.GetOr([])
  }

  /** The tag row is rendered only when there is a tag. */
  predicate ShowsTagRow(tags: Option<seq<string>>): (r: bool)
    ensures r <==> tags.Some? && tags.value != []
  {
    |TagsOrDefault(tags)| > 0
  }

  /** The paragraphs of the description, joined by single spaces. */
  function CombinedDescription(description: seq<string>): (r: string)
    ensures description == [] ==> r == ""
    ensures |description| == 1 ==> r == description[0]
  {
    Join(description, " ")
  }

  /** Paragraphs without spaces can be read back from the combined description. */
  lemma DescriptionSplitsBack(description: seq<string>)
    requires |description| >= 1
    requires forall i | 0 <= i < |description| :: ' ' !in description[i]
    ensures Split(CombinedDescription(description), ' ') == description
  {
    SplitJoin(description, ' ');
  }

  /** The number shown as "+n" beyond the visible tags: `Math.max(0, tags.length - 5)`. */
  function OverflowTagCount(tags: seq<string>): (n: nat)
    ensures |tags| > MaxVisibleTags ==> n == |tags[MaxVisibleTags..]| && n > 0
    ensures |tags| <= MaxVisibleTags ==> n == 0
  {
    if |tags| > MaxVisibleTags then |tags| - MaxVisibleTags else 0
  }

  /** `tags.slice(0, 5)`. */
  function VisibleTags(tags: seq<string>): (r: seq<string>)
    ensures r <= tags
    ensures |r| <= MaxVisibleTags
    ensures |tags| <= MaxVisibleTags ==> r == tags
  {
    if |tags| <= MaxVisibleTags then tags else tags[..MaxVisibleTags]
  }

  /** Every tag is either shown or counted in the overflow, never both: the visible tags
      followed by the overflow tags are all the tags, in order. */
  lemma TagsAccounted(tags: seq<string>)
    ensures |VisibleTags(tags)| + OverflowTagCount(tags) == |tags|
    ensures VisibleTags(tags) + tags[|VisibleTags(tags)|..] == tags
    ensures OverflowTagCount(tags) == |tags[|VisibleTags(tags)|..]|
  {
  }

  /** The card's own state. */
  class Card {
    var showFullDescription: bool

    constructor ()
      ensures !showFullDescription
    {
      showFullDescription := false;
    }

    /** `handleReadMore`. */
    method ReadMore()
      modifies this
      ensures showFullDescription == !old(showFullDescription)
    {
      showFullDescription := !showFullDescription;
    }
  }
}
