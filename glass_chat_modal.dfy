/** The decisions of the chat modal in `src/components/ui/glass-chat-modal.tsx`: how a
    markdown link is shown, the text of rendered nodes, the typing indicator, and the
    submit rule of the input box. */
module GlassChatModal {
  import opened Wrappers
  import opened Text
  import opened Transcript

  /** A rendered node, as `extractText` sees it: a string, a number, an array of nodes,
      an element with its `children` prop, or anything else (`null`, `undefined`,
      booleans; also an element without children). */
  datatype Node = Str(s: string) | Num(n: int) | Arr(items: seq<Node>) | Elem(children: Node) | Other

  /** JavaScript truthiness of a node. */
  predicate Truthy(n: Node) {
    match n
    case Str(s) => s != ""
    case Num(v) => v != 0
    case Arr(_) => true
    case Elem(_) => true
    case Other => false
  }

  /** `extractText`: the text of a node. An element whose children are falsy (the empty
      string, the number 0, nothing) contributes nothing. */
  function ExtractText(n: Node): (r: string)
    ensures n.Str? ==> r == n.s
    ensures n.Other? ==> r == ""
    ensures n.Elem? && !Truthy(n.children) ==> r == ""
  {
    match n
    case Str(s) => s
    case Num(v) => IntToString(v)
    case Arr(items) => Concat(seq(|items|, i requires 0 <= i < |items| => ExtractText(items[i])))
    case Elem(c) => if Truthy(c) then ExtractText(c) else ""
    case Other => ""
  }

  /** The text of an array is the text of its first part followed by the text of the rest. */
  lemma ExtractTextAppend(a: seq<Node>, b: seq<Node>)
    ensures ExtractText(Arr(a + b)) == ExtractText(Arr(a)) + ExtractText(Arr(b))
  {
    var ta := seq(|a|, i requires 0 <= i < |a| => ExtractText(a[i]));
    var tb := seq(|b|, i requires 0 <= i < |b| => ExtractText(b[i]));
    assert seq(|a + b|, i requires 0 <= i < |a + b| => ExtractText((a + b)[i])) == ta + tb;
    ConcatAppend(ta, tb);
  }

  /** An array of one node has that node's text. */
  lemma ExtractTextSingleton(n: Node)
    ensures ExtractText(Arr([n])) == ExtractText(n)
  {
    var one := seq(1, i requires 0 <= i < 1 => ExtractText([n][i]));
    assert one == [ExtractText(n)];
    assert one[..0] == [];
    assert Concat(one) == Concat(one[..0]) + one[0];
    assert ExtractText(Arr([n])) == Concat(one);
  }

  /** A number shows its decimal form on its own, but as the only child of an element
      it shows only when it is not 0. */
  lemma NumberText(v: int)
    ensures ExtractText(Num(v)) == IntToString(v)
    ensures ExtractText(Elem(Num(v))) == if v == 0 then "" else IntToString(v)
    ensures ParseInt(ExtractText(Num(v))) == v
  {
    IntToStringRoundTrip(v);
  }

  /** Wrapping a node in elements does not change its text, unless it is falsy. */
  lemma ElementIsTransparent(n: Node)
    requires Truthy(n)
    ensures ExtractText(Elem(n)) == ExtractText(n)
  {
  }

  /** How the `a` renderer shows a link. */
  datatype Anchor =
    | Plain                                          // no href: an anchor around the children
    | Chip(href: string, caption: string, gitHub: bool) // a button-like chip
    | Regular(href: string)                          // an ordinary underlined link

  const GitHubHost := "github.com"

  predicate IsGitHub(href: string) {
    Contains(href, GitHubHost)
  }

  predicate IsLiveLink(href: string, linkText: string) {
    Contains(Lower(linkText), "live")
    || (!IsGitHub(href) && (StartsWith(href, "http://") || StartsWith(href, "https://")))
  }

  /** `text` starts with `tag` (a lower-case word and a colon), ignoring ASCII case. */
  predicate HasLabelPrefix(text: string, tag: string) {
    StartsWith(Lower(text), tag)
  }

  /** `linkText.replace(/^(live|github):\s*\/i, '').trim()`. */
  function StripLabelPrefix(linkText: string): (r: string)
    ensures !HasLabelPrefix(linkText, "live:") && !HasLabelPrefix(linkText, "github:") ==> r == Trim(linkText)
    ensures |r| <= |linkText|
  {
    if HasLabelPrefix(linkText, "live:") then Trim(TrimStart(linkText[5..]))
    else if HasLabelPrefix(linkText, "github:") then Trim(TrimStart(linkText[7..]))
    else Trim(linkText)
  }

  /** Trimming after removing leading whitespace is trimming. */
  lemma TrimAfterTrimStart(s: string)
    ensures Trim(TrimStart(s)) == Trim(s)
  {
    var t := TrimStart(s);
    if t != [] {
      assert TrimStart(t) == t;
    }
  }

  /** A known prefix, in whatever case, goes together with the blanks around the rest. */
  lemma StripPrefixWord(p: string, x: string)
    requires Lower(p) == "live:" || Lower(p) == "github:"
    ensures StripLabelPrefix(p + x) == Trim(x)
  {
    var t := p + x;
    LowerAppend(p, x);
    assert Lower(t)[..|p|] == Lower(p);
    assert t[|p|..] == x;
    if Lower(p) == "live:" {
      assert HasLabelPrefix(t, "live:");
    } else {
      assert Lower(t)[..5] == "githu";
      assert !HasLabelPrefix(t, "live:");
      assert HasLabelPrefix(t, "github:");
    }
    TrimAfterTrimStart(x);
  }

  /** `Live:`, `LIVE:` and `GitHub:` are all stripped. */
  lemma StripKnownPrefix(x: string)
    ensures StripLabelPrefix("Live:" + x) == Trim(x)
    ensures StripLabelPrefix("LIVE:" + x) == Trim(x)
    ensures StripLabelPrefix("GitHub:" + x) == Trim(x)
  {
    assert Lower("Live:") == "live:";
    assert Lower("LIVE:") == "live:";
    assert Lower("GitHub:") == "github:";
    StripPrefixWord("Live:", x);
    StripPrefixWord("LIVE:", x);
    StripPrefixWord("GitHub:", x);
  }

  /** The chip label: the stripped link text, or a default when that is empty or
      merely repeats the address. */
  function ChipLabel(linkText: string, href: string, gitHub: bool): (r: string)
    ensures r != ""
    ensures var stripped := StripLabelPrefix(linkText);
      && (stripped != "" && stripped != href ==> r == stripped)
      && (stripped == "" || stripped == href ==> r == if gitHub then "GitHub" else "Launch")
  {
    var stripped := StripLabelPrefix(linkText);
    if stripped == "" || stripped == href then (if gitHub then "GitHub" else "Launch") else stripped
  }

  /** The `a` renderer. */
  function RenderLink(href: Option<string>, children: Node): (r: Anchor)
    ensures r.Plain? <==> href.None? || href.value == ""
    ensures r.Chip? <==> (href.Some? && href.value != ""
      && (IsGitHub(href.value) || IsLiveLink(href.value, ExtractText(children))))
    ensures r.Chip? ==> r.caption != "" && (r.gitHub <==> Contains(r.href, GitHubHost))
    ensures r.Chip? ==> r.caption == ChipLabel(ExtractText(children), r.href, r.gitHub)
    ensures !r.Plain? ==> r.href == href.value
  {
    if href.None? || href.value == "" then Plain
    else
      var url := href.value;
      var linkText := ExtractText(children);
      var gitHub := IsGitHub(url);
      if gitHub || IsLiveLink(url, linkText) then Chip(url, ChipLabel(linkText, url, gitHub), gitHub)
      else Regular(url)
  }

  /** A link to GitHub labelled only with its address becomes a "GitHub" chip. */
  lemma BareGitHubLink(url: string)
    requires IsGitHub(url) && !HasLabelPrefix(url, "live:") && !HasLabelPrefix(url, "github:")
    requires Trim(url) == url
    ensures RenderLink(Some(url), Str(url)) == Chip(url, "GitHub", true)
  {
  }

  /** A web address that is not GitHub, whatever its text, becomes a launch chip. */
  lemma WebLinkIsLaunchChip(url: string, children: Node)
    requires StartsWith(url, "https://") && !IsGitHub(url)
    ensures RenderLink(Some(url), children).Chip?
    ensures !RenderLink(Some(url), children).gitHub
  {
  }

  /** The `li` renderer's test: the item's text mentions `Live:` or `GitHub:`, in that case. */
  predicate HasLinkPattern(children: Node) {
    var text := ExtractText(children);
    Contains(text, "Live:") || Contains(text, "GitHub:")
  }

  datatype ListItem = Inline | Bulleted

  function RenderListItem(children: Node): (r: ListItem)
    ensures r.Inline? <==> HasLinkPattern(children)
  {
    if HasLinkPattern(children) then Inline else Bulleted
  }

  /** An item holding a `Live:` link line loses its bullet, whatever follows it in the
      item; the test is case-sensitive. */
  lemma LinkLineIsInline(rest: seq<Node>, x: string)
    ensures RenderListItem(Arr([Str("Live: " + x)] + rest)) == Inline
    ensures !Contains(x, "Live:") && !Contains(x, "GitHub:") ==> RenderListItem(Str("live: " + x)) == Bulleted
  {
    ContainsPastLead("live: ", x, "Live:");
    ContainsPastLead("live: ", x, "GitHub:");
    ExtractTextAppend([Str("Live: " + x)], rest);
    var one := seq(1, i requires 0 <= i < 1 => ExtractText([Str("Live: " + x)][i]));
    assert one == ["Live: " + x];
    assert Concat(one) == "Live: " + x by {
      assert one[..0] == [];
    }
    assert StartsWith("Live: " + x, "Live:");
    ContainsPrefix("Live: " + x, ExtractText(Arr(rest)), "Live:");
  }

  /** The typing indicator: the reply is awaited and nothing of it is visible yet. */
  predicate ShowTypingIndicator(isLoading: Option<bool>, messages: seq<Msg>) {
    isLoading.GetOr(false)
    && (|messages| == 0 || messages[|messages| - 1].role != Assistant || messages[|messages| - 1].content == "")
  }

  /** While a turn is in flight, the indicator shows after the question and over the
      empty streaming slot, and goes as soon as text of the answer arrives. */
  lemma IndicatorDuringTurn(history: seq<Msg>, question: string, partial: string)
    ensures ShowTypingIndicator(Some(true), history + [Msg(User, question)])
    ensures ShowTypingIndicator(Some(true), history + [Msg(User, question), Msg(Assistant, partial)]) <==> partial == ""
    ensures !ShowTypingIndicator(None, history + [Msg(User, question)])
  {
  }

  /** The input box: what is typed, and what was handed to `onSendMessage`. */
  class ChatInput {
    var currentMessage: string
    var sent: seq<string>

    constructor ()
      ensures currentMessage == "" && sent == []
    {
      currentMessage := "";
      sent := [];
    }

    /** Typing in the box. */
    method Change(text: string)
      modifies this
      ensures currentMessage == text && sent == old(sent)
    {
      currentMessage := text;
    }

    /** `handleSubmit`: a blank message is not sent; otherwise the trimmed message is
        sent once and the box is cleared. */
    method Submit()
      modifies this
      ensures IsBlank(old(currentMessage)) ==> currentMessage == old(currentMessage) && sent == old(sent)
      ensures !IsBlank(old(currentMessage)) ==> sent == old(sent) + [Trim(old(currentMessage))] && currentMessage == ""
      ensures |sent| <= |old(sent)| + 1
      ensures forall i | |old(sent)| <= i < |sent| :: !IsBlank(sent[i])
    {
      var blank := TrimsToEmpty(currentMessage);
      if blank {
        return;
      }
      TrimmedNotBlank(currentMessage);
      var message := Trim(currentMessage);
      sent := sent + [message];
      currentMessage := "";
    }

    /** `handleKeyDown`: Enter without Shift submits; any other key does nothing here. */
    method KeyDown(key: string, shiftKey: bool)
      modifies this
      ensures key == "Enter" && !shiftKey && !IsBlank(old(currentMessage)) ==>
        sent == old(sent) + [Trim(old(currentMessage))] && currentMessage == ""
      ensures key != "Enter" || shiftKey || IsBlank(old(currentMessage)) ==>
        sent == old(sent) && currentMessage == old(currentMessage)
    {
      if key == "Enter" && !shiftKey {
        Submit();
      }
    }
  }
}
