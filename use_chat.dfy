/** The chat transport hook of `src/lib/use-chat.ts`: the transcript, the loading flag,
    the current abort controller, and `send`/`reset`. The network is an argument:
    `send` is given the reply the backend proxy produced for its request. */
module UseChat {
  import opened Wrappers
  import opened Text
  import opened Transcript

  datatype Rerank = NoRerank | Cheap | Llm

  /** The optional send options; `None` is an option left undefined. */
  datatype SendOpts = SendOpts(
    stream: Option<bool>,
    k: Option<int>,
    model: Option<string>,
    useHyde: Option<bool>,
    rerank: Option<Rerank>,
    rerankTopN: Option<int>)

  /** The JSON body posted to the proxy. */
  datatype Payload = Payload(
    question: string,
    history: seq<Msg>,
    k: int,
    model: string,
    useHyde: bool,
    rerank: Rerank,
    rerankTopN: Option<int>)

  datatype Request = Request(route: string, payload: Payload)

  /** What the proxy route produced for a request, as the hook observes it:
      - `Answer`: an OK JSON reply `{answer}` from the single-shot route;
      - `Chunks`: an OK body stream from the streaming route, read chunk by chunk,
        ending normally (`fault == None`) or with a read error rendered as `fault`;
      - `HttpError`: a non-OK status with its body text;
      - `NoReader`: an OK reply without a body stream;
      - `NetErr`: `fetch` or JSON parsing threw; `error` is `String(e)`. */
  datatype Reply =
    | Answer(answer: string)
    | Chunks(chunks: seq<string>, fault: Option<string>)
    | HttpError(status: nat, body: string)
    | NoReader
    | NetErr(error: string)

  const DefaultK: int := 5
  const DefaultModel: string := "openai/gpt-4o-mini"
  const StreamRoute: string := "/api/chat/stream"
  const SingleShotRoute: string := "/api/chat"

  /** The prefix of every error message the hook appends. */
  const Warning: string := "\U{26A0}\U{FE0F} "

  /** Streaming is the default; only an explicit `stream: false` turns it off. */
  predicate IsStreaming(opts: SendOpts) {
    opts.stream.GetOr(true)
  }

  function Route(opts: SendOpts): (r: string)
    ensures r == SingleShotRoute <==> opts.stream == Some(false)
    ensures r == StreamRoute <==> opts.stream != Some(false)
  {
    if IsStreaming(opts) then StreamRoute else SingleShotRoute
  }

  /** The request body: the question, the transcript before this turn, and each
      option or its default. */
  function BuildPayload(userText: string, history: seq<Msg>, opts: SendOpts): (p: Payload)
    ensures p.question == userText && p.history == history
    ensures p.k == (if opts.k.Some? then opts.k.value else DefaultK)
    ensures p.model == (if opts.model.Some? then opts.model.value else DefaultModel)
    ensures p.useHyde == (opts.useHyde == Some(true))
    ensures p.rerank == (if opts.rerank.Some? then opts.rerank.value else NoRerank)
    ensures p.rerankTopN == opts.rerankTopN
  {
    Payload(userText, history, opts.k.GetOr(DefaultK), opts.model.GetOr(DefaultModel),
            opts.useHyde.GetOr(false), opts.rerank.GetOr(NoRerank), opts.rerankTopN)
  }

  /** The reply's shape is fixed by the route: a JSON answer only from the single-shot
      route, a body stream (or its absence) only from the streaming route. */
  predicate Fits(opts: SendOpts, reply: Reply) {
    match reply
    case Answer(_) => !IsStreaming(opts)
    case Chunks(_, _) => IsStreaming(opts)
    case NoReader => IsStreaming(opts)
    case _ => true
  }

  /** `String(e)` for the error the hook throws or catches on a failed reply. */
  function ErrorText(reply: Reply): (r: string)
    requires reply.HttpError? || reply.NoReader? || reply.NetErr?
    ensures reply.HttpError? && reply.body != "" ==> r == "Error: " + reply.body
  {
    match reply
    case HttpError(status, body) => "Error: " + (if body != "" then body else "HTTP " + IntToString(status))
    case NoReader => "Error: No reader for response body"
    case NetErr(e) => e
  }

  function WarningMsg(text: string): Msg {
    Msg(Assistant, Warning + text)
  }

  /** The assistant messages one completed turn appends after the user's message. */
  function Appended(reply: Reply): (r: seq<Msg>)
    ensures 1 <= |r| <= 2
    ensures forall i | 0 <= i < |r| :: r[i].role == Assistant
    ensures reply.Answer? ==> r == [Msg(Assistant, reply.answer)]
    ensures reply.Chunks? ==> r[0] == Msg(Assistant, Concat(reply.chunks))
    ensures |r| == 2 <==> reply.Chunks? && reply.fault.Some?
    ensures reply.Chunks? && reply.fault.Some? ==> r[1] == WarningMsg(reply.fault.value)
    ensures !reply.Answer? && !reply.Chunks? ==> r == [WarningMsg(ErrorText(reply))]
    ensures !reply.Answer? && !reply.Chunks? ==> |r| == 1 && StartsWith(r[0].content, Warning)
  {
    match reply
    case Answer(a) => [Msg(Assistant, a)]
    case Chunks(cs, None) => [Msg(Assistant, Concat(cs))]
    case Chunks(cs, Some(e)) => [Msg(Assistant, Concat(cs)), WarningMsg(e)]
    case _ => [WarningMsg(ErrorText(reply))]
  }

  /** Every turn appends exactly one user message, and it is the untrimmed text. */
  lemma OneUserMessagePerTurn(before: seq<Msg>, userText: string, reply: Reply)
    ensures CountRole(before + [Msg(User, userText)] + Appended(reply), User)
      == CountRole(before, User) + 1
  {
    var user := [Msg(User, userText)];
    var tail := Appended(reply);
    CountRoleAppend(before + user, tail, User);
    CountRoleAppend(before, user, User);
    assert CountRole(user, User) == 1 by {
      assert user[..0] == [];
    }
    CountRoleZero(tail, User);
  }

  lemma {:induction false} CountRoleZero(msgs: seq<Msg>, role: Role)
    requires forall i | 0 <= i < |msgs| :: msgs[i].role != role
    ensures CountRole(msgs, role) == 0
  {
    if msgs != [] {
      CountRoleZero(msgs[..|msgs| - 1], role);
    }
  }

  /** A non-OK reply with an empty body reports its status: the number after
      "HTTP " in the appended message reads back as the status. */
  lemma HttpErrorReportsStatus(status: nat)
    ensures var m := Appended(HttpError(status, ""))[0];
      var prefix := Warning + "Error: HTTP ";
      StartsWith(m.content, prefix)
      && IsNumeral(m.content[|prefix|..]) && ParseInt(m.content[|prefix|..]) == status
  {
    var prefix := Warning + "Error: HTTP ";
    var digits := IntToString(status);
    assert ErrorText(HttpError(status, "")) == "Error: " + ("HTTP " + digits);
    var content := Warning + ("Error: " + ("HTTP " + digits));
    assert Appended(HttpError(status, ""))[0].content == content;
    assert content == prefix + digits;
    assert content[..|prefix|] == prefix;
    assert content[|prefix|..] == digits;
    IntToStringRoundTrip(status);
  }

  /** The streamed slot shows, after each chunk, the concatenation of the chunks so far. */
  lemma {:induction false} StreamedPrefixes(chunks: seq<string>, i: nat)
    requires i < |chunks|
    ensures Concat(chunks[..i + 1]) == Concat(chunks[..i]) + chunks[i]
    ensures Concat(chunks) == Concat(chunks[..i + 1]) + Concat(chunks[i + 1..])
  {
    assert chunks[..i + 1][..i] == chunks[..i];
    ConcatAppend(chunks[..i + 1], chunks[i + 1..]);
    assert chunks[..i + 1] + chunks[i + 1..] == chunks;
  }

  /** The state owned by one `useChat()` instance. Abort controllers are numbered in
      creation order; `aborted` holds those that have been aborted. */
  class ChatHook {
    var messages: seq<Msg>
    var isLoading: bool
    /** `abortRef.current`. */
    var controller: Option<nat>
    var created: nat
    var aborted: set<nat>
    /** The fetches issued so far, in order. */
    var requests: seq<Request>
    /** The transcript and the loading flag at the moment of the last fetch. */
    ghost var atFetch: (seq<Msg>, bool)
    /** The transcripts the last streamed turn showed: after the empty assistant
        placeholder, then after each chunk was written to its slot. */
    ghost var shown: seq<seq<Msg>>

    ghost predicate Valid()
      reads this
    {
      controller.Some? ==> controller.value < created
    }

    constructor ()
      ensures Valid()
      ensures messages == [] && !isLoading && controller == None
      ensures created == 0 && aborted == {} && requests == []
    {
      messages := [];
      isLoading := false;
      controller := None;
      created := 0;
      aborted := {};
      requests := [];
      atFetch := ([], false);
      shown := [];
    }

    /** The controllers aborted when the current one is superseded or reset. */
    function CurrentSet(): set<nat>
      reads this
    {
      if controller.Some? then {controller.value} else {}
    }

    /** `reset()`: aborts the current controller and empties the transcript. */
    method Reset()
      requires Valid()
      modifies this
      ensures Valid()
      ensures messages == [] && aborted == old(aborted) + old(CurrentSet())
      ensures isLoading == old(isLoading) && controller == old(controller)
      ensures created == old(created) && requests == old(requests)
    {
      if controller.Some? {
        aborted := aborted + {controller.value};
      }
      messages := [];
    }

    /** The part of `send` up to the fetch: the payload and route, the optimistic user
        message, the loading flag, and the replacement of the abort controller. */
    method Begin(userText: string, opts: SendOpts)
      requires Valid()
      modifies this
      ensures Valid()
      ensures requests == old(requests) + [Request(Route(opts), BuildPayload(userText, old(messages), opts))]
      ensures messages == old(messages) + [Msg(User, userText)] && isLoading
      ensures atFetch == (messages, true)
      ensures aborted == old(aborted) + old(CurrentSet())
      ensures controller == Some(old(created)) && created == old(created) + 1
      ensures shown == old(shown)
    {
      var payload := BuildPayload(userText, messages, opts);
      var stream := IsStreaming(opts);
      var route := if stream then StreamRoute else SingleShotRoute;

      messages := messages + [Msg(User, userText)];
      isLoading := true;

      if controller.Some? {
        aborted := aborted + {controller.value};
      }
      controller := Some(created);
      created := created + 1;

      requests := requests + [Request(route, payload)];
      atFetch := (messages, isLoading);
    }

    /** The part of `send` after the fetch: append the answer, stream the chunks into
        slot `idx`, or append one warning message. */
    method Complete(reply: Reply, idx: nat)
      requires idx == |messages|
      modifies this`messages, this`shown
      ensures messages == old(messages) + Appended(reply)
      ensures reply.Chunks? ==>
        |shown| == |reply.chunks| + 1
        && forall i | 0 <= i <= |reply.chunks| ::
          shown[i] == old(messages) + [Msg(Assistant, Concat(reply.chunks[..i]))]
    {
      match reply
      case Answer(a) =>
        messages := messages + [Msg(Assistant, a)];
      case Chunks(chunks, fault) =>
        ghost var start := messages;
        var acc := "";
        messages := messages + [Msg(Assistant, "")];
        assert chunks[..0] == [];
        shown := [messages];
        var i := 0;
        while i < |chunks|
          invariant 0 <= i <= |chunks|
          invariant acc == Concat(chunks[..i])
          invariant messages == start + [Msg(Assistant, acc)]
          invariant |shown| == i + 1
          invariant forall j | 0 <= j <= i :: shown[j] == start + [Msg(Assistant, Concat(chunks[..j]))]
        {
          StreamedPrefixes(chunks, i);
          acc := acc + chunks[i];
          messages := messages[idx := Msg(Assistant, acc)];
          shown := shown + [messages];
          i := i + 1;
        }
        assert chunks[..i] == chunks;
        if fault.Some? {
          messages := messages + [WarningMsg(fault.value)];
        }
      case _ =>
        messages := messages + [WarningMsg(ErrorText(reply))];
    }

    /** `send(userText, opts)`, completed with the proxy's `reply`. */
    method Send(userText: string, opts: SendOpts, reply: Reply)
      requires Valid() && Fits(opts, reply)
      modifies this
      ensures Valid()
      ensures IsBlank(userText) ==>
        messages == old(messages) && isLoading == old(isLoading) && requests == old(requests)
        && controller == old(controller) && aborted == old(aborted) && created == old(created)
      ensures !IsBlank(userText) ==>
        && requests == old(requests) + [Request(Route(opts), BuildPayload(userText, old(messages), opts))]
        && atFetch == (old(messages) + [Msg(User, userText)], true)
        && messages == old(messages) + [Msg(User, userText)] + Appended(reply)
        && !isLoading
        && aborted == old(aborted) + old(CurrentSet())
        && controller == Some(old(created)) && created == old(created) + 1
      ensures !IsBlank(userText) && reply.Chunks? ==>
        |shown| == |reply.chunks| + 1
        && forall i | 0 <= i <= |reply.chunks| ::
          shown[i] == old(messages) + [Msg(User, userText), Msg(Assistant, Concat(reply.chunks[..i]))]
    {
      var blank := TrimsToEmpty(userText);
      if blank {
        return;
      }
      var before := messages;
      Begin(userText, opts);
      // `messages.length + 1` read from the transcript captured before this turn
      var idx := |before| + 1;
      Complete(reply, idx);
      isLoading := false;
    }
  }
}
