# Portfolio site logic, modelled in Dafny

This project models the logic of a personal portfolio site written in TypeScript with
React. Most of the site is rendering. The parts modelled here are the ones that decide
something:

- **The chat transport hook** (`useChat`). It keeps the transcript and a loading flag.
  It builds the request payload, picks the streaming or the single-shot route, and
  appends the answer, the streamed chunks, or one warning message.
- **The TTL session store.** One record sits under the key `chat_session_v1` of the
  browser's session storage. It expires when strictly more than 20 minutes have passed.
  A malformed or expired record is purged when it is read.
- **The tag filter.** A case-insensitive search over tags, then a two-group sort done in
  place: tags carried by some project first, each group in ascending order. It also
  covers the collapsed view and the toggle, disable and clear rules of the selection.
- **The home page.** It gathers the deduplicated, sorted tag catalogue from the projects
  and filters projects with OR semantics over the selected tags.
- **Two typewriter animations.** One is the rotating "Ask me about my …" placeholder; the
  other is the general typing hook. Each timer callback is one step of a state machine.
- **The chat modal.** It decides whether a markdown link becomes a GitHub chip, a launch
  chip or an ordinary link, and computes the chip's label. It also flattens rendered
  nodes to text, decides when the typing indicator shows, and applies the trim-then-send
  rule of the input box.
- **The project card.** It joins the description, shows at most five tags, and counts the
  rest as overflow.

Each source file is one module:

| module | file |
|---|---|
| `UseChat` | `use_chat.dfy` |
| `ChatSession` | `chat_session.dfy` |
| `TagFilter` | `tag_filter.dfy` |
| `Home` | `home.dfy` |
| `AnimatedPlaceholder` | `animated_placeholder.dfy` |
| `TypingAnimation` | `typing_animation.dfy` |
| `GlassChatModal` | `glass_chat_modal.dfy` |
| `ProjectCard` | `project_card.dfy` |

Four shared modules sit beside them:

- `Wrappers`: `Option`, standing for `undefined` and `??`.
- `Seqs`: `Filter`, subsequences and duplicate-freedom.
- `Text`: the JavaScript string operations the code calls, including `trim`,
  `toLowerCase`, `includes`, `startsWith`, `join`, `split` and `String(n)`.
- `Transcript`: the `{role, content}` message record.

Code that changes state step by step is modelled as a class. Each such class method is
specified by a pure function of the old state. The properties the site relies on are
proved as lemmas about those functions.

Where the code and the documented intent of the site disagree, the model follows the code. This happens in three places:

- `use-chat.ts` never calls the session store. The transcript is not persisted by the
  hook, and `reset` does not clear stored sessions.
- `reset` empties the transcript and aborts the controller. It does not touch
  `isLoading`.
- There is no unload handler anywhere. Nothing saves the session when the page closes.

## Model

| member | source | states |
|---|---|---|
| Text.TrimEmptyIffBlank | src/lib/use-chat.ts:29 | `s.trim()` is empty exactly when every character of `s` is ECMAScript whitespace or a line terminator |
| Text.TrimIdempotent | src/components/ui/glass-chat-modal.tsx:170-172 | trimming the already trimmed message changes nothing |
| Text.SplitJoin | src/components/ui/project-card.tsx:84 | splitting a `join` at its one-character separator gives back the parts when no part contains it |
| Text.IntToStringRoundTrip | src/lib/use-chat.ts:62 | the decimal text of an integer is a numeral that parses back to the same integer |
| ChatSession.Load | src/lib/chat-session.ts:8-24 | a session comes back exactly when a window exists and a well-formed record under the key is at most TTL old; it is the stored record, and storage is then unchanged; no window, a missing key or an empty entry leaves storage alone; any other failed read removes the key |
| ChatSession.Save | src/lib/chat-session.ts:26-30 | with a window the key holds exactly the new messages and the current time, and no other key changes; without one nothing changes |
| ChatSession.Clear | src/lib/chat-session.ts:32-36 | with a window the key is gone and nothing else changes; without one nothing changes |
| ChatSession.SaveThenLoad | src/lib/chat-session.ts:14-19 | a load within the TTL after a save returns exactly the saved messages and timestamp, and leaves storage as saved |
| ChatSession.TtlBoundaryStillLoads | src/lib/chat-session.ts:6 | a record exactly 1,200,000 ms old is still returned, because the test is a strict `>` |
| ChatSession.ExpiredLoadIsIdempotent | src/lib/chat-session.ts:15-17 | an expired record yields null and is removed; any later load yields null and changes nothing |
| ChatSession.MalformedIsPurged | src/lib/chat-session.ts:20-23 | a non-empty record that fails to parse yields null and is removed |
| ChatSession.BlankIsKept | src/lib/chat-session.ts:11-12 | an empty entry yields null and is not removed |
| ChatSession.LoadLeavesOtherKeys | src/lib/chat-session.ts:11-23 | a load never adds, removes or changes a key other than `chat_session_v1` |
| ChatSession.ClearThenLoad | src/lib/chat-session.ts:32-36 | after a clear no session can be loaded, at any time |
| ChatSession.SessionStore.LoadSession | src/lib/chat-session.ts:8-24 | the method returns what `Load` returns and leaves storage as `Load` leaves it |
| ChatSession.SessionStore.SaveSession | src/lib/chat-session.ts:26-30 | storage becomes `Save` of the old storage |
| ChatSession.SessionStore.ClearSession | src/lib/chat-session.ts:32-36 | storage becomes `Clear` of the old storage |
| UseChat.Route | src/lib/use-chat.ts:42-43 | the route is `/api/chat` exactly when `stream` is explicitly false, and `/api/chat/stream` otherwise |
| UseChat.BuildPayload | src/lib/use-chat.ts:31-40 | the question is the untrimmed text; the history is the transcript before the turn; `k`, `model`, `use_hyde` and `rerank` default to 5, `openai/gpt-4o-mini`, false and none; `rerank_top_n` passes through |
| UseChat.ErrorText | src/lib/use-chat.ts:60-63 | a non-OK reply with a body reports `Error: ` and the body |
| UseChat.Appended | src/lib/use-chat.ts:60-87 | a turn appends one or two assistant messages, all from the assistant: the answer; or the concatenation of every chunk, followed, when the stream failed, by the warning sign and the error's text; or else exactly one message, the warning sign followed by `String(error)` as `ErrorText` gives it |
| UseChat.OneUserMessagePerTurn | src/lib/use-chat.ts:45 | a completed turn adds exactly one user message |
| UseChat.HttpErrorReportsStatus | src/lib/use-chat.ts:62 | with an empty body, the warning reads `Error: HTTP ` followed by a numeral that parses back to the status |
| UseChat.StreamedPrefixes | src/lib/use-chat.ts:78-81 | each chunk extends the running text by itself, and the running texts are prefixes of the final one |
| UseChat.ChatHook.constructor | src/lib/use-chat.ts:18-20 | the hook starts with an empty transcript, not loading, and no controller |
| UseChat.ChatHook.Reset | src/lib/use-chat.ts:22-25 | reset aborts the current controller and empties the transcript; the loading flag, controller and requests stay |
| UseChat.ChatHook.Begin | src/lib/use-chat.ts:31-50 | the request is built from the old transcript; the user message is appended and loading set before the fetch; the old controller is aborted and a new one installed |
| UseChat.ChatHook.Complete | src/lib/use-chat.ts:52-87 | the transcript gains exactly `Appended(reply)`; while streaming, the transcript shown after the empty placeholder and after the k-th chunk is the old one plus one assistant message holding the first k chunks concatenated |
| UseChat.ChatHook.Send | src/lib/use-chat.ts:27-91 | blank text changes nothing and sends nothing; otherwise exactly one request is made with that payload and route, the transcript is old + user message + `Appended(reply)`, and loading ends false; while streaming, each transcript shown is old + user message + an assistant message with the chunks so far |
| TagFilter.KeepMatching | src/components/ui/tag-filter.tsx:34-41 | an empty query keeps the list itself; otherwise a tag is kept exactly when its lower-case form contains the lower-case query, with all its copies; the kept tags stay in their order |
| TagFilter.EmptyQueryMatchesAll | src/components/ui/tag-filter.tsx:37-41 | every tag matches the empty query, so skipping the filter for it loses nothing |
| TagFilter.TagLeTotal | src/components/ui/tag-filter.tsx:45-55 | the comparator relates any two tags |
| TagFilter.TagLeTransitive | src/components/ui/tag-filter.tsx:45-55 | the comparator is transitive, as `Array.prototype.sort` requires |
| TagFilter.TagLeAntisymmetric | src/components/ui/tag-filter.tsx:45-55 | tags the comparator ranks equal are equal |
| TagFilter.SortedIsAvailableFirst | src/components/ui/tag-filter.tsx:43-55 | in a sorted list every tag with projects precedes every tag without, and each group ascends |
| TagFilter.SortedUnique | src/components/ui/tag-filter.tsx:45 | two sorted permutations of the same tags are equal, whatever sort algorithm the engine uses |
| TagFilter.SortTags | src/components/ui/tag-filter.tsx:45-55 | the array is sorted in place by the comparator and is a permutation of its old contents |
| TagFilter.FilteredTags | src/components/ui/tag-filter.tsx:33-56 | the result is tags-with-projects-first and ascending, and a permutation of the kept tags; with an empty query the caller's array is reordered, otherwise it is untouched |
| TagFilter.VisibleTags | src/components/ui/tag-filter.tsx:59 | all tags when expanded, otherwise the first `maxVisibleTags` of them, in order |
| TagFilter.MoreTagsIffCollapsedHides | src/components/ui/tag-filter.tsx:59-60 | the expand button shows exactly when the collapsed view hides a tag |
| TagFilter.Toggle | src/components/ui/tag-filter.tsx:62-67 | a selected tag is removed with every occurrence and the rest keep their order and their number of copies; an unselected tag is appended |
| TagFilter.CompactToggle | src/components/ui/tag-filter.tsx:232-237 | the compact filter's toggle is the same rule as the full filter's |
| TagFilter.ToggleTwiceRestores | src/components/ui/tag-filter.tsx:62-67 | toggling an unselected tag twice restores the selection |
| TagFilter.ToggleKeepsNoDups | src/components/ui/tag-filter.tsx:62-67 | toggling keeps a duplicate-free selection duplicate-free |
| TagFilter.ClickTag | src/components/ui/tag-filter.tsx:163-170 | a click on a disabled tag (not selected, count 0) does nothing; a selected tag is toggled off exactly as `Toggle` does, the other tags keeping their order and copies; an unselected tag with projects is appended |
| TagFilter.Panel.constructor | src/components/ui/tag-filter.tsx:27-30 | the search starts empty, the list collapsed, and `maxVisibleTags` defaults to 12 |
| TagFilter.Panel.Search | src/components/ui/tag-filter.tsx:88 | typing sets the query and nothing else |
| TagFilter.Panel.ClearSearch | src/components/ui/tag-filter.tsx:73-75 | clearing the search empties it, after which every tag passes |
| TagFilter.Panel.ToggleExpanded | src/components/ui/tag-filter.tsx:191 | the expand button flips the expanded flag |
| TagFilter.Panel.Shown | src/components/ui/tag-filter.tsx:59-60 | the tags shown are a prefix of the filtered tags, and something is hidden only when collapsed with more tags than the limit |
| Home.AllTags | src/app/page.tsx:89-95 | the catalogue holds every tag of every project and nothing else, without duplicates, in ascending order |
| Home.FilterProjects | src/app/page.tsx:98-105 | an empty selection shows all projects in order; otherwise exactly the projects sharing a selected tag, each with all its copies, as an order-preserving subsequence, never more than the total |
| Home.CarriedTagCounts | src/components/ui/tag-filter.tsx:164 | a tag's project count is positive exactly when some project carries it |
| Home.Availability | src/app/page.tsx:133-139 | the counts for the tag filter have an entry for exactly the tags some project carries |
| Home.NoCountsNothingSelectable | src/app/page.tsx:133-139 | with the counts omitted, as the page does, no sequence of clicks selects any tag starting from the empty selection |
| Home.CatalogueTagsSelectable | src/app/page.tsx:133-139 | with the catalogue's counts, clicking an unselected catalogue tag appends it |
| Home.HomePage.constructor | src/app/page.tsx:86 | the page starts with no tag selected |
| Home.HomePage.Shown | src/app/page.tsx:98-105 | the projects on show are an order-preserving subsequence of the catalogue |
| Home.HomePage.ClickTag | src/app/page.tsx:133-139 | a tag click applies the tag filter's click rule with no counts, as the page renders it: an unselected tag stays unselected and a selected one is removed |
| Home.HomePage.ClickCatalogueTag | src/app/page.tsx:133-139 | the click as intended, with the catalogue's counts: an unselected catalogue tag is appended |
| Home.HomePage.RemoveActiveFilter | src/components/ui/tag-filter.tsx:136-139 | an active-filter chip toggles its tag without the disabled check |
| Home.HomePage.ClearAllFilters | src/app/page.tsx:166-167 | "Clear all filters" empties the selection, after which every project shows |
| AnimatedPlaceholder.Tick | src/lib/use-animated-placeholder.ts:52-96 | a tick always schedules another timeout; it changes nothing and schedules the pause exactly when the suffix is fully typed |
| AnimatedPlaceholder.EndPause | src/lib/use-animated-placeholder.ts:90-92 | after the pause deleting starts |
| AnimatedPlaceholder.TickPreservesInv | src/lib/use-animated-placeholder.ts:56-87 | a tick keeps prefix length within the prefix, the index within the three suffixes and the typed suffix a prefix of the current one; the text it displays is the prefix, or prefix plus suffix, of the new state |
| AnimatedPlaceholder.EndPausePreservesInv | src/lib/use-animated-placeholder.ts:88-94 | the end of the pause keeps the invariant and the displayed text |
| AnimatedPlaceholder.PrefixPhase | src/lib/use-animated-placeholder.ts:56-61 | while the prefix is incomplete a tick adds one character and displays the first that many characters of `Ask me about my ` |
| AnimatedPlaceholder.TypeSuffix | src/lib/use-animated-placeholder.ts:83-87 | while typing, a tick extends the suffix by exactly one character and keeps it a prefix of the current suffix |
| AnimatedPlaceholder.DeleteSuffix | src/lib/use-animated-placeholder.ts:62-80 | while deleting, a tick removes one trailing character; once the suffix is empty it moves to the next suffix mod 3, typing, with an empty suffix |
| AnimatedPlaceholder.PrefixTyped | src/lib/use-animated-placeholder.ts:56-61 | from the start, sixteen steps type the whole prefix |
| AnimatedPlaceholder.SuffixRound | src/lib/use-animated-placeholder.ts:62-94 | a suffix of length n is typed, held, deleted and followed by the next suffix in 2n+2 steps |
| AnimatedPlaceholder.SuffixCycle | src/lib/use-animated-placeholder.ts:6 | three rounds visit the suffixes in order, projects, skills, experience, and return to the starting state |
| AnimatedPlaceholder.Placeholder.constructor | src/lib/use-animated-placeholder.ts:13-22 | the state starts empty, and an active hook ticks at once |
| AnimatedPlaceholder.Placeholder.RunTick | src/lib/use-animated-placeholder.ts:52-96 | updating `stateRef` field by field does what `Tick` says |
| AnimatedPlaceholder.Placeholder.Fire | src/lib/use-animated-placeholder.ts:61 | the pending timeout either ticks or ends the pause, and the invariant and display stay in step |
| AnimatedPlaceholder.Placeholder.SetActive | src/lib/use-animated-placeholder.ts:38-46 | going inactive cancels the timeout and keeps `stateRef` and the display; going active ticks at once |
| TypingAnimation.DropLast | src/lib/use-typing-animation.ts:32 | deleting drops the last character, and the empty text stays empty |
| TypingAnimation.TypeOne | src/lib/use-typing-animation.ts:34 | typing gives the prefix of the full text of length `min(n+1, full length)` |
| TypingAnimation.Tick | src/lib/use-typing-animation.ts:24-58 | a tick starts the pause only when it was not paused, and keeps the index in range |
| TypingAnimation.EndPause | src/lib/use-typing-animation.ts:40-43 | the end of the pause clears paused and starts deleting, keeping the text |
| TypingAnimation.PausedTickIsNoop | src/lib/use-typing-animation.ts:27-29 | while paused a tick changes nothing |
| TypingAnimation.DeletingTick | src/lib/use-typing-animation.ts:31-50 | deleting drops the last character; on the empty text it stops deleting and advances the index mod the number of texts |
| TypingAnimation.TypingTick | src/lib/use-typing-animation.ts:33-34 | typing an incomplete text adds exactly its next character |
| TypingAnimation.FullTextPauses | src/lib/use-typing-animation.ts:37-44 | typing on the complete text keeps it, sets paused and starts the pause timeout |
| TypingAnimation.TickPreservesInv | src/lib/use-typing-animation.ts:31-50 | the text shown stays a prefix of the current text, and the index stays in range |
| TypingAnimation.UnpausedTickProgresses | src/lib/use-typing-animation.ts:60-67 | a tick that is not paused always changes the state, so the effect schedules the next one |
| TypingAnimation.TextRound | src/lib/use-typing-animation.ts:24-50 | a text of length n is typed, held, deleted and followed by the next text in 2n+3 steps |
| TypingAnimation.Typewriter.constructor | src/lib/use-typing-animation.ts:12-22 | the speeds default to 100, 50 and 2000 ms, and the first tick is scheduled exactly when `texts` is non-empty |
| TypingAnimation.Typewriter.Reschedule | src/lib/use-typing-animation.ts:60-67 | after a state change a tick is scheduled, at the deleting or typing speed, unless `texts` is empty |
| TypingAnimation.Typewriter.RunTick | src/lib/use-typing-animation.ts:24-58 | the state variables change as `Tick` says; no tick is ever pending with empty `texts`; an unpaused state always has a tick pending |
| TypingAnimation.Typewriter.RunEndPause | src/lib/use-typing-animation.ts:40-43 | the pause timeout starts deleting and schedules a tick at the deleting speed |
| GlassChatModal.ExtractText | src/components/ui/glass-chat-modal.tsx:359-366 | a string is itself, anything else without children is empty, and an element whose children are falsy is empty |
| GlassChatModal.ExtractTextAppend | src/components/ui/glass-chat-modal.tsx:362 | the text of an array is the text of its parts, concatenated |
| GlassChatModal.ExtractTextSingleton | src/components/ui/glass-chat-modal.tsx:362 | an array of one node has that node's text; with the append law, an array's text is its items' texts in order |
| GlassChatModal.NumberText | src/components/ui/glass-chat-modal.tsx:361-363 | a number is its decimal text, which parses back to it; as an element's only child, 0 contributes nothing |
| GlassChatModal.ElementIsTransparent | src/components/ui/glass-chat-modal.tsx:364 | an element with truthy children has its children's text |
| GlassChatModal.StripLabelPrefix | src/components/ui/glass-chat-modal.tsx:377-379 | text without a `live:`/`github:` prefix is only trimmed, and the label is never longer than the text |
| GlassChatModal.StripPrefixWord | src/components/ui/glass-chat-modal.tsx:377-379 | a `live:` or `github:` prefix in any ASCII case is removed with the blanks after it |
| GlassChatModal.StripKnownPrefix | src/components/ui/glass-chat-modal.tsx:377-379 | `Live:`, `LIVE:` and `GitHub:` prefixes are stripped |
| GlassChatModal.ChipLabel | src/components/ui/glass-chat-modal.tsx:376-384 | the label is never empty; it is the stripped text unless that is empty or the address, then `GitHub` or `Launch` |
| GlassChatModal.RenderLink | src/components/ui/glass-chat-modal.tsx:355-371 | no address gives a plain anchor; a chip exactly when the address contains `github.com` or the link is live; a chip's label is `ChipLabel` of the link text, never empty, and it is a GitHub chip exactly when the address contains `github.com` |
| GlassChatModal.BareGitHubLink | src/components/ui/glass-chat-modal.tsx:381-384 | a GitHub link labelled with its own address becomes a `GitHub` chip |
| GlassChatModal.WebLinkIsLaunchChip | src/components/ui/glass-chat-modal.tsx:370-371 | any `https://` address outside GitHub becomes a launch chip, whatever its text |
| GlassChatModal.RenderListItem | src/components/ui/glass-chat-modal.tsx:332-340 | a list item loses its bullet exactly when its text contains `Live:` or `GitHub:` |
| GlassChatModal.LinkLineIsInline | src/components/ui/glass-chat-modal.tsx:332-337 | an item starting with a `Live:` line is inline whatever follows; the test is case-sensitive, so a lower-case `live:` item with no `Live:` or `GitHub:` in the rest keeps its bullet |
| GlassChatModal.IndicatorDuringTurn | src/components/ui/glass-chat-modal.tsx:437 | while loading, the indicator shows after the question and over an empty assistant slot, and goes once answer text arrives; it never shows when `isLoading` is absent |
| GlassChatModal.ChatInput.constructor | src/components/ui/glass-chat-modal.tsx:28 | the input starts empty with nothing sent |
| GlassChatModal.ChatInput.Change | src/components/ui/glass-chat-modal.tsx:466 | typing sets the input and sends nothing |
| GlassChatModal.ChatInput.Submit | src/components/ui/glass-chat-modal.tsx:168-179 | blank input sends nothing and keeps the input; otherwise the trimmed text, never blank, is sent once and the input is cleared |
| GlassChatModal.ChatInput.KeyDown | src/components/ui/glass-chat-modal.tsx:181-186 | Enter without Shift submits; every other key, and Shift+Enter, changes nothing |
| ProjectCard.TagsOrDefault | src/components/ui/project-card.tsx:74 | a missing `tags` prop is the empty list |
| ProjectCard.ShowsTagRow | src/components/ui/project-card.tsx:171 | the tag row is rendered exactly when a `tags` prop is given and is non-empty |
| ProjectCard.CombinedDescription | src/components/ui/project-card.tsx:84 | no paragraphs give the empty text and a single paragraph is itself |
| ProjectCard.DescriptionSplitsBack | src/components/ui/project-card.tsx:84 | paragraphs without spaces are recovered by splitting the combined description at spaces |
| ProjectCard.OverflowTagCount | src/components/ui/project-card.tsx:85-86 | the overflow is the number of tags past the fifth, and 0 for five tags or fewer |
| ProjectCard.VisibleTags | src/components/ui/project-card.tsx:87 | the visible tags are a prefix of the tags, at most five, and all of them when there are at most five |
| ProjectCard.TagsAccounted | src/components/ui/project-card.tsx:85-87 | visible plus overflow is the number of tags; visible tags followed by the rest are all the tags in order |
| ProjectCard.Card.constructor | src/components/ui/project-card.tsx:82 | the description starts collapsed |
| ProjectCard.Card.ReadMore | src/components/ui/project-card.tsx:89-91 | "Read more" flips `showFullDescription` |

## Left out

- Network, streams and decoding: `fetch`, `ReadableStream`, `AbortController` and `TextDecoder` are not modelled. The reply is an argument of `Send`, and chunks are already-decoded strings. A fresh decoder per chunk can split a multi-byte character; bytes are not modelled.
- `temperature`: it is a floating-point option passed through untouched, so it is left out of the payload.
- Cancellation across renders: `abortRef` is recreated on every render. The model keeps one controller per hook instance and claims no single-in-flight guarantee.
- Interleaved sends: only sequential sends are modelled. The stale `messages.length + 1` slot index of a concurrent send is not.
- Time: `Date.now` is the `now` parameter. Timeouts, intervals, delays and the blinking cursor are discrete steps or left out. The delays are kept as constants on the scheduled timer.
- Ordering: `localeCompare` and the default `sort` order are modelled as code-point lexicographic order. Locale collation and UTF-16 code-unit order for characters outside the Basic Multilingual Plane are not modelled.
- Case and length: `toLowerCase` is modelled for ASCII letters only. Strings are sequences of Unicode characters, not of UTF-16 code units.
- Numbers: `String(n)` is modelled for integers. Fractional and special numbers in rendered nodes are not modelled.
- `tagAvailability` counts are natural numbers. Negative counts are never passed to the component and are not modelled.
- TagFilter.Count: counts are looked up as own keys with default 0. JavaScript's `tagAvailability[tag] || 0` also reads through the object prototype, so a tag named `constructor`, `toString`, `valueOf` or `__proto__` would get a truthy value there; such tag names are not modelled, and `Home.NoCountsNothingSelectable` holds for the model's lookup only. The catalogue has no such tag.
- ChatSession: storage access is modelled as infallible. `getItem`, `setItem` and `removeItem` can throw (a full quota, storage disabled), and the calls at src/lib/chat-session.ts:11, 16, 21, 29 and 35 sit outside any handler, so the exception reaches the caller; those exceptions are not modelled.
- JSON: serialisation and parsing in the session store are not modelled. A stored entry is a well-formed record, the empty string (`Blank`), or text whose parsing or `ts` read throws (`Malformed`). Parsable JSON of another shape, which `loadSession` returns unchecked, is not modelled.
- UI: DOM and UI-library behaviour is left out. This covers click-outside detection, clipboard copy, scrolling, focus, markdown parsing, motion, tooltips, icons and `handleTagClick`'s console logging.
- Project card buttons: whether the GitHub, blog and launch buttons are enabled is not modelled.
- Other code: the proxy routes and the purely presentational components are not part of this model.
- AnimatedPlaceholder.Next, TypingAnimation.Next: these step functions skip the tick that only schedules the pause (the placeholder) or is a no-op while paused (the typing hook). `SuffixRound` and `TextRound` count the callbacks that change the state.

## Findings

| source | as written | input that shows it | evidently intended | confidence | as-written member | corrected member |
|---|---|---|---|---|---|---|
| src/app/page.tsx:133-139 | the page renders `TagFilter` without `tagAvailability`, so every tag counts 0 and every unselected tag button is disabled (src/components/ui/tag-filter.tsx:163-170) | any click on any catalogue tag from the empty selection: the selection stays empty | the page passes, for each tag, the number of projects that carry it, so every catalogue tag can be selected (`Home.HomePage.ClickCatalogueTag`) | high; not executed | Home.NoCountsNothingSelectable | Home.CatalogueTagsSelectable |
