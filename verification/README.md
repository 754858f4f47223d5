# Portfolio assistant: a Dafny model

This project models the logic behind Shahid Shaikh's portfolio site and its
AI chat widget, and proves properties of that model. It covers:

- the chat's markdown renderer (`MarkdownContent`). It applies the
  `**bold**` rewrite and turns `* ` bullets into list items. Runs of items
  are wrapped in one `<ul>`; other lines become `<p>` or `<br/>`. Runs of
  `<br>` tags are then collapsed;
- the chat transcript (`AIChat`):
  - the greeting seeded on the first opening;
  - the send handler, which accepts or rejects a message and appends the
    user's turn and an empty reply;
  - the reply stream's chunks, appended in order;
  - the apology that replaces a reply whose stream throws;
  - the streaming flag;
  - the suggestion buttons, the send button and the thinking indicator;
- the model service helpers (`services/gemini.ts`):
  - the message-to-content conversion and its role renaming;
  - the layout of the system instruction;
  - the request sent to the SDK;
  - the one-chunk stream returned when the request cannot be set up;
- the decisions the portfolio page (`App.tsx`) makes:
  - the `tel:` link's phone filter;
  - the three technology chips;
  - the stock-image fallback;
  - the project and offer-letter links;
  - the reveal-on-scroll latch.

Modules, one per file:

| file | module | contents |
|---|---|---|
| options.dfy | Options | `Option` |
| jstext.dfy | JsText | JavaScript whitespace, `trim`, `startsWith`, `join`, `split` on one character, truthiness of an optional string |
| bold.dfy | Bold | the regular expression `\*\*(.*?)\*\*` as a left-to-right segment scan, and its rendering |
| brcollapse.dfy | BrCollapse | the regular expression `(<br\s*\/?>\s*){2,}` and its global replace |
| markdown.dfy | Markdown | `processLine`, the line classification, the list-wrapping loop, the whole renderer |
| messages.dfy | Messages | a chat turn: role and content |
| profile.dfy | Profile | the records of `types.ts` that the model reads |
| gemini.dfy | Gemini | `buildHistory` and its inverse, `getSystemInstruction`, the request, the fallback stream |
| chat.dfy | Chat | the widget's state, its handlers, the event machine and its invariant |
| site.dfy | Site | the `App.tsx` decisions listed above |
| fixtures.dfy | Fixtures | concrete values: the first stock image, the first opening and send, the first history |

Three behaviours of the code worth noting:

- A request that cannot be set up yields a stream with one chunk, the
  "trouble connecting" text. That text becomes the reply. The apology is
  used only when iterating the stream throws.
- A stream that ends without any non-empty chunk leaves the assistant's
  reply empty. Nothing replaces it.
- A line is classified after the bold rewrite and the bullet rewrite, by
  whether the result starts with `<li>`. So a raw line that already starts
  with `<li>` is treated as a list item.

## Model

| member | source | states |
|---|---|---|
| JsText.TrimStart | components/AIChat.tsx:11 | the result is a suffix of the input, everything removed is JavaScript whitespace, and the result does not start with whitespace |
| JsText.TrimEnd | components/AIChat.tsx:11 | the result is a prefix of the input, everything removed is whitespace, and the result does not end with whitespace |
| JsText.Trim | components/AIChat.tsx:77 | the result is a slice of the input with only whitespace outside it, and it neither starts nor ends with whitespace |
| JsText.Split | components/AIChat.tsx:17 | `split('\n')` yields at least one piece, and no piece contains the separator |
| JsText.JoinSplit | components/AIChat.tsx:17 | joining the pieces with the separator gives back the original string |
| JsText.SplitJoin | components/AIChat.tsx:17 | splitting a join of separator-free pieces gives back exactly those pieces |
| JsText.SplitConcat | components/AIChat.tsx:17 | splitting two strings joined by the separator gives the pieces of the first, then those of the second |
| JsText.JoinFree | services/gemini.ts:11-15 | a character absent from the pieces and the separator is absent from the join |
| Bold.Close | components/AIChat.tsx:10 | the lazy group ends at the first `**` that no line terminator precedes; there is none exactly when every `**` follows a line terminator |
| Bold.CloseUnique | components/AIChat.tsx:10 | the first reachable `**` is the only possible closing position |
| Bold.ParseUnparse | components/AIChat.tsx:10 | the segments of the scan spell out the input line exactly |
| Bold.ParseWellFormed | components/AIChat.tsx:10 | every bold span the scan finds is lazy, and no literal `*` opens a pair that could close |
| Bold.ParseUnique | components/AIChat.tsx:10 | any well-formed segmentation of a line is the one the scan finds, so the scan is the unique leftmost-lazy reading |
| Bold.BoldPlain | components/AIChat.tsx:10 | a line without `*` is left unchanged |
| Bold.BoldPair | components/AIChat.tsx:10 | the first lazy `**x**` becomes `<strong>x</strong>`, the text before it is kept, and the rest is rewritten on its own |
| Bold.BoldUnmatched | components/AIChat.tsx:10 | after text that opens no match, a `**` that nothing on its line closes stays literal, and the rest of the line is rewritten on its own |
| Bold.BoldDoubleStar | components/AIChat.tsx:10 | a `**` that nothing on its line closes is copied as two literal stars, and the rest is rewritten on its own |
| Bold.BoldEmpty | components/AIChat.tsx:10 | the rewrite is empty exactly when the line is |
| Bold.BoldKeepsNonSpace | components/AIChat.tsx:10 | a line that is not all whitespace still is not after the rewrite |
| BrCollapse.WsLen | components/AIChat.tsx:43 | `\s*` takes the longest run of whitespace: what it takes is whitespace, and what follows is not |
| BrCollapse.BrTagLen | components/AIChat.tsx:43 | a found tag is at least four characters, lies within the input, starts with `<` and holds no other `<` |
| BrCollapse.BrTagLenExact | components/AIChat.tsx:43 | a length `n` is returned exactly when the first `n` characters are one `<br\s*\/?>` tag (`<br`, whitespace, an optional `/`, `>`) |
| BrCollapse.RunEndStops | components/AIChat.tsx:43 | the greedy group stops where neither whitespace nor another `<br>` tag follows |
| BrCollapse.RunOfCollapse | components/AIChat.tsx:43 | after the replace, a position that began two or more tags begins exactly one; other positions keep their count |
| BrCollapse.CollapseNoDoubleBr | components/AIChat.tsx:43 | no two `<br>` tags stand together in the result, whitespace aside |
| BrCollapse.CollapseFixes | components/AIChat.tsx:43 | markup with no doubled `<br>` is left unchanged |
| BrCollapse.CollapseIdempotent | components/AIChat.tsx:43 | applying the replace a second time changes nothing |
| Markdown.ListLine | components/AIChat.tsx:9-15 | an indented `* text` line, whose text is not all whitespace, becomes `<li>` + the bolded text trimmed at the end + `</li>` |
| Markdown.ListConverse | components/AIChat.tsx:9-15 | a line whose bolded, trimmed form starts with `* ` has bullet syntax in the raw line, so bold markup never creates a bullet |
| Markdown.BoldLi | components/AIChat.tsx:10-23 | the bold rewrite neither creates nor removes a leading `<li>` |
| Markdown.BulletLine | components/AIChat.tsx:9-15 | a bullet line is processed into an `<li>` element around its bolded text |
| Markdown.PlainLine | components/AIChat.tsx:9-15 | any other line is processed into its bold rewrite alone |
| Markdown.LineKind | components/AIChat.tsx:9-34 | the loop treats the empty line as `<br/>`, a bullet or a line that starts with `<li>` as a list item, and anything else as a paragraph |
| Markdown.EmptyLineIsBr | components/AIChat.tsx:22-34 | a line yields `<br/>` exactly when it is empty |
| Markdown.BlankLineIsPara | components/AIChat.tsx:9-34 | a non-empty all-whitespace line becomes a paragraph of itself, not a break |
| Markdown.LineBlocks | components/AIChat.tsx:17-22 | one block per `\n`-separated line |
| Markdown.LineBlocksOfJoin | components/AIChat.tsx:17-22 | the blocks of lines joined by `\n` are those lines' blocks, in order |
| Markdown.LayoutNested | components/AIChat.tsx:21-40 | the emitted markup is well nested: items stand exactly inside a list, no list is empty, a list closes only before a non-item or at the end, and every list is closed |
| Markdown.LayoutEmitted | components/AIChat.tsx:21-40 | the blocks appear in the markup in line order, none lost or added |
| Markdown.LayoutUnique | components/AIChat.tsx:21-40 | any well-nested piece sequence is the loop's output for the blocks it emits, so the loop adds no extra list tags |
| Markdown.NestedBalanced | components/AIChat.tsx:21-40 | the markup has as many `</ul>` as `<ul>` |
| Markdown.LayoutStep | components/AIChat.tsx:23-35 | the markup for a block list is one loop iteration's output followed by the markup for the rest |
| Markdown.AppendLine | components/AIChat.tsx:22-35 | one iteration appends the list-opening or list-closing tag its block needs, then the block, and records whether a list is open |
| Markdown.Assemble | components/AIChat.tsx:21-40 | the loop and the final close produce the markup of the line blocks |
| Markdown.RenderContent | components/AIChat.tsx:8-46 | the component's markup is the renderer's value, and it has no doubled `<br>` |
| Markdown.RenderNoDoubleBr | components/AIChat.tsx:42-43 | no rendered reply shows two `<br>` tags together |
| Markdown.RenderStable | components/AIChat.tsx:43 | the rendered markup is a fixed point of the `<br>` collapse |
| Gemini.RoleName | services/gemini.ts:23 | the user role is sent as `user` and the assistant role as `model`, and the name reads back as the role |
| Gemini.BuildHistory | services/gemini.ts:21-26 | one content per message, in order, each with the renamed role and the message text as its only part |
| Gemini.HistoryRoundTrip | services/gemini.ts:21-26 | the built history reads back as the original messages |
| Gemini.ReadHistoryBuilds | services/gemini.ts:21-26 | every history that reads back is the one built from its messages, so the conversion is a bijection onto well-formed histories |
| Gemini.JoinSpaced | services/gemini.ts:15 | joining hobbies with `. ` is joining them with `.` once each hobby after the first carries a leading space |
| Gemini.HobbiesPieces | services/gemini.ts:15 | when hobbies hold no full stop, splitting the hobbies text at `.` gives the hobbies, with a space in front of each after the first, then an empty tail |
| Gemini.SectionRow | services/gemini.ts:11-14 | a heading row with its `\n`-joined lines breaks into the heading sharing a line with the first entry, then the other entries |
| Gemini.SectionsPlain | services/gemini.ts:11-15 | the formatted lines of each section contain no line break when the records they come from have none |
| Gemini.SectionRows | services/gemini.ts:8-16 | a row sequence with four section rows breaks into its lines section by section, in order |
| Gemini.RowsLines | services/gemini.ts:7-16 | the instruction's rows break into the blank row, name, role, summary, the four sections line by line, hobbies, and the blank row |
| Gemini.BodyLines | services/gemini.ts:7-16 | for the portfolio's records, the instruction body's lines are as listed above, one entry per line |
| Gemini.FramedRows | services/gemini.ts:6-17 | the instruction is the opening paragraph, the rows on lines of their own, then the indented closing paragraph |
| Gemini.MakeRequest | services/gemini.ts:32-42 | the request names the model, carries a history that reads back as exactly the transcript, and carries the instruction built from the portfolio's records |
| Gemini.StreamChat | services/gemini.ts:28-62 | a request that cannot be set up gives a non-throwing stream whose one chunk is the trouble text; otherwise it gives the SDK's stream unchanged |
| Chat.WithLast | components/AIChat.tsx:94-108 | replacing the last turn's content keeps the length, every earlier turn and the last turn's role |
| Chat.WithLastTwice | components/AIChat.tsx:104-108 | a second replacement overrides the first |
| Chat.Open | components/AIChat.tsx:68-72 | opening seeds the greeting exactly when the widget was closed with an empty transcript, and changes nothing else |
| Chat.ReopenKeeps | components/AIChat.tsx:68-72 | closing and reopening never seeds a second greeting |
| Chat.Send | components/AIChat.tsx:76-85 | a send is rejected exactly when the resolved message is empty or a reply is streaming; when accepted, it clears the input, starts streaming, and appends the user's turn and an empty assistant turn, and the request is the transcript with the user's turn |
| Chat.RequestIsPrefix | components/AIChat.tsx:81-85 | the request is the new transcript minus the empty reply |
| Chat.TypedMessage | components/AIChat.tsx:77 | a typed message that is accepted is non-empty and trimmed at both ends |
| Chat.AppendChunk | components/AIChat.tsx:90-100 | a chunk touches only the transcript |
| Chat.Receive | components/AIChat.tsx:90-101 | the stream loop never adds or removes turns |
| Chat.ReceiveCollects | components/AIChat.tsx:90-101 | chunk-by-chunk appending leaves the reply's content followed by the non-empty chunk texts, concatenated in arrival order |
| Chat.SilentStream | components/AIChat.tsx:93 | a stream with no non-empty chunk adds nothing to the reply |
| Chat.RespondOutcome | components/AIChat.tsx:87-112 | after the stream, the reply is the apology if iteration threw and the collected text otherwise, streaming is off, and nothing else changed |
| Chat.ExchangeRejected | components/AIChat.tsx:76-78 | a rejected send leaves the state untouched |
| Chat.ExchangeAccepted | components/AIChat.tsx:76-112 | an accepted send ends with the user's turn and one reply appended: the trouble text if setup failed, the apology if the stream threw, the collected chunks otherwise; the input is cleared and streaming is off |
| Chat.SendButtonAgrees | components/AIChat.tsx:190-196 | the send button and the Enter key are enabled exactly when sending the typed text would be accepted |
| Chat.SuggestionAccepted | components/AIChat.tsx:158-164 | a suggestion shown is always accepted and becomes the user's turn verbatim |
| Chat.InitialInv | components/AIChat.tsx:50-53 | the initial state satisfies the transcript invariant |
| Chat.AlternatesPair | components/AIChat.tsx:81-85 | appending a user turn and its reply keeps turns alternating |
| Chat.StepInv | components/AIChat.tsx:68-113 | every event keeps the invariant: turns alternate and end with an assistant turn, an open widget has a transcript, and a streaming widget has a user turn and its reply |
| Chat.RunInv | components/AIChat.tsx:68-113 | the invariant holds after any sequence of events |
| Chat.RunChunks | components/AIChat.tsx:90-101 | while a reply streams, its chunk events one by one do what the stream loop does |
| Chat.EndReplay | components/AIChat.tsx:102-112 | after the last chunk, a fault event then the end of streaming does what the catch and finally blocks do |
| Chat.StreamReplay | components/AIChat.tsx:87-112 | replaying a stream as events ends in the state the handler's asynchronous part leaves |
| Chat.ExchangeReplay | components/AIChat.tsx:76-112 | the whole send handler equals the submit event followed by the events of the stream its request yields |
| Chat.StreamingShape | components/AIChat.tsx:168 | while streaming, the thinking indicator shows and the turn before the reply is the user's |
| Chat.StepKeepsHistory | components/AIChat.tsx:80-111 | no event shortens the transcript or changes a turn other than the last; outside streaming no existing turn changes at all |
| Site.SanitizePhone | App.tsx:489 | the filtered number holds only digits and `+`, and is no longer than the input |
| Site.SanitizeAppend | App.tsx:489 | the filter works character by character and keeps the order |
| Site.SanitizeKeeps | App.tsx:489 | a string of digits and `+` is left as it is |
| Site.SanitizeIdempotent | App.tsx:489 | filtering twice is filtering once |
| Site.SanitizeCounts | App.tsx:489 | every digit and `+` survives as often as it occurs, and nothing else survives |
| Site.TelHref | App.tsx:489 | the link is `tel:` followed by exactly the filtered phone number, so digits and `+` only |
| Site.TechChips | App.tsx:431 | a card shows the first three technologies, or all of them when there are fewer |
| Site.Decimal | App.tsx:424 | the number is printed as a non-empty run of digits |
| Site.DecimalRoundTrip | App.tsx:424 | the printed digits read back as the number |
| Site.DecimalInjective | App.tsx:424 | different numbers print differently |
| Site.ImageSrc | App.tsx:424 | a non-empty image URL is used as given; an absent or empty one is replaced by the stock image for the card's position |
| Site.FallbackDistinct | App.tsx:424 | no two cards share a stock image |
| Site.ProjectAction | App.tsx:443-456 | a card links to its project exactly when the link is non-empty, and otherwise shows the private-repository placeholder |
| Site.OfferLink | App.tsx:383-395 | the offer-letter link is rendered exactly when the letter's URL is non-empty, and it points there |
| Site.LatchIff | App.tsx:14-30 | a box is revealed exactly when some observer entry intersected |
| Site.LatchMonotone | App.tsx:20-22 | once revealed, a box stays revealed whatever entries follow |
| Site.ObserveMoves | App.tsx:21 | an entry only ever moves the flag from hidden to shown, and only when it intersects |
| Fixtures.FirstStockImage | App.tsx:424 | the first card's stock image is photo 1550000000000 |
| Fixtures.FirstOpening | components/AIChat.tsx:56-85 | opening the fresh widget shows the greeting alone with the suggestions, and the first suggestion's send gives the exact next state and request |
| Fixtures.FirstHistory | services/gemini.ts:21-26 | the greeting and the first suggestion are sent as a `model` content and a `user` content |

## Left out

- Rendering (JSX, class names, icons, scrolling, animation, the DOM). The model keeps only the values the markup is built from.
- HTML escaping: the renderer inserts its markup as raw HTML and escapes nothing. The model does the same and states nothing about safety.
- The SDK, the API key and the network. `connect` is a parameter that stands for building the client and calling `generateContentStream`. The sampling parameters (temperature 0.7, top-p 0.9) are floating point and are not part of the request datatype.
- Logging to the console in both catch blocks.
- React's batching and the in-place mutation of the last message at `components/AIChat.tsx:97`. Each state update is modelled as a pure function of the previous state, applied in order.
- Chat.Step: chunk and fault events change the state only while a reply is streaming. A stream that is still running when the widget is closed and reopened is modelled through the same events; the concurrency of two pending sends cannot arise, because a send is rejected while streaming.
- Gemini.BodyLines: the opening and closing prose paragraphs of the instruction are treated as opaque. The lemmas describe the rows between them and do not inspect the prose for line breaks.
- Gemini.BodyLines: assumes that no printed field holds a line break, as in the portfolio's records. A field that did would split its row across lines.
- Gemini.HobbiesPieces: assumes that no hobby holds a full stop.
- The portfolio's concrete records in `constants.tsx` are not transcribed. Functions take them as parameters, and the fixtures use only short values.
- The clipboard copy and the `mailto:` connect button of `App.tsx`, the navigation menu and the section headers: they are outside this model.
- Site.Decimal: prints any natural number. JavaScript prints integers at or above 10^21 in exponent form, but the image indices stay far below that.
