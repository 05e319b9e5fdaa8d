# Portfolio site core, modelled in Dafny

A model of the behaviour behind a personal portfolio site written in
TypeScript/React:

- the **chat relay endpoint** (`POST /api/chat`): it validates the posted
  message, sends exactly two turns (system prompt with the knowledge base
  spliced in, then the user's message) to a completion service, and answers
  with the completion text, a fixed apology, or an error;
- the **contact endpoint** (`POST /api/contact`): it checks that name, email
  and message are all truthy, logs them and acknowledges, or answers 400/500;
- the **chat widget**: its message list, the reply relay with its fallback
  text, blank-input handling, quick questions, the `triggerChatMessage`
  listener, reset, and `formatMessage`, the five regular-expression
  replacements that turn bold markers, bullets and newlines into HTML;
- the **news service** (`lib/newsApi.ts`): provider fallback
  NewsAPI → Guardian → NewsData per category, article construction, the
  read-time estimate and the "hours/days ago" label;
- the **latest-news section**: its own fetch loops, which abandon the whole
  fetch on any failure, key selection, refresh, and the fixed fallback posts;
- the interactive **sections**: the projects carousel (cyclic navigation,
  swipes, the preview strip, the icon list), the leadership timeline (a
  flattened list of experiences, year buttons, cyclic navigation), the
  leadership network (node selection, colour table, connection lines), the
  category-filtered experience cards, and the design-3 feature showcase
  (autoplay rotation, feature buttons, play/pause, labels, progress bar).

Everything outside the program (the completion service, `fetch`, the
environment's API keys, `Date.now()`, `Math.random()`) is a parameter of the
operation that uses it. Each module follows one source file:

| module | file |
|---|---|
| `ChatRoute` | app/api/chat/route.ts |
| `ContactRoute` | app/api/contact/route.ts |
| `ChatWidget`, `ChatFormat`, `Content` | components/ai-chat-section.tsx |
| `NewsApi` | lib/newsApi.ts |
| `LatestBlogs` | components/latest-blogs-section.tsx |
| `Projects` | components/projects-section.tsx |
| `Journey` | components/associative-experience-journey.tsx |
| `Network` | components/associative-experience-network.tsx |
| `ExperienceSection` | components/associative-experience-section-new.tsx |
| `AboutDesign3` | components/about-section-design3.tsx |

`Wrappers` (`Option`), `Text` (JavaScript character classes, `trim`,
`split`, decimal rendering), `Http` (JavaScript values, truthiness, response
payloads) and `Cyclic` (`(i + 1) % n` and `(i - 1 + n) % n`) are shared.

Two edge cases of the code are modelled as written. In the chat widget, a
2xx JSON reply without a `response` field gives a message whose content is
`undefined`; `ChatWidget.Generate` models that as `None`, and
`ChatWidget.EndToEnd` proves that the real chat endpoint never sends such a
reply. The contact endpoint tests each of its three fields for truthiness,
so an empty string is rejected like a missing field
(`ContactRoute.EmptyFieldRejected`).

## Model

| member | source | states |
|---|---|---|
| Http.TruthyIffNotFalsy | app/api/chat/route.ts:195 | `if (!message)` rejects exactly the six falsy values: undefined, null, false, 0, NaN and "" |
| Http.Field | app/api/chat/route.ts:193 | destructuring a missing key yields `undefined`, a present key yields its value |
| ChatRoute.PromptEmbedsKnowledge | app/api/chat/route.ts:168-189 | the knowledge base appears verbatim in the system prompt, right after the fixed head |
| ChatRoute.PromptDeterminesKnowledge | app/api/chat/route.ts:168-189 | two knowledge bases giving the same prompt are equal, so the prompt carries the knowledge base unaltered |
| ChatRoute.ReplyText | app/api/chat/route.ts:215 | a non-empty first choice's content is returned as is; no choice, no content or empty content gives the fixed apology; the reply is never empty |
| ChatRoute.Post | app/api/chat/route.ts:191-225 | the status is 200, 400 or 500; a request goes upstream iff the body is an object with a truthy message; 400 iff the message is falsy; 200 iff a request went upstream and it returned; 200 iff the payload is a `response`; the 400 and 500 error texts |
| ChatRoute.FalsyMessageRejected | app/api/chat/route.ts:195-197 | a falsy or missing message gets 400 "Message is required" and nothing is sent |
| ChatRoute.UnreadableBodyFails | app/api/chat/route.ts:193 | a body that is not JSON, or is JSON `null`, gives 500 "Failed to generate response" before any call |
| ChatRoute.SentRequestShape | app/api/chat/route.ts:199-213 | a request is sent only for an object body, and it is exactly two turns, the system prompt built from the knowledge base and then the posted message, with model gpt-3.5-turbo, 1000 tokens, temperature 0.7 |
| ChatRoute.CompletionRelayed | app/api/chat/route.ts:215-217 | a non-empty first completion is returned verbatim with status 200 |
| ChatRoute.EmptyCompletionApology | app/api/chat/route.ts:215-217 | an empty completion gives status 200 with the fixed apology |
| ChatRoute.ErrorDetailHidden | app/api/chat/route.ts:218-224 | the upstream error's detail never reaches the response |
| ContactRoute.Post | app/api/contact/route.ts:4-43 | 500 iff the body is not JSON or is JSON `null` (a JSON number, string, boolean or array has no such fields and gets 400); 400 iff some field is falsy; the submission is logged iff the answer is 200, and the log holds the three fields; each status comes with its own payload |
| ContactRoute.EmptyFieldRejected | app/api/contact/route.ts:9-14 | an empty string in any of the three fields is rejected with 400 like a missing field |
| ContactRoute.RejectedNotLogged | app/api/contact/route.ts:9-23 | a rejected submission is never logged |
| ContactRoute.AcknowledgementUniform | app/api/contact/route.ts:32-35 | every complete submission gets the same 200 acknowledgement, whatever it says |
| ChatWidget.Generate | components/ai-chat-section.tsx:214-264 | the promise always resolves; the content is `undefined` iff a 2xx JSON reply lacks `response`; the fallback text iff a network failure, a non-2xx status, a non-JSON body or a JSON `null` body; the reply's own `response` iff a 2xx JSON reply carries one |
| Content.FallbackNamesContact | components/ai-chat-section.tsx:258 | the fallback text contains the contact email, right after its opening part |
| Content.ApologyNamesContact | components/ai-chat-section.tsx:392-395 | the catch-branch apology ends with the contact email |
| ChatWidget.Ask | components/ai-chat-section.tsx:370-374 | asking appends exactly the user's message, keeps the earlier messages, and sets typing |
| ChatWidget.Settle | components/ai-chat-section.tsx:383-399 | settling appends exactly one assistant message: the resolved content, or the apology on rejection; typing stops |
| ChatWidget.Submit | components/ai-chat-section.tsx:363-400 | a blank (after `trim`) input leaves the state unchanged; any other appends the untrimmed input as a user message and then the reply's content, clears the input and stops typing |
| ChatWidget.SubmitBlank | components/ai-chat-section.tsx:367 | an empty or whitespace-only input changes nothing |
| ChatWidget.SubmitExchange | components/ai-chat-section.tsx:363-400 | any other input appends the untrimmed input and then one reply, clears the input and stops typing |
| ChatWidget.QuickQuestion | components/ai-chat-section.tsx:402-427 | a quick question appends the question and its reply and leaves the input box as it was |
| ChatWidget.ServiceMessage | components/ai-chat-section.tsx:321-350 | an empty event message is ignored; any other is handled exactly like a quick question |
| ChatWidget.Reset | components/ai-chat-section.tsx:429-431 | reset leaves only the greeting; input and typing are kept |
| ChatWidget.EndToEnd | components/ai-chat-section.tsx:214-229 | against the real endpoint the widget always gets text: the completion when non-empty, the endpoint's apology when empty, the fallback when the call throws or the question is empty |
| ChatFormat.CloseAtFirst | components/ai-chat-section.tsx:281 | the lazy `(.*?)\*\*` closes at the first "**" that comes before every line terminator, or fails when there is none |
| ChatFormat.Bold | components/ai-chat-section.tsx:281 | the bold replacement never shortens the text |
| ChatFormat.BoldKeepsLines | components/ai-chat-section.tsx:281 | on a single line the bold replacement introduces no line break |
| ChatFormat.BoldPlain | components/ai-chat-section.tsx:281 | text without "**" passes through unchanged |
| ChatFormat.BoldPair | components/ai-chat-section.tsx:281 | a single-line `x` with no "**" inside and not ending in '*' (single stars allowed) between two pairs becomes `<strong>x</strong>` and the scan resumes after the pair |
| ChatFormat.BoldUnclosed | components/ai-chat-section.tsx:281 | an opening pair with no partner on its line is copied literally |
| ChatFormat.BoldTrailingPair | components/ai-chat-section.tsx:281 | a star-free text followed by a lone trailing pair is unchanged |
| ChatFormat.BoldStopsAtLineBreak | components/ai-chat-section.tsx:281 | a pair whose partner is on a later line is not bold, because `.` does not match a line terminator |
| ChatFormat.BoldLine | components/ai-chat-section.tsx:281 | the bold replacement acts on each line separately |
| ChatFormat.Bullets | components/ai-chat-section.tsx:284 | the bullet step never shortens the text, and on a single line it is exactly the one-line rule: "• " plus a non-empty rest becomes an item, anything else is kept |
| ChatFormat.BulletsLine | components/ai-chat-section.tsx:284 | the multiline `^• (.+)$` rule acts on each line separately |
| ChatFormat.FormatLinesJoin | components/ai-chat-section.tsx:281-284 | on "\n"-separated text the bold and bullet steps equal formatting every line and rejoining |
| ChatFormat.FormatLineCases | components/ai-chat-section.tsx:281-284 | a bullet line becomes one list item holding its bold-formatted text; every other line is only bold-formatted |
| ChatFormat.LastCloseIsLast | components/ai-chat-section.tsx:287 | the greedy `.*` ends an item at the last "</li>" of the window, and fails only when there is none |
| ChatFormat.ItemMatch | components/ai-chat-section.tsx:287 | an item match starts with "<li>", ends with "</li>" and lies within the text |
| ChatFormat.ItemMatchOnLine | components/ai-chat-section.tsx:287 | an item match never crosses a line terminator, and a line that opens an item and holds a later "</li>" is matched |
| ChatFormat.BulletIsItem | components/ai-chat-section.tsx:284-287 | a single bullet line becomes a list item of the shape the list step matches |
| ChatFormat.Wrap | components/ai-chat-section.tsx:287 | the list step never shortens the text |
| ChatFormat.WrapPlain | components/ai-chat-section.tsx:287 | text in which no item opens passes the list step unchanged |
| ChatFormat.WrapRun | components/ai-chat-section.tsx:287 | each maximal whitespace-separated run of items gets exactly one enclosing `<ul>...</ul>` |
| ChatFormat.SingleBreaks | components/ai-chat-section.tsx:291 | after the "\n" pass no newline is left, and the text is three characters longer per newline |
| ChatFormat.PairBreaksRedundant | components/ai-chat-section.tsx:290-291 | the "\n\n" pass followed by the "\n" pass replaces every newline by exactly one "<br>" |
| ChatFormat.FormatMessage | components/ai-chat-section.tsx:279-294 | the formatted message contains no newline |
| ChatFormat.FormatMessageBreaks | components/ai-chat-section.tsx:279-294 | the output is the list step's output with each newline replaced by "<br>" |
| ChatFormat.FormatMessagePlain | components/ai-chat-section.tsx:279-294 | single-line text with no "**", no "<li>" and no leading bullet is returned unchanged, with no HTML escaping |
| Text.TrimEmptyIffAllSpace | components/ai-chat-section.tsx:367 | `trim()` gives "" exactly when every character is JavaScript whitespace or a line terminator |
| Text.Split | lib/newsApi.ts:197 | `split(' ')` gives at least one piece, and no piece contains the separator |
| Text.SplitJoin | lib/newsApi.ts:197 | joining the pieces with the separator gives the string back |
| Text.SplitCount | lib/newsApi.ts:197 | there is one more piece than separators |
| Text.SplitFirst | components/about-section-design3.tsx:276 | the first piece is a prefix that ends at the first separator or at the end |
| Text.SplitFirstUnique | components/about-section-design3.tsx:276 | a separator-free prefix ending at a separator or at the end is the first piece |
| Text.NatToString | lib/newsApi.ts:199 | the decimal rendering has only digits, reads back as the number, and has no leading zero |
| NewsApi.Fetched | lib/newsApi.ts:49-105 | a provider yields items only with a key and a 2xx reply, and then yields the reply's list; otherwise `[]` |
| NewsApi.Prefix150 | lib/newsApi.ts:124 | `substring(0, 150)` is the prefix of length min(150, length) |
| NewsApi.NewsApiDescription | lib/newsApi.ts:124 | a truthy description is used; otherwise the first 150 characters of the content plus "...", or "undefined..." when the content is missing |
| NewsApi.OrReadMore | lib/newsApi.ts:141 | a truthy text is used, else the read-more sentence; never empty |
| NewsApi.MakeId | lib/newsApi.ts:122 | the id starts with the provider prefix, then the category name, then a dash and the clock reading |
| NewsApi.ForCategory | lib/newsApi.ts:112-166 | the article comes from NewsAPI if it gave items, else the Guardian, else NewsData; nothing iff all three gave none; its category is the one asked for |
| NewsApi.Collect | lib/newsApi.ts:109-169 | at most one article per category, each tagged with one of the categories |
| NewsApi.FetchCategoryNews | lib/newsApi.ts:109-169 | the loop computes exactly the per-category articles in category order |
| NewsApi.CollectAppend | lib/newsApi.ts:112-167 | the categories are handled independently and in order |
| NewsApi.CollectOne | lib/newsApi.ts:112-167 | a single category yields its own article or nothing |
| NewsApi.HasApiKeyMeansSomeProvider | lib/newsApi.ts:172-174 | `hasAPIKey` is true exactly when some provider replies can yield an article, so it is false exactly when fetching can never yield one |
| NewsApi.NoKeyNoArticles | lib/newsApi.ts:50 | with no key configured nothing comes back |
| NewsApi.ProviderOrder | lib/newsApi.ts:117-166 | the Guardian is used only after NewsAPI gave nothing, and NewsData only after both gave nothing |
| NewsApi.Words | lib/newsApi.ts:197 | the word count is the number of single spaces plus one |
| NewsApi.ReadMinutes | lib/newsApi.ts:196-198 | the minutes are the ceiling of words / 200, at least 1 |
| NewsApi.ReadTime | lib/newsApi.ts:195-200 | the label is the minute count in decimal followed by " min" |
| NewsApi.ShortReadTime | lib/newsApi.ts:195-200 | up to 200 words read as "1 min" |
| NewsApi.PublishAge | lib/newsApi.ts:181-193 | under 24 hours gives "<h>h ago", under 168 gives "<h div 24>d ago", otherwise the locale date |
| LatestBlogs.NewsStep | components/latest-blogs-section.tsx:118-140 | one NewsAPI request aborts the fetch iff it throws or its 2xx body is not JSON or is JSON `null` (both encoded as body `None`); it adds an article iff the 2xx body has a non-empty list; the article has that category |
| LatestBlogs.GuardianStep | components/latest-blogs-section.tsx:158-180 | one Guardian request aborts iff it throws or its 2xx body is not JSON, is JSON `null` (body `None`), or lacks `response`; it adds an article iff there are results; the description is never empty |
| LatestBlogs.FetchNews | components/latest-blogs-section.tsx:111-150 | the NewsAPI fetch fails iff one of its three category requests aborts; otherwise it yields exactly the articles its steps take, in category order, at most three |
| LatestBlogs.FetchAlternativeNews | components/latest-blogs-section.tsx:153-191 | the Guardian fetch fails iff one of its three category requests aborts; otherwise it yields exactly the articles its steps take, in category order, at most three |
| LatestBlogs.FetchNewsPerCategory | components/latest-blogs-section.tsx:118-139 | a successful NewsAPI fetch holds, at increasing category positions, the first article of exactly those categories whose reply had a non-empty list, each tagged with its category |
| LatestBlogs.FetchAlternativeNewsPerCategory | components/latest-blogs-section.tsx:158-179 | a successful Guardian fetch holds, at increasing category positions, the first result of exactly those categories whose reply had results, each tagged with its category |
| LatestBlogs.Accumulate | components/latest-blogs-section.tsx:112-149 | the fetch fails iff some step aborts; otherwise it yields exactly the articles taken, in order |
| LatestBlogs.FetchBounded | components/latest-blogs-section.tsx:118-141 | a successful fetch yields at most one article per category: at most three, each tagged with a news category, no two with the same one |
| LatestBlogs.OrderedCategories | components/latest-blogs-section.tsx:118-139 | articles tagged with categories at increasing positions of the category list have distinct categories, all from the list |
| LatestBlogs.MissingEnvelopeAborts | components/latest-blogs-section.tsx:166 | a 2xx Guardian body without `response` abandons the whole fetch |
| LatestBlogs.Apply | components/latest-blogs-section.tsx:141-147 | success replaces the articles and clears the error; failure keeps the old articles and sets the error; loading ends either way |
| LatestBlogs.LoadNews | components/latest-blogs-section.tsx:193-202 | NewsAPI when its key is set, else the Guardian when its key is set, else the "No news API configured" error |
| LatestBlogs.Refresh | components/latest-blogs-section.tsx:374-379 | refresh behaves like loading when a key is set and does nothing otherwise |
| LatestBlogs.LoadBounded | components/latest-blogs-section.tsx:193-202 | loading and refreshing keep at most three articles |
| LatestBlogs.NoKeyNoRefresh | components/latest-blogs-section.tsx:366 | without keys the refresh control never appears |
| LatestBlogs.Display | components/latest-blogs-section.tsx:227 | the cards are the articles in order when there are any, else the three fixed posts |
| LatestBlogs.FallbackCoversCategories | components/latest-blogs-section.tsx:64-104 | the fixed posts cover the three news categories, one each, in order |
| Cyclic.Next | components/projects-section.tsx:127 | `(i + 1) % n` is the following index, and 0 after the last |
| Cyclic.Prev | components/projects-section.tsx:131 | `(i - 1 + n) % n` is the preceding index, and the last before 0 |
| Cyclic.PrevNext | components/projects-section.tsx:126-132 | going forward then back returns to the same index |
| Cyclic.NextPrev | components/projects-section.tsx:126-132 | going back then forward returns to the same index |
| Cyclic.FullCircle | components/projects-section.tsx:127 | n steps forward return to the start |
| Projects.TitlesShape | components/projects-section.tsx:10-70 | there are five projects and their titles are distinct |
| Projects.NextProject | components/projects-section.tsx:126-128 | next moves to the following project, wrapping to the first; expansion is kept |
| Projects.PrevProject | components/projects-section.tsx:130-132 | previous moves to the preceding project, wrapping to the last; expansion is kept |
| Projects.NextPrevInverse | components/projects-section.tsx:126-132 | next and previous undo each other |
| Projects.Forward | components/projects-section.tsx:126-128 | k presses of next keep the index valid and the expansion, and advance the index k places cyclically |
| Projects.ForwardModulo | components/projects-section.tsx:126-128 | k presses of next land on index (i + k) % 5 |
| Projects.ForwardFullCircle | components/projects-section.tsx:126-128 | five presses of next return to the same project |
| Projects.DragEnd | components/projects-section.tsx:134-141 | a swipe right of more than 50 px goes back, left of more than 50 px goes forward, otherwise nothing changes |
| Projects.ToggleExpanded | components/projects-section.tsx:245 | read-more flips the long description and keeps the project |
| Projects.ToggleTwice | components/projects-section.tsx:245 | pressing read-more twice restores the card |
| Projects.SelectDot | components/projects-section.tsx:316 | indicator dot i makes project i active |
| Projects.Others | components/projects-section.tsx:363 | `filter(idx !== active)` keeps every other index in increasing order |
| Projects.Preview | components/projects-section.tsx:362-364 | the preview strip shows three distinct non-active projects in increasing order |
| Projects.PreviewIsFirstThree | components/projects-section.tsx:362-364 | no non-active project before the strip's last card is skipped |
| Projects.FindIndex | components/projects-section.tsx:371 | `findIndex` gives the first position holding the value, or -1 iff there is none |
| Projects.FindIndexDistinct | components/projects-section.tsx:371 | with distinct entries, the entry at i is found at i |
| Projects.ClickPreview | components/projects-section.tsx:371 | a preview click activates a project with the clicked title, at or before the clicked position, and keeps the expansion |
| Projects.ClickPreviewSelects | components/projects-section.tsx:371 | clicking a preview card activates exactly that project |
| Projects.IconFrom | components/projects-section.tsx:151 | `icons[index] \|\| <TrendingUp/>` is the listed icon within range and TrendingUp past it |
| Projects.IconMismatchAsWritten | components/projects-section.tsx:143-152 | as written, the VaR project shows the house icon keyed "gorent", and the icon keys do not follow the project order |
| Projects.IconsMatchProjects | components/projects-section.tsx:143-152 | in project order each icon's key names its project, and only GORENT shows the house icon |
| Journey.Tag | components/associative-experience-journey.tsx:130-132 | each organisation's experiences keep their order and carry that organisation |
| Journey.FlattenAt | components/associative-experience-journey.tsx:129-133 | the k-th organisation's j-th experience sits at the organisation's offset plus j |
| Journey.AllExperiencesShape | components/associative-experience-journey.tsx:129-133 | the timeline is the three organisations' 3, 1 and 3 experiences laid end to end, 7 in all |
| Journey.Offsets | components/associative-experience-journey.tsx:129-133 | the organisations' blocks start at 0, 3 and 4 and end at 7 |
| Journey.StartIndexIsOffset | components/associative-experience-journey.tsx:271-273 | the hard-coded start indices equal the true block offsets |
| Journey.OrgOf | components/associative-experience-journey.tsx:135 | every timeline index lies inside the block of some organisation |
| Journey.EntryOrg | components/associative-experience-journey.tsx:135 | the entry at an index belongs to the organisation whose block holds it |
| Journey.YearButtonSelects | components/associative-experience-journey.tsx:268-281 | year button j of the active organisation selects that organisation's j-th experience |
| Journey.OneHighlighted | components/associative-experience-journey.tsx:282-284 | exactly one year button is highlighted: the active entry's |
| Journey.Next | components/associative-experience-journey.tsx:437 | forward moves to the following entry, and from the seventh back to the first |
| Journey.Prev | components/associative-experience-journey.tsx:431 | back moves to the preceding entry, and from the first to the seventh |
| Journey.NextPrevInverse | components/associative-experience-journey.tsx:431-437 | forward and back undo each other |
| Journey.Dot | components/associative-experience-journey.tsx:447-450 | dot i selects entry i |
| Journey.Progress | components/associative-experience-journey.tsx:419 | the badge reads "n/7" with n the active index plus one |
| Network.NodesUnique | components/associative-experience-network.tsx:9-57 | the node ids are distinct |
| Network.Find | components/associative-experience-network.tsx:131 | `find` gives nothing iff no node has the id, else a node with that id |
| Network.FindUnique | components/associative-experience-network.tsx:131 | with distinct ids, finding a node's id gives that node |
| Network.Click | components/associative-experience-network.tsx:272 | clicking the selected node deselects it; clicking any other selects it; hover is kept |
| Network.HoverStart | components/associative-experience-network.tsx:273 | hover start records the node and keeps the selection |
| Network.HoverEnd | components/associative-experience-network.tsx:274 | hover end clears the hover and keeps the selection |
| Network.ClickReachable | components/associative-experience-network.tsx:272 | clicks keep the selection among the nodes |
| Network.SelectedNodeData | components/associative-experience-network.tsx:131 | the detail data is absent iff nothing is selected, the selection is "", or no node has the selected id; when present it is a node with the selected id |
| Network.SelectedDataIsNode | components/associative-experience-network.tsx:131 | the detail panel shows exactly the selected node, and nothing without a selection |
| Network.GetColorClasses | components/associative-experience-network.tsx:121-129 | a listed colour gets its own classes; any other gets one of the table's entries |
| Network.ColorFallback | components/associative-experience-network.tsx:121-129 | a colour gets the blue classes iff it is not red, green or purple |
| Network.NodeColorsKnown | components/associative-experience-network.tsx:253 | every node's colour is in the table |
| Network.Line | components/associative-experience-network.tsx:229-231 | a line is drawn iff both end nodes exist, and joins those nodes |
| Network.AllLinesDrawn | components/associative-experience-network.tsx:74-79 | every defined connection is drawn |
| ExperienceSection.Filtered | components/associative-experience-section-new.tsx:189 | the cards shown are exactly those of the selected category, all of them for "all" |
| ExperienceSection.FilteredAppend | components/associative-experience-section-new.tsx:189 | filtering keeps the cards' relative order |
| ExperienceSection.EachCategoryOneCard | components/associative-experience-section-new.tsx:106 | each category button other than "all" shows exactly one card, the one of that category |
| ExperienceSection.SelectCategory | components/associative-experience-section-new.tsx:170 | choosing a category sets it and keeps the expanded index |
| ExperienceSection.ToggleCard | components/associative-experience-section-new.tsx:274 | Show All / Show Less collapses the expanded card, or makes this one the only expanded card |
| ExperienceSection.ToggleTwice | components/associative-experience-section-new.tsx:274 | pressing a collapsed card's button twice collapses it again |
| ExperienceSection.ExpandedIndexIsPositional | components/associative-experience-section-new.tsx:274 | the expanded index is a position in the filtered list, so changing category moves expansion to another card |
| ExperienceSection.ShownAchievements | components/associative-experience-section-new.tsx:283 | an expanded card shows all achievements; any other shows the first four, or all when fewer |
| ExperienceSection.MetricLabel | components/associative-experience-section-new.tsx:246 | the label is one character longer per capital letter, and equals the key without capitals |
| ExperienceSection.MetricLabelChar | components/associative-experience-section-new.tsx:246 | a capital letter becomes a space and the letter; any other character is kept alone |
| ExperienceSection.MetricLabelAppend | components/associative-experience-section-new.tsx:246 | the label of a concatenation is the concatenation of the labels, so the replacement acts on each character independently |
| ExperienceSection.LabelRemovesToKey | components/associative-experience-section-new.tsx:246 | removing the inserted spaces gives the key back |
| ExperienceSection.MetricLabelsUnchanged | components/associative-experience-section-new.tsx:15-47 | the section's metric keys are lower case, so their labels are the keys |
| AboutDesign3.InitialValid | components/about-section-design3.tsx:11-12 | the showcase starts on the first feature with autoplay on |
| AboutDesign3.Tick | components/about-section-design3.tsx:58-66 | with autoplay on, a timer period moves to the next feature, wrapping after the last; with autoplay off nothing changes |
| AboutDesign3.Ticks | components/about-section-design3.tsx:58-66 | with autoplay on, k periods land on feature (i + k) % 4; with it off nothing changes |
| AboutDesign3.RotationReturns | components/about-section-design3.tsx:61-63 | four periods return to the starting feature |
| AboutDesign3.RotationVisits | components/about-section-design3.tsx:61-63 | every feature becomes active within four periods |
| AboutDesign3.ClickFeature | components/about-section-design3.tsx:264-267 | a feature button selects that feature and stops autoplay |
| AboutDesign3.ClickHolds | components/about-section-design3.tsx:264-267 | after a click the feature stays selected however many periods pass |
| AboutDesign3.TogglePlay | components/about-section-design3.tsx:215 | play/pause flips autoplay and keeps the feature |
| AboutDesign3.TogglePlayTwice | components/about-section-design3.tsx:215 | pressing play/pause twice restores the state |
| AboutDesign3.NavLabel | components/about-section-design3.tsx:276 | the label is the title's prefix up to its first space, or the whole title |
| AboutDesign3.NavLabelNoSpace | components/about-section-design3.tsx:276 | a title without a space is its own label |
| AboutDesign3.NavLabelSmart | components/about-section-design3.tsx:17 | the first button reads "Smart" |
| AboutDesign3.NavLabelProcess | components/about-section-design3.tsx:27 | the second button reads "Process" |
| AboutDesign3.NavLabelRisk | components/about-section-design3.tsx:37 | the third button reads "Risk" |
| AboutDesign3.NavLabelScalable | components/about-section-design3.tsx:47 | the fourth button reads "Scalable" |
| AboutDesign3.ProgressWidth | components/about-section-design3.tsx:288 | the bar is a quarter wider per feature up to the active one, and full exactly on the last |

## Left out

- Rendering, animation, styling, scrolling and focus handling of all components: they have no observable effect on the modelled state.
- Network access, the completion service, the environment's API keys, `Date.now()` and `Math.random()`: each is a parameter. The model does not show which query `Math.random()` picks, because the provider results for a category are inputs anyway.
- NewsApi.MakeId: one clock reading `now` is used for every id of a fetch, whereas the source reads the clock once per article.
- NewsApi.PublishAge: the locale date branch (`toLocaleDateString`) is left as `None`; the hour count is an input, so an unparseable date (NaN hours) is not modelled.
- Timers (`setInterval` of 3 s and 90 s) are modelled as one step per period; their scheduling and clean-up are left out.
- Concurrency between an in-flight reply and further user actions: each exchange is modelled as ask-then-settle with no interleaving.
- Strings are Dafny strings, sequences of Unicode scalar values, whereas JavaScript strings are sequences of UTF-16 code units; the two agree on text without characters outside the Basic Multilingual Plane. Unicode case mapping and normalisation are not modelled.
- NewsApi.Prefix150: the cut counts scalar values, not UTF-16 code units, so it is weaker than `substring(0, 150)` on text with characters outside the Basic Multilingual Plane: 100 copies of "😀" are 200 code units, of which JavaScript keeps 75 emoji while the model keeps all 100, and JavaScript can split a surrogate pair, which the model cannot express. NewsApi.NewsApiDescription inherits this.
- Network.GetColorClasses: keys inherited from `Object.prototype` (such as "toString") index the colour object too; the model treats them like any other unknown colour.
- ChatWidget.ServiceMessage: a non-string truthy `event.detail.message` is not modelled; the message is a string.
- ChatWidget.Generate: a 2xx JSON reply whose `response` field is not a string (a number, an object) is not modelled; the payload's `response` is a string. Rendering an `undefined` content (which `formatMessage` would reject) is not modelled; `EndToEnd` shows the real endpoint never yields it.
- The `capitalize` CSS on metric labels and the construction of the provider URLs are presentation and request details outside the model.
- LatestBlogs.NewsStep: a 2xx JSON reply whose first article is `null` throws at `article.title` and abandons the fetch in the source; the model's article list cannot hold `null`, so this case is not expressed.
- LatestBlogs.GuardianStep: likewise, a first Guardian result that is `null` throws at `article.webTitle` in the source and is not expressed.
- The contact endpoint's timestamp in the log entry is left out, being a clock reading.
- The `console.error` diagnostics on failure (app/api/chat/route.ts:219, components/ai-chat-section.tsx:231 and the news fetches' catch branches) are left out: they write only to the developer console and change no state or response.

## Findings

| source | as written | input that shows it | evidently intended | confidence | as-written member | corrected member |
|---|---|---|---|---|---|---|
| components/projects-section.tsx:143-152 | the icon list is keyed gorent, var, trading, nanocash, lastshade, but the projects are VaR, Trading, Nanocash, GORENT, Last Shade | active index 0 (VaR Estimation System) shows the house icon keyed "gorent" | each project shows the icon keyed by its own name | not executed | Projects.IconMismatchAsWritten | Projects.IconsMatchProjects |
