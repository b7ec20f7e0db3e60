# WoW addon crafter page: a Dafny model

This project models the logic inside the single page of the WoW addon crafter, `app/page.tsx`. That logic has two parts.

- **The text renderers.** The code viewer highlights Lua, XML and `.toc` files, and shows every other file type as plain lines. Each one is modelled as `string -> seq<Row>`. A row is a 1-based line number plus a sequence of `(text, class)` spans. The small Markdown renderer (`renderMarkdown`) and its inline `**bold**` splitter (`formatInline`) are modelled too.
  - JavaScript's `String.prototype.split` with a one-group regular expression is written out as an explicit left-to-right scanner (`RegexSplit.SplitLoop`). The result alternates gap, capture, gap, …, gap, and at each position the first alternative that matches wins.
- **The session.** The page's state is one immutable `Workflow.Session` record. Each request handler (generate, refine, commit, package, resume, delete) is a pure function of the session and the outcome of the agent gateway call. That outcome is an input: `Success(data)`, `Failure(error?)` or `Thrown`.
  - The small helpers are modelled as well: the generation prompt, the specification preview, the addon-name rule, the history search, the file-tree label cleaner and the status badge.

JavaScript's two defaulting operators are kept apart:
- `a || b` (`Workflow.Or`, and `When` for the `if (x)` guards) treats `""` as missing;
- `a ?? b` (`Wrappers.Option.GetOr`) only defaults a missing value.

Characters follow JavaScript's definitions:
- `\w` is `[A-Za-z0-9_]`;
- `\s` and `trim` use the WhiteSpace and LineTerminator sets;
- `.` excludes the four line terminators.

Where a guard sits and what it covers:
- The request handlers themselves never read the status (`Workflow.StatusIgnored`). The guards sit in their callers. The buttons are disabled while their own request runs, and the review screen's send action (`handleSendFeedback`, `Workflow.SendFeedback`) calls `handleRefine` only with non-blank, trimmed feedback and only when no refine is running. No mutual exclusion between different handlers is claimed.
- `handleRefine` does not check the stage or the feedback itself, so `Workflow.Refine` has no precondition. `Workflow.SendFeedback` models its one caller's check.
- `handleDeleteProject` filters out every project with the given id, not just one (`Projects.RemoveById`).
- The Lua highlighter's call-site test looks at the raw next split element, which is always empty, so no word is ever coloured as a call site. This is the finding below.

Files, one module each:
- `wrappers.dfy`: `Option`.
- `text.dfy`: character classes, trimming, `split('\n')`, `indexOf`, `slice`, substring search, ASCII lower-casing and joins.
- `regex_split.dfy`: the split scanner and the three patterns: the Lua token pattern, the XML part pattern and `\*\*(.*?)\*\*`.
- `highlight.dfy`: the four highlighters and `highlightCode`.
- `markdown.dfy`: `formatInline` and `renderMarkdown`.
- `status.dfy`: `StatusBadge`.
- `addon_config.dfy`: `ADDON_TYPES`, `buildPrompt`, the specification preview and the name rule.
- `projects.dfy`: saved projects, delete, the refine update and search.
- `file_tree.dfy`: `FileTreeView`.
- `workflow.dfy`: the session and the handlers.

## Model

| member | source | states |
|---|---|---|
| Text.SplitLines | app/page.tsx:128 | `split('\n')` gives one more piece than there are newlines; no piece holds a newline; joining the pieces with `\n` gives back the text |
| Text.SplitLinesOfJoin | app/page.tsx:128 | splitting newline-free lines joined by `\n` gives back exactly those lines |
| Text.JoinInjective | app/page.tsx:128 | two sequences of newline-free lines with the same join are equal |
| Text.IndexOf | app/page.tsx:206 | `indexOf` returns the first position of the character, and nothing exactly when the character does not occur |
| Text.Slice | app/page.tsx:213 | `slice(start, end)` is the substring when the bounds are ordered, and empty when `end <= start` |
| Text.TrimEmptyIffBlank | app/page.tsx:277 | `line.trim()` is empty exactly when every character is white space |
| Text.TrimEnds | app/page.tsx:680-681 | what `trim` leaves is a piece of the text, and neither starts nor ends with white space |
| Text.LowerAscii | app/page.tsx:975 | no ASCII upper-case letter is left; each one becomes its lower-case letter, 32 code points further on; every other character is kept; the length is kept |
| Text.RunEnd | app/page.tsx:138 | a `\w+`-style run ends at the first character outside the class, and every character before it is inside |
| Text.LazyFind | app/page.tsx:251 | the lazy `.*?` stops at the first delimiter at or after the start, with no line terminator before it; it finds nothing exactly when every delimiter after the start lies past a line terminator |
| Text.JoinEmpty | app/page.tsx:465 | joining non-empty lines gives the empty string only when there are no lines |
| Text.ConcatContains | app/page.tsx:1360-1373 | every piece of a concatenation occurs in it |
| RegexSplit.LuaMatch | app/page.tsx:138 | the Lua alternation, tried in order, matches a substring starting at the position |
| RegexSplit.XmlMatch | app/page.tsx:168 | the XML alternation, tried in order, matches a substring starting at the position |
| RegexSplit.BoldMatch | app/page.tsx:251 | a `**…**` match starts and ends with `**`, and its group is what lies between |
| RegexSplit.BoldMatchLazy | app/page.tsx:251 | the closing `**` is the first one after the opening and no line terminator lies between them; with no opening `**`, or no closing `**` before the end of the line, there is no match |
| RegexSplit.Split | app/page.tsx:138 | a one-group split always has an odd number of pieces |
| RegexSplit.SplitLoop | app/page.tsx:138 | the scan gives an odd number of pieces; when the group is the whole match, the pieces concatenate to the scanned text |
| RegexSplit.SplitConcat | app/page.tsx:138 | for the Lua and XML patterns the pieces of a split concatenate to the line |
| RegexSplit.BoldSplitUnsplit | app/page.tsx:251 | putting `**` back around the odd pieces of the bold split gives back the text |
| RegexSplit.LuaMatchAdvances | app/page.tsx:138 | at every position not inside a word (the start, the end, or a position next to a non-word character) some Lua alternative matches, consumes text, and ends at such a position again |
| RegexSplit.LuaSplitGapless | app/page.tsx:138 | every gap of the Lua split is `""` and every captured token is non-empty |
| Highlight.ListedIn | app/page.tsx:121-125 | the keyword lookup is membership in the listed keywords |
| Highlight.LuaLineText | app/page.tsx:138-158 | the spans of a Lua line spell the line |
| Highlight.LuaLineAsWritten | app/page.tsx:143-157 | a non-comment Lua line is its non-empty tokens, each classified by keyword, quote, number or plain in that order; no token is ever a call site |
| Highlight.LuaCommentSpans | app/page.tsx:130-137 | a line is shown with a comment span exactly when its `trimStart` begins with `--` |
| Highlight.LuaTokensOfDecimal | app/page.tsx:138 | `1.5` splits as `1`, `.`, `5`: the word alternative shadows the number alternative |
| Highlight.LuaDecimalSplits | app/page.tsx:138-153 | `1.5` is shown as number, plain, number |
| Highlight.LuaTokensOfInlineComment | app/page.tsx:138 | in `x --c` the `--c` is one token |
| Highlight.LuaInlineComment | app/page.tsx:138-157 | an inline `--c` after code is one plain span |
| Highlight.LuaTokensOfCall | app/page.tsx:138 | `f(` splits as `""`, `f`, `""`, `(`, `""`: the token after `f` is the empty gap |
| Highlight.CallSiteAsWritten | app/page.tsx:154 | `f(` is shown with `f` plain, not as a call site |
| Highlight.LuaLineIntendedCalls | app/page.tsx:154 | with the lookahead on the next non-empty token, a span is a call site exactly when it is a plain word followed by `(`; every other span keeps its text class, and the line is spelled exactly |
| Highlight.CallSiteIntended | app/page.tsx:154 | with the intended lookahead, `f(` shows `f` as a call site |
| Highlight.AsWrittenVersusIntendedAt | app/page.tsx:154 | the two Lua classifiers agree on every span except the call sites the intended one finds |
| Highlight.LuaAsWrittenVersusIntended | app/page.tsx:154 | both Lua classifiers give the same number of spans with the same texts |
| Highlight.AttrSplit | app/page.tsx:184 | a recognised `name="value"` part is the name, `=` and the quoted value |
| Highlight.AttrSplitRoundTrip | app/page.tsx:184 | every `name="value"` text is recognised and split back into its name and value |
| Highlight.XmlPartSpans | app/page.tsx:174-194 | an XML part is a comment exactly when it starts with `<!--`; a tag exactly when it starts with `<` or is `>`/`/>`; any other part is three spans (name, `=`, quoted value) exactly when it is a `name="value"` pair, and otherwise one plain span of the whole part; the spans spell the part |
| Highlight.XmlLineText | app/page.tsx:168-194 | the spans of an XML line spell the line |
| Highlight.TocColonAfterMarker | app/page.tsx:205-206 | on a marker line the first colon comes after the `##` |
| Highlight.TocKeyLineText | app/page.tsx:207-216 | a marker line with a colon is four spans whose second is the key, and the spans spell `##` followed by the line from index 2 |
| Highlight.TocLineShape | app/page.tsx:205-231 | a marker line with a colon is four spans; one without a colon is one muted span; any other line is one plain span |
| Highlight.MarkerPrefix | app/page.tsx:212-215 | `##` plus the line from index 2 is the line exactly when the line starts with `##` |
| Highlight.TocExample | app/page.tsx:212-215 | `## Title: Foo` keeps the space in its key span ` Title` |
| Highlight.Render | app/page.tsx:127-246 | one row per line, numbered index+1, each with the spans of its line |
| Highlight.LineSpansText | app/page.tsx:127-246 | a row spells its line, except an indented `.toc` key line |
| Highlight.RenderRoundTrip | app/page.tsx:127-200 | for Lua, XML and the fallback, the rows joined by newlines give back the file |
| Highlight.RenderEmpty | app/page.tsx:127-246 | empty content is one row, numbered 1, that shows nothing |
| Highlight.UnknownTypeIsPlain | app/page.tsx:236-245 | a file type other than `lua`, `xml` and `toc` shows each line as one plain span |
| Markdown.FormatInline | app/page.tsx:250-260 | one piece means the text comes back as it is; otherwise there are at least three pieces and exactly the odd-indexed ones are bold |
| Markdown.FormatInlineRoundTrip | app/page.tsx:250-260 | putting `**` back around the bold pieces gives the original text |
| Markdown.FormatInlineUnchanged | app/page.tsx:251-252 | the text comes back unchanged exactly when no `**…**` span occurs in it |
| Markdown.BoldExample | app/page.tsx:250-260 | `a **b** c` renders as `a `, bold `b`, ` c` |
| Markdown.RenderMarkdown | app/page.tsx:262-282 | empty text renders nothing; otherwise one block per line, each chosen by the line rules |
| Markdown.HeadingShape | app/page.tsx:267-272 | a line renders as a heading exactly when it starts with `# `, `## ` or `### `; the heading is one to three `#`, a space, and the heading text, which is not inline-formatted |
| Markdown.HeadingRulesExclusive | app/page.tsx:267-272 | no line starts with two of the heading prefixes |
| Markdown.BulletShape | app/page.tsx:273-274 | a line is a bullet exactly when it starts with `- ` or `* `, and its body is the rest of the line |
| Markdown.NumberedShape | app/page.tsx:275-276 | a line is a numbered item exactly when it has a `digits.` and blank prefix, and its body is the line without that prefix |
| Markdown.SpacerShape | app/page.tsx:277 | a line is a spacer exactly when it is blank |
| Markdown.ParagraphShape | app/page.tsx:278 | a paragraph is never blank, and its body is the whole line |
| Markdown.FourMarksIsParagraph | app/page.tsx:267-278 | a line starting with `####` is a paragraph |
| Markdown.NumberedExample | app/page.tsx:275-276 | `10. x` is a numbered item with body `x` |
| Markdown.NumberWithoutBlank | app/page.tsx:275-278 | `1.x` is a paragraph |
| Status.BadgeOf | app/page.tsx:324-338 | every status has a caption, and the badge pulses exactly while a request is in flight |
| Status.BadgeLabelsDistinct | app/page.tsx:325-332 | two statuses have the same caption only when they are the same status |
| AddonConfig.FindLabel | app/page.tsx:343-349 | `ADDON_TYPES.find`: nothing exactly when no entry has the id, otherwise the label of the first entry that has it |
| AddonConfig.PromptTypeLabel | app/page.tsx:1361 | the prompt says `Custom` exactly when the id is none of the five types |
| AddonConfig.BuildPrompt | app/page.tsx:1360-1373 | the prompt opens with the name-and-type sentence and ends with the closing request |
| AddonConfig.PromptMentionsFields | app/page.tsx:1360-1373 | the prompt holds the name, the type label and the TOC heading, and a section for every field that is filled in |
| AddonConfig.PreviewLines | app/page.tsx:449-465 | no line of the preview is empty |
| AddonConfig.SpecPreviewEmpty | app/page.tsx:449-466 | the preview is empty exactly when no name, known type, feature text, layout, behaviour, interface, version or author is given |
| AddonConfig.SpecPreviewDeps | app/page.tsx:458-463 | the dependencies line shows exactly when dependencies are set and so is the interface, version or author |
| AddonConfig.CheckAddonName | app/page.tsx:488 | a character-by-character check accepts a name exactly when the predicate `ValidAddonName`, the model of `^[A-Za-z][A-Za-z0-9_]*$`, holds |
| AddonConfig.NameExamples | app/page.tsx:488 | `MyAddon_2` is valid; `2Fast` and `My-Addon` are not; an empty name shows no warning |
| FileTree.StripTreeChars | app/page.tsx:387 | removing `[|`\-\s]` leaves none of those characters and never makes the line longer |
| FileTree.StripAppend | app/page.tsx:387 | the removal works piece by piece and keeps the order |
| FileTree.StripEmpty | app/page.tsx:387 | nothing is left exactly when the line is made only of drawing characters |
| FileTree.TreeLabelCases | app/page.tsx:387 | a line of drawing characters only keeps its own text as label; any other line is labelled with what is left after the removal |
| FileTree.TreeLabelEmpty | app/page.tsx:387 | the label is empty only for an empty line |
| FileTree.TreeLabelIdempotent | app/page.tsx:387 | cleaning a label again changes nothing |
| FileTree.EntryOf | app/page.tsx:385-387 | a line gets the file icon exactly when its label shows a `.`; the label is empty only for an empty line; a line of drawing characters only is its own label, and any other line's label is non-empty and free of drawing characters |
| FileTree.StripKeeps | app/page.tsx:387 | a character that is not a drawing character survives the removal exactly when the line holds it |
| FileTree.TreeEntries | app/page.tsx:380-388 | with a tree text there is one entry per line; with an empty tree the file list is shown instead |
| FileTree.TreeFileExample | app/page.tsx:387 | `|-- Core.lua` is labelled `Core.lua` |
| FileTree.TreeRuleExample | app/page.tsx:387 | `---` is labelled `---` |
| Projects.Filter | app/page.tsx:974-976 | a filter keeps exactly the elements that pass and never lengthens the list |
| Projects.FilterAppend | app/page.tsx:974-976 | filtering keeps the order, part by part |
| Projects.FilterIdempotent | app/page.tsx:974-976 | filtering twice with the same test is filtering once |
| Projects.RemoveById | app/page.tsx:1599-1601 | delete keeps exactly the projects with a different id |
| Projects.RemoveAbsent | app/page.tsx:1599-1601 | deleting an id no project has changes nothing |
| Projects.RemoveAppend | app/page.tsx:1599-1601 | delete keeps the order of what is left |
| Projects.RemoveTwice | app/page.tsx:1599-1601 | deleting twice is deleting once |
| Projects.UpdateByName | app/page.tsx:1482-1486 | every project named after the addon gets one more iteration, and the new files when some came back; no other field and no other project changes |
| Projects.Search | app/page.tsx:974-976 | the search keeps exactly the projects whose lower-cased name contains the lower-cased query |
| Projects.SearchEmpty | app/page.tsx:974-976 | an empty query shows every project, in order |
| Projects.SearchIgnoresCase | app/page.tsx:974-976 | the query's case makes no difference |
| Projects.SearchAppend | app/page.tsx:974-976 | the search keeps the order of the list |
| Projects.UpdateKeepsCounts | app/page.tsx:1482-1486 | the refine update keeps every iteration count at one or more |
| Projects.RemoveKeepsCounts | app/page.tsx:1599-1601 | delete keeps every iteration count at one or more |
| Workflow.GeneratedName | app/page.tsx:1405 | the generated name is never empty: the agent's name, else the form's name, else `MyAddon` |
| Workflow.GenerateStart | app/page.tsx:1378-1384 | generating puts the page in a pulsing busy status |
| Workflow.Generate | app/page.tsx:1377-1445 | on success: status ready, the agent's files (or none), the generated name, the reply's tree, specification and summary (or empty), one iteration, cleared feedback, and exactly one new project in front; on failure or exception: status idle and the error text, and nothing else changes except the cleared status message; commit and package results are cleared either way |
| Workflow.GenerateMayHaveNoFiles | app/page.tsx:1404 | a reply with no file array gives an empty file set and a saved project with no files |
| Workflow.EmptyErrorKept | app/page.tsx:1434 | an empty error text is kept as it is; only a missing one becomes `Failed to generate addon` |
| Workflow.Bullets | app/page.tsx:1469-1471 | one bullet per modification, in order, each opening with `- **`, the file name (or `unknown`) and `**: `, and ending with the change (or `updated`) |
| Workflow.BulletsReadBack | app/page.tsx:1469-1471 | when every file name and change is one line, splitting the joined bullets at newlines gives the bullets back |
| Workflow.AgentMessageParts | app/page.tsx:1467-1472 | the agent's message starts with the summary (or `Changes applied`), is just that with no modifications, and holds every bullet |
| Workflow.RefinePromptCarries | app/page.tsx:1453 | the refine prompt carries the files and the developer's feedback |
| Workflow.Refine | app/page.tsx:1447-1501 | status ready on every path, and only the files, count, history, projects and the two messages can change; on success one more iteration, files replaced only when some came back, the project list updated by name, no error and `Refinement complete!`; otherwise the count, files and projects stay; a user entry and an agent entry (the summary and bullets on success, `Error: ` and the error on failure) are appended unless the call threw |
| Workflow.RefineFailureKeepsProgress | app/page.tsx:1447-1498 | after a failed or thrown refine the progress text stays and only the error message is set |
| Workflow.SendFeedback | app/page.tsx:679-684 | the send action changes nothing while the feedback is blank or a refine is running; otherwise it refines with the trimmed feedback and clears the box |
| Workflow.SentFeedbackEntry | app/page.tsx:679-684 | the user entry a sent message adds is not empty, neither starts nor ends with white space, and occurs in what was typed |
| Workflow.Commit | app/page.tsx:1507-1538 | status ready; a commit result exactly on success, holding the repository URL and gist URL (each `""` when missing) and the message (else the status, else `Files committed successfully`), with `Committed to GitHub!` and no error; on failure the agent's error or `Failed to commit to GitHub`, after an exception `GitHub commit failed`, with the status message cleared; only the status, the result and the two messages change |
| Workflow.CommitLastWins | app/page.tsx:1507-1538 | a second commit overwrites everything the first set, so only the latest attempt shows |
| Workflow.CommitPromptDefaults | app/page.tsx:1515 | the commit prompt names the branch (default `main`), the message (default `Initial addon commit`) and the addon |
| Workflow.Package | app/page.tsx:1540-1580 | status ready; a package result exactly on success, whose link is the first artifact's URL and empty when there is none, whose name and path default to the addon's zip and the AddOns folder, and whose message is the agent's (else its status, else `Package created successfully`), with `Package ready for download!` and no error; on failure the agent's error or `Failed to package addon`, after an exception `Packaging failed`, with the status message cleared; only the status, the result and the two messages change |
| Workflow.PackageLastWins | app/page.tsx:1540-1580 | a second packaging overwrites everything the first set, so only the latest attempt shows |
| Workflow.PackageNameAgrees | app/page.tsx:1547-1563 | with a non-empty addon name and no name from the agent, the package name is the zip file the prompt asked for |
| Workflow.Resume | app/page.tsx:1582-1597 | resuming loads the project's files, name, count, tree and specification, clears the generation summary, feedback, results and both messages, selects the first file, and opens the code review, ready |
| Workflow.Delete | app/page.tsx:1599-1601 | delete changes only the project list, keeping exactly the projects with another id |
| Workflow.ResumeAfterGenerate | app/page.tsx:1582-1597 | resuming the project just generated gives the same files, name, tree, specification, count, history, status and project list that generate produced; the generation summary and the status message are cleared |
| Workflow.DeleteAfterGenerate | app/page.tsx:1599-1601 | deleting the project just generated, under a fresh id, gives back the earlier list |
| Workflow.ApplyNeverBusy | app/page.tsx:1377-1601 | after any handler finishes, the badge is not pulsing; every handler but delete ends idle or ready |
| Workflow.OnlyGenerateGrowsProjects | app/page.tsx:1431 | only a successful generate makes the project list longer, and by exactly one |
| Workflow.StatusIgnored | app/page.tsx:1377-1597 | no handler reads the status: apart from delete, the starting status makes no difference |
| Workflow.FeedbackAppendOrReset | app/page.tsx:1414-1590 | the feedback history is only ever extended or cleared |
| Workflow.ApplyKeepsCounts | app/page.tsx:1418-1486 | every handler keeps every saved project's iteration count at one or more |
| Workflow.RunInvariant | app/page.tsx:1377-1601 | along any sequence of handler outcomes, the counts stay positive and no finished step is left busy |
| Workflow.InitialRuns | app/page.tsx:1377-1601 | from the page's initial state, any sequence of outcomes keeps those two facts |

## Left out

- JSX, CSS class names, colours, icons and layout components (the screens, dialogs, `AddonTypeSelector`, the agent panel): presentation only. Spans carry a class, and the file-tree entry a file-or-folder flag.
- `callAIAgent`: a foreign asynchronous call. Its result is the `Outcome` input of each handler.
- The localStorage load and save effects: browser I/O. `Initial` has an empty project list.
- `genId` and `new Date().toISOString()`: nondeterministic. The id and the timestamp are parameters of `Generate`.
- `window.open` of the download link, the clipboard and `scrollIntoView`: browser side effects. The download link itself is modelled.
- `ErrorBoundary`: React lifecycle.
- Asynchronous interleaving and `setState` batching: each handler outcome is one atomic step, the entry setters followed by the outcome's setters. No mutual exclusion is claimed, because the handlers never check the status and the callers' guards only cover their own request.
- `isGenerating`, `activeAgentId`, `ghDialogOpen` and the settings screen: they are UI flags that no modelled output depends on.
- `JSON.stringify` of the files inside the prompts: the serialised text is a parameter of the prompt builders.
- Sample mode: the sample data and the sample `cfg` in generate. The form's configuration is a parameter.
- The other button handlers and the buttons' `disabled` conditions: they only forward to the modelled handlers, or keep a button from being pressed.
- Projects.Search: `toLowerCase` is modelled on ASCII letters only. Unicode case mapping is not modelled.
- Text: every `char` stands for one UTF-16 code unit. Characters outside the Basic Multilingual Plane, which JavaScript sees as two units, are not modelled.
- Highlight.Render: the `key` props and line-number gutter styling are not modelled. Only the number each row shows is kept.
- Workflow.Generate: the reply's `files` field (app/page.tsx:1404) is either an array or missing (`None`). Other non-array values are treated like a missing one, as `Array.isArray` does.
- Workflow.Refine: the reply's `updated_files` and `modifications` fields (app/page.tsx:1459-1460) are modelled the same way, as `Option`s whose `None` stands for every non-array value.
- Workflow.Resume: a saved project's `files` (app/page.tsx:1583) is always a sequence in the model, so the fallback to `[]` for a non-array value is not modelled.

## Findings

| source | as written | input that shows it | evidently intended | confidence | as-written member | corrected member |
|---|---|---|---|---|---|---|
| app/page.tsx:138,154 | `tokens[i + 1] === '('` looks at the raw split result. Every Lua character is captured by some alternative, so the element after a captured word is always the empty gap `""`, and the call-site colour is never used | the line `f(` splits as `""`, `f`, `""`, `(`, `""`, and `f` is shown plain | a word directly followed by `(` is coloured as a call site | not executed | Highlight.CallSiteAsWritten | Highlight.LuaLineIntendedCalls |

The lemmas behind this row:
- As written, `Highlight.LuaLineAsWritten` proves that no line ever gets a call-site span, and `Highlight.LuaTokensOfCall` shows the gap after `f`.
- The corrected classifier, `Highlight.LuaLineIntended`, looks at the next non-empty token. `Highlight.CallSiteIntended` shows that it colours `f` in `f(`.
- `Highlight.AsWrittenVersusIntendedAt` states that the two classifiers differ only at those call sites.

`Highlight.HighlightCode` renders with the as-written lexer, because that is what the page shows.
