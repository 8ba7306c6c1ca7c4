# PM dashboard list logic in Dafny

A product manager's dashboard with five pieces of behaviour that sit
behind its screens:

- **RICE prioritisation.** It scores each feature by
  reach × impact × confidence ÷ effort, rounded to two decimals. It then
  ranks the list with a stable sort on descending score, and adds and
  removes features.
- **Roadmap.** It saves a milestone form either as a new milestone or over
  the milestone being edited. It deletes milestones after a confirmation,
  edits the form's item list, and computes the overview figures (total
  items, the in-progress count, and the rounded average progress).
- **User stories.** It generates five template stories for a persona.
  Stories can be deleted or given a new status.
- **Header.** It keeps the notification list with its read flags and the
  unread badge, and guards the search box.
- **PRD generator.** It fills an eight-section document template from the
  product form. It renders the document as Markdown and derives its
  download file name. The Ollama helpers parse a model reply into a PRD
  (or use a canned one), a story draft, or a competitor analysis.

React state becomes class fields. Handlers that replace state become methods
with `modifies this`. Each of them is specified by a pure function of the old
state, and lemmas prove the function's properties. `Date.now()`, `new Date().toISOString()` and the answer to
`window.confirm` are parameters.

Scores are kept in whole hundredths. `toFixed(2)` followed by `parseFloat`
is exact here:

- Every input is a whole number from 1 to 10.
- A value exactly halfway between two hundredths only arises with effort 8.
  In that case the quotient is a dyadic fraction, which a double holds
  exactly.
- Every other quotient is at least 0.0005 away from a rounding boundary.

So `Arith.RoundHalfUp` (round half up on exact rationals) gives the same
value as `toFixed(2)`, which picks the larger candidate on a tie. It also
gives the same value as `Math.round` on the non-negative averages.

Modules:

| File | Contents |
|---|---|
| `Wrappers` | `Option` |
| `Seqs` | `Array.prototype.filter` and its characterisation |
| `Text` | JavaScript white space, `trim`, `includes`, `slice`, `split`/`join` on one character, `replace(/\s+/g, c)`, and decimal rendering |
| `Arith` | half-up rounding of a quotient |
| `FeaturePrioritization` | the RICE page |
| `Roadmap` | the roadmap page |
| `UserStories` | the user-story page |
| `Header` | the header bar |
| `PrdGenerator` | the PRD page |
| `OllamaApi` | the reply parsers |

## Model

| member | source | states |
|---|---|---|
| Arith.RoundHalfUp | src/pages/Roadmap.js:396 | `r` is the integer nearest to `x / n`; on an exact half it is the larger one |
| Arith.RoundHalfUpUnique | src/pages/Roadmap.js:396 | only one integer meets that condition, so the rounding is fully determined |
| FeaturePrioritization.RiceScore | src/pages/FeaturePrioritization.js:54-56 | the score in hundredths is within half a hundredth of reach·impact·confidence/effort, and on an exact half it is the larger candidate |
| FeaturePrioritization.RiceScoreBounds | src/pages/FeaturePrioritization.js:54-56 | with inputs from 1 to 10 the score lies between 0.10 and 1000.00 |
| FeaturePrioritization.RiceScoreTieRoundsUp | src/pages/FeaturePrioritization.js:55 | 1·1·1/8 = 0.125 is scored 0.13 |
| FeaturePrioritization.Insert | src/pages/FeaturePrioritization.js:62 | one sort step adds exactly the inserted record and nothing else (as a multiset) |
| FeaturePrioritization.InsertRanked | src/pages/FeaturePrioritization.js:62 | inserting into a list ranked by descending score keeps it ranked |
| FeaturePrioritization.RankByScore | src/pages/FeaturePrioritization.js:62 | the sort returns a permutation of its input, ranked by descending score |
| FeaturePrioritization.InsertIsStable | src/pages/FeaturePrioritization.js:62 | an insertion keeps the records of each score in their order, and puts the new record first among its ties |
| FeaturePrioritization.RankIsStable | src/pages/FeaturePrioritization.js:62 | the sort is stable: for every score, the records with that score come out in the order they went in |
| FeaturePrioritization.RankRankedIsIdentity | src/pages/FeaturePrioritization.js:62 | sorting a list that is already ranked changes nothing |
| FeaturePrioritization.IdCountRank | src/pages/FeaturePrioritization.js:62 | sorting never adds, drops or duplicates an id |
| FeaturePrioritization.IdCountRescore | src/pages/FeaturePrioritization.js:59-61 | rescoring leaves every id's count unchanged |
| FeaturePrioritization.RecalculatedSpec | src/pages/FeaturePrioritization.js:58-64 | after `calculateAll` the list has the same length, every score matches its inputs, every record is a rescored input record, the list is ranked, and ties keep their order |
| FeaturePrioritization.RescoreCurrentIsIdentity | src/pages/FeaturePrioritization.js:59-61 | rescoring records whose scores already match their inputs changes nothing |
| FeaturePrioritization.RecalculatedIdempotent | src/pages/FeaturePrioritization.js:58-64 | running `calculateAll` twice gives the same list as running it once |
| FeaturePrioritization.RecalculatedShowsCharts | src/pages/FeaturePrioritization.js:203 | after `calculateAll` on a non-empty list, some score is positive, so the charts render |
| FeaturePrioritization.RecalculatedKeepsIds | src/pages/FeaturePrioritization.js:58-64 | `calculateAll` keeps every id's count |
| FeaturePrioritization.NewFeature | src/pages/FeaturePrioritization.js:69-77 | the new record carries the given id, the form's name and its four inputs, and its score is computed from those inputs |
| FeaturePrioritization.WithFeatureSpec | src/pages/FeaturePrioritization.js:66-82 | with a name, the list is the old records plus the scored new record (as a multiset), ranked by descending score, and records of equal score keep their prior order with the new record after them |
| FeaturePrioritization.WithFeatureIds | src/pages/FeaturePrioritization.js:66-82 | adding raises the count of the new id by one and leaves every other id's count unchanged |
| FeaturePrioritization.WithoutSpec | src/pages/FeaturePrioritization.js:84-86 | removing leaves no record with that id; every record with another id stays; a ranked list stays ranked; an absent id changes nothing |
| FeaturePrioritization.WithoutIds | src/pages/FeaturePrioritization.js:84-86 | after removing, the removed id has count 0 and every other id keeps its count |
| FeaturePrioritization.RadarLabel | src/pages/FeaturePrioritization.js:98 | a name of up to 15 characters is kept; a longer one becomes its first 15 characters followed by "..." (18 in all) |
| FeaturePrioritization.Radar | src/pages/FeaturePrioritization.js:97-103 | the radar point is labelled with RadarLabel of the name, copies reach, impact and confidence, and plots effort as 10 − effort, which lies between 0 and 9 |
| FeaturePrioritization.InitialIdsUnique | src/pages/FeaturePrioritization.js:7-44 | the four sample features carry four different ids |
| FeaturePrioritization.FeatureBoard.constructor | src/pages/FeaturePrioritization.js:7-52 | the page starts with the four sample features and the default form; ids are unique |
| FeaturePrioritization.FeatureBoard.SetName | src/pages/FeaturePrioritization.js:131 | typing changes only the form's name |
| FeaturePrioritization.FeatureBoard.SetCriterion | src/pages/FeaturePrioritization.js:146 | a slider changes only its own criterion |
| FeaturePrioritization.FeatureBoard.CalculateAll | src/pages/FeaturePrioritization.js:58-64 | the features become the recalculated list: ranked, every score up to date, ids still unique |
| FeaturePrioritization.FeatureBoard.AddFeature | src/pages/FeaturePrioritization.js:66-82 | an empty name changes nothing; otherwise the scored record joins the ranked list, the form resets, and ids stay unique given a fresh clock value |
| FeaturePrioritization.FeatureBoard.RemoveFeature | src/pages/FeaturePrioritization.js:84-86 | the features become the list without that id; ids stay unique |
| Roadmap.FromForm | src/pages/Roadmap.js:50-56 | the saved milestone copies the form's fields; an empty item list becomes the single "Feature 1"/"Planned" item, so items are never empty |
| Roadmap.SavedIncompleteIsNoOp | src/pages/Roadmap.js:45-48 | with no quarter or no title, saving changes nothing |
| Roadmap.SavedEditReplacesInPlace | src/pages/Roadmap.js:50-60 | in edit mode, each milestone with the edited id is replaced where it stands by the milestone built from the form under that id; the length and every other milestone are unchanged |
| Roadmap.SavedAddAppends | src/pages/Roadmap.js:50-62 | in add mode (editing id null or 0), the old list is kept as a prefix and the milestone built from the form under the clock's id is appended |
| Roadmap.DeletedSpec | src/pages/Roadmap.js:80-84 | a confirmed delete keeps exactly the milestones without that id, in order; a declined one changes nothing |
| Roadmap.WithItem | src/pages/Roadmap.js:86-94 | a name that trims to nothing is ignored; otherwise the untrimmed name is appended as a "Planned" item |
| Roadmap.WithoutItemAtSpec | src/pages/Roadmap.js:96-101 | removing a valid index removes exactly that item and keeps the rest in order; an index outside the list changes nothing |
| Roadmap.StatusColor | src/pages/Roadmap.js:116-123 | the three statuses map to their colours, and the grey default is returned exactly for any other status |
| Roadmap.ItemStatusColor | src/pages/Roadmap.js:125-132 | the three statuses map to their badge classes, and "secondary" is returned exactly for any other status |
| Roadmap.TotalItemsAppend | src/pages/Roadmap.js:375 | the item total adds up over consecutive parts of the list |
| Roadmap.SavedTotalItems | src/pages/Roadmap.js:375 | adding a milestone raises the total by that milestone's item count, which is at least one |
| Roadmap.InProgressAfterEdit | src/pages/Roadmap.js:385 | saving an edit with a status other than "In Progress" never raises the in-progress count |
| Roadmap.ProgressSumBounds | src/pages/Roadmap.js:396 | progress values between lo and hi sum to between lo·n and hi·n |
| Roadmap.AverageProgressIsPercentage | src/pages/Roadmap.js:396 | if every progress value is a percentage, the rounded average is one too |
| Roadmap.AverageOfEqualProgress | src/pages/Roadmap.js:396 | when all milestones have the same progress, the average is that value |
| Roadmap.RoadmapEditor.constructor | src/pages/Roadmap.js:6-42 | the page starts with the sample milestones, an empty form, and no milestone being edited |
| Roadmap.RoadmapEditor.SaveMilestone | src/pages/Roadmap.js:44-66 | the milestones become the saved list; a saved form resets and leaves edit mode; ids stay unique given a fresh clock value |
| Roadmap.RoadmapEditor.BeginEdit | src/pages/Roadmap.js:68-78 | the form takes the milestone's fields and its id becomes the one being edited |
| Roadmap.RoadmapEditor.DeleteMilestone | src/pages/Roadmap.js:80-84 | the milestones become the delete result; ids stay unique |
| Roadmap.RoadmapEditor.AddItem | src/pages/Roadmap.js:86-94 | the form's items become the result of `WithItem`; the name box empties after an addition |
| Roadmap.RoadmapEditor.RemoveItem | src/pages/Roadmap.js:96-101 | the form's items lose the item at that index |
| Roadmap.RoadmapEditor.ResetForm | src/pages/Roadmap.js:103-114 | the form, the name box and the edited id return to their empty values; the milestones are unchanged |
| UserStories.Fill | src/pages/UserStories.js:23-37 | a filled template has the title "topic for persona", a story opening "As a persona, I want " followed by the goal, the template's criteria, priority and points, and status "Todo" |
| UserStories.GenerateStoriesShape | src/pages/UserStories.js:22-93 | five stories with ids 1 to 5, all "Todo", each with four criteria, and the k-th title is the k-th topic followed by " for " and the persona |
| UserStories.GenerateStoriesDependOnPersona | src/pages/UserStories.js:25 | different personas give different titles at every position |
| UserStories.WithoutStorySpec | src/pages/UserStories.js:99-101 | deleting keeps exactly the stories without that id, in order; an absent id changes nothing |
| UserStories.WithStatus | src/pages/UserStories.js:103-107 | only the stories with that id change, and only their status; the length and order are unchanged |
| UserStories.WithStatusIdempotent | src/pages/UserStories.js:103-107 | setting the same status twice equals setting it once |
| UserStories.WithStatusKeepsIds | src/pages/UserStories.js:103-107 | a status change does not affect how many stories a later delete keeps |
| UserStories.PriorityColor | src/pages/UserStories.js:109-116 | High, Medium and Low map to their colours, and the default colour is returned exactly for any other priority |
| UserStories.StoryBoard.constructor | src/pages/UserStories.js:6-16 | no epic, persona "end-user" (one of the four offered personas), no stories |
| UserStories.StoryBoard.SelectPersona | src/pages/UserStories.js:150-155 | clicking one of the four persona cards sets the persona to its value; the epic and the stories are unchanged |
| UserStories.StoryBoard.Generate | src/pages/UserStories.js:18-97 | with an epic entered (the button is disabled otherwise), the stories become the five generated for the current persona |
| UserStories.StoryBoard.DeleteStory | src/pages/UserStories.js:99-101 | the stories become the delete result |
| UserStories.StoryBoard.UpdateStatus | src/pages/UserStories.js:103-107 | the stories become the status-change result |
| Header.UnreadCount | src/components/Header.js:55 | the badge count is at most the list length, and it is 0 exactly when every notification is read |
| Header.InitialUnreadCount | src/components/Header.js:8-12 | the header starts with two unread notifications |
| Header.MarkRead | src/components/Header.js:45-49 | only the notifications with that id change, and they become read; the length and order are unchanged |
| Header.MarkReadIdempotent | src/components/Header.js:45-49 | marking the same id read twice equals marking it once |
| Header.MarkReadCount | src/components/Header.js:45-55 | marking an id read lowers the unread count by exactly the number of unread notifications with that id, so it never raises it |
| Header.MarkAllRead | src/components/Header.js:51-53 | every notification becomes read; nothing else changes |
| Header.MarkAllReadClearsBadge | src/components/Header.js:51-55 | after marking all read, the unread count is 0 |
| Header.MarkEachSpec | src/components/Header.js:45-49 | after marking a list of ids one by one, a notification is read exactly when it was read before or its id is in the list |
| Header.MarkEachReadIsMarkAll | src/components/Header.js:45-53 | marking every present id one by one ends where "Mark all as read" does |
| Header.SearchFires | src/components/Header.js:33-39 | a search starts exactly on Enter with a query that is not all white space |
| Header.HeaderBar.HandleSearch | src/components/Header.js:33-39 | the handler reports a search exactly on Enter with a non-blank query |
| Header.HeaderBar.ClearSearch | src/components/Header.js:41-43 | the query becomes empty; the notifications are unchanged |
| Header.HeaderBar.MarkAsRead | src/components/Header.js:45-49 | the notifications become the mark-read result, and the badge count does not rise |
| Header.HeaderBar.MarkAllAsRead | src/components/Header.js:51-53 | the notifications become the mark-all result, and the badge count is 0 |
| PrdGenerator.WithField | src/pages/PRDGenerator.js:17-19 | the named input takes the new value, and every other input keeps its value |
| PrdGenerator.GeneratePrdShape | src/pages/PRDGenerator.js:27-65 | eight sections with the numbered headings in order; the given time stamp; the title is the product name or "Untitled Product"; the problem section is the statement or the default text |
| PrdGenerator.SummaryMentionsForm | src/pages/PRDGenerator.js:32 | the executive summary contains the product name and the problem statement |
| PrdGenerator.SectionsMentionForm | src/pages/PRDGenerator.js:40-56 | the audience section contains the target audience, the features section the key features, the competition section the competitors and the timeline section the timeline |
| PrdGenerator.GeneratedContents | src/pages/PRDGenerator.js:29-62 | the document's eight sections carry the template texts filled in from the form, in order |
| PrdGenerator.GeneratePrdMentionsForm | src/pages/PRDGenerator.js:29-62 | the name, problem, audience, features, competitors and timeline each appear in their sections |
| PrdGenerator.MarkdownSpec | src/pages/PRDGenerator.js:71 | the Markdown opens with "# title" and a blank line, and contains every section whole as "## heading", a blank line, then its text |
| PrdGenerator.MarkdownNoSections | src/pages/PRDGenerator.js:71 | with no sections the Markdown is "# title" and a blank line |
| PrdGenerator.MarkdownOneSection | src/pages/PRDGenerator.js:71 | with one section the Markdown is "# title", a blank line, then that section's block |
| PrdGenerator.MarkdownAppend | src/pages/PRDGenerator.js:71 | one more section at the end appends a blank line and its block to the Markdown, so the blocks appear in section order, separated by blank lines |
| PrdGenerator.FilenameSpec | src/pages/PRDGenerator.js:76 | the file name has no white space, ends in ".md", and keeps every character of the title other than white space and '-' in order |
| PrdGenerator.FilenameAroundRun | src/pages/PRDGenerator.js:76 | a white-space run with solid text on both sides becomes exactly one "-", so "Product  Name" is saved as "Product-Name.md" |
| PrdGenerator.PrdPage.Change | src/pages/PRDGenerator.js:17-19 | the form takes the changed input; the generated document is unchanged |
| PrdGenerator.PrdPage.Generate | src/pages/PRDGenerator.js:21-68 | with the product name and problem filled in (the button is disabled otherwise), the generated document becomes the template filled from the form at the given time |
| PrdGenerator.PrdPage.Download | src/pages/PRDGenerator.js:70-78 | the download's content is the Markdown and its name is the derived file name, which has no white space |
| Text.Trim | src/components/Header.js:34 | `trim` returns a slice of the input with no white space at either end, and it is empty exactly when the input is all white space |
| Text.Contains | src/utils/ollamaAPI.js:165 | `includes` is true exactly when the text occurs at some position |
| Text.JoinSplit | src/utils/ollamaAPI.js:212 | joining the pieces of a one-character split with that character gives back the string |
| Text.ReplaceWhitespaceRunsKeepsText | src/pages/PRDGenerator.js:76 | replacing white-space runs keeps every other character in order |
| Text.ReplaceWhitespaceRunsIdempotent | src/pages/PRDGenerator.js:76 | replacing the runs a second time changes nothing |
| Text.ReplaceRunBetween | src/pages/PRDGenerator.js:76 | a maximal white-space run between two texts becomes exactly one separator, and the texts on either side are replaced on their own |
| Text.NatToStringRoundTrip | src/utils/ollamaAPI.js:211 | reading back a rendered number gives the number |
| Seqs.FilterIsOrderedSelection | src/components/Header.js:55 | `filter` returns the input read at the increasing list of positions whose elements pass |
| Seqs.FilterMembers | src/pages/UserStories.js:100 | an element is in the filtered list exactly when it is in the input and passes |
| Seqs.FilterCountMonotone | src/components/Header.js:55 | comparing two equal-length lists position by position bounds their filtered lengths |
| OllamaApi.CannedMatchesGenerated | src/utils/ollamaAPI.js:165-204 | the canned document has the same title, headings, problem section and time stamp as the page's own generated PRD |
| OllamaApi.CutsFrom | src/utils/ollamaAPI.js:207 | the cut positions strictly increase, each satisfies the look-ahead, and none is missed |
| OllamaApi.SplitAtSpec | src/utils/ollamaAPI.js:207 | the pieces are the stretches between 0, every inner position where the look-ahead matches, and the end; they are non-empty and in order |
| OllamaApi.SplitAtConcat | src/utils/ollamaAPI.js:207 | concatenating the pieces gives back the reply |
| OllamaApi.SplitAtHeadingsCutsNumber | src/utils/ollamaAPI.js:207 | as written, a reply opening with a two-digit heading such as "10. Goals" is cut between the digits |
| OllamaApi.SplitAtHeadingStartsKeepsNumbers | src/utils/ollamaAPI.js:207 | the corrected split never divides a number: later pieces start with a digit and the piece before ends in a non-digit |
| OllamaApi.SplitAtHeadingStartsTwoDigits | src/utils/ollamaAPI.js:207 | the corrected split keeps a leading two-digit heading whole in the first piece |
| OllamaApi.SplitAtNoCuts | src/utils/ollamaAPI.js:207 | a split with no match inside the reply returns the reply as its one piece |
| OllamaApi.SplitAtOneCut | src/utils/ollamaAPI.js:207 | a split with exactly one match inside the reply returns the two pieces on either side of it |
| OllamaApi.TwoDigitPiecesAsWritten | src/utils/ollamaAPI.js:207 | as written, "ab. Name" line break body splits into the piece "a" and the piece "b. Name…" |
| OllamaApi.TwoDigitPiecesCorrected | src/utils/ollamaAPI.js:207 | corrected, the same reply stays one piece |
| OllamaApi.StripNumberingRoundTrip | src/utils/ollamaAPI.js:211 | stripping `^\d+\.\s+` from "n. name" gives back the name |
| OllamaApi.FirstLineAndRest | src/utils/ollamaAPI.js:211-212 | the first line is the text before the first line break; the rest is the text after it, or nothing if there is no line break |
| OllamaApi.PieceSectionContent | src/utils/ollamaAPI.js:210-213 | a piece's section content is empty exactly when the text after its first line is blank, and otherwise has no white space at either end |
| OllamaApi.HeadingSectionAt | src/utils/ollamaAPI.js:210-213 | the piece "n. name", line break, trimmed body at position `index` reads as the section titled "index+1. name" with that body: the model's own number is replaced by the position |
| OllamaApi.ParseSectionsSpec | src/utils/ollamaAPI.js:210-213 | the sections are the pieces with non-blank bodies, in order and at most one per piece; each keeps its piece's position number and has trimmed content |
| OllamaApi.ParseOneSection | src/utils/ollamaAPI.js:210-213 | a single "n. Name" line followed by a trimmed body parses to exactly one section, "1. Name" with that body, whatever n was |
| OllamaApi.ParseHeadingLine | src/utils/ollamaAPI.js:210-213 | a heading line without a line break, followed by a trimmed body, parses to one section numbered 1 whose title is the heading with its number stripped |
| OllamaApi.NumberedPieceSection | src/utils/ollamaAPI.js:210-213 | a piece "digits. Name", line break, body at position `index` reads as "index+1. Name" with that body |
| OllamaApi.TwoDigitSectionsAsWritten | src/utils/ollamaAPI.js:207-213 | as written, the pieces of "ab. Name…" give one section, "2. Name" with the body: the lone digit has no body and is dropped |
| OllamaApi.TwoDigitSectionsCorrected | src/utils/ollamaAPI.js:207-213 | corrected, the same reply gives one section, "1. Name" with the body |
| OllamaApi.ParsePrdResponse | src/utils/ollamaAPI.js:163-216 | with the integration off or a simulated reply, the result is the canned PRD; otherwise the title is the raw product name, the time stamp is the given one, and the sections are exactly those read from the pieces of the as-written split `SplitAtHeadings`: trimmed, at most one per piece |
| OllamaApi.ParsePrdResponseCorrected | src/utils/ollamaAPI.js:163-216 | the same parser with the split `SplitAtHeadingStarts`, which cuts only before a whole heading number |
| OllamaApi.TwoDigitHeadingMisnumbered | src/utils/ollamaAPI.js:163-216 | as written, a reply "ab. Name" line break body gives a PRD whose one section is titled "2. Name" |
| OllamaApi.TwoDigitHeadingNumberedFirst | src/utils/ollamaAPI.js:163-216 | with the corrected split the same reply gives one section titled "1. Name" |
| OllamaApi.ParseUserStories | src/utils/ollamaAPI.js:219-231 | one story with the clock id, the title "Story extracted from Ollama response", the reply's first 200 characters as its text, three "Criterion from AI" criteria, priority "Medium" and 5 points |
| OllamaApi.ParseCompetitiveAnalysis | src/utils/ollamaAPI.js:234-251 | one entry per competitor with the same name, in order, rated 8/7/8/7/8; the recommendations are the reply's first 500 characters |

## Left out

- The simulated delays, `isGenerating`, `showAddForm` and `showNotifications`, the dark-mode and sidebar toggles, and the outside-click listener: these are presentation state with no data logic.
- `alert` and `window.confirm`: the alert is omitted, and the confirmation answer is a `bool` parameter of `Roadmap.Deleted`.
- `Date.now()` and `toISOString()`: these are parameters. Where they become ids, a precondition asks for a value no existing record carries, which is what the millisecond clock provides in practice.
- The `Blob`, object URL and anchor click of the download: only the Markdown text and the file name are modelled.
- `generateWithOllama`, `checkOllamaStatus`, `simulateAIResponse` and the `generate…WithOllama` wrappers: these are network calls. `USE_OLLAMA` is the `useOllama` parameter of `ParsePrdResponse`.
- The Dashboard, CompetitiveAnalysis, Sidebar and App components, charts other than the radar data, and the `chartData` copy of the list: these are not part of this model.
- Text.Take: `slice` counts UTF-16 code units and the model counts characters. The same holds for the 15-character cut in `RadarLabel`.
- FeaturePrioritization.RiceScore: scores are exact hundredths, not doubles. For inputs from 1 to 10 the two agree, as argued above.
- The sample features start with score 0, as in the source, until `calculateAll` runs.
- The `parseInt` of the slider and progress inputs is not modelled: both are taken as integers.
- The source has no validation errors for an empty feature name or milestone form beyond the early returns modelled here. It has no boolean result from removal, and it breaks no ties by id. The model follows the code on each point.

## Findings

| source | as written | input that shows it | evidently intended | confidence | as-written member | corrected member |
|---|---|---|---|---|---|---|
| src/utils/ollamaAPI.js:207 | `split(/(?=\d+\.\s+[A-Z])/)` also matches at every later digit of a multi-digit heading number, so the number is split across two pieces | the reply "10. Goals", line break, "body" gives the pieces "1" and "0. Goals…"; the first has no body and is dropped, so the only section is titled "2. Goals" | split only before the whole number of a heading (no digit just before the cut), giving "1. Goals" | high for the split semantics; not executed | OllamaApi.TwoDigitHeadingMisnumbered | OllamaApi.TwoDigitHeadingNumberedFirst |

`ParsePrdResponse` is the parser as written, on `SplitAtHeadings`;
`ParsePrdResponseCorrected` is the same parser on the corrected split
`SplitAtHeadingStarts`. At the split level, `SplitAtHeadingsCutsNumber`
shows the cut between the digits and `SplitAtHeadingStartsKeepsNumbers`
proves that the corrected split never divides a number.
