# Client project tracker — decision logic in Dafny

This project models the decision logic of a small public project tracker. A client opens a link `/t/<public id>`. The page checks the link and shows a progress bar over the workflow stages, the project's details and its update timeline. Serverless handlers read projects from a hosted page store (Notion) and normalise a page into a flat record. A maintenance handler gives every page without a public id a fresh id and its tracker URL.

The model covers three parts:

- **Front end** (`script.js`):
  - `Route`: the start-up decision. The path is split on `/`, keeping empty segments as JavaScript's `split` does. The route guard reads the raw last segment and the segment after the first `/`. The accepted id is then reduced to `[A-Za-z0-9-]`.
  - `Progress`: the progress bar's classes, chosen through `indexOf`.
  - `Render`: the fallback texts of the timeline and of the project information block, as data rather than markup.
- **Record normalisation** (`api/get-latest-item.js` and `api/notion.js`):
  - `Notion`: the page data model, a map from property name to a value tagged by its kind.
  - `CleanData.Normalize`: the shared normaliser, a `Result` over that data model.
  - `Handlers`: the two handlers, each written out, plus a lemma showing they differ only in the 500 message.
- **Public-id issuance** (`api/generate-urls.js`):
  - `Issuer`: a transition on an abstract store, a database holding data sources that hold pages.
  - The uuid generator is the parameter `ids: nat -> string`. The k-th page updated receives `ids(k)`.
  - Store failures are the `Faults` input.
  - `Commit` is the store after a run whose updates all landed.

`Wrappers` holds `Option` (for `undefined`/`null`) and `Result` (for a thrown exception).

Behaviours of the program worth knowing:

- Normalisation reads each property under one fixed name. A page missing one of the seven properties it reads makes the handler answer 500. So does a `Name`, `Description` or `Documents` of the wrong kind, since `undefined[0]` and `undefined.length` throw.
- A `Client`, `Status`, `Timeline` or `Email` of the wrong kind does not throw. It falls back to that field's default through `?.` and `||`.
- The timeline lists the updates in the order the API returns them.
- Issuance answers 200 only when every update succeeds. If any update fails, the whole call answers 500 and reports no count.

One consequence of the route guard, stated as `Route.BareTrackerPrefixAccepted`: the bare path `/t` splits into `["", "t"]`, so it passes the guard with the id `t`.

## Model

| member | source | states |
|---|---|---|
| Route.Split | script.js:4 | splitting on '/' yields at least one segment, and no segment contains '/' |
| Route.JoinSplit | script.js:4 | the split is lossless: joining the segments with '/' gives the path back |
| Route.SplitJoin | script.js:4 | splitting a '/'-join of separator-free segments gives exactly those segments, empty ones included |
| Route.SplitAtSeparator | script.js:4 | a '/' between two texts splits them independently: Split(a + "/" + b) == Split(a) + Split(b) |
| Route.LastSegmentEndsPath | script.js:8 | an empty path or one ending in '/' has an empty last segment |
| Route.Sanitize | script.js:19 | the clean id contains only [A-Za-z0-9-] and is no longer than the input |
| Route.SanitizeKeepsAllowedCounts | script.js:19 | every allowed character occurs in the clean id exactly as often as in the input |
| Route.SanitizeIsSubsequence | script.js:19 | the clean id is the input with characters deleted, in original order |
| Route.SanitizeFixedPoint | script.js:19 | sanitising leaves an id unchanged if and only if all its characters are allowed |
| Route.SanitizeKeepsAllowed | script.js:19 | an id of allowed characters only is left unchanged |
| Route.SanitizeIdempotent | script.js:19 | sanitising twice equals sanitising once |
| Route.SanitizeDropsDisallowed | script.js:19 | an input with no allowed character sanitises to the empty id |
| Route.Start | script.js:4-19 | the tracker fetches if and only if the last segment is non-empty and segment 1 is "t"; a fetched id is the sanitised last segment, and the path then does not end in '/' |
| Route.TrailingSlashRejected | script.js:8-15 | any path ending in '/' shows "Project not found" |
| Route.TrackerLinkSplits | script.js:4 | the path "/t/<id>" of a separator-free id splits into ["", "t", id] |
| Route.TrackerLinkAccepted | script.js:4-19 | "/t/<id>" with a non-empty separator-free id fetches the sanitised id, which is the id itself when it has only allowed characters |
| Route.OtherPrefixRejected | script.js:4-15 | a path "/<prefix>" or "/<prefix>/<anything>" whose separator-free first segment is not "t" shows "Project not found"; every browser pathname has one of these shapes |
| Route.GuardPrecedesSanitize | script.js:12-19 | an id made only of disallowed characters passes the guard and is fetched as the empty id |
| Route.BareTrackerPrefixAccepted | script.js:8-12 | the bare path "/t" passes the guard with the id "t" |
| Progress.IndexOf | script.js:67 | the result is -1 exactly when the status is absent; otherwise it is the first position holding the status |
| Progress.Steps | script.js:67-79 | one step per stage, in order; a step is completed iff the status occurs and not at or before it, active iff it is the status's first occurrence, and checked iff completed |
| Progress.CompletedFormPrefix | script.js:72-73 | for all i <= j, if step j is completed then step i is completed |
| Progress.AtMostOneActive | script.js:74-75 | any two active steps are the same step |
| Progress.KnownStatusPosition | script.js:67-76 | for a status among the stages: the first occurrence is active, all earlier steps are completed, and all later steps (duplicates included) are pending |
| Progress.UnknownStatusAllPending | script.js:67-77 | a status not among the stages leaves every step pending and unchecked |
| Render.TimelineItems | script.js:89-108 | at least one item; the placeholder appears iff comments are missing or empty, and then it is the only item; otherwise there is one item per comment |
| Render.TimelineKeepsOrder | script.js:89-101 | rendering concatenated comment lists concatenates their renderings, so nothing is re-sorted |
| Render.TimelineItemShowsComment | script.js:90-100 | item i shows comment i's timestamp and text |
| Render.FalsyFieldsRenderAlike | script.js:115-136 | a missing, null or empty email, start date or document list all render alike: 'N/A', 'Not set' and "No files uploaded" |
| Render.ProjectInfo | script.js:111-138 | name and client shown as given; a falsy email shows 'N/A' and a truthy one itself; a falsy start shows 'Not set'; a missing or empty document list shows "No files uploaded", otherwise the non-empty list |
| CleanData.Normalize | api/get-latest-item.js:40-49 | succeeds iff all seven read properties are present and Name, Description and Documents have the indexed kinds; failures name a read property; projectId is the page id, documentCount the number of files; projectName, clientName and status are never empty, and a timeline is never the empty string |
| CleanData.MissingPropertyThrows | api/get-latest-item.js:40-49 | a page missing any read property yields no record |
| CleanData.ProjectNameField | api/get-latest-item.js:42 | projectName is the first title run's text if non-empty, else 'Untitled' |
| CleanData.LaterTitleRunsIgnored | api/get-latest-item.js:42 | appending runs after the first title run does not change the record |
| CleanData.DescriptionField | api/get-latest-item.js:43 | description is the first rich-text run's text, or '' |
| CleanData.ClientNameField | api/get-latest-item.js:44 | clientName is the selected option's non-empty name, else 'N/A', even when Client is not a select |
| CleanData.StatusField | api/get-latest-item.js:45 | status is the status value's non-empty name, else 'Backlog' |
| CleanData.TimelineAndEmailFields | api/get-latest-item.js:46-47 | timeline is the date's non-empty start, else null; email is the address, else '' |
| CleanData.OnlyReadPropertiesMatter | api/get-latest-item.js:40-49 | two pages with the same id that agree on the seven read properties give the same result |
| Handlers.GetLatestItem | api/get-latest-item.js:28-58 | 404 with 'No items found in the database.' iff the query returned no pages; 200 iff the first page is well shaped, carrying exactly its normalised record; every other case 500 with 'Failed to fetch data from Notion.' |
| Handlers.NotionLatest | api/notion.js:27-51 | the same outcomes, with the 500 message 'Failed to fetch data from Notion. Check Vercel logs.' |
| Handlers.HandlersAgree | api/notion.js:34-51 | for every query both handlers give the same status code and the same record or 404; a 500 differs only in its message |
| Handlers.OnlyFirstResultMatters | api/get-latest-item.js:33-35 | pages after the first never change the reply |
| Handlers.MissingPropertyIsServerError | api/get-latest-item.js:54-58 | a first page missing a read property gives a 500 with each handler's message, never partial data |
| Notion.PlainText | api/generate-urls.js:35-39 | the text of a list of runs is empty if and only if every run's text is empty, which is how the "is_empty" filter reads a rich-text property |
| Issuer.Selected | api/generate-urls.js:33-41 | every selected page has an empty "Public ID" rich text, and no more pages are selected than there are |
| Issuer.SelectedExactly | api/generate-urls.js:33-41 | a page is selected if and only if it is in the data source and its "Public ID" rich text is empty |
| Issuer.PlanWrites | api/generate-urls.js:47-60 | one update per selected page in order; the k-th targets the k-th selected page, carries the generator's k-th id and the URL SITE_URL + "/t/" + id |
| Issuer.IssuedWrites | api/generate-urls.js:47-60 | the k-th planned update is exactly the k-th selected page's id, the generator's k-th id and that id's tracker URL |
| Issuer.Applied | api/generate-urls.js:51-61 | an update sets "Public ID" to one text run holding the id and "Url" to the link; the page id and every other property are unchanged |
| Issuer.Stamped | api/generate-urls.js:47-61 | page by page: unselected pages are unchanged, and each selected page is issued an id drawn from the generator together with its matching link |
| Issuer.ApplyAllSkips | api/generate-urls.js:51-52 | updates aimed at other pages leave a page unchanged |
| Issuer.PlanTargetsListedPages | api/generate-urls.js:47-52 | every planned update targets a page of the queried list |
| Issuer.ApplyPlanIsStamped | api/generate-urls.js:47-64 | applying the issued updates one after another to pages with distinct ids gives exactly the page-by-page result |
| Issuer.Generate | api/generate-urls.js:17-73 | no data source: 500 and no writes; no candidates: 200 "No new projects" and no writes; 200 iff every store call succeeds for every selected page; on success the count equals the number of selected pages and of writes; each write targets the matching selected page and carries the generator's id for its position together with that id's tracker URL |
| Issuer.CommitIssuesEveryPage | api/generate-urls.js:47-64 | after a complete run with non-empty ids, no page needs an id; every previously empty page is issued one, and all other pages and data sources are unchanged |
| Issuer.SecondRunFindsNothing | api/generate-urls.js:33-45 | a run right after a successful one answers "No new projects to update." and writes nothing |
| Issuer.IssuedIdsDistinct | api/generate-urls.js:47-49 | with an injective generator, the ids one run writes are pairwise distinct |
| Issuer.OnlyFirstDataSourceMatters | api/generate-urls.js:26-30 | data sources after the first never change the run |

## Left out

- Browser I/O in `initializeTracker` (script.js:20-59) is left out because it is I/O: `fetch`, reading and parsing the response, the `response.ok` error page and the catch-all error page. The model stops at the decision between "Project not found" and fetching the clean id.
- DOM guards (`if (!bar) return` and similar), HTML markup and console logging are left out because they are presentation only.
- Locale date formatting (`toLocaleString`, `toLocaleDateString`) is left out because it depends on the locale and clock. Timestamps and start dates are carried as the raw text.
- The store client is left out because it is foreign I/O: `databases.query`, `databases.retrieve`, `dataSources.query`, `pages.update`, and the environment-variable checks at module load. Their results are inputs (`Handlers.Query`, `Issuer.Database`), and their failures are `QueryThrew` and `Issuer.Faults`.
- The latest-item query's sort by "Created time" and its `page_size: 1` are taken as given. The handlers take whatever list the store returns.
- The store's filter `rich_text is_empty` is modelled as: the property is present, is rich text, and its runs' text is empty. Pages lacking such a property are not matched.
- Issuer.SecondRunFindsNothing: query pagination is not modelled. The store is assumed to return every matching page in one response, so a store that caps a response could leave pages for a second run.
- Issuer.Generate: the success and failure messages are modelled as reply constructors. The success message's text "Successfully updated N project(s)." is represented by the count N, and the store's own error text is not carried.
- Issuer.Commit: it describes the store only after a run whose updates all landed. Which updates land when one of the concurrent updates fails is not modelled, and neither is the concurrency of `Promise.all`. Updates are applied one after another, and they target distinct pages.
- `uuidv4` is left out because it is randomness. It is the parameter `ids`. Uniqueness and non-emptiness are preconditions of the lemmas that need them.
- The handler's error text for a thrown TypeError is left out. `CleanData.Thrown` records only which property made reading throw.
- `api/project/[id].js` is not part of this model. The front end calls it, but it only returns a placeholder payload.
