# Shah Graphics catalog store, modelled in Dafny

This project models the client side of the Shah Graphics portfolio site. Its centre is the
catalog store (`context/StoreContext.tsx`). The store caches three values: the project list,
the category list and the singleton site configuration. It serves them to the pages and keeps
them in step with the remote tables:

- every mutation updates the cache first, then issues the write;
- a write that reports an error triggers a full reload;
- the load falls back to the built-in data set (`types.ts`) by rules that differ per collection.

Around the store sit the pages that use it:

- the portfolio filter and its URL sync (`pages/Projects.tsx`);
- the featured list and the highlighted headline (`pages/Home.tsx`);
- the contact links (`pages/Contact.tsx`);
- the admin forms and the seeding upload (`pages/AdminDashboard.tsx`);
- the two-step admin login (`pages/AdminLogin.tsx`).

Everything is pure: records are datatypes, caches are sequences, and every handler is a
function from the old state to the new state together with the store call it makes.

Modules, one per concern:

- `Seqs` and `Strings` hold the JavaScript array and string operations the code uses: `filter`,
  `find`, `slice`, `split`, `replace` with a one-character pattern, `toLowerCase`, and `\s`.
  They also hold `Join`, the inverse of `split`, which the code never calls; it serves to state
  that the headline segments cover the headline.
- `Types` holds the entities and the fallback data.
- `Rows` holds the column mapping between table rows and records (`image_url` and the
  snake_case site_config columns).
- `CategoryId` holds the id derived from a category name.
- `Store` holds the optimistic effects, the remote writes, the load, the commit of a mutation,
  and the session flag.
- `Reconcile` holds the reload after a rejected write, as written and as intended.
- `ProjectsPage`, `HomePage`, `ContactPage`, `AdminDashboard` and `AdminLogin` model the pages.

Remote reads are inputs of type `Fetch`. A read can throw, report an error, return no data, or
return data; zero rows is `Got([])`. The load takes two caches:

- `snap` is the render-time closure that its emptiness tests read;
- `cur` is the cache its updates land on.

At start-up the two are the same. In the reload after a rejected write, `snap` is the cache
before the mutation and `cur` is the optimistic cache.

## Model

| member | source | states |
|---|---|---|
| Store.PrependProject | context/StoreContext.tsx:128-130 | the added project is first and the old list follows unchanged |
| Store.RemoveProject | context/StoreContext.tsx:147-149 | deletion never lengthens the list and no remaining project has the deleted id |
| Store.RemoveProjectKeepsOthers | context/StoreContext.tsx:149 | every project with another id keeps its multiplicity, the deleted id is gone, an absent id is a no-op |
| Store.RemoveProjectInOrder | context/StoreContext.tsx:149 | deletion distributes over concatenation, so survivors keep their relative order |
| Store.ReplaceProject | context/StoreContext.tsx:159-161 | the update keeps the length and the id at every position; each entry is the new record or the old one |
| Store.ReplaceProjectFacts | context/StoreContext.tsx:161 | an absent id is a no-op; otherwise every entry with that id is the new record; updating twice equals once |
| Store.NewCategory | context/StoreContext.tsx:177-179 | the new category keeps the name and takes the slug of it as id |
| Store.AppendCategory | context/StoreContext.tsx:177-182 | the new category is appended and the old list is an unchanged prefix |
| Store.RemoveCategory | context/StoreContext.tsx:192-194 | no remaining category has the deleted id and the list never grows |
| Store.RemoveCategoryKeepsOthers | context/StoreContext.tsx:194 | other categories keep their multiplicity, the deleted id is gone, an absent id is a no-op |
| Store.RemoveCategoryInOrder | context/StoreContext.tsx:194 | category deletion distributes over concatenation |
| Store.RemoveUndoesPrepend | context/StoreContext.tsx:128-149 | deleting the id of a just-added project with a fresh id restores the list |
| Store.RemoveUndoesAppend | context/StoreContext.tsx:177-194 | deleting the slug of a just-added category with a fresh id restores the list |
| Store.UniqueIdsPreserved | context/StoreContext.tsx:128-161 | update and deletion keep project ids unique; addition keeps them unique exactly when the new id is fresh |
| Store.RemoveKeepsUnique | context/StoreContext.tsx:147-149 | deletion keeps project ids unique |
| Store.AppendCategoryDuplicatesId | context/StoreContext.tsx:177-182 | with no uniqueness check, adding "Logos" to the fallback categories gives two categories with id "logos" |
| Store.Optimistic | context/StoreContext.tsx:128-206 | each mutation changes only its own cached value; a config update replaces the configuration wholesale |
| Store.WriteOf | context/StoreContext.tsx:132-214 | every insert, update or delete carries, in column form, exactly the record or id the optimistic step used; the config update targets row 1 |
| Store.Recover | context/StoreContext.tsx:114-119 | the catch block fills a collection with its fallback only if the snapshot had it empty and never touches the configuration |
| Store.ProjectsStage | context/StoreContext.tsx:59-80 | the projects branch touches only the project list |
| Store.CategoriesStage | context/StoreContext.tsx:87-94 | the categories branch touches only the category list |
| Store.ConfigStage | context/StoreContext.tsx:102-112 | the config branch touches only the configuration |
| Store.Load | context/StoreContext.tsx:51-119 | `fetchData` as staged reads with the catch block: a thrown read never changes the configuration; once every read returns the category list is non-empty; over an empty snapshot the project list ends non-empty unless the projects response carried no data. The per-collection outcomes are stated by `Store.LoadProjects`, `Store.LoadCategories` and `Store.LoadSiteConfig` |
| Store.LoadProjects | context/StoreContext.tsx:51-119 | on an error, an exception or zero rows the list becomes the fallback only if the snapshot was empty, else stays; rows replace it in their order, unless a later read throws over an empty snapshot |
| Store.LoadCategories | context/StoreContext.tsx:83-119 | once the read is issued, an error, no data or zero rows give the fallback even over a non-empty cache; rows replace it; an exception falls back only for an empty snapshot |
| Store.LoadSiteConfig | context/StoreContext.tsx:96-119 | the configuration changes exactly when all reads return and the config read has a row, and then becomes the mapped row |
| Store.StartupLoadNonEmpty | context/StoreContext.tsx:51-124 | after the start-up load the categories are never empty, and the projects are empty exactly when their read returned no data and no later read threw |
| Store.RecoverOverridesFetchedRows | context/StoreContext.tsx:114-119 | rows fetched at start-up are overwritten by the fallback projects when the categories read throws |
| Store.Commit | context/StoreContext.tsx:141-144 | an accepted write leaves exactly the optimistic cache |
| Store.RejectedAddProject | context/StoreContext.tsx:128-145 | after a rejected insert over a non-empty cache, the project is discarded only if the reload reads at least one row; otherwise it stays in front |
| Store.RejectedAddCategory | context/StoreContext.tsx:177-190 | after a rejected category insert whose reload reaches the categories read, the list becomes the rows read or the fallback, so the new category is gone; if the reload throws before that read, the new category stays at the end of a non-empty list and an empty list becomes the fallback |
| Store.RejectedUpdateSiteConfig | context/StoreContext.tsx:204-220 | after a rejected config update, the new configuration stays unless the reload reads the config row |
| Store.Restore | context/StoreContext.tsx:29-34 | the restored session is authenticated exactly when the stored value is "true" |
| Store.Login | context/StoreContext.tsx:36-43 | login succeeds exactly on "commatoze" and then stores the session; a wrong password changes nothing |
| Store.Logout | context/StoreContext.tsx:45-48 | logout always ends unauthenticated with the stored value removed |
| Store.SessionSurvivesRestart | context/StoreContext.tsx:29-48 | a successful login is restored after a restart and a logout is not |
| Rows.ProjectFromRow | context/StoreContext.tsx:70-77 | the load mapping puts every column in the field of the same name, with `image_url` renamed to `imageUrl` |
| Rows.PatchedRow | context/StoreContext.tsx:163-169 | the row the update leaves behind keeps its key and holds every patched column |
| Rows.ProjectToRow | context/StoreContext.tsx:132-139 | the insert row decodes back to the project |
| Rows.ProjectRowRoundTrip | context/StoreContext.tsx:70-77 | encoding a decoded row gives the row back, so the two mappings are inverse |
| Rows.ProjectToPatch | context/StoreContext.tsx:163-169 | the update patch, applied to the row with the project's id, decodes to the project |
| Rows.ConfigToRow | context/StoreContext.tsx:208-214 | the config update row decodes back to the configuration |
| Rows.ConfigFromRow | context/StoreContext.tsx:105-111 | each snake_case column of the site_config row lands in its camelCase field; `Rows.ConfigRowRoundTrip` and `Rows.ConfigToRow` state that it is the inverse of the update row |
| Rows.ConfigRowRoundTrip | context/StoreContext.tsx:105-111 | encoding a decoded config row gives the row back |
| Rows.ProjectsFromRows | context/StoreContext.tsx:70-78 | one project per row, in row order, each encoding back to its row |
| Rows.ProjectsToRows | pages/AdminDashboard.tsx:109-116 | one row per project, in order, each decoding back to its project |
| Rows.ProjectsRowsRoundTrip | context/StoreContext.tsx:70-77 | uploading a list and reading it back in order gives the list |
| CategoryId.CollapseWhitespace | context/StoreContext.tsx:178 | the result never grows and contains no whitespace |
| CategoryId.Slug | context/StoreContext.tsx:178 | the id is no longer than the name and holds no whitespace and no ASCII capital |
| CategoryId.SlugIdempotent | context/StoreContext.tsx:178 | deriving an id from an id changes nothing |
| CategoryId.ComputeSlug | context/StoreContext.tsx:178 | the left-to-right scan that emits one hyphen per whitespace run computes the same id |
| CategoryId.SlugOfBlankSeparated | context/StoreContext.tsx:178 | one blank between a whitespace-free word and the rest becomes one hyphen |
| CategoryId.SlugOfThreeWords | context/StoreContext.tsx:178 | three whitespace-free words separated by single blanks give the lower-cased words joined by hyphens |
| CategoryId.SlugOfWords | context/StoreContext.tsx:178 | "Social Media Posts" gives "social-media-posts" |
| CategoryId.SlugOfPaddedName | context/StoreContext.tsx:178 | "  A   B " gives "-a-b-": runs become hyphens and nothing is trimmed |
| CategoryId.DefaultIdsNotDerived | types.ts:32 | the fallback category "Social Media Posts" has id "social", not its slug |
| CategoryId.SlugCollision | context/StoreContext.tsx:178-182 | "Logos" and "logos" both give "logos", the id of a fallback category |
| Types.DefaultsNonEmpty | types.ts:29-223 | there are 5 fallback categories and 21 fallback projects, so a fallback never leaves a list empty |
| Types.DefaultCategoryIdsUnique | types.ts:29-35 | the fallback category ids are pairwise distinct |
| Types.DefaultProjectIdsUnique | types.ts:47-223 | the fallback project ids are pairwise distinct |
| Types.DefaultProjectCategoriesExist | types.ts:47-223 | every fallback project is filed under the name of a fallback category |
| Types.DefaultProjectsNotNewestFirst | types.ts:49-64 | the fallback list is not newest first: t1 (2023-10-15) precedes t2 (2023-11-02) |
| Reconcile.OptimisticProjectSurvivesReload | context/StoreContext.tsx:59-67 | as written: against empty tables, a project whose insert is rejected is still first after the reload |
| Reconcile.OptimisticConfigSurvivesReload | context/StoreContext.tsx:102-104 | as written: a rejected configuration stays when the config read fails |
| Reconcile.OptimisticCategorySurvivesThrow | context/StoreContext.tsx:114-119 | as written: when the reload throws at its first read, a category whose insert is rejected stays at the end of a non-empty list |
| Reconcile.CommitCorrected | context/StoreContext.tsx:141-144 | corrected: an accepted write leaves the optimistic cache |
| Reconcile.RejectedWriteLeavesNoTrace | context/StoreContext.tsx:141-144 | corrected: after a rejected write, every cached value is the old one, the fallback, or what the reload read |
| Reconcile.RejectedProjectDiscarded | context/StoreContext.tsx:141-144 | corrected: the same scenario ends without the rejected project, and the accepted write is unchanged |
| Reconcile.RejectedCategoryDiscarded | context/StoreContext.tsx:114-119 | corrected: the same thrown reload leaves the category list as it was before the rejected insert |
| ProjectsPage.FilteredProjects | pages/Projects.tsx:42-44 | "All" gives the list unchanged; any other selection gives only projects filed under it, never more than the list |
| ProjectsPage.FilteredProjectsSpec | pages/Projects.tsx:44 | the filter keeps each matching project with its multiplicity and drops the rest, keeps the order, and is idempotent |
| ProjectsPage.SelectedFromParams | pages/Projects.tsx:16-22 | the selection is never empty: the parameter when present and non-empty; "All" when the parameter is absent or empty |
| ProjectsPage.ChangeCategory | pages/Projects.tsx:32-40 | "All" removes the parameter, any other value sets it, and every other parameter is kept |
| ProjectsPage.ChangeThenRead | pages/Projects.tsx:17-39 | writing any non-empty selection and reading the URL back gives the same selection |
| ProjectsPage.ReadThenChange | pages/Projects.tsx:17-39 | reading the URL and writing the selection back leaves it unchanged unless it held "All" or "" |
| ProjectsPage.SyncFromUrl | pages/Projects.tsx:16-30 | the sync sets the selection from the URL and keeps the open project when there is no id |
| ProjectsPage.SyncOpensFirstMatch | pages/Projects.tsx:25-29 | an id parameter opens the first project with that id; with no match the open project is unchanged |
| HomePage.FeaturedProjects | pages/Home.tsx:12 | the featured list is the prefix of length min(3, number of projects) |
| HomePage.HeadlineSegments | pages/Home.tsx:15-22 | segment i is highlighted exactly when i is odd |
| HomePage.SegmentsCoverHeadline | pages/Home.tsx:16 | one segment more than markers; joined they give the headline without markers; no segment holds a marker; joined with the marker they give the headline |
| HomePage.UnmarkedHeadline | pages/Home.tsx:15-22 | a headline without "*" is one plain segment |
| HomePage.OneMarkedStretch | pages/Home.tsx:15-22 | "a*b*c" gives plain a, highlighted b, plain c |
| HomePage.DefaultHeadline | pages/Home.tsx:15-22 | the fallback headline gives exactly one highlighted segment, "Digital Experiences", between two plain ones |
| HomePage.DefaultHeadlineText | types.ts:38 | the fallback headline is "We Craft *Digital Experiences* That Matter." |
| ContactPage.InstagramLink | pages/Contact.tsx:15 | the link starts with the Instagram prefix; a handle without "@" is used unchanged, one with "@" loses exactly one character |
| ContactPage.InstagramLinkDropsFirstAt | pages/Contact.tsx:15 | only the first "@" is removed and the rest of the handle is kept |
| ContactPage.WhatsAppLink | pages/Contact.tsx:24 | after the wa.me prefix the link holds only the digits 0-9 |
| ContactPage.DigitsOf | pages/Contact.tsx:24 | the stripped number holds only the digits 0-9 and is never longer; `ContactPage.DigitsOfSpec` states which characters are kept |
| ContactPage.DigitsOfSpec | pages/Contact.tsx:24 | the stripping keeps every digit with its multiplicity and drops everything else, works piecewise so the order is kept, and is idempotent |
| ContactPage.WhatsAppLinkOfDigits | pages/Contact.tsx:24 | a number of digits only is used as it is |
| ContactPage.WhatsAppLinkIgnoresSeparator | pages/Contact.tsx:24 | a non-digit anywhere in the number makes no difference to the link |
| ContactPage.DigitsOfPiece | pages/Contact.tsx:24 | a separator followed by a run of digits contributes exactly those digits |
| ContactPage.DigitsOfNumber | pages/Contact.tsx:24 | a number written as a sign and four blank-separated digit groups strips to the groups run together |
| ContactPage.DefaultNumberText | types.ts:42 | the fallback number is "+1 234 567 890" |
| ContactPage.DefaultWhatsAppLink | pages/Contact.tsx:24 | the fallback number links to `https://wa.me/1234567890` |
| ContactPage.EmailLink | pages/Contact.tsx:33 | the link is "mailto:" followed by the unmodified address |
| AdminDashboard.BlankForm | pages/AdminDashboard.tsx:42-52 | the new-project form has no id, empty text fields and today's date |
| AdminDashboard.FormOf | pages/AdminDashboard.tsx:54-58 | the edit form holds every field of the project, its id included |
| AdminDashboard.OpenNewProject | pages/AdminDashboard.tsx:42-52 | the modal opens with nothing being edited and a blank form; the other forms are untouched |
| AdminDashboard.OpenEditProject | pages/AdminDashboard.tsx:54-58 | the modal opens on the project with its fields in the form; the other forms are untouched |
| AdminDashboard.SetField | pages/AdminDashboard.tsx:398-440 | an input sets its own field only, never the id or the date |
| AdminDashboard.EditsKeepIdAndDate | pages/AdminDashboard.tsx:398-440 | no sequence of input edits changes the form's id or date |
| AdminDashboard.ApplyEditsSnoc | pages/AdminDashboard.tsx:398-440 | edits apply in order: one more edit acts on the form the earlier edits left |
| AdminDashboard.LastEditWins | pages/AdminDashboard.tsx:398-440 | for each of the four inputs, the last edit of it decides its value, and an input never edited keeps the value the form was opened with |
| AdminDashboard.Overlay | pages/AdminDashboard.tsx:65-68 | the merged project takes every field from the form and the id from the project only when the form has none |
| AdminDashboard.NewProject | pages/AdminDashboard.tsx:71-78 | a created project has the fresh id and the form's fields, with the timestamp only for an empty date |
| AdminDashboard.SubmitProject | pages/AdminDashboard.tsx:60-82 | a call is made, and the modal closed, exactly when title, category and image URL are non-empty; edit mode updates the merge and create mode adds a new project |
| AdminDashboard.EditSubmitKeepsIdentity | pages/AdminDashboard.tsx:54-68 | open, edit and submit updates the same project: its own id and date, and the edited fields |
| AdminDashboard.CreateSubmitUsesFreshId | pages/AdminDashboard.tsx:42-78 | open, edit and submit in create mode adds a project with the fresh id and the day the form was opened |
| AdminDashboard.UnchangedEditIsIdentity | pages/AdminDashboard.tsx:54-68 | an edit submitted unchanged updates the project to itself, and a written update leaves the list as it was |
| AdminDashboard.SubmitCategory | pages/AdminDashboard.tsx:85-91 | a non-empty name is added and the input cleared; an empty name does nothing |
| AdminDashboard.SubmitCategoryAppends | pages/AdminDashboard.tsx:85-91 | once the write is accepted, the catalog has exactly one more category, at the end, named as typed and with the id derived from the name; the projects are untouched |
| AdminDashboard.SaveConfig | pages/AdminDashboard.tsx:94-99 | the whole settings form goes to the store and the confirmation is shown |
| AdminDashboard.SaveConfigReplacesConfig | pages/AdminDashboard.tsx:94-96 | saving replaces the cached configuration by the form, leaves the lists alone, and writes a row that decodes to the form |
| AdminDashboard.SeedRows | pages/AdminDashboard.tsx:109-116 | one row per fallback project, with its id and the image URL in `image_url` |
| AdminDashboard.SeedRowsFaithful | pages/AdminDashboard.tsx:109-116 | each seed row carries the project's fields under the table's column names, and a load reading back these rows yields the fallback projects, whatever the other reads do |
| AdminLogin.SubmitLogin | pages/AdminLogin.tsx:13-29 | the earlier error is cleared first (line 15), so it is not an input; a wrong id shows the error without calling login; with the right id the session is login's; navigation happens exactly when no error is shown |
| AdminLogin.LoginNeedsBoth | pages/AdminLogin.tsx:13-29 | navigation to /admin happens exactly when both credentials match; a failure leaves the session as it was |
| AdminLogin.FailuresIndistinguishable | pages/AdminLogin.tsx:18-28 | a wrong id and a wrong password give the same error and the same session |

## Left out

- Remote calls, `async`/`await` and logging: each read outcome and each write result is an input. The server-side `order('date')` is taken as the row order given.
- Interleaved mutations and React batching: one mutation is committed at a time. The only closure detail kept is the snapshot the reload's emptiness tests read.
- A write whose promise rejects: the store does not catch it and no reload runs. `Commit` models only writes that report success or an error.
- `localStorage` and the mount effect: the stored value is a field of `Session`, and `Restore` is the mount effect.
- `Date.now()` and `new Date().toISOString()`: they are parameters (`freshId`, `today`, `now`). `toLocaleDateString` rendering is left out.
- `toLowerCase` is modelled for ASCII letters only, because Unicode case mapping is not available in the model. `\s` is modelled by its full code-point set.
- `Partial<Project>`: only a missing id is modelled. The handlers always set every other field.
- Dashboard tabs, the settings message timeout, `confirm`, `window.location.reload`, and the upsert call with its messages: these are presentation or side effects. Only the seed row mapping is modelled.
- The dashboard's delete buttons and logout button pass their argument straight to the store. The store mutations model them.
- Presentation components (`components/`) and route matching in `App.tsx`: they are visual glue or belong to the router.
- A query string with the `category` parameter repeated: `Params` holds one value per name. `get` would return the first value, while `set` and `delete` act on all of them.
- The remote tables are not modelled as state. "After a failed read of an empty cache, the cache equals the fallback list" is stated about the cache only.

## Findings

| source | as written | input that shows it | evidently intended | confidence | as-written member | corrected member |
|---|---|---|---|---|---|---|
| context/StoreContext.tsx:59-67 | The reload after a rejected write leaves the project list alone on a read error or zero rows whenever the pre-mutation snapshot was non-empty. Its updates land on the optimistic cache, so the rejected project stays. | Load against empty tables, then add any project `p` whose insert is rejected and whose reload again reads zero rows: `p` is still first. | The reload discards the optimistic change, as the "Revert on error" remark at line 143 says. The corrected reload starts from the pre-mutation cache. | not executed | Reconcile.OptimisticProjectSurvivesReload | Reconcile.RejectedProjectDiscarded |
| context/StoreContext.tsx:114-119 | The catch block tests the pre-mutation snapshot. When the reload after a rejected category insert throws at its first read, the snapshot list is non-empty, so nothing resets the optimistic list and the rejected category stays. | A non-empty category list, add a category whose insert is rejected, and let the reload's projects read throw. | The reload discards the optimistic change, as the "Revert on error" remark at line 143 says. The corrected reload starts from the pre-mutation cache. | not executed | Reconcile.OptimisticCategorySurvivesThrow | Reconcile.RejectedCategoryDiscarded |
