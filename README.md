# nex-solutions: the admin content cache and the page state machines

This project models the data-handling core of the Nex Solutions marketing
site in Dafny and proves properties of that model.

- **Content editor** (`WebsiteAdmin`). This is the admin page for the site's
  copy: a cache from section name to that section's records. It is loaded
  from the `website_info` table. When the load yields nothing it falls back
  to a fixed demo dataset. The cache is then changed locally by edit,
  toggle-active, delete and create, whatever the store answers to the write
  each of them sends.
- **Fail-soft data access** (`Api`). This covers fetching one section,
  fetching everything grouped by section, and the update, create and delete
  wrappers. Each of them turns an error or an exception into a default
  value.
- **Lead dashboard** (`Admin`). This is the list of consultation requests,
  with a demo fallback and a status update by id.
- **Consultation form** (`ConsultationPage`). This is the public form:
  seven fields, a required-field guard, a best-effort insert, and the
  submitting → success → editing cycle driven by two timers.
- **FAQ accordion** (`Faq`). At most one entry is open.
- **Records** (`Records`). These are the stored rows of the two tables and
  the insert and update shapes the pages build, with JSON metadata copied
  whole and read only for truthiness.

How the pieces are modelled:

- Each page is a class whose fields are the component's state. Each handler
  is a method whose postcondition gives the new state as a function of the
  old one.
- The store client is not modelled. The answer to each call is a parameter
  of type `Api.Reply`: either a `{ data, error }` pair or `Thrown`. What a
  correct store answers is stated as a predicate over the table
  (`Api.AnswersSectionQuery`, `Api.AnswersAllQuery`).
- The writes a page sends are appended to its `outbox` field. The methods
  state the outbox next to the new state. Each page awaits the answer to a
  write and applies the write only once that answer is back, so what it
  shows can depend on the order in which answers arrive. Only one answer's
  content matters: the create's answer decides which record the editor
  appends (the store's row, or the locally built record when the create
  fails). The answers to the other writes never change what a page shows.
- The editor's four writing handlers await the store before they touch the
  cache. Each is split into a send step (`SendSaveEdit`, `SendToggleActive`,
  `SendDelete`, `SendSaveNew`), which records what the handler captured in
  the `inFlight` list, and a resolve step (`ResolveSaveEdit`, …), which
  applies it to the cache as it is when the answer arrives. Any other
  event, including a second click, may come in between. `HandleSaveEdit`
  and the others are the two steps run back to back. The dashboard's
  status update is split the same way (`SendUpdateStatus`,
  `ResolveUpdateStatus`).
- Timers are explicit events: `SubmitDelayElapsed` and
  `SuccessTimeoutElapsed`. The clock, generated ids, the confirm dialog's
  answer and the result of `JSON.parse` are parameters.

## Model

| member | source | states |
|---|---|---|
| Records.ApplyPatch | src/lib/database.types.ts:75-86 | each field the update sets takes the update's value, each field it leaves out keeps the row's, and an empty update leaves the row as it was |
| Records.ApplyPatchIdempotent | src/lib/database.types.ts:75-86 | applying the same update twice is applying it once |
| Api.ActiveInSection | src/lib/api.ts:13-18 | the section query's filter keeps each row of the section with `is_active` true as often as the table has it, and no other row |
| Api.GetWebsiteInfoBySection | src/lib/api.ts:11-30 | `[]` on an error and on an exception; an error-free answer's data is returned as it is, `[]` when it carries none |
| Api.SectionFetchSound | src/lib/api.ts:13-29 | against a correct store, a section fetch holds only active rows of that section taken from the table, in ascending display order, and when it succeeds with data it holds all of them (a successful answer without data delivers `[]`) |
| Api.SectionRows | src/lib/api.ts:49-55 | the rows filed under one section are rows of the input with that section, and no more of them than the input has |
| Api.SectionRowsCount | src/lib/api.ts:49-55 | the rows filed under one section are the input's rows of that section, each as often as in the input |
| Api.Grouped | src/lib/api.ts:49-55 | the fold that pushes each row onto its section's list never leaves a key with an empty list |
| Api.SectionOrder | src/lib/api.ts:49-55 | the key order the grouping creates lists no section twice |
| Api.SectionOrderMembers | src/lib/api.ts:49-55 | every row's section is a key in the key order, and every key is the section of some row |
| Api.GroupedBySection | src/lib/api.ts:49-55 | the grouped map's keys are exactly the sections in the key order, and each group is the input's rows of that section in input order |
| Api.PushRow | src/lib/api.ts:50-54 | the `reduce` callback: the row joins the end of its section's list, which is created when missing, and the key order gains the section exactly then |
| Api.GroupedStep | src/lib/api.ts:49-55 | one more row adds its section to the end of the key order when it is new, and joins the end of its section's group |
| Api.GroupBySection | src/lib/api.ts:49-55 | the `reduce` loop throws exactly when some row's section is a name a plain object inherits (`constructor`, `toString`, `__proto__`, …); otherwise it yields the key order and the grouped map |
| Api.Delivered | src/lib/api.ts:43-49 | the rows a reply delivers: `data || []` of an error-free answer, none on an error or exception |
| Api.GetAllWebsiteInfo | src/lib/api.ts:36-62 | an error, an exception, or a row whose section is an inherited object member name gives `{}`; otherwise the result is the grouping of the delivered rows and its key order |
| Api.GroupedExact | src/lib/api.ts:49-55 | each row is in exactly the group keyed by its section, as often as in the input, and in no other group |
| Api.GroupedEmptyIff | src/lib/api.ts:49-55 | the grouped map has no keys exactly when there are no rows |
| Api.SectionRowsSorted | src/lib/api.ts:41 | a group of a display-ordered input is itself display-ordered |
| Api.GroupedSorted | src/lib/api.ts:41-55 | when the input is sorted by display order, so is every group |
| Api.ConcatCount | src/lib/api.ts:49-55 | concatenating the groups of distinct keys of a well-filed map counts each row as its own section's group does |
| Api.GroupedIsPartition | src/lib/api.ts:49-55 | every row is filed under its own section; concatenating the groups in key order is a permutation of the input, of the same length, so no row is lost or duplicated |
| Api.AllFetchSound | src/lib/api.ts:38-57 | against a correct store, each group holds exactly the table's rows of that section, and each group is in ascending display order |
| Api.UpdateWebsiteInfo | src/lib/api.ts:70-92 | `null` on an error or exception; an error-free answer's row is returned as it is |
| Api.CreateWebsiteInfo | src/lib/api.ts:99-119 | `null` on an error or exception; an error-free answer's row is returned as it is |
| Api.DeleteWebsiteInfo | src/lib/api.ts:126-143 | `true` exactly when the call neither failed nor threw |
| Api.UpdateFetchSound | src/lib/api.ts:75-87 | against a store that patches the row with that id, the update yields a row exactly when the answer is error-free; that row is the patched row and keeps the id unless the patch sets one; when ids are unique it is the one stored row with that id, patched, with that row's unpatched columns |
| WebsiteAdmin.DemoSectionsFrom | src/pages/WebsiteAdmin.tsx:14-98 | the demo dataset has the keys home, about, about_benefits and faq; each section's records are active, filed under it and numbered 1, 2 in display order; every timestamp is the load-time stamp |
| WebsiteAdmin.DemoSections | src/pages/WebsiteAdmin.tsx:14-98 | the fallback dataset, with its own wording, has the four demo keys and the demo shape |
| WebsiteAdmin.DemoKeys | src/pages/WebsiteAdmin.tsx:14-98 | the demo dataset's keys are exactly home, about, about_benefits and faq, listed once each |
| WebsiteAdmin.DemoShape | src/pages/WebsiteAdmin.tsx:14-98 | the demo sections hold 1, 1, 2 and 2 records; all of them are active, filed under their own section and numbered 1, 2 in display order |
| WebsiteAdmin.Collapsed | src/pages/WebsiteAdmin.tsx:131-135 | the `forEach` gives exactly the listed sections a flag, and none of them reads as expanded |
| WebsiteAdmin.Toggled | src/pages/WebsiteAdmin.tsx:170-175 | the toggled section reads the other way round (a missing flag reads as collapsed); every other section keeps its flag |
| WebsiteAdmin.ToggledTwice | src/pages/WebsiteAdmin.tsx:170-175 | toggling twice gives every section its old reading, and gives back the very same flags when the section already had one |
| WebsiteAdmin.FindIndexById | src/pages/WebsiteAdmin.tsx:211 | `findIndex`: the first position holding the id, or -1 exactly when no record has it |
| WebsiteAdmin.FindIndexAfterReplace | src/pages/WebsiteAdmin.tsx:251-258 | putting another record with the same id at the found position leaves that position the first match |
| WebsiteAdmin.SaveEditInCache | src/pages/WebsiteAdmin.tsx:207-222 | only the first record with the draft's id in the draft's section changes, and it becomes the draft with `updated_at` now; other records and sections are kept, and with no match the cache is unchanged |
| WebsiteAdmin.ToggleActiveInCache | src/pages/WebsiteAdmin.tsx:248-263 | only the first matching record changes: its cached `is_active` is negated and its `updated_at` is now, with its other fields kept; with no match the cache is unchanged |
| WebsiteAdmin.ToggleActiveTwice | src/pages/WebsiteAdmin.tsx:248-263 | two toggles give the record back its `is_active`, so only its `updated_at` differs |
| WebsiteAdmin.WithoutId | src/pages/WebsiteAdmin.tsx:293 | the `filter` leaves no record with the id; it keeps every other record as often as before and adds nothing |
| WebsiteAdmin.WithoutIdSingleton | src/pages/WebsiteAdmin.tsx:293 | a single record is kept exactly when its id differs |
| WebsiteAdmin.WithoutIdConcat | src/pages/WebsiteAdmin.tsx:293 | filtering a concatenation is concatenating the filtered parts, so with the singleton case the kept records stay in their old order |
| WebsiteAdmin.WithoutIdIdempotent | src/pages/WebsiteAdmin.tsx:293 | filtering out the same id twice is filtering it once |
| WebsiteAdmin.DeleteFromCache | src/pages/WebsiteAdmin.tsx:290-297 | the section becomes its old list filtered by id (kept records in order, by WithoutIdConcat); it contains no record with the id, and other sections are untouched; the section's key is written even when it was missing |
| WebsiteAdmin.DeleteIdempotent | src/pages/WebsiteAdmin.tsx:290-297 | deleting the same id twice is deleting it once |
| WebsiteAdmin.AppendToCache | src/pages/WebsiteAdmin.tsx:358-365 | exactly one record joins the end of the section, the old list is its prefix, and other sections are untouched |
| WebsiteAdmin.SaveEditKeepsFiled | src/pages/WebsiteAdmin.tsx:207-222 | save-edit keeps every record under its own section |
| WebsiteAdmin.ToggleActiveKeepsFiled | src/pages/WebsiteAdmin.tsx:248-263 | toggle-active keeps every record under its own section |
| WebsiteAdmin.DeleteKeepsFiled | src/pages/WebsiteAdmin.tsx:290-297 | delete keeps every record under its own section |
| WebsiteAdmin.AppendKeepsFiled | src/pages/WebsiteAdmin.tsx:358-365 | appending a record of the section keeps every record under its own section |
| WebsiteAdmin.NewDraft | src/pages/WebsiteAdmin.tsx:306-314 | a new draft has an empty title, and its display order is the section's current length, so 0 exactly when the section is absent or empty |
| WebsiteAdmin.LocalRecord | src/pages/WebsiteAdmin.tsx:343-354 | the record made up when the store returns none: empty content and image become `null`, falsy metadata becomes `{}`, a missing or zero display order becomes 0, active unless the draft says `false`, both timestamps now |
| WebsiteAdmin.CreatedOrLocal | src/pages/WebsiteAdmin.tsx:331-356 | the store's record when the create returned one, the made-up one otherwise |
| WebsiteAdmin.EditPatch | src/pages/WebsiteAdmin.tsx:191-198 | the patch sets neither id, section nor timestamps, and applied to any row it gives the draft with that row's id, section and timestamps |
| WebsiteAdmin.TogglePatch | src/pages/WebsiteAdmin.tsx:236-238 | applied to any row, the patch changes only `is_active`, to the opposite of the clicked record's |
| WebsiteAdmin.EditPatchAgreesWithCache | src/pages/WebsiteAdmin.tsx:191-198 | the six-field patch, applied by the store to the row the draft came from, agrees with the cached record on everything but `updated_at` |
| WebsiteAdmin.CreateInSectionOfThree | src/pages/WebsiteAdmin.tsx:306-365 | a title-only draft in a section of three, with the store failing, becomes the fourth record: active, at display order 3 |
| WebsiteAdmin.JoinSplit | src/pages/WebsiteAdmin.tsx:410-415 | joining the pieces of a split gives the string back, and no piece holds the separator |
| WebsiteAdmin.TitleCase | src/pages/WebsiteAdmin.tsx:410-415 | the character-wise reading of the format keeps the length |
| WebsiteAdmin.FormatIsTitleCase | src/pages/WebsiteAdmin.tsx:410-415 | split, capitalise each word and join with spaces is the character-wise title-casing |
| WebsiteAdmin.TitleCaseAt | src/pages/WebsiteAdmin.tsx:410-415 | at each position of the title-cased string, `_` became a space, a word's first character is upper-cased, and every other character is kept |
| WebsiteAdmin.FormatSectionName | src/pages/WebsiteAdmin.tsx:410-415 | the formatted name is as long as the section name; each `_` reads as a space; the first character and each one after `_` are upper-cased; the rest are kept |
| WebsiteAdmin.FormatSectionNameChars | src/pages/WebsiteAdmin.tsx:410-415 | split, capitalise and join, read character by character, is the same character rule |
| WebsiteAdmin.Editor.constructor | src/pages/WebsiteAdmin.tsx:101-107 | the page starts loading, with an empty cache, no flags, no drafts, no sections and no write in flight |
| WebsiteAdmin.Editor.FetchWebsiteInfo | src/pages/WebsiteAdmin.tsx:114-168 | delivered rows that the grouping can file become the grouped cache, with its key order as the section list; otherwise (no rows, an error, or an inherited section name) the demo dataset and its key order are used; every section is collapsed; every record is filed under its own section; loading ends |
| WebsiteAdmin.Editor.ToggleSection | src/pages/WebsiteAdmin.tsx:170-175 | the flags become the toggled flags |
| WebsiteAdmin.Editor.HandleEdit | src/pages/WebsiteAdmin.tsx:177-179 | the record becomes the edit draft |
| WebsiteAdmin.Editor.HandleCancelEdit | src/pages/WebsiteAdmin.tsx:181-183 | the edit draft is dropped |
| WebsiteAdmin.Editor.SendSaveEdit | src/pages/WebsiteAdmin.tsx:185-198 | with no draft nothing is sent; otherwise the six-field update is sent and awaited, and the draft stays open |
| WebsiteAdmin.Editor.ResolveSaveEdit | src/pages/WebsiteAdmin.tsx:199-225 | when an update comes back, whatever it says, the draft captured at the click is saved into the cache as it is then, the edit form closes, and that write leaves the in-flight list; a cache whose records are filed under their own sections stays so |
| WebsiteAdmin.Editor.HandleSaveEdit | src/pages/WebsiteAdmin.tsx:185-230 | run back to back: with no draft nothing happens; otherwise the six-field update is sent and the cache becomes the save-edit result whatever the store answers, and the draft is dropped |
| WebsiteAdmin.Editor.SendToggleActive | src/pages/WebsiteAdmin.tsx:232-238 | `is_active: !item.is_active` is sent and awaited |
| WebsiteAdmin.Editor.ResolveToggleActive | src/pages/WebsiteAdmin.tsx:239-263 | when it comes back, whatever it says, the cached record's flag is flipped in the cache as it is then; filing is kept |
| WebsiteAdmin.Editor.HandleToggleActive | src/pages/WebsiteAdmin.tsx:232-270 | run back to back: `is_active: !item.is_active` is sent, and the cache becomes the toggle-active result whatever the store answers |
| WebsiteAdmin.Editor.SendDelete | src/pages/WebsiteAdmin.tsx:272-280 | a declined confirm sends nothing; a confirmed one sends the delete and awaits it |
| WebsiteAdmin.Editor.ResolveDelete | src/pages/WebsiteAdmin.tsx:281-297 | when it comes back, whatever it says, the section is filtered in the cache as it is then; filing is kept |
| WebsiteAdmin.Editor.HandleDelete | src/pages/WebsiteAdmin.tsx:272-304 | run back to back: a declined confirm changes nothing and sends nothing; a confirmed one sends the delete and the cache becomes the delete result whatever the store answers |
| WebsiteAdmin.Editor.HandleAddNew | src/pages/WebsiteAdmin.tsx:306-314 | the new draft is the section's empty draft |
| WebsiteAdmin.Editor.HandleCancelNew | src/pages/WebsiteAdmin.tsx:316-318 | the new draft is dropped |
| WebsiteAdmin.Editor.SendSaveNew | src/pages/WebsiteAdmin.tsx:320-334 | with no draft or an empty title nothing is sent; otherwise the id and time are drawn, the create is sent and awaited, and the draft stays open |
| WebsiteAdmin.Editor.ResolveSaveNew | src/pages/WebsiteAdmin.tsx:335-368 | when the create comes back, the store's record, or the one made up from the draft captured at the click, joins the end of its section in the cache as it is then, and the form closes; filing is kept when the appended record names the draft's section (a store row naming another section would be misfiled, as in the source) |
| WebsiteAdmin.Editor.HandleSaveNew | src/pages/WebsiteAdmin.tsx:320-373 | run back to back: with no draft or an empty title nothing changes and nothing is sent; otherwise the create is sent, the store's record (or the made-up one) is appended, and the draft is dropped |
| WebsiteAdmin.SaveNewClickedTwice | src/pages/WebsiteAdmin.tsx:320-368 | two "Create Item" clicks before the first create comes back send two creates and, once both return, append two records to the section |
| WebsiteAdmin.Editor.HandleInputChange | src/pages/WebsiteAdmin.tsx:375-387 | the edit draft takes the typed value if there is one, else the new draft does, else nothing changes |
| WebsiteAdmin.Editor.HandleMetadataChange | src/pages/WebsiteAdmin.tsx:389-408 | a failed parse changes nothing; a parsed value becomes the metadata of the edit draft, else of the new draft |
| WebsiteAdmin.Editor.SetEditingActive | src/pages/WebsiteAdmin.tsx:626-630 | the edit form's checkbox sets the draft's `is_active` |
| WebsiteAdmin.Editor.SetNewActive | src/pages/WebsiteAdmin.tsx:714-718 | the new-item form's checkbox sets the draft's `is_active` |
| Admin.DemoConsultations | src/pages/Admin.tsx:36-73 | the demo leads are ids 1, 2 and 3, with statuses new, pending and completed, created now, a day ago and two days ago; only the second has no website |
| Admin.DemoLeadIcons | src/pages/Admin.tsx:118-129 | the demo leads show the default clock, the yellow clock and the green check |
| Admin.WithStatus | src/pages/Admin.tsx:105-109 | the list keeps its length and order; every lead with the id gets the status and changes nothing else; every other lead is kept |
| Admin.WithStatusIdempotent | src/pages/Admin.tsx:105-109 | applying the same status update twice equals applying it once |
| Admin.WithStatusLastWins | src/pages/Admin.tsx:105-109 | of two status updates of the same lead applied in sequence, the one applied second (the answer that arrives last) wins |
| Admin.WithStatusCommutes | src/pages/Admin.tsx:105-109 | status updates of two different leads commute |
| Admin.GetStatusIcon | src/pages/Admin.tsx:118-129 | completed, rejected and pending each get their own icon, and exactly every other string gets the default |
| Admin.Dashboard.constructor | src/pages/Admin.tsx:12-14 | the dashboard starts loading with no leads |
| Admin.Dashboard.FetchConsultations | src/pages/Admin.tsx:18-83 | an error-free answer gives its rows or `[]`; an error or exception gives the three demo leads; loading ends |
| Admin.Dashboard.SendUpdateStatus | src/pages/Admin.tsx:88-95 | a status click sends the update and awaits it; the list does not change yet |
| Admin.Dashboard.ResolveUpdateStatus | src/pages/Admin.tsx:96-109 | when an update comes back, whatever it says, the status captured at the click is set on the list as it is then, and that update leaves the in-flight list |
| Admin.Dashboard.UpdateStatus | src/pages/Admin.tsx:88-116 | run back to back: the update is sent, and the list becomes the status-updated list whatever the store answers |
| Admin.TwoClicksAnsweredInReverse | src/pages/Admin.tsx:88-109 | two status clicks on one lead whose answers arrive in reverse order send both updates and end on the first click's status |
| ConsultationPage.SetField | src/pages/Consultation.tsx:32-38 | the field the input names takes the value, and every other field is unchanged |
| ConsultationPage.RequiredFilled | src/pages/Consultation.tsx:44 | the guard holds exactly when each of the six required fields is non-empty |
| ConsultationPage.RequiredFilledMeansAllButWebsite | src/pages/Consultation.tsx:44-47 | the guard passes exactly when every field but the website is non-empty |
| ConsultationPage.GuardIgnoresWebsite | src/pages/Consultation.tsx:44-47 | the website never decides the guard, and the empty form never passes it |
| ConsultationPage.InsertPayload | src/pages/Consultation.tsx:82-90 | the form reads back from the inserted row, whose website is `null` exactly when the field is empty |
| ConsultationPage.PayloadRoundTrip | src/pages/Consultation.tsx:82-90 | the payload copies the six required fields as typed and maps an empty website to `null` and nothing else to `null`, so the form reads back from it |
| ConsultationPage.Form.constructor | src/pages/Consultation.tsx:20-30 | the form starts empty, neither submitting nor showing success, with no timers pending |
| ConsultationPage.Form.HandleChange | src/pages/Consultation.tsx:32-38 | the form becomes the form with that one field set |
| ConsultationPage.Form.HandleSubmit | src/pages/Consultation.tsx:40-105 | a failed guard changes nothing and sends nothing; otherwise the form is submitting, one delay is scheduled, and the payload is sent, whatever the store answers |
| ConsultationPage.Form.SubmitDelayElapsed | src/pages/Consultation.tsx:54-75 | success shows, all seven fields are cleared, the success timeout is scheduled, and submitting ends |
| ConsultationPage.Form.SuccessTimeoutElapsed | src/pages/Consultation.tsx:70-72 | the success panel closes |
| ConsultationPage.Form.SubmitAnother | src/pages/Consultation.tsx:266-268 | "Submit Another Request" closes the success panel |
| ConsultationPage.SubmitThenDelay | src/pages/Consultation.tsx:40-98 | from a filled-in form, a submit followed by the delay shows success on a cleared form, with exactly one insert sent, whatever the store answered |
| Faq.ToggleOpen | src/pages/FAQ.tsx:52 | clicking the open entry closes it, and clicking any other entry opens that one instead |
| Faq.ToggleOpenTwice | src/pages/FAQ.tsx:52 | clicking the same entry twice restores the previous open entry exactly when none was open or that entry was; otherwise everything ends closed |
| Faq.Page.constructor | src/pages/FAQ.tsx:10-12 | no entry is open, the list is empty, and the page is loading (so it shows nothing) |
| Faq.Page.OnFetched | src/pages/FAQ.tsx:14-24 | once the fetch resolves the list is the `faq` section fetch and the page shows |
| Faq.Page.Click | src/pages/FAQ.tsx:51-53 | a click applies the toggle rule, and at most one listed entry stays open |
| Faq.FetchedFaqsSound | src/pages/FAQ.tsx:14-19 | against a correct store, the shown entries are active `faq` records in display order |

## Left out

- The table types' optional columns the pages never send: the `website_info` insert's `id`, `created_at` and `updated_at`, and the `consultations` insert's `id`, `created_at` and `status` (the store's defaults). The `consultations` update type is modelled only through the one column the dashboard writes, `status` (`Api.StoreCall.UpdateLeadStatus`).
- Rendering: the JSX, framer-motion animation, icons as components (`GetStatusIcon` returns a tag for the icon and colour) and the loading and error screens.
- Toasts and console logging: they have no effect on state.
- The Supabase client, its environment check and the query-builder chains: the answer to each call is a parameter, and a correct store's answer is a predicate over the table.
- Wall-clock behaviour of `setTimeout`: the two timers are events, and the model does not say how late they fire or in what order pending timers fire.
- Random ids and the clock: the generated id and every `new Date().toISOString()` are string parameters.
- `confirm()` and `JSON.parse`: they are a boolean parameter and an optional parsed value.
- The demo dataset reads the clock twelve times while the page module loads, once per `created_at` and `updated_at`; one `stamp` parameter stands for all twelve readings.
- `formatDate` and `Intl.DateTimeFormat`: locale formatting is not modelled.
- The lead list's `created_at`-descending order is not modelled: the rows are taken as the store delivers them.
- `Object.keys` puts integer-like keys first in ascending order. The section list is modelled in plain insertion order, which is the same whenever no section name is a canonical array index.
- WebsiteAdmin.FormatSectionName: only ASCII `a`-`z` are upper-cased; Unicode case mapping is not modelled.
- The display-order input stores its text as a string in the draft. The model's drafts hold whole numbers, and typing into that input is not modelled (`HandleInputChange` covers title, content and image URL).
- JSON metadata is copied whole and only tested for truthiness; its numbers are whole numbers, and floating point is not modelled.
- The `catch` of `getAllWebsiteInfo` is modelled for the one exception the grouping can raise (a section named like an inherited object member); the outer `try`/`catch` blocks of the handlers and of the page's fetch catch nothing the model can produce, and their error messages and `setError` are left out.
- Reads of a section named like an inherited object member (`constructor`, `toString`, …): the cache edits' `updatedInfo[section] || []` gets a function, and spreading it throws; `toggleSection`'s `!prev[section]` reads it as expanded; `handleAddNew`'s `websiteInfo[section]?.length || 0` gets the function's parameter count. The model reads such a section as missing in all three places (`Api.Lookup`, `IsExpanded`, `NewDraft`). The grouping never files such a section, and the page offers only the cache's own keys and records, so only a caller outside the page could reach this.
- React's batching of state updates: each step's updates are applied together. The order in which answers to in-flight writes arrive is free: a resolve step takes the index of the write it answers.
- The form's submit button is disabled while submitting, and the form is hidden while the success panel shows. `HandleSubmit` does not assume either; a second submission simply schedules a second delay.
