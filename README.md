# ameerapp CRM — a verified model of the domain layer

The ameerapp CRM is a small React single-page application. It has four collections:
leads, deals, contacts and tasks. They live in one store at the top of the component
tree. Four pages read the collections and a floating AI chat widget sits beside them.
This project models in Dafny the logic that sits under the rendering, and proves what
that logic promises:

- **Store** (`store.dfy`). The four collections and the four actions that replace them:
  prepend a lead, prepend a contact, delete contacts by id, and set the stage of deals
  by id. `DomainStore` is a class with one `seq` field per collection. Each of its
  methods is tied to the pure transform `Apply` of an `Action`. Lemmas over sequences of
  actions show that the tasks never change, that the lead count grows by the number of
  added leads, and that the newest lead comes first.
- **Pipeline board** (`pipeline.dfy`). The five-entry stage table and the cyclic advance
  `(i + 1) % 5`. ClosedLost has no entry, so its index is -1 and it advances to
  Prospecting. The model also covers the per-stage columns with their count badges and
  value sums, the header total, and the weak lead lookup behind a deal card.
- **Lead report export** (`leads_csv.dfy`). A header line, then one comma-joined row per
  lead, all joined with `"\n"`. Only the notes are sanitised (each comma becomes a
  space); no cell is quoted. An empty lead collection yields no document.
- **Leads page** (`leads_page.dfy`):
  - lead construction from the form, including the `Number(value) || 0` coercion;
  - the form reset;
  - the two AI actions of a lead card. Each is split at its `await` into
    `BeginLeadAction` and `CompleteLeadAction`, and `HandleLeadAction` composes them.
- **Contacts page** (`contacts_page.dfy`). The case-insensitive search over name,
  company and job title, contact construction, the delete-clears-selection rule, the
  initials avatar fallback of a list row, and the description and interaction fallbacks
  of the profile panel (the panel's own avatar has no fallback).
- **Dashboard** (`dashboard.dfy`). The stat cards (pipeline value, lead and deal counts,
  pending tasks) and the insights panel with its loading flag.
- **Chat assistant** (`chat_assistant.dfy`). The `handleSend` guard, the user message and
  the reply appended around the call, and the loading flag.
- **Entities and seeds** (`types.dfy`, `mock_data.dfy`, `seed_facts.dfy`). The enums and
  records as datatypes, the seed collections as constants, and fixture lemmas about them.

Supporting modules:

- `Seqs` defines JavaScript's `filter`, `find` and `findIndex` once, with their
  characterising lemmas.
- `Text` defines `join`, `split` on one character, a global one-character `replace`,
  `trim` (on the ECMAScript white-space and line-terminator set), ASCII `toLowerCase`,
  `includes`, integer-to-text and `Number` on integer text.
- `Gateway` stands for the hosted AI service as seen by the pages. A call's result is an
  abstract outcome passed to the handler: `Success(text)`, `Empty` (it resolved with no
  text) or `Failure` (it rejected).
  `x || fallback` treats both a missing and an empty text as falsy.

Clock readings are parameters: the `Date.now()` behind new ids, today's date and message
timestamps. All values are exact integers.

One behaviour of the code is worth pointing out. `handleLeadAction` raises the loading
flag before it looks the lead up. When the lead is missing, it returns before its `try`,
so the `finally` that lowers the flag never runs. `HandleLeadAction` states this: the
flag ends lowered exactly when some lead has the id.

## Model

| member | source | states |
|---|---|---|
| Seqs.Filter | App.tsx:33 | The kept elements, in order: a subsequence of the input, holding an element exactly when the input holds it and it satisfies the predicate; its length is the count of such elements |
| Seqs.FilterUnique | App.tsx:33 | Any subsequence whose elements all satisfy the predicate and which has as many elements as satisfy it is the filter's result |
| Seqs.FindIndex | pages/Deals.tsx:22 | The first index whose element satisfies the predicate, or -1 exactly when none does |
| Seqs.Find | pages/Deals.tsx:59 | Nothing exactly when no element satisfies the predicate, otherwise the first element that does |
| Text.Join | pages/Leads.tsx:89-92 | No parts join to the empty text and one part joins to itself |
| Text.JoinAppend | pages/Leads.tsx:89-92 | Joining a concatenation of two non-empty part lists is joining each and putting the separator between them |
| Text.SplitJoin | pages/Leads.tsx:89-92 | Splitting a joined text on its one-character separator returns the parts, when no part holds the separator |
| Text.ParseIntToString | pages/Leads.tsx:61 | The decimal text of every integer parses back to that integer, so the coercion returns it |
| Text.ToLower | pages/Contacts.tsx:29-31 | Same length, each character lower-cased on its own |
| Text.IntToString | pages/Leads.tsx:84 | A non-empty text of decimal digits, starting with a minus sign exactly when the value is negative, with no leading zero |
| Text.IntToStringDecimal | pages/Leads.tsx:84 | The text is the canonical decimal of the value (sign exactly for negatives, no leading zero, digits worth the magnitude), and no other text is |
| Text.IntToStringExamples | pages/Leads.tsx:84 | 0, 7, 100 and -25 are written "0", "7", "100" and "-25" |
| Text.ParseDigitRun | pages/Leads.tsx:61 | `Number` reads a run of decimal digits, leading zeros included, as the value of its digits |
| Text.ParsePlus | pages/Leads.tsx:61 | A plus sign before a run of digits is accepted and gives the same value |
| Text.ParseMinus | pages/Leads.tsx:61 | A minus sign before a run of digits gives the negated value |
| Text.CoerceNumber | pages/Leads.tsx:61 | The number the text denotes, or 0 when it denotes none |
| Text.LowerForgetsCase | pages/Contacts.tsx:28-32 | Lower-casing an upper-cased text equals lower-casing the text, and lower-casing is idempotent |
| Text.ContainsAt | pages/Contacts.tsx:29 | `includes` holds exactly when the needle starts at some offset of the text |
| Text.Trim | components/AIChatAssistant.tsx:28 | The trimmed text is empty exactly when every character is white space |
| Gateway.TextOr | pages/Dashboard.tsx:24 | A resolved call with a non-empty text gives that text; an empty or missing text gives the fallback, so the result is never empty when the fallback is not |
| Types.LeadStatusName | types.ts:2-6 | The name is HOT, WARM or COLD and parses back to the same status |
| Types.LeadStatusNames | types.ts:2-6 | The three status names and the status parser are inverse, and only HOT, WARM and COLD parse |
| Types.DealStagesEnumerated | types.ts:8-15 | There are exactly six distinct stages and ClosedLost is one of them |
| Store.RemoveContactById | App.tsx:32-34 | The result holds a contact exactly when the input holds it with another id, and keeps the input's order |
| Store.RemoveContactSpec | App.tsx:32-34 | The result is the only subsequence of the contacts that has no contact with the id and as many contacts as have another id |
| Store.RemoveAbsentContact | App.tsx:32-34 | Deleting an id no contact has leaves the contacts unchanged |
| Store.RemoveContactIdempotent | App.tsx:32-34 | Deleting the same id twice equals deleting it once |
| Store.SetDealStage | App.tsx:36-38 | Same length; a deal with the id gets the new stage, every other deal is kept as it was |
| Store.SetDealStageSpec | App.tsx:36-38 | A deal with the id keeps its id, title, lead, value and close date and gets the stage; other deals are unchanged |
| Store.SetDealStageAbsent | App.tsx:36-38 | Setting the stage of an id no deal has leaves the deals identical |
| Store.SetDealStageIdempotent | App.tsx:36-38 | Setting the same stage twice equals setting it once |
| Store.Apply | App.tsx:23-38 | Each action replaces only its own collection, and no action touches the tasks |
| Store.TasksNeverChange | App.tsx:21-38 | No sequence of actions changes the tasks |
| Store.LeadCountGrowth | App.tsx:24-26 | After any sequence of actions the lead count has grown by exactly the number of AddLead actions |
| Store.LeadsUntouched | App.tsx:28-38 | Actions other than AddLead leave the leads unchanged |
| Store.NewestLeadFirst | App.tsx:24-26 | The last lead added is at index 0, followed by the earlier leads in order, whatever non-lead actions follow |
| Store.ApplyAllAppend | App.tsx:23-38 | Applying two action sequences one after the other equals applying their concatenation |
| Store.DomainStore.constructor | App.tsx:18-21 | The store starts with every collection equal to its seed |
| Store.DomainStore.AddLead | App.tsx:24-26 | The new lead is prepended to the leads; the other collections are unchanged |
| Store.DomainStore.AddContact | App.tsx:28-30 | The new contact is prepended to the contacts; the other collections are unchanged |
| Store.DomainStore.DeleteContact | App.tsx:32-34 | The contacts become the filtered collection, none has the id; the other collections are unchanged |
| Store.DomainStore.UpdateDealStage | App.tsx:36-38 | The deals become the stage-updated collection; the other collections are unchanged |
| Pipeline.StageIndex | pages/Deals.tsx:11-22 | The stage's column index, and -1 exactly for ClosedLost |
| Pipeline.NextStage | pages/Deals.tsx:21-24 | The advanced stage's index is one more than the current index, modulo the five columns, and it is never ClosedLost |
| Pipeline.StageTable | pages/Deals.tsx:11-25 | The table entry by entry: each stage's index and the stage it advances to, with Closed Won and ClosedLost both going to Prospecting |
| Pipeline.IndexInTable | pages/Deals.tsx:11-22 | The index of a tabled stage is the only column holding it |
| Pipeline.NextStageAt | pages/Deals.tsx:21-25 | Advancing the stage in column i gives the stage in column (i + 1) % 5 |
| Pipeline.NextStageNeverLost | pages/Deals.tsx:11-24 | An advance never produces ClosedLost |
| Pipeline.FiveAdvancesCycle | pages/Deals.tsx:21-25 | Five advances bring a stage back to itself exactly when it is tabled |
| Pipeline.NextStageInjective | pages/Deals.tsx:21-25 | On the five tabled stages the advance is one-to-one |
| Pipeline.SumValues | pages/Deals.tsx:35 | No deals sum to 0 |
| Pipeline.SumValuesNonNegative | pages/Deals.tsx:35 | Deals of non-negative value have a non-negative sum |
| Pipeline.SumValuesAppend | pages/Deals.tsx:35 | The value sum of a concatenation is the sum of the two sums |
| Pipeline.SumValuesStageIndependent | pages/Deals.tsx:35 | Changing a deal's stage never changes the total |
| Pipeline.StageDeals | pages/Deals.tsx:42 | A deal is in a stage's list exactly when it is in the collection with that stage |
| Pipeline.MakeColumn | pages/Deals.tsx:41-54 | The column keeps its table entry, holds exactly the deals of the entry's stage, its badge is their number and its value is their sum |
| Pipeline.Columns | pages/Deals.tsx:41-43 | One column per table entry, in table order, each built from its entry |
| Pipeline.ColumnContents | pages/Deals.tsx:41-54 | A column holds exactly the deals in its stage, in collection order; its badge is their number and its value is their sum |
| Pipeline.DealInOneColumn | pages/Deals.tsx:41-42 | A deal outside ClosedLost is in exactly the column of its stage; a ClosedLost deal is in none |
| Pipeline.StageValuesPartition | pages/Deals.tsx:42-43 | The six stage totals add up to the total of all deals |
| Pipeline.BoardTotal | pages/Deals.tsx:35-43 | The five column values plus the ClosedLost value equal the header total |
| Pipeline.FindLead | pages/Deals.tsx:59 | Nothing exactly when no lead has the id, otherwise a lead of the collection with that id |
| Pipeline.FindLeadFirst | pages/Deals.tsx:59 | A found lead is the first lead with the id |
| Pipeline.FindLeadAt | pages/Deals.tsx:59 | The lead at index k is found when no earlier lead has its id |
| Pipeline.CompanyLabel | pages/Deals.tsx:67 | The found lead's company, and blank when the lead is missing |
| Pipeline.InitialLabel | pages/Deals.tsx:74 | The avatar letter is at most one character, the first of the lead's name, and blank exactly when the lead is missing or nameless |
| Pipeline.DanglingLeadBlank | pages/Deals.tsx:59-74 | A deal whose lead is missing gets a blank company and a blank initial |
| Pipeline.MoveDeal | pages/Deals.tsx:21-25 | A click sets every deal with the card's id to the stage after the card's stage; leads, contacts and tasks are unchanged |
| LeadsCsv.SanitizeNotes | pages/Leads.tsx:86 | The notes keep their length, every comma becomes a space, other characters are kept, no comma remains |
| LeadsCsv.Row | pages/Leads.tsx:78-91 | The lead's id, name, email, company, status name, value text, date and sanitised notes with one comma between neighbours |
| LeadsCsv.Rows | pages/Leads.tsx:78-91 | One row per lead, in collection order |
| LeadsCsv.Export | pages/Leads.tsx:71-92 | There is no document exactly when there are no leads |
| LeadsCsv.HeaderLineText | pages/Leads.tsx:77-90 | The header line is the eight names ID, Name, Email, Company, Status, Value ($), Last Contacted, Notes in that order with one comma between neighbours; it splits back into those eight names and holds no line break |
| LeadsCsv.JoinAvoids | pages/Leads.tsx:89-92 | A character in neither the cells nor the separator is not in the joined text |
| LeadsCsv.ExportStartsWithHeader | pages/Leads.tsx:89-92 | The document is the header, a newline and the rows joined by newlines; its first line is the header |
| LeadsCsv.RowSingleLine | pages/Leads.tsx:78-91 | A row of single-line cells holds no line break |
| LeadsCsv.ExportLines | pages/Leads.tsx:78-92 | With single-line cells the document's lines are the header and then each lead's row in order, no more: no blank or trailing line |
| LeadsCsv.RowCells | pages/Leads.tsx:78-91 | A row splits back into the eight cells in header order (id, name, email, company, status, value, date, sanitised notes) when the unsanitised text cells hold no comma |
| LeadsCsv.CommaInNamePassesThrough | pages/Leads.tsx:79-86 | A comma in the name is not escaped: the row splits into nine pieces, the name falling into two |
| LeadsPage.NewLead | pages/Leads.tsx:56-65 | A new lead copies the form's texts and status, gets an id of `l` and digits, today's date as its last contact, and as its value the number `Number` reads from the form's text, or 0 when it reads none |
| LeadsPage.NewLeadValue | pages/Leads.tsx:61 | The text of an integer gives that integer; a run of digits, with leading zeros or after a plus sign, gives the value of its digits; a blank text or one that is not a number gives 0 |
| LeadsPage.NewLeadIdsDiffer | pages/Leads.tsx:57 | Submits at different clock readings give different lead ids |
| LeadsPage.LeadsPage.constructor | pages/Leads.tsx:12-26 | Nothing selected, empty texts, flags lowered, the form blank with status WARM |
| LeadsPage.LeadsPage.SelectedLead | pages/Leads.tsx:28 | With a selection, the first lead with the selected id; nothing exactly when nothing is selected or no lead has the id |
| LeadsPage.LeadsPage.SelectLead | pages/Leads.tsx:138 | A card click selects that lead and changes nothing else |
| LeadsPage.LeadsPage.HandleAddSubmit | pages/Leads.tsx:54-69 | The new lead is prepended to the store, the modal closes and the form resets to blank with WARM |
| LeadsPage.LeadsPage.BeginLeadAction | pages/Leads.tsx:30-34 | The id becomes the selection and the flag is raised; the lead that comes back is the first with the id, or nothing exactly when none has it, and it is the panel's lead |
| LeadsPage.LeadsPage.CompleteLeadAction | pages/Leads.tsx:36-51 | Analyze sets the analysis to the text or '' and clears the draft; Email is the mirror image; a rejection sets the unavailability notice and keeps the draft; the flag ends lowered |
| LeadsPage.LeadsPage.HandleLeadAction | pages/Leads.tsx:30-52 | The flag ends lowered exactly when the lead exists; a missing lead leaves both texts untouched |
| ContactsPage.FilteredContacts | pages/Contacts.tsx:28-32 | The result holds exactly the matching contacts, in collection order, as many as match |
| ContactsPage.FilteredContactsSpec | pages/Contacts.tsx:28-32 | The result is the only subsequence of the contacts that holds matching contacts alone and all of them |
| ContactsPage.EmptySearchListsAll | pages/Contacts.tsx:28-32 | An empty term lists the whole collection in its order |
| ContactsPage.SearchIgnoresCase | pages/Contacts.tsx:28-32 | The upper-cased and the lower-cased term list the same contacts as the term |
| ContactsPage.SearchIgnoresFieldCase | pages/Contacts.tsx:28-32 | Upper-casing a contact's name, company and job title does not change whether it matches |
| ContactsPage.MatchesAnyField | pages/Contacts.tsx:28-32 | A contact matches exactly when the lower-cased term occurs in its lower-cased name, company or job title |
| ContactsPage.NewContact | pages/Contacts.tsx:36-40 | A new contact copies every form field, both free texts as present texts, gets an id of `c` and digits, and the avataaars URL seeded with its name |
| ContactsPage.OrFallback | pages/Contacts.tsx:96 | The JavaScript `or` of an optional text and a fallback: a present non-empty text gives itself, a missing or empty one gives the fallback, so the result is never empty when the fallback is not |
| ContactsPage.AvatarSrc | pages/Contacts.tsx:96 | A missing or empty avatar shows the initials URL seeded with the name, a present one shows itself; never empty |
| ContactsPage.DescriptionText | pages/Contacts.tsx:165 | A missing or empty description shows the fixed placeholder, a present one shows itself |
| ContactsPage.InteractionText | pages/Contacts.tsx:172 | A missing or empty interaction shows the fixed placeholder, a present one shows itself |
| ContactsPage.BlankContactPanel | pages/Contacts.tsx:36-43 | A contact added with blank free texts stores them as present empty texts yet shows both placeholders, and its list row shows the avataaars avatar |
| ContactsPage.ContactsPage.constructor | pages/Contacts.tsx:12-26 | Empty search, nothing selected, modal closed, blank form |
| ContactsPage.ContactsPage.SetSearchTerm | pages/Contacts.tsx:59 | The search box sets the term and nothing else |
| ContactsPage.ContactsPage.SelectContact | pages/Contacts.tsx:90 | A row click selects that contact and nothing else |
| ContactsPage.ContactsPage.HandleAddSubmit | pages/Contacts.tsx:34-44 | The new contact is prepended to the store, the modal closes and every form field resets to empty |
| ContactsPage.ContactsPage.HandleDelete | pages/Contacts.tsx:117 | The store drops the row's id; the selection is cleared exactly when it has that id |
| Dashboard.PipelineTotal | pages/Dashboard.tsx:50 | Deals of non-negative value give a non-negative total |
| Dashboard.PipelineTotalSpec | pages/Dashboard.tsx:50 | The total is 0 without deals, additive, the sum of the six stage totals, and unchanged by stage moves |
| Dashboard.PendingCount | pages/Dashboard.tsx:60 | The number of tasks not completed, at most the number of tasks |
| Dashboard.PendingCountSpec | pages/Dashboard.tsx:60 | Pending plus completed tasks are all the tasks |
| Dashboard.Cards | pages/Dashboard.tsx:56-60 | Pipeline Value is the total of all deals, Total Leads and Deals Count are the collection lengths, and Tasks Pending is the number of tasks not completed |
| Dashboard.CardsAfterActions | pages/Dashboard.tsx:56-60 | Adding a lead raises only Total Leads, by one; deleting a contact or moving a deal changes no card |
| Dashboard.InsightsPanel.constructor | pages/Dashboard.tsx:17-18 | The panel starts with no text and loading, showing the loading notice |
| Dashboard.InsightsPanel.FetchInsights | pages/Dashboard.tsx:20-32 | Success shows the text or the no-insights notice, a rejection the error notice; the flag ends lowered and the panel shows a non-empty text |
| ChatAssistant.Reply | components/AIChatAssistant.tsx:36-41 | The reply is the response, the apology when it is empty, the connection notice on rejection; never empty |
| ChatAssistant.RejectedSpec | components/AIChatAssistant.tsx:28 | A send is refused exactly while loading or when the input is all white space |
| ChatAssistant.ChatAssistant.constructor | components/AIChatAssistant.tsx:12-16 | The conversation is the greeting alone, the input empty, nothing pending |
| ChatAssistant.ChatAssistant.SetInput | components/AIChatAssistant.tsx:95 | Typing sets the input and nothing else |
| ChatAssistant.ChatAssistant.BeginSend | components/AIChatAssistant.tsx:27-33 | A refused send changes nothing; an accepted one appends the untrimmed input as the user's message, clears the box, raises the flag, and sends that message's content |
| ChatAssistant.ChatAssistant.CompleteSend | components/AIChatAssistant.tsx:35-44 | Exactly one assistant message with the reply is appended and the flag is lowered; the input is untouched |
| ChatAssistant.ChatAssistant.HandleSend | components/AIChatAssistant.tsx:27-45 | A refused send changes nothing; an accepted one grows the conversation by exactly two, keeps the earlier messages, and ends with an empty box and the flag lowered |
| SeedFacts.SeedLeads | data/mockData.ts:4-9 | Four seed leads with distinct ids and non-negative values |
| SeedFacts.SeedDealLeadsResolve | data/mockData.ts:11-15 | The seed deals' leads resolve to l1, l2 and l4 |
| SeedFacts.SeedDeals | data/mockData.ts:11-15 | Seed deal values are non-negative and sum to 16000; none is in Prospecting, Closed Won or ClosedLost |
| SeedFacts.SeedBoard | data/mockData.ts:12-14 | At start-up one deal each sits in Qualification, Proposal and Negotiation; Prospecting and Closed Won are empty |
| SeedFacts.SeedTasks | data/mockData.ts:17-21 | One seed task is completed and two are pending; t3 has no related entity |
| SeedFacts.SeedCards | data/mockData.ts:4-21 | The start-up cards read 16000, 4 leads, 3 deals and 2 pending tasks |
| SeedFacts.SeedContacts | data/mockData.ts:23-72 | Four seed contacts with distinct ids, each with an avatar |
| SeedFacts.StoreStartsSeeded | App.tsx:18-21 | The initial store equals the seed collections, and the seed deal ids are distinct |
| SeedFacts.SeedSearchByCompany | data/mockData.ts:23-30 | Searching "TECH" finds John Doe through TechCorp |

## Left out

- The hosted AI service (services/geminiService.ts). Its prompts, network access and API
  key are outside the model. Each handler takes the call's outcome as a parameter.
- Interleavings of concurrent asynchronous handlers and late (stale) responses. The
  model shows only the state between the two halves of one call, through the split
  Begin/Complete methods.
- Clock and randomness. `Date.now()` ids, today's ISO date, message timestamps and the
  export file's date are parameters or are left out.
- Browser effects. The Blob download, the `alert` on an empty export, the link element
  and the e-mail draft's clipboard copy have no counterpart in the model. The chat's
  scroll-into-view is also left out.
- Floating point and locales. Values are exact integers. `toLocaleString`, the
  `toFixed(2)` thousands display and non-integral `value`s are left out.
- Text.ParseNumber: `Number` is modelled only for blank text and optionally signed decimal
  integer text; fractional, exponent, hexadecimal and `Infinity` forms count as not a number.
- Text.LowerChar: `toLowerCase` is modelled on ASCII letters only; other characters are
  kept as they are.
- Rendering, the router, `useEffect` scheduling and the static chart data of the
  dashboard. The unreachable not-authenticated branch of App.tsx is left out too.
- The open/close toggles of the modals and the chat window, and the per-field `onChange`
  edits of the two add forms. These are plain assignments of one field.
- Message timestamps are integer clock readings, not `Date` objects.
- Pipeline.InitialLabel: Dafny strings are sequences of Unicode scalar values, while
  `charAt(0)` (pages/Deals.tsx:74) takes the first UTF-16 code unit. For a name that starts
  with a character outside the Basic Multilingual Plane the model gives the whole character
  where the page shows a lone surrogate. The other text operations are unaffected for
  characters inside that plane.
- The `console.error` logging in the `catch` blocks of pages/Leads.tsx:47 and
  components/AIChatAssistant.tsx:40. It writes to the browser console only and changes no
  state.
- Text.Join: its own contract states only the zero-part and one-part cases. The general
  case is stated by the lemmas Text.JoinAppend and Text.SplitJoin and by the contract of
  LeadsCsv.Row.
