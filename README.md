# D365-Portfolio record store, modelled in Dafny

The portfolio site is dressed up as a CRM shell. All of its pages read and
write one in-memory store, `appStore`, which keeps five insertion-ordered
lists of loosely typed records: accounts, contacts, leads, opportunities
and activities. Callers name a list with a string. Three portfolio aliases
are checked first: "Experience" means accounts, "Education" means contacts,
"Projects" means opportunities. Any other name falls back to
`name.toLowerCase() + "s"`. So "Lead" reaches `leads`, but "Opportunity"
and "Activity" reach nothing ("opportunitys" and "activitys" are not
properties of the store). A read through such a name returns `[]`, and a
write through it silently does nothing.

The model covers:

- the store: name resolution, `get`, `add`, `update`, `delete`, and the seed data;
- the workflows on the record-detail page: loading a record and its activities, saving it, and qualifying a lead;
- the list page's search filter, its fixed column sets and its delete action;
- the contact drawer's submission, which records a Lead and an Activity;
- the colour bucket of the status badge.

Modules follow the source files:

| module | source | form |
|---|---|---|
| `Text` | the JavaScript string operations the core uses (`toLowerCase`, `split`, `join`, `includes`, `String(n)`) | functions and lemmas |
| `Records` | record values, `findIndex`/`find`, shallow merge, `splice` | functions, one loop method (`FindIndex`), lemmas |
| `Constants` | `constants.ts` | class `Store` with five `seq<Record>` fields. Each method's `ensures` ties its new state to a specification function on the `Collections` value, and the lemmas are about those functions |
| `RecordDetail` | `pages/RecordDetail.tsx` | class `Page` for the page state, specification functions and lemmas |
| `EntityList` | `pages/EntityList.tsx` | functions and lemmas, and `HandleDelete` |
| `ContactDrawer` | `components/ContactDrawer.tsx` | class `Drawer` for the form state, record builders and lemmas |
| `UIComponents` | `components/UIComponents.tsx` (the `StatusBadge` colour) | functions and lemmas |

Some consequences of the code, each proved:

- The activities collection cannot be reached by any name the app uses (`Constants.ActivitiesReachableOnlyAs`).
- The activities list page and every related-activities panel are always empty (`EntityList.ActivityListEmpty`, `RecordDetail.RelatedActivitiesEmpty`).
- The project detail route passes "Opportunity", so it never loads a record (`RecordDetail.OpportunityDetailNeverLoads`).
- The Opportunity built during lead qualification is discarded (`RecordDetail.QualifyAddsNoOpportunity`).
- No Activity can be read through `get("Activity")`, even one whose lead was deleted, because that call always returns `[]` (`Constants.GetActivityEmpty`).
- `delete` removes only the first record with the id (`Constants.DeleteThenGet`). No record with the id remains when ids are unique in each collection (`Constants.DeleteLeavesNoId`).

No route in `App.tsx` renders the detail page with entity type "Lead", so the qualification handler cannot be reached in the app. This is read off the routes, not proved. The model still states what the handler does.

## Model

| member | source | states |
|---|---|---|
| `Constants.CollectionNamed` | constants.ts:35-40 | no contract of its own: `Constants.NamedIff` characterises it |
| `Constants.NamedIff` | constants.ts:36-40 | a property name denotes collection k exactly when it is k's stem followed by "s" |
| `Constants.Resolve` | constants.ts:42-48 | a name that is no alias resolves to k only when it lower-cases to k's stem; a name resolves to nothing exactly when it is no alias and lower-cases to no stem |
| `Constants.WriteTarget` | constants.ts:52-57 | no contract of its own: `Constants.ResolveAgrees` proves it equal to `Resolve` |
| `Constants.FallbackIff` | constants.ts:48 | the fallback `toLowerCase() + 's'` reaches collection k exactly when the lower-cased name is k's stem ("account", "contact", "lead", "opportunitie", "activitie") |
| `Constants.ResolveAgrees` | constants.ts:42-87 | `get`'s aliases-first resolution and the writes' overwrite-after-fallback resolution agree on every name |
| `Constants.ResolveTable` | constants.ts:44-48 | Experience, Education and Projects map to accounts, contacts and opportunities; Account, Contact and Lead reach their lists through the fallback; Opportunity and Activity resolve to nothing |
| `Constants.ActivitiesReachableOnlyAs` | constants.ts:48 | a name reaches activities if and only if it lower-cases to "activitie" |
| `Constants.Collections.With` | constants.ts:36-40 | replacing one list leaves the other four unchanged |
| `Constants.GetSpec` | constants.ts:42-49 | no contract of its own: `Constants.AliasesReadCollections`, `Constants.GetActivityEmpty` and the read-after-write lemmas state what `get` returns |
| `Constants.AddSpec` | constants.ts:51-59 | `add` appends the item to the resolved list and leaves every other list unchanged; it is a no-op for an unresolved name |
| `Constants.UpdateSpec` | constants.ts:61-74 | `update` replaces the resolved list by its first-match shallow merge and leaves all other lists unchanged; it is a no-op for an unresolved name |
| `Constants.DeleteSpec` | constants.ts:76-87 | `delete` removes the first match from the resolved list and leaves all other lists unchanged; it is a no-op for an unresolved name |
| `Constants.GetActivityEmpty` | constants.ts:48 | `get("Activity")` is `[]` whatever the store holds |
| `Constants.UnresolvedWritesAreNoOps` | constants.ts:52-58 | add, update and delete through "Opportunity" or "Activity" change nothing |
| `Constants.AliasesReadCollections` | constants.ts:44-46 | reading an alias is reading its collection |
| `Constants.AddThenGet` | constants.ts:57-58 | after an add, reading the same name gives the old contents followed by the item |
| `Constants.AddsReadInOrder` | constants.ts:58 | three adds read back in insertion order |
| `Constants.UpdateThenGet` | constants.ts:67-73 | after an update, reading the same name gives the first-match merge of the old contents |
| `Constants.DeleteThenGet` | constants.ts:82-86 | after a delete, reading gives the old contents without the first match |
| `Constants.DeleteLeavesNoId` | constants.ts:84-85 | when ids are unique in each collection, reading after a delete shows no record with that id |
| `Constants.DeleteKeepsValid` | constants.ts:76-87 | a delete preserves per-collection id uniqueness |
| `Constants.UpdateKeepsValid` | constants.ts:61-74 | an update that keeps the matched record's id preserves per-collection id uniqueness |
| `Constants.AddKeepsValid` | constants.ts:51-59 | adding a record whose id is new to its collection preserves id uniqueness |
| `Constants.Account` | constants.ts:11-15 | an Experience seed record carries the id it is built with |
| `Constants.Contact` | constants.ts:4-8 | an Education seed record carries the id it is built with |
| `Constants.Project` | constants.ts:18-23 | a Projects seed record carries the id it is built with |
| `Constants.MockExperience` | constants.ts:11-15 | no contract of its own: `Constants.SeedShape` states its size and unique ids |
| `Constants.MockEducation` | constants.ts:4-8 | no contract of its own: `Constants.SeedShape` states its size and unique ids |
| `Constants.MockProjects` | constants.ts:18-23 | no contract of its own: `Constants.SeedShape` states its size and unique ids |
| `Constants.MockContactReqs` | constants.ts:26-28 | no contract of its own: `Constants.SeedShape` states its size and unique ids |
| `Constants.MockActivities` | constants.ts:30-32 | no contract of its own: `Constants.SeedShape` states its size and unique ids |
| `Constants.Seed` | constants.ts:35-40 | no contract of its own: `Constants.SeedShape` states its shape, and `Constants.Store.constructor` starts from it |
| `Constants.SeedShape` | constants.ts:4-40 | the initial store holds 3 accounts, 3 contacts, 1 lead, 4 opportunities and 1 activity, with unique ids |
| `Constants.Store.constructor` | constants.ts:35-40 | the store starts as copies of the seed arrays |
| `Constants.Store.SetList` | constants.ts:36-40 | the new state is the old one with one list replaced |
| `Constants.Store.Get` | constants.ts:42-49 | returns exactly `GetSpec` of the current state |
| `Constants.Store.ListName` | constants.ts:52-55 | the reassigned `listName` denotes the collection `WriteTarget` names |
| `Constants.Store.Add` | constants.ts:51-59 | the new state is `AddSpec` of the old |
| `Constants.Store.Update` | constants.ts:61-74 | the new state is `UpdateSpec` of the old |
| `Constants.Store.Delete` | constants.ts:76-87 | the new state is `DeleteSpec` of the old |
| `Records.Field` | pages/RecordDetail.tsx:44-47 | no contract of its own: reading a property gives its value, or `undefined` when it is absent |
| `Records.ToStr` | pages/EntityList.tsx:25 | no contract of its own: `String(v)`, used by `EntityList.Filter` and `RecordDetail.NewOpportunity` |
| `Records.HasId` | constants.ts:69 | no contract of its own: the test `i.id === id` that `Records.IndexOfId`, `Records.FindById` and the uniqueness lemmas are stated with |
| `Records.IndexOfId` | constants.ts:69 | `findIndex` gives -1 when no record has the id, else the first position whose record has it |
| `Records.FindIndex` | constants.ts:84 | the scan loop returns the same first matching position, or -1 |
| `Records.FindById` | pages/RecordDetail.tsx:21 | `find` gives a record exactly when one has the id, and then the first record of the list that has it |
| `Records.Merge` | constants.ts:71 | `{...r, ...updates}` has the union of the keys, the updated values where given, and the old values elsewhere |
| `Records.UpdateFirst` | constants.ts:68-73 | length and order are kept and only the first match changes, to its shallow merge; nothing changes if no id matches |
| `Records.RemoveFirst` | constants.ts:83-86 | only the first match is removed; the rest keep their relative order, so the result is the old list minus one occurrence; nothing changes if no id matches |
| `Records.RemoveFirstRemovesAll` | constants.ts:84-85 | with unique ids, no record with the id is left after a delete |
| `Records.RemoveFirstKeepsUnique` | constants.ts:85 | a delete keeps ids unique |
| `Records.UpdateFirstKeepsUnique` | constants.ts:71 | an update that keeps the matched record's id keeps ids unique |
| `Records.AppendKeepsUnique` | constants.ts:58 | appending a record with a new id keeps ids unique |
| `Text.LowerChar` | pages/EntityList.tsx:25 | ASCII `toLowerCase` raises the code point of 'A'..'Z' by 32, fixes every other character, and never yields an upper-case letter |
| `Text.Lower` | constants.ts:48 | lower-casing keeps the length and lower-cases each character |
| `Text.LowerIdempotent` | pages/EntityList.tsx:25 | lower-casing twice is lower-casing once |
| `Text.Split` | pages/RecordDetail.tsx:42-43 | `split(sep)` always yields at least one piece; `Text.JoinSplit`, `Text.SplitPiecesFree`, `Text.SplitSingle` and `Text.SplitFirst` state the rest |
| `Text.Join` | pages/RecordDetail.tsx:43 | no contract of its own: `Text.JoinSplit` and `Text.SplitFirst` state its properties |
| `Text.JoinSplit` | pages/RecordDetail.tsx:42-43 | joining the pieces of `split(sep)` with `sep` gives back the string |
| `Text.SplitPiecesFree` | pages/RecordDetail.tsx:42 | no piece of a split contains the separator |
| `Text.SplitSingle` | pages/RecordDetail.tsx:43 | a split has a single piece exactly when the separator is absent, and that piece is the whole string |
| `Text.SplitFirst` | components/ContactDrawer.tsx:52 | the first piece is the text before the first separator, and the rest rejoins to the text after it |
| `Text.Contains` | pages/EntityList.tsx:25 | no contract of its own: `Text.ContainsIff` characterises it |
| `Text.ContainsIff` | pages/EntityList.tsx:25 | `includes` holds exactly when the term occurs at some offset |
| `Text.NatToString` | components/ContactDrawer.tsx:32 | the decimal form of `Date.now()` in an id is a non-empty run of digits |
| `Text.IntToString` | pages/EntityList.tsx:25 | the decimal form of an integer is non-empty and starts with '-' exactly when the integer is negative |
| `EntityList.Matches` | pages/EntityList.tsx:24-26 | no contract of its own: `EntityList.Filter` keeps exactly the rows it holds of |
| `EntityList.Filter` | pages/EntityList.tsx:23-27 | a record is in the result if and only if it is in the data and some stringified, lower-cased value contains the lower-cased term; a matching record occurs as often as in the data |
| `EntityList.FilterIsSubsequence` | pages/EntityList.tsx:23 | the result is an order-preserving subsequence of the data |
| `EntityList.FilterIdempotent` | pages/EntityList.tsx:23-27 | filtering the result again with the same term changes nothing |
| `EntityList.EmptyTermKeepsNonEmptyRows` | pages/EntityList.tsx:24-25 | with the empty term a record is kept exactly when it has at least one property |
| `EntityList.FilterIgnoresTermCase` | pages/EntityList.tsx:25 | terms equal up to ASCII case give the same result |
| `EntityList.FilterOfLowerTerm` | pages/EntityList.tsx:25 | lower-casing the term first gives the same result |
| `EntityList.ActivityListEmpty` | pages/EntityList.tsx:12-14 | the list of `get("Activity")` shows no row, whatever the term |
| `EntityList.GetColumns` | pages/EntityList.tsx:30-62 | four columns for Experience, Education, Projects and Activity, with first keys name, firstName, name and subject; the first column is the only link; every other name gets none |
| `EntityList.StageLabel` | pages/EntityList.tsx:50 | no contract of its own: `EntityList.StageLabelKeepsColour` states that it keeps the colour |
| `EntityList.StageLabelKeepsColour` | pages/EntityList.tsx:50 | showing 'Closed Won' as 'Completed' does not change the badge colour |
| `EntityList.HandleDelete` | pages/EntityList.tsx:16-21 | after confirmation the store changes exactly as `delete(entityType, id)`; otherwise it is unchanged |
| `RecordDetail.FirstName` | pages/RecordDetail.tsx:42 | no contract of its own: `RecordDetail.NameSplit` states its properties |
| `RecordDetail.LastName` | pages/RecordDetail.tsx:43 | no contract of its own: `RecordDetail.NameSplit` states its properties |
| `RecordDetail.NewContact` | pages/RecordDetail.tsx:40-48 | no contract of its own: `RecordDetail.ContactFromLead` states its fields |
| `RecordDetail.NewOpportunity` | pages/RecordDetail.tsx:52-61 | no contract of its own: `RecordDetail.OpportunityFromLead` states its fields |
| `RecordDetail.QualifyRuns` | pages/RecordDetail.tsx:38-43 | no contract of its own: the condition under which `RecordDetail.QualifySpec` writes and `RecordDetail.Page.HandleQualifyLead` does not throw |
| `RecordDetail.NameSplit` | pages/RecordDetail.tsx:42-43 | the first name has no space; with a space, first + " " + last is the full name; without one, the first name is the full name and the last name is empty |
| `RecordDetail.QualifyWrites` | pages/RecordDetail.tsx:49-65 | the contacts grow by the new Contact at the end, the opportunities stay as they were, the leads get the status merge on the first match, and accounts and activities are untouched |
| `RecordDetail.QualifySpec` | pages/RecordDetail.tsx:37-70 | nothing changes unless the entity type is Lead and a record with a string fullName is loaded; otherwise the three writes happen as stated |
| `RecordDetail.ContactFromLead` | pages/RecordDetail.tsx:40-48 | the Contact copies email, phone and ownerId from the lead; with a space in the full name its first and last names rejoin to it, and without one its last name is empty |
| `RecordDetail.OpportunityFromLead` | pages/RecordDetail.tsx:52-61 | the Opportunity is named company + " - Potential Deal", starts at Prospecting with revenue 0, and its contactId is the new Contact's id |
| `RecordDetail.MarkQualified` | pages/RecordDetail.tsx:65 | the first lead with the id gets status Qualified, keeps every other property, and no other lead changes |
| `RecordDetail.QualifiedLead` | pages/RecordDetail.tsx:65 | after qualification, the leads are the status merge of the old leads; the matched lead is Qualified and keeps its other fields |
| `RecordDetail.QualifyAddsNoOpportunity` | pages/RecordDetail.tsx:62 | qualification never changes the opportunities |
| `RecordDetail.LoadedRecord` | pages/RecordDetail.tsx:20-22 | the loaded record is the first record of `get(entityType)` that has the id, and there is none exactly when no such record exists |
| `RecordDetail.Regarding` | pages/RecordDetail.tsx:26 | a record is related exactly when its regardingId is the id, and a related record occurs as often as in the list |
| `RecordDetail.RegardingIsSubsequence` | pages/RecordDetail.tsx:26 | the related activities are an order-preserving subsequence of the list |
| `RecordDetail.RelatedActivitiesEmpty` | pages/RecordDetail.tsx:25-26 | the related-activities list is always empty |
| `RecordDetail.OpportunityDetailNeverLoads` | pages/RecordDetail.tsx:20-21 | loading with entity type Opportunity never finds a record |
| `RecordDetail.SaveSpec` | pages/RecordDetail.tsx:30-35 | without a route id or a loaded record nothing changes; otherwise the resolved list becomes the first-match merge with the page's record, and every other list is unchanged |
| `RecordDetail.SaveUnchangedRecordIsNoOp` | pages/RecordDetail.tsx:30-35 | saving the record exactly as loaded leaves the store unchanged |
| `RecordDetail.Page.constructor` | pages/RecordDetail.tsx:12-16 | the page holds its route's entity type and id, no record and no activities |
| `RecordDetail.Page.Load` | pages/RecordDetail.tsx:18-28 | with a route id, the page holds `LoadedRecord` and the related activities; without one, nothing changes |
| `RecordDetail.Page.HandleSave` | pages/RecordDetail.tsx:30-35 | with an id and a record, the store is updated with the page's record; otherwise it is unchanged |
| `RecordDetail.Page.HandleQualifyLead` | pages/RecordDetail.tsx:37-70 | the new state is `QualifySpec` of the old; it reports a throw exactly when the loaded lead's fullName is not a string |
| `ContactDrawer.NewLead` | components/ContactDrawer.tsx:31-41 | no contract of its own: `ContactDrawer.LeadFields` states its fields |
| `ContactDrawer.NewActivity` | components/ContactDrawer.tsx:47-58 | no contract of its own: `ContactDrawer.ActivityPointsToLead` and `ContactDrawer.DueDateIsDatePart` state its fields |
| `ContactDrawer.SubmitSpec` | components/ContactDrawer.tsx:42-59 | the leads grow by the new Lead at the end; every other collection, activities included, is unchanged |
| `ContactDrawer.LeadFields` | components/ContactDrawer.tsx:31-41 | the company is the form's company when non-empty, else 'Private User'; status New, source 'Portfolio Website', empty phone, owner 'System', with the form's name and email |
| `ContactDrawer.ActivityPointsToLead` | components/ContactDrawer.tsx:47-58 | the Activity's regardingId is the new Lead's id; regardingType Lead, status 'Open', subject "Contact Request from " + name, description the message |
| `ContactDrawer.DueDateIsDatePart` | components/ContactDrawer.tsx:52 | the due date of an ISO timestamp is its ten-character date part |
| `ContactDrawer.Drawer.constructor` | components/ContactDrawer.tsx:12-18 | the form starts with four empty fields and not loading |
| `ContactDrawer.Drawer.HandleSubmit` | components/ContactDrawer.tsx:24-67 | the store changes as `SubmitSpec`: leads gain the Lead and activities stay unchanged; afterwards all form fields are empty and loading is off |
| `UIComponents.Bucket` | components/UIComponents.tsx:150-153 | each colour is chosen exactly when its own list holds the status, and gray exactly when no list does, so the order of the tests does not matter |
| `UIComponents.BadgeColour` | components/UIComponents.tsx:146-153 | no contract of its own: `UIComponents.BadgeColourIgnoresCase`, `UIComponents.BadgeColourOfLower` and the colour tables state its properties |
| `UIComponents.ColourClass` | components/UIComponents.tsx:147-153 | no contract of its own: the CSS classes of each bucket |
| `UIComponents.StatusListsDisjoint` | components/UIComponents.tsx:150-153 | the four status lists are pairwise disjoint |
| `UIComponents.BadgeColourIgnoresCase` | components/UIComponents.tsx:148 | statuses equal up to ASCII case get the same colour |
| `UIComponents.BadgeColourOfLower` | components/UIComponents.tsx:148 | lower-casing a status first does not change its colour |
| `UIComponents.LeadStatusColour` | components/UIComponents.tsx:147-153 | New is blue, Contacted gray, Qualified green, Disqualified red |
| `UIComponents.StageColour` | components/UIComponents.tsx:150-153 | Prospecting is blue; Proposal and Negotiation are orange; Closed Won is green; Closed Lost, in no list, is gray |
| `UIComponents.ActivityStatusColour` | components/UIComponents.tsx:150-151 | Open is blue and Completed is green |

## Left out

- Rendering, layout and styling of every component. This includes `renderFields`, the detail header, the list's table and the badge's markup. The badge's CSS classes appear only as `UIComponents.ColourClass`.
- `setTimeout` delays, `alert`, `confirm`, `navigate` and React state hooks. `confirm()`'s answer is a parameter of `HandleDelete`. Each handler is modelled as running to completion in one step.
- `Date.now()` and `new Date().toISOString()`. They are parameters: the millisecond readings become the ids (`lead-…`, `act-…`, `con-…`, `opp-…`), and the ISO strings become timestamps.
- Reference aliasing: `get` returns the live array in the source. In the model it returns the sequence value, so a caller mutating the returned array is not modelled.
- Lower-casing and stringification: case folding covers ASCII only. Numbers are integers, so `String` of a fractional or exponent-form number is not modelled. The only values modelled are strings, integers and `undefined`.
- Property order: records are maps, so the insertion order of an object's keys (visible only when rendering) is not represented.
- Program-wide error handling: in `RecordDetail.Page.HandleQualifyLead`, the TypeError that `split` throws on a non-string `fullName` is a flag with no state change. What the browser does with the uncaught error is not modelled.
- Browser form validation: the `required` inputs of the contact form are enforced by the browser before `handleSubmit` runs. The handler accepts any form.
- The drawer's `loading` flag is not modelled during the delay, only before and after the submission.
- `components/QuickCreate.tsx`: its single `add` of an Activity is the `Store.Add` model. The add is a no-op, by `Constants.UnresolvedWritesAreNoOps`.
- The other pages and components: services/geminiService.ts, pages/AIStudio.tsx, App.tsx, index.tsx, ThemeContext.tsx, components/Layout.tsx, pages/About.tsx, pages/Dashboard.tsx, components/IntroAnimation.tsx and components/EducationFlow.tsx. These are a wrapper over a third-party generative API, routing and bootstrap, theme persistence, and static presentation, none of which are part of this model.
