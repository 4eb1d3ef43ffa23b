# Church management dashboard: page logic

A Dafny model of the decision rules in the dashboard's four page components.
These are the members list with its search box, the events list with its
RSVP buttons, the finance overview and the home dashboard. The REST client
is not modelled. Each request becomes an input of type `Api.Fetched<T>`:
either the decoded body (`Received`) or a rejection (`Failed`).

Modules:

- `Api` (services/api.ts): the records `Member`, `Event`, `DashboardStats`,
  `Donation` and `FinanceStats` as datatypes. `Fetched<T>` is a request
  outcome. `AllOf2` and `AllOf3` model `Promise.all`.
- `Text`: the string operations the pages use. `Lower` is `toLowerCase`
  (ASCII letters only), `Contains` is `includes`, and `SplitFirst` is
  `split(sep)[0]`.
- `Members`: the search filter and its properties, the status badge, and the
  page state as the class `MembersPage`.
- `Events`: the event-type colours, the capacity rule behind the RSVP button,
  and the class `EventsPage`.
- `Dashboard`: the three-entry previews and the class `DashboardPage`.
- `Finance`: the donation-type colours, the form's initial draft, and the
  class `FinancePage`.

Each page's `useState` fields are the fields of its class, and each handler
is a method. A handler that awaits a request takes the outcome as a
parameter. When the handler then calls a loader, it returns `refresh`, and
the caller runs the loader's method with the next fetch outcome. React runs
the members page's search effect after every change of `members` or
`searchQuery`. In the model this effect is `MembersPage.SearchEffect`, and
it runs after `LoadMembers` and `SetSearchQuery`.

Three behaviours of the code worth stating:

- The dashboard counters are the server's `DashboardStats`, copied verbatim.
  They are not computed from the lengths of the fetched lists.
- The RSVP progress bar and the finance percentages divide with no guard
  against zero. Neither is modelled (see below).
- `loading` starts true and is set false by the first load, success or
  failure. No later reload sets it back to true.

The source's `type` field is called `kind` here because `type` is a Dafny
keyword. Snake-case field names are written in camel case.

## Model

| member | source | states |
|---|---|---|
| `Api.AllOf2` | app/finance/page.tsx:28-31 | The combined request succeeds iff both requests succeed, and then carries both bodies |
| `Api.AllOf3` | app/page.tsx:40-44 | The combined request succeeds iff all three requests succeed, and then carries the three bodies in order |
| `Text.Lower` | app/members/page.tsx:43-45 | Lower-casing keeps the length and lower-cases each character in place (ASCII) |
| `Text.Contains` | app/members/page.tsx:43-45 | `includes` is true iff the query occurs at some position of the string |
| `Text.SplitFirst` | app/finance/page.tsx:21 | `split(sep)[0]` is a prefix containing no separator that ends at the first separator or at the end of the string |
| `Text.SplitFirstUnique` | app/finance/page.tsx:21 | Those three facts determine `split(sep)[0]` uniquely |
| `Members.FilterMembers` | app/members/page.tsx:41-48 | Every kept member matches: its lower-cased first name, last name or email contains the lower-cased query. The result is never longer than the input |
| `Members.FilterKeepsAllMatches` | app/members/page.tsx:42-46 | No false negatives: every matching member is kept, as many times as it occurs in the input, and no other member is kept |
| `Members.FilterIsSubsequence` | app/members/page.tsx:42-46 | The filter is stable: its result is a subsequence of the member list |
| `Members.FilterEmptyQuery` | app/members/page.tsx:42-46 | An empty query returns the member list unchanged |
| `Members.FilterCaseInsensitive` | app/members/page.tsx:43-45 | Two queries that lower-case to the same string give the same result |
| `Members.FilterLowerQuery` | app/members/page.tsx:43-45 | A query and its lower-cased form give the same result |
| `Members.FilterIgnoresOtherFields` | app/members/page.tsx:42-46 | Two lists that agree position by position on first name, last name and email have results that agree the same way: the other fields never decide |
| `Members.SearchExampleName` | app/members/page.tsx:43-45 | "AL" finds a member whose first name is Alice |
| `Members.SearchExampleEmail` | app/members/page.tsx:43-45 | "AL" finds a member whose email is al@x.com |
| `Members.SearchExampleMiss` | app/members/page.tsx:43-45 | "AL" does not find Bob Brown, bob@x.com |
| `Members.DisplayStatus` | app/members/page.tsx:165 | The badge text is the member's status, or "active" when the status is empty or absent; it is never empty |
| `Members.StatusBadgeAsWritten` | app/members/page.tsx:158-166 | As written, the badge uses the active colours (#d4edda on #155724) iff the raw status is exactly "active", and the inactive colours (#f8d7da, #721c24) for every other status |
| `Members.StatusBadgeAsWrittenMismatch` | app/members/page.tsx:162-165 | An absent or empty status is shown as "active" in the inactive colours |
| `Members.StatusBadgeFor` | app/members/page.tsx:158-166 | Corrected badge: the active colours are used iff the shown text is "active", the inactive colours otherwise. It agrees with the page whenever a non-empty status is present |
| `Members.MembersPage.constructor` | app/members/page.tsx:10-25 | Initial state: empty lists and query, loading, form closed, empty draft; the shown list is the filter result |
| `Members.MembersPage.LoadMembers` | app/members/page.tsx:28-38 | On success both lists become the fetched list; on failure neither changes; loading ends either way. With an empty query the shown list is the filter result even before the effect runs |
| `Members.MembersPage.SetSearchQuery` | app/members/page.tsx:118 | Only the query changes |
| `Members.MembersPage.SearchEffect` | app/members/page.tsx:41-48 | The shown list becomes the filter of the loaded list by the query; nothing else changes |
| `Members.MembersPage.OpenAddForm` | app/members/page.tsx:98 | Only the form opens |
| `Members.MembersPage.CloseAddForm` | app/members/page.tsx:262 | Only the form closes |
| `Members.MembersPage.HandleAddMember` | app/members/page.tsx:51-72 | The request sends the draft as it stood. On success the form closes, the draft is emptied and a reload starts. On failure nothing changes |
| `Events.EventColor` | app/events/page.tsx:75-83 | The four known types map to their colours in the palette table. Any other string maps to grey. No type gets the full-event grey |
| `Events.EventColorsDistinct` | app/events/page.tsx:75-83 | Distinct known types get distinct colours, none of them the fallback |
| `Events.RsvpButtonFor` | app/events/page.tsx:191-205 | The button is disabled iff rsvp_count >= max_capacity. When disabled it reads "Event Full" with the full grey and the not-allowed cursor. Otherwise it reads "RSVP Now" with the type colour and the pointer cursor |
| `Events.FullStaysFull` | app/events/page.tsx:193 | More RSVPs never re-enable the button of a full event |
| `Events.EventsPage.constructor` | app/events/page.tsx:9-21 | Initial state: no events, loading, form closed, draft with time 19:00, type service and capacity 50 |
| `Events.EventsPage.LoadEvents` | app/events/page.tsx:24-34 | On success the events become the fetched list; on failure they do not change; the shown list always equals the loaded list; loading ends either way |
| `Events.EventsPage.OpenAddForm` | app/events/page.tsx:114 | Only the form opens; the shown list still equals the loaded list |
| `Events.EventsPage.CloseAddForm` | app/events/page.tsx:346 | Only the form closes; the shown list still equals the loaded list |
| `Events.EventsPage.HandleAddEvent` | app/events/page.tsx:37-56 | The request sends the draft as it stood. On success the form closes, the draft returns to exactly its initial values and a reload starts. On failure nothing changes. The shown list still equals the loaded list |
| `Events.EventsPage.HandleRsvp` | app/events/page.tsx:59-69 | The request carries the event id and the fixed user "demo-user-id". A reload starts only after the server confirms |
| `Dashboard.Preview` | app/page.tsx:47-48 | The preview is a prefix of the list, of length min(3, length) |
| `Dashboard.PreviewUnique` | app/page.tsx:47-48 | Any prefix of that length is the preview: entries stay in received order, none sorted or skipped |
| `Dashboard.PreviewIdempotent` | app/page.tsx:47-48 | Previewing a preview changes nothing |
| `Dashboard.DashboardPage.constructor` | app/page.tsx:28-36 | Initial state: all counters zero, empty previews, loading |
| `Dashboard.DashboardPage.LoadData` | app/page.tsx:38-54 | If all three requests succeed, stats are the server's figures verbatim and the previews are the first min(3, n) members and events. If any request fails, nothing changes. Loading ends either way. Previews never exceed 3 entries |
| `Finance.TypeColor` | app/finance/page.tsx:68-75 | tithe, offering and donation map to their colours in the palette table; any other string maps to grey |
| `Finance.TypeColorsDistinct` | app/finance/page.tsx:68-75 | Distinct known types get distinct colours, none of them the fallback |
| `Finance.Today` | app/finance/page.tsx:21 | The draft's date is the part of the ISO timestamp before its first 'T' |
| `Finance.InitialDonationDraft` | app/finance/page.tsx:49-55 | The draft has empty member, amount and description, type tithe, and today's date |
| `Finance.FinancePage.constructor` | app/finance/page.tsx:9-23 | Initial state: no donations, zero totals and an empty breakdown, loading, form closed, initial draft |
| `Finance.FinancePage.LoadFinanceData` | app/finance/page.tsx:26-39 | If both requests succeed, donations and stats are replaced by what the server sent. If either fails, neither changes. Loading ends either way |
| `Finance.FinancePage.OpenAddForm` | app/finance/page.tsx:104 | Only the form opens |
| `Finance.FinancePage.CloseAddForm` | app/finance/page.tsx:346 | Only the form closes |
| `Finance.FinancePage.HandleRecordDonation` | app/finance/page.tsx:42-62 | On success the form closes, the draft returns to its initial values dated now, and a reload starts. On failure nothing changes |

## Left out

- The REST client (services/api.ts:61-138): URLs, headers, JSON decoding. Each request is an input outcome.
- The RSVP progress bar width (app/events/page.tsx:186) and the finance breakdown bar and percentage (app/finance/page.tsx:178, 183): floating-point division with no zero guard, plus `toFixed(1)` formatting.
- `parseFloat` of the donation amount (app/finance/page.tsx:46) and `parseInt` of the event capacity (app/events/page.tsx:333): float and integer parsing of form text. For the same reason the donation request payload, which replaces the amount text by its parsed number, is not modelled; the member and event requests, which send the draft unchanged, are.
- The per-field `onChange` edits of the three forms: plain form wiring.
- Currency and date formatting (`Intl.NumberFormat`, `toLocaleDateString`): library calls.
- `Text.Lower`: full Unicode `toLowerCase` is not modelled; only ASCII letters are folded.
- JSON numbers are modelled as unbounded integers (counts, capacities) or exact reals (money). A fractional capacity or RSVP count is not represented.
- A `null` first name, last name or email, on which the search would throw: the record declares them as strings.
- Layout, styles, modals, `alert`, `console.error`, navigation links, and the stray markup at the top of app/page.tsx:9-25.
- Async ordering and re-render timing: each load is one atomic step, and a reload started by a handler is a separate call.
- The clock: the current time is the parameter `nowIso`.

## Findings

| source | as written | input that shows it | evidently intended | confidence | as-written member | corrected member |
|---|---|---|---|---|---|---|
| app/members/page.tsx:162-165 | The badge colours test `status === 'active'`, but the text falls back to "active" for an empty or absent status | A member whose status is absent or empty: the badge reads "active" in the inactive red colours | The colours follow the text shown, so an "active" badge is green | medium, not executed | `Members.StatusBadgeAsWrittenMismatch` | `Members.StatusBadgeFor` |
