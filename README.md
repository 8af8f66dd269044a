# GuiaPet: roster, vaccine reminders and session gate

GuiaPet is a web application in which a signed-in user keeps profiles of their pets and
each pet's vaccination record. This Dafny project models the three parts of it that
hold logic of their own:

- **Configuration** (`supabase.dfy`, module `Supabase`). It holds the
  `isSupabaseConfigured` predicate over the two optional environment values and the
  placeholder fallbacks the client is created with. It also holds the `pets` and
  `vaccines` row shapes; nullable columns are `Option`s.
- **Reminders** (`reminders.dfy`, module `Reminders`). A vaccine is *upcoming* when
  `floor((next − now) / 86 400 000)` lies in 0..30. Three places use this rule: the
  header bell badge, the alert banner and the amber highlight (with its "N dias" badge)
  of each vaccine card.
- **The main page** (`page.dfy`, module `Page`). The class `GuiaPetPage` has the
  component's state: `pets`, `selectedPet`, `petForm`, `showAddPet`, `showOnboarding`,
  the signed-in `user`, `loading`, and whether the page navigated to `/login`. Its
  methods are `loadPets`, `handleAddPet`, `checkUser`, the onboarding "Finalizar"
  button, `completeOnboarding` and pet selection.
- **The table service** (`store.dfy`, module `Store`). The class `Tables` has the two
  tables. Its selects filter and order, and its inserts create rows with fresh ids. Any
  of these calls may fail. The model leaves open which one does, so every property of
  the page holds on every failure pattern.
- **The session gate** (`gate.dfy`, module `Gate`). It has the path matcher and the
  fail-open configuration test. It has the cookie adapter (`get`/`set`/`remove`), whose
  callbacks write to the request and rebuild the response. It has the redirect decision
  and the middleware as a whole.

Time is integer milliseconds since the epoch. Calendar dates (`date`, `next_date`) are
UTC day numbers, and `new Date("YYYY-MM-DD")` is UTC midnight of that day. With the
positive divisor 86 400 000, Dafny's `int` division is JavaScript's `Math.floor` of the
quotient.

The main results:

- **Reminder window.** Upcoming holds iff `now ≤ next < now + 31 days`, so a vaccine
  overdue by even one millisecond is never flagged. Counted in calendar days, the window
  is 0..30 days ahead only at exact UTC midnight and 1..31 days ahead at every other
  instant (see "## Findings").
- **Badge, banner and cards agree.** The badge shows iff some card of the selected pet is
  highlighted, and on every page state the methods reach the "Meu Pet" tab's banner
  shows iff the header badge does.
- **Adding a pet.** `handleAddPet` inserts nothing when the guard fails. A failed insert
  leaves the page untouched, and a pet row created before a failed vaccine insert stays
  in the table. Full success inserts exactly the V10 and Antirrábica rows, each due
  again 365 UTC days after its date, then reloads, clears the form and closes the
  dialog.
- **Loading the roster.** A failed or empty fetch leaves the roster and the selection
  unchanged. Otherwise the roster holds the user's pets newest first, each with its own
  vaccines soonest due first, and the first pet is selected.
- **Onboarding.** The onboarding flag is set exactly when the second pets query gives no
  data or no rows.
- **Configuration.** The gate's fail-open test is exactly the negation of
  `isSupabaseConfigured`.
- **No redirect loop.** Following a redirect with the same session state always passes
  through.
- **Cookies.** The request cookie store keeps every write, while the response carries
  only the last one.

Some points of the code that the model keeps:

- The gate also fails open when the URL is the placeholder URL (src/middleware.ts:11).
- Onboarding is decided by a second pets query in `checkUser` (src/app/page.tsx:93-100).
- The roster loader always selects the first pet (src/app/page.tsx:140-141).
- The next dose falls on the UTC date of `now + 365 × 24 h` (src/app/page.tsx:174-175).
  `Page.NextDoseDay` shows that this is always today's UTC date plus 365.
- The alert banner and the vaccine cards sit in the "Meu Pet" tab (src/app/page.tsx:486)
  and render only when the roster is non-empty (src/app/page.tsx:487); the bell badge in
  the header has no such guard. The page keeps its
  selection among the listed pets (`Reminders.SelectionListed`), so badge and banner agree.

## Model

| member | source | states |
|---|---|---|
| `Supabase.ConfiguredExactly` | src/lib/supabase.ts:18-20 | configured iff both values are set and non-empty and the URL is not the placeholder; a missing/empty URL or key, or the placeholder URL, each make it false |
| `Supabase.ClientUrl` | src/lib/supabase.ts:12-13 | the client URL is the raw value when truthy, otherwise the placeholder URL |
| `Supabase.ClientKey` | src/lib/supabase.ts:14-15 | the client key is the raw value when truthy, otherwise `placeholder-key` |
| `Supabase.FallbacksNeverConfigure` | src/lib/supabase.ts:11-20 | when unconfigured the client uses the placeholder URL or key; when configured it uses the raw values; the fallbacks cannot make the predicate true |
| `Supabase.FallbackKeyWouldPass` | src/lib/supabase.ts:11-20 | with a real URL and no key the predicate is false, yet it would hold of the values the client falls back to |
| `Reminders.DayOf` | src/app/page.tsx:174 | the UTC day of an instant is the day whose 24 h span contains it |
| `Reminders.DiffDays` | src/app/page.tsx:454 | `diffDays` is the floor of the millisecond difference over one day |
| `Reminders.UpcomingWindow` | src/app/page.tsx:452-455 | `0 ≤ diffDays ≤ 30` iff `now ≤ next < now + 31 days` |
| `Reminders.OverdueNeverUpcoming` | src/app/page.tsx:455 | any negative difference gives `diffDays ≤ −1` and is not upcoming |
| `Reminders.NextDueMs` | src/app/page.tsx:452 | `new Date(v.next_date)` is UTC midnight of the due date |
| `Reminders.VaccineUpcoming` | src/app/page.tsx:452-455 | the upcoming rule applied to a vaccine row's due date |
| `Reminders.DueWithinWindow` | src/app/page.tsx:452-455 | the calendar-day window: the due date is today or up to 30 UTC days ahead |
| `Reminders.IsUpcoming` | src/app/page.tsx:452-455 | `diffDays <= 30 && diffDays >= 0` over the due instant and now |
| `Reminders.UpcomingBoundaries` | src/app/page.tsx:454-455 | at millisecond level: due at this very instant and due exactly 30 × 24 h later are upcoming; 31 × 24 h later and 1 ms overdue are not |
| `Reminders.UpcomingByDate` | src/app/page.tsx:452-455 | with `k` the calendar days from today's UTC date to `next_date`: upcoming iff `k` in 0..30 at exact UTC midnight, iff `k` in 1..31 at any other instant |
| `Reminders.DayBoundariesAsWritten` | src/app/page.tsx:452-455 | after midnight a vaccine due today is not flagged, and one due 31 days ahead is flagged with "30 dias" |
| `Reminders.DueWithinWindowBoundaries` | src/app/page.tsx:452-455 | the calendar-day window: due today and in 30 days flagged, yesterday and in 31 days not, at any time of day; equal to the rule at UTC midnight |
| `Reminders.AnyUpcoming` | src/app/page.tsx:451-456 | `vaccines.some(...)` is true iff some vaccine of the list is upcoming |
| `Reminders.CardOf` | src/app/page.tsx:695-712 | a card is highlighted iff its vaccine is upcoming, and it shows a days badge exactly then, whose number is `diffDays` (0..30) |
| `Reminders.Cards` | src/app/page.tsx:694-716 | one card per vaccine, in list order |
| `Reminders.BadgeShown` | src/app/page.tsx:451-456 | the bell badge: a selected pet with some upcoming vaccine |
| `Reminders.BannerShown` | src/app/page.tsx:487-673 | the alert banner: the same test, inside the branch for a non-empty roster |
| `Reminders.BadgeBannerCardsAgree` | src/app/page.tsx:451-712 | banner iff non-empty roster and badge; badge iff some card of the selected pet is highlighted; neither shows without a selected pet |
| `Reminders.BadgeIffBanner` | src/app/page.tsx:451-673 | while the selection is one of the listed pets, badge iff banner |
| `Store.SortBy` | src/app/page.tsx:119 | an ordered select returns a permutation of the matching rows in key order |
| `Store.InsertBy` | src/app/page.tsx:119 | inserting into an ordered list keeps it ordered and adds exactly that element |
| `Store.PetsOf` | src/app/page.tsx:118 | `.eq('user_id', user)` keeps exactly the user's rows |
| `Store.PetsOfCount` | src/app/page.tsx:118 | the filter keeps each of the user's rows as often as the table has it and no other row; its length is the user's row count |
| `Store.VaccinesOf` | src/app/page.tsx:130 | `.eq('pet_id', pet)` keeps exactly the pet's rows |
| `Store.VaccinesOfCount` | src/app/page.tsx:130 | the filter keeps each of the pet's rows as often as the table has it and no other row; its length is the pet's row count |
| `Store.NewestFirst` | src/app/page.tsx:119 | the key of `.order('created_at', { ascending: false })`: the negated creation time, smallest first |
| `Store.SoonestDue` | src/app/page.tsx:131 | the key of `.order('next_date', { ascending: true })` |
| `Store.RosterRows` | src/app/page.tsx:115-119 | the roster query's result: the user's rows ordered newest first |
| `Store.VaccineList` | src/app/page.tsx:127-131 | the per-pet query's result: the pet's rows ordered soonest due first |
| `Store.RosterRowsExact` | src/app/page.tsx:115-119 | the roster query returns exactly the user's rows, newest `created_at` first |
| `Store.RosterRowsCount` | src/app/page.tsx:115-119 | each of the user's rows appears in the roster as often as in the table and no other row does; N rows give N pets |
| `Store.VaccineListExact` | src/app/page.tsx:127-131 | the per-pet query returns exactly that pet's vaccine rows |
| `Store.VaccineListCount` | src/app/page.tsx:127-131 | each of the pet's vaccine rows appears in its list as often as in the table and no other row does |
| `Store.PetRowOf` | src/app/page.tsx:153-165 | the created pet row carries the inserted columns and the issued id |
| `Store.VaccineRowOf` | src/app/page.tsx:185-187 | a created vaccine row carries the inserted columns, null notes and the issued id |
| `Store.VaccineRowsOf` | src/app/page.tsx:185-187 | a multi-row insert creates one row per element, in order |
| `Store.Tables.SelectPets` | src/app/page.tsx:115-121 | a successful roster query returns the user's rows newest first; it may fail |
| `Store.Tables.SelectVaccines` | src/app/page.tsx:127-131 | a successful vaccine query returns the pet's rows soonest due first; a failed one gives no data |
| `Store.Tables.InsertPet` | src/app/page.tsx:153-167 | on success exactly one row with a fresh id is appended; on failure nothing changes |
| `Store.Tables.InsertVaccines` | src/app/page.tsx:185-189 | one request: on success all rows are appended, on failure none |
| `Page.PetInsertOf` | src/app/page.tsx:155-163 | the inserted pet copies name, breed, age, weight and photo_url from the form, with `health_status` "Saudável" |
| `Page.DefaultVaccines` | src/app/page.tsx:170-183 | exactly two vaccines, "V10" and "Antirrábica", for the new pet, both dated today and due 365 days later |
| `Page.DefaultVaccineRows` | src/app/page.tsx:170-187 | the rows created for a new pet: exactly V10 and Antirrábica, both for that pet, dated today, due 365 days later |
| `Page.NextDoseDay` | src/app/page.tsx:174-175 | the UTC date of now + 365 × 24 h is today's UTC date + 365 |
| `Page.LoadedRosterOrdered` | src/app/page.tsx:115-138 | a loaded roster lists only the user's pets, newest first, each with only its own vaccines, soonest due first |
| `Page.LoadedRosterLength` | src/app/page.tsx:115-141 | a loaded roster has one entry per row of the user: N pets for N rows |
| `Page.GuiaPetPage.constructor` | src/app/page.tsx:45-61 | the initial state: no pets, no selection, empty form, dialogs closed, loading; the (empty) selection is listed |
| `Page.GuiaPetPage.LoadPets` | src/app/page.tsx:110-146 | no user id: no-op; fetch error or no rows: roster and selection unchanged; otherwise the fetched pets in order with their vaccines (missing list → `[]`) and the first selected; the selection stays listed |
| `Page.GuiaPetPage.HandleAddPet` | src/app/page.tsx:148-200 | guard failure: no insert, nothing changes; pet insert failure: no vaccine insert, nothing changes; vaccine failure: the pet row persists and the page is unchanged; success: two default vaccines inserted, roster reloaded, form reset to empty strings, dialog closed; the selection stays listed |
| `Page.GuiaPetPage.AddVaccinesAndReload` | src/app/page.tsx:169-195 | after the pet row exists: a failed vaccine insert changes nothing more; success adds the two default rows, reloads the user's roster, clears the form and closes the dialog |
| `Page.GuiaPetPage.CheckUser` | src/app/page.tsx:81-108 | no user or an error: navigate to `/login`; otherwise set the user, load the roster, and switch onboarding on iff the second pets query gives no data or no rows; loading always ends |
| `Page.GuiaPetPage.CompleteOnboarding` | src/app/page.tsx:202-204 | onboarding is switched off |
| `Page.GuiaPetPage.Finish` | src/app/page.tsx:413-417 | with a name and a breed, run `handleAddPet` with all its effects on the page and the tables per outcome (as for `HandleAddPet`), then leave onboarding even when the add failed; otherwise nothing changes |
| `Page.GuiaPetPage.SelectPet` | src/app/page.tsx:728-731 | clicking a listed pet selects it, so the selection is listed |
| `Supabase.IsConfigured` | src/lib/supabase.ts:18-20 | both values truthy and the URL not the placeholder |
| `Gate.Unconfigured` | src/middleware.ts:11 | URL or key falsy, or the URL is the placeholder |
| `Gate.Excluded` | src/middleware.ts:96 | the matcher's negative lookahead: `_next/static`, `_next/image`, `favicon.ico` (any character for the dot) or a lower-case image extension |
| `Gate.Gated` | src/middleware.ts:96 | a path starting with "/" whose rest is not excluded |
| `Gate.FailOpenIffNotConfigured` | src/middleware.ts:11 | the gate's fail-open test is exactly the negation of `isSupabaseConfigured` |
| `Gate.ImagesAndAssetsNotGated` | src/middleware.ts:96 | `*.png` paths, `/_next/static…` and `/_next/image…` are not gated; an upper-case extension is |
| `Gate.PlainPageGated` | src/middleware.ts:96 | a path whose text after "/" starts with neither "_" nor "f" and has no dot where an image extension would begin is gated |
| `Gate.PagesGated` | src/middleware.ts:96 | `/`, `/dashboard` and `/login` are gated |
| `Gate.FaviconNotGated` | src/middleware.ts:96 | `/favicon` + any one character + `ico` is not gated |
| `Gate.Route` | src/middleware.ts:73-87 | redirect iff session presence equals "path starts with /login"; the target is the request URL with only its pathname changed (`/login` without a session, `/` with one); otherwise the current response |
| `Gate.NoRedirectLoop` | src/middleware.ts:74-85 | re-evaluating a redirect target with the same session state passes through |
| `Gate.LoginIsPrefix` | src/middleware.ts:74-85 | "/login/x" and "/loginfoo" count as the login page |
| `Gate.Stored` | src/middleware.ts:31-64 | the value a write stores: the given value for `set`, `''` for `remove` |
| `Gate.Applied` | src/middleware.ts:31-64 | the request cookie store after the callbacks' writes, in order |
| `Gate.LastResponse` | src/middleware.ts:16-64 | the `response` variable after the callbacks: the initial response, or the one rebuilt for the last write |
| `Gate.AppliedAccumulates` | src/middleware.ts:31-64 | the request cookie store holds every written name with its latest value (`''` for remove) and keeps all other cookies |
| `Gate.ResponseHoldsLastWrite` | src/middleware.ts:37-46 | the rebuilt response carries exactly one cookie, the last write |
| `Gate.CookieAdapter.constructor` | src/middleware.ts:16-20 | the initial response forwards the request and has no cookies |
| `Gate.CookieAdapter.Get` | src/middleware.ts:28-30 | `get` returns the request cookie's value, or nothing |
| `Gate.CookieAdapter.Set` | src/middleware.ts:31-47 | `set` writes to the request store and to a freshly rebuilt response |
| `Gate.CookieAdapter.Remove` | src/middleware.ts:48-64 | `remove` writes `''` to the request store and to a freshly rebuilt response |
| `Gate.Middleware` | src/middleware.ts:5-93 | unconfigured: plain pass-through, session never consulted; an exception: plain pass-through; otherwise the route decision over the response the callbacks left |
| `Gate.Serve` | src/middleware.ts:5-97 | paths outside the matcher pass through with cookies untouched; gated paths get the middleware's result: unconfigured or an exception gives a plain pass-through, otherwise the route decision, and the request cookies hold every write when configured |

## Findings

| source | as written | input that shows it | evidently intended | confidence | as-written member | corrected member |
|---|---|---|---|---|---|---|
| src/app/page.tsx:452-455 (also 695-698) | `new Date(v.next_date)` is UTC midnight of the due date, `new Date()` is the current instant, and `Math.floor` of their difference in days is tested for 0..30 | any instant after UTC midnight: a vaccine due today gives `diffDays` = −1 and is not flagged; one due 31 days ahead gives 30 and is flagged with "30 dias" | a vaccine due from today up to 30 days ahead, by calendar date, is flagged | medium, not executed | `Reminders.DayBoundariesAsWritten` | `Reminders.DueWithinWindowBoundaries` |

The page model keeps the rule as written (`Reminders.IsUpcoming`); `Reminders.DueWithinWindow`
is the calendar-day window, and `Reminders.UpcomingByDate` relates the two at every instant.

## Left out

- Calls to the hosted service are not modelled. This covers sign-in, `getUser`, `getSession`, `createServerClient` and the HTTP requests behind select and insert. The class `Store.Tables` stands in for the tables. The auth results reach the model as parameters: `auth` of `CheckUser`, and `writes`/`lookup` of `Middleware`.
- src/app/login/page.tsx is not part of this model. It is a sequence of auth calls with UI flags, a timer and navigation, and its 6-character password minimum is an HTML attribute.
- `onAuthStateChange`, its unsubscribe and `handleSignOut` are left out. They are event-driven lifecycle code around the auth service.
- `Promise.all` over the per-pet vaccine queries is modelled as a sequential loop. The queries are independent and read-only, so the result is the same.
- The clock is a parameter `nowMs`. The two clock reads at src/app/page.tsx:174-175 are taken to return the same instant. The `new Date()` inside every reminder check is likewise taken to be the same `now`.
- Date parsing and formatting are not modelled. This covers `new Date(string)`, `toISOString().split('T')[0]` and `toLocaleDateString('pt-BR')`. Dates are day numbers.
- `CookieOptions` (path, max-age and so on) are dropped. Cookies are name/value pairs.
- `Gate.Serve`: the model applies the matcher's regular expression directly to the pathname. Next.js's own normalisation of paths before matching is not modelled. Nor is the fact that `.` does not match a line terminator. URL pathnames are percent-encoded and contain none.
- `Gate.Route` requires the current response to be a pass-through. In the source it always is one.
- `Store.SortBy` fixes one order among rows with equal keys. The service does not promise any particular order for such rows.
- Row ids are natural numbers issued in sequence by `Tables`. In the service they are UUID strings.
- Rendering is not modelled: JSX, tabs, the loading screen, `currentStep`, the static `petServices` and `trainingGuides` data, `console` logging and `alert`. A failed `handleAddPet` shows up as the `PetInsertFailed` or `VaccineInsertFailed` outcome.
- `Page.GuiaPetPage.LoadPets`, `HandleAddPet`, `CheckUser` and `Finish` return an outcome value that the source does not have. It records which path was taken, so the contracts can name it.
