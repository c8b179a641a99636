# OpenUSSD: verified model

A Dafny model of three connected parts of OpenUSSD, and proofs about them.

1. **Screens.** A USSD screen holds 182 septets in the GSM alphabet (sections
   6.2.1 and 6.2.1.1 of 3GPP TS 23.038), where extension characters cost two, and
   70 UCS-2 units as soon as one rune is outside it. `Encoding.dfy` measures text;
   `Truncation.dfy`, `Gsm.dfy`, `Pagination.dfy`, `PaginationLaws.dfy` and
   `Menus.dfy` model the renderers of the Go SDK and prove that their searches are
   exact although the cost of a prefix jumps at an encoding switch.
2. **The gateway.** `Canonical.dfy` and `AfricasTalking.dfy` turn a network's post
   into an event, `Routing.dfy` and `Handover.dfy` choose the tenant,
   `Sessions.dfy` is the in-process store, `Webhook.dfy` and `Gateway.dfy` are one
   turn, `MemoryRuns.dfy` runs turns on the store with its clock, and `Isolation.dfy`
   lets any number of turns interleave.
3. **The SDK and its reader.** `Sdk.dfy` is the screen machine, `EndToEnd.dfy`
   compares whole dialogues through gateway and webhook with running it in memory,
   `Reader.dfy` and `ReaderLaws.dfy` are the fediverse reader,
   `ReaderDialogue.dfy` is what its user sees over several turns, `FetchedPosts.dfy`
   adds the client's cap on a post, and `Shipped.dfy` and `ShippedMenus.dfy` put the
   reader, with the strings it ships, behind the gateway.

Run `dafny verify dfyconfig.toml` to check the project.

## How to read the model

- Text is a sequence of Unicode code points, as Go's `[]rune` conversions see it.
  White space is Go's `unicode.IsSpace` (`Text.SpacesAre`); the GSM and
  transliteration tables are written out.
- Code that works in steps is a method proved equal to a specification function;
  the lemmas state what that function means. Where the source mutates an object
  (the memory store, the gateway's store, the reader's state) the method belongs to
  a class.
- Screens are functions from a context to a text and the state as they leave it.
  A tenant is any function from requests to answers, chosen anew for each callback,
  and what the fediverse instance answers is a parameter of each turn.
- State blobs are written and read by a pair of functions for each tenant, assumed to
  be inverse; the assumption is the predicate `Sdk.Lawful`.
- Network names contain no colon, which the two adapters satisfy; it is the
  predicate `Sessions.ColonFree` wherever it is needed.

## Where the code and its comments differ

The model follows the code.

- `breakPoint` is documented as looking in the final third of the window; the code
  only rules out the first third. `Pagination.BreakBeforeFinalThirdIff` says exactly
  when a break falls earlier, and `Pagination.BreakCanFallBeforeFinalThird` is such a
  window.
- `Shrink` is documented as trimming until the text fits; it pays for the marker
  twice and so is never maximal (`Truncation.ShrinkNeverMaximal`).
- `postPages` counts the author label in runes and says that equals its cost in
  either encoding; that holds exactly for labels without extension characters, also
  for the posts that the client's byte cap lets through (`ReaderLaws.ReserveIsEnoughIff`,
  `FetchedPosts.FetchedReserveIsEnoughIff`).
- The reader means to accept only what the user can see. A post screen does not
  measure the refusal that the SDK puts above it, so a wrong input can push its
  controls off while they still work
  (`ReaderDialogue.OnlyShownControlsWork` says exactly when;
  `Shipped.ShippedRefusalHidesControls` is a dialogue that loses all of them). The
  screen of a post without text shows no control, and "0" leads back from it.
- The opening menu does not measure a notice either. In French it then loses its way
  out (`ShippedMenus.ShippedMenuUnderNotice`); the reader itself never leaves English.
- Two tenants may not claim the same shortcode and prefix; the code compares joined
  strings, so claims with a bar or a star inside can also meet without being the same
  (`Routing.RouteKeysMeetIff`).
- `OneLine` is documented as removing control characters; it collapses five of them
  and the space, and leaves the others (`Gsm.BreaksAre`).
- A tenant that takes over is to start with a clean slate. When its first turn is
  lost it is next sent turn 1 with an input for a screen it never showed
  (`EndToEnd.LostTurnLosesStartScreen`).
- Every screen is said to pass through the budget backstop; the farewell to input
  at a finished screen does not (`Sdk.ResponsesFit`).

## Model

| member | source | states |
|---|---|---|
| `Encoding.EncodingOf` | canonical/encoding.go:63-74 | the scan answers UCS-2 exactly when some rune is outside the GSM tables |
| `Encoding.ScreenCost` | canonical/encoding.go:79-95 | the running septet count, or the whole text's UTF-16 units once a rune is outside the tables |
| `Encoding.Ucs2Units` | canonical/encoding.go:103-113 | the loop counts a surrogate pair for each astral rune |
| `Encoding.Budget` | canonical/encoding.go:117-122 | the capacity of the alphabet the text itself forces: 182 or 70 |
| `Encoding.FitsScreen` | canonical/encoding.go:125-131 | true exactly when cost is within that capacity |
| `Encoding.TablesAreStandard` | canonical/encoding.go:41-52 | the two tables are the standard's, column by column: 127 basic and 9 extension characters |
| `Encoding.RunFitsIff` | canonical/encoding.go:15-131 | a screen holds exactly 182 of one basic character, 91 of an extension character, 70 of another rune and 35 of an astral one |
| `Encoding.AffordableWithin` | canonical/encoding.go:63-131 | deleting or reordering runes keeps a text within budget beside a reserve, also across the switch from UCS-2 to GSM |
| `Encoding.DeletionThreshold` | canonical/encoding.go:15-131 | that closure holds for all texts exactly for reserves from -44 up, which is what 2*70 against 182 leaves |
| `Truncation.Truncate` | sdk/go/render.go:84-115 | the backwards scan returns the specified truncation for every text and limit |
| `Truncation.KeptMeaning` | sdk/go/render.go:93-114 | the kept text is the one prefix that a cut at p runes keeps: it breaks off at the last white space within 24 runes and half of p, else at p, less white space before that; so nothing visible is lost further back, and a word is cut only when no white space is near |
| `Truncation.KeptMonotone` | sdk/go/render.go:93-114 | the kept text grows monotonically with the limit through all three word-boundary cases |
| `Truncation.TruncateMeaning` | sdk/go/render.go:79-115 | every limit: nothing, the whole text, dots alone, or that prefix and the marker within the limit |
| `Truncation.CutIsUnique` | sdk/go/render.go:100-114 | a text and a cut admit one such prefix only |
| `Truncation.TruncateMonotone` | sdk/go/render.go:84-115 | every rune of a shorter truncation is in a longer one, dots-only limits included |
| `Truncation.Shrink` | sdk/go/render.go:35-62 | the capped binary search computes Shrunk and never slices past the text |
| `Truncation.ShrinkBounds` | sdk/go/render.go:50-61 | for an overflowing text the search result leaves a rune to drop, is at most 182 and at least 32 |
| `Truncation.ShrinkMeaning` | sdk/go/render.go:35-62 | for the longest prefix that fits with the marker, n runes, an overflowing text is cut at n - 3 in that same way and marked |
| `Truncation.ShrinkFits` | sdk/go/render.go:29-62 | the result always fits, is the text exactly when the text fits, and otherwise a prefix with the marker that loses nothing visible in its first 14 runes |
| `Truncation.ShrinkIdempotent` | sdk/go/render.go:35-62 | shrinking twice is shrinking once |
| `Truncation.ShrinkNeverMaximal` | sdk/go/render.go:49-61 | a shrunk text keeps at least three runes fewer than the longest prefix that fits with the marker, for every text that overflows |
| `Truncation.ShrinkKeepsWordIff` | sdk/go/render.go:35-62 | a word that ends before a space survives the cut exactly when the text up to three runes past it fits with the marker |
| `Gsm.CollapseJoinsFields` | sdk/go/gsm.go:98-102 | the left-to-right collapse is FieldsFunc joined by single spaces |
| `Gsm.CollapseIsJoin` | sdk/go/gsm.go:98-102 | words woven with any gaps collapse to the words joined by single spaces |
| `Gsm.BreaksAre` | sdk/go/gsm.go:98-101 | the gaps are the five line and tab characters and the space, and no other rune |
| `Gsm.OneLineIsOneLine` | sdk/go/gsm.go:96-102 | one line never holds a line break, collapsing again changes nothing, GSM text stays GSM |
| `Gsm.OneLineMarkedMonotone` | sdk/go/gsm.go:98-102 | collapsing a longer marked prefix keeps every rune of the collapsed shorter one |
| `Gsm.ToGSM` | sdk/go/gsm.go:47-69 | the rewriting loop computes InGsm |
| `Gsm.TransliterationIs` | sdk/go/gsm.go:14-33 | the table: each accented letter, quote, dash and mark with its stand-in, two marks dropped, and a space for anything else |
| `Gsm.ForeignRuneBetweenWords` | sdk/go/gsm.go:52-68 | a rune outside the alphabet between two words becomes its stand-in, and one without a stand-in keeps the words apart |
| `Gsm.ToGSMIsGsm` | sdk/go/gsm.go:35-69 | the result is GSM text, equals the input exactly when that is GSM, is a fixed point, brings in no extension character and shows every kept rune and transliteration |
| `Gsm.Label` | sdk/go/gsm.go:88-94 | the composition, with the fallback when fewer than two runes survive |
| `Gsm.LabelIs` | sdk/go/gsm.go:88-94 | with at least two visible runes left after rewriting, the label is a truncation of a one-line text of just those; with fewer it is the truncated fallback |
| `Gsm.LabelIsSafe` | sdk/go/gsm.go:71-94 | a label is within the limit, GSM text, without a line break, and plain when its source has no extension character |
| `Pagination.FitRunes` | sdk/go/render.go:185-202 | the binary search computes FitCount |
| `Pagination.FitCountIsOptimal` | sdk/go/render.go:178-202 | a prefix of any length fits beside a non-negative reserve exactly when it is no longer than the answer, so neither the encoding switch nor the cap at 182 loses anything |
| `Pagination.BreakPoint` | sdk/go/render.go:206-219 | the loop over separators computes BreakAt |
| `Pagination.BreakSplitsNoWord` | sdk/go/render.go:204-219 | a break falls on a space or newline, or at the end of a window that has neither past its first third |
| `Pagination.BreakPrefersParagraphs` | sdk/go/render.go:206-219 | the latest paragraph break past the first third wins, then the latest newline, then the latest space, and the whole window when there is none |
| `Pagination.BreakBeforeFinalThirdIff` | sdk/go/render.go:204-219 | the break falls before the final third exactly when the best kind of break past the first third does not reach the final one |
| `Pagination.Paginate` | sdk/go/render.go:128-176 | the loops over the body compute Pages for every body and reserve |
| `Pagination.TakePage` | sdk/go/render.go:165-171 | a page that starts visibly is never blank, so the hard-split branch is never taken |
| `PaginationLaws.PagesFit` | sdk/go/render.go:117-122 | every page costs at most its own budget less the reserve, is not empty and has no white space at either end |
| `PaginationLaws.OnePageWhenItFits` | sdk/go/render.go:128-163 | a text that fits beside the reserve is one page, whole |
| `PaginationLaws.PagesSplitNoWord` | sdk/go/render.go:124-126 | the boundary that ends the k-th page, at its place in the text, splits a word only when the fitting window has no space or newline past its first third |
| `PaginationLaws.PaginateIsComplete` | sdk/go/render.go:128-176 | the body is white space, page, white space, page and so on exactly when the reserve leaves room for each visible rune |
| `PaginationLaws.PagesKeepEveryRune` | sdk/go/render.go:124-126 | then the pages hold every visible rune of the body once and in order |
| `PaginationLaws.SmallReserveHasRoom` | sdk/go/render.go:129-134 | reserves up to 68, or 180 for GSM bodies, always leave that room |
| `PaginationLaws.LargeReserveStopsEarly` | sdk/go/render.go:153-158 | reserve 69 with an astral rune and 181 with an extension character lose it |
| `PaginationLaws.PageCountBound` | sdk/go/render.go:128-219 | each page but the last takes at least a third of the runes that always fit: pages number at most one more than runes by that third, for any text beside at most 68 units and for GSM text, with its larger third, beside at most 180 |
| `Menus.LongestLabelThatFits` | sdk/go/render.go:228-248 | when the whole line does not fit, the binary search returns the label that `Menus.ShortLabelIsExact` describes |
| `Menus.LabelFitsMonotone` | sdk/go/render.go:231-244 | what fits is closed downwards through truncation and line collapsing, when the whole line does not fit |
| `Menus.ShortLabelIsExact` | sdk/go/render.go:221-248 | a label is returned exactly when some truncation to at least four runes fits, and it is the longest that does, on one line |
| `Menus.Menu` | sdk/go/render.go:274-294 | the packing loop computes MenuText |
| `Menus.MenuFitsIffTitleFits` | sdk/go/render.go:267-294 | the menu fits exactly when its title does |
| `Menus.MenuShowsPrefix` | sdk/go/render.go:270-294 | a prefix of the items is shown in order, each whole if it fits and else with its longest truncation; the list stops only at an item of which not even four runes fit |
| `Menus.MenuSplitsPerItem` | sdk/go/render.go:261-265 | after the title, splitting on newlines gives exactly one line per rendered item |
| `Menus.MenuFit` | sdk/go/render.go:303-330 | the greedy loop shows the greatest number of items that fits with the footer; a title and footer that overflow are shrunk and show none |
| `Menus.MenuFitIsOptimal` | sdk/go/render.go:296-330 | the screen fits, and j items fit with the footer exactly when j is at most the number shown |
| `Menus.MenuFitLines` | sdk/go/render.go:303-330 | the screen is the title, one line per shown item and one per footer item |
| `Canonical.Validate` | canonical/event.go:93-114 | accepts exactly the valid events, and names the first broken rule in the order of checking |
| `Canonical.Utf8IsShortest` | canonical/event.go:99-100 | the byte length of a session id counts for each rune the fewest UTF-8 bytes that can carry it |
| `AfricasTalking.Parse` | gateway/internal/adapter/africastalking/adapter.go:76-110 | yields the event exactly when its identity is present and bounded |
| `AfricasTalking.ParsedIff` | gateway/internal/adapter/africastalking/adapter.go:76-110 | a form becomes an event exactly when it names a session, in at most 128 bytes, and a number |
| `AfricasTalking.PaddingIsIgnored` | gateway/internal/adapter/africastalking/adapter.go:94-105 | white space around session, number, service and network code changes nothing, and each comes through in its own place |
| `AfricasTalking.ParsedEventIsValid` | gateway/internal/adapter/africastalking/adapter.go:147-164 | no rule about input can fail; the phase is begin exactly when the path is empty |
| `AfricasTalking.TextRoundTrip` | gateway/internal/adapter/africastalking/adapter.go:159-164 | joining the split text gives the text back |
| `AfricasTalking.PathRoundTrip` | gateway/internal/adapter/africastalking/adapter.go:154-164 | a path survives join and split exactly when its segments are star-free and it is not one empty segment |
| `AfricasTalking.PathGrowsByOne` | gateway/internal/adapter/africastalking/adapter.go:154-164 | one more input appends exactly that segment |
| `AfricasTalking.NumberHasOneForm` | gateway/internal/adapter/africastalking/adapter.go:166-175 | a subscriber number is empty or led by "+", stable under normalising again, and the same whether or not the "+" was sent |
| `Routing.ValidateTenant` | gateway/internal/tenant/tenant.go:58-86 | accepts exactly the valid tenant definitions, and names the first broken rule |
| `Routing.NewRouter` | gateway/internal/tenant/tenant.go:127-171 | succeeds exactly on configurations with valid tenants, unique names and claims and a root per shortcode, and builds the sorted table |
| `Routing.AcceptsIff` | gateway/internal/tenant/tenant.go:119-171 | for claims without a bar in the shortcode or a star in a segment: the list is accepted exactly when tenants are valid, no name and no pair of shortcode and prefix occurs twice, and each shortcode has a root |
| `Routing.RouteKeysMeetIff` | gateway/internal/tenant/tenant.go:145-149 | for all claims: two are taken for the same exactly when they agree, up to stars inside segments, or one shortcode, with a bar, starts the other and the rest of it leads the joined prefix |
| `Routing.RootsOfGroup` | gateway/internal/tenant/tenant.go:154-165 | with unique claims a shortcode has one root or none, so counting roots tests for one |
| `Routing.SortOrders` | gateway/internal/tenant/tenant.go:166-168 | the stable sort puts longer prefixes first |
| `Routing.RouteEvent` | gateway/internal/tenant/tenant.go:175-184 | the scan computes RouteOf |
| `Routing.HasPrefix` | gateway/internal/tenant/tenant.go:196-206 | true exactly when the prefix starts the path |
| `Routing.RouterIsCorrect` | gateway/internal/tenant/tenant.go:119-184 | every path on every configured shortcode, and only those, goes to the one tenant with the longest matching prefix, and the path is prefix plus routed path |
| `Routing.AcceptsIsOrderIndependent` | gateway/internal/tenant/tenant.go:127-171 | acceptance is the same for every permutation of the list |
| `Routing.RouteIsOrderIndependent` | gateway/internal/tenant/tenant.go:127-184 | so is every route |
| `Handover.PrefixExtends` | gateway/internal/tenant/tenant.go:175-206 | on a longer path the answering prefix extends the earlier one, strictly when the tenant changes |
| `Handover.NeverReturns` | gateway/internal/tenant/tenant.go:175-206 | a dialogue never returns to a tenant it left |
| `Handover.HandoversAreFew` | gateway/internal/tenant/tenant.go:175-206 | handovers number fewer than the shortcode's tenants |
| `Handover.HandoverStartsEmpty` | gateway/internal/tenant/tenant.go:175-206 | when one input is added per turn, a new tenant's prefix is the whole path |
| `Sessions.KeyStringIsInjective` | gateway/internal/session/store.go:44 | the storage key tells keys apart when network names have no colon |
| `Sessions.KeyStringCollides` | gateway/internal/session/store.go:44 | sessions of two networks can share a storage key exactly when one name followed by a colon starts the other |
| `Sessions.Memory.Load` | gateway/internal/session/memory.go:65-78 | a rejected key, the live session, or not found, by the deadline against the clock |
| `Sessions.Memory.Save` | gateway/internal/session/memory.go:81-96 | stamps the session and files it with deadline now plus ttl; rejects an incomplete key and then changes nothing |
| `Sessions.Memory.Delete` | gateway/internal/session/memory.go:99-104 | removes that entry only |
| `Sessions.Memory.EvictExpired` | gateway/internal/session/memory.go:138-148 | the sweep leaves exactly the entries whose deadline is ahead of its clock reading |
| `Sessions.MemoryRefinesSimpleStore` | gateway/internal/session/memory.go:65-148 | every load answers as a key-indexed store that never evicts, for every interleaving and however stale the clock readings |
| `Sessions.EvictionIsInvisible` | gateway/internal/session/memory.go:43-48 | taking all evictions out of a history changes no answer |
| `Sessions.SaveLastsUntilDeadline` | gateway/internal/session/memory.go:81-96 | a session is found until ttl past the clock reading of its last save, and not from then on, whatever happens to other keys |
| `Webhook.Deliver` | gateway/internal/tenant/dispatch.go:78-146 | a reply is passed on exactly when it is usable and within budget, with its state normalised |
| `Gateway.Inbound.Handle` | gateway/internal/httpx/inbound.go:112-194 | one turn, step by step on the session, does to the store and answers what HandleOn says |
| `Gateway.AskedIs` | gateway/internal/httpx/inbound.go:115-169 | a tenant is sent the event less its own prefix, and the next turn with the stored state exactly when the subscriber's readable session is its own or has no tenant; else turn 1 and no state |
| `Gateway.TurnAnswers` | gateway/internal/httpx/inbound.go:112-194 | the answer of every turn: nothing to a lost dialogue, the tenant's usable screen, or which of routing, delivery and save failed |
| `Gateway.SavedSession` | gateway/internal/httpx/inbound.go:145-193 | the whole session after a saved turn, with the reply's three state rules: cleared even if a state is sent, replaced by the state sent, or kept when none is |
| `Gateway.StateTravels` | gateway/internal/httpx/inbound.go:112-194 | over runs, whatever other dialogues do between: the next request to the same tenant carries what its last saved reply left, on the next turn |
| `Gateway.MemoryKeepsContract` | gateway/internal/session/store.go:81-101 | at any clock reading the memory store's save, stamped then or later, delete and sweep do to its answers what the turn does to the live sessions |
| `MemoryRuns.MemoryRunIsStoreRun` | gateway/internal/httpx/inbound.go:112-194 | every run of turns and sweeps on the memory store, with its clock and deadlines, answers as the run on live sessions in which each expiry is a timeout, and shows what is left of them at any later time |
| `Gateway.TimeOnlyRemoves` | gateway/internal/session/memory.go:74-77 | as time passes sessions only disappear |
| `Gateway.HandleTouchesOneKey` | gateway/internal/httpx/inbound.go:112-194 | a turn changes no other dialogue's session |
| `Gateway.FailedTurnChangesNothing` | gateway/internal/httpx/inbound.go:145-193 | a turn failing in routing, delivery or save leaves the store as it was |
| `Gateway.EndedTurnLeavesNothing` | gateway/internal/httpx/inbound.go:137-143 | an ended or cancelled dialogue leaves no session |
| `Gateway.TurnsCountSavedScreens` | gateway/internal/httpx/inbound.go:112-194 | after any sequential run, whatever loads, saves and deletes fail, the stored turn is the number of screens saved by the current tenant for this subscriber since it took over or the session last started afresh, and a dropped dialogue is not stored |
| `Gateway.FailuresAreErasable` | gateway/internal/httpx/inbound.go:145-193 | a run leaves the same store as the run without its failed turns |
| `Isolation.TenantsAreIsolated` | gateway/internal/httpx/inbound.go:112-194 | over every interleaving of any number of callbacks, a state shown to a tenant was returned before by that tenant for the same key and subscriber |
| `Isolation.MoveKeepsInv` | gateway/internal/httpx/inbound.go:115-193 | each load, delivery, reply, save, delete, failure or eviction keeps the ownership invariant |
| `Isolation.StepsMakeATurn` | gateway/internal/httpx/inbound.go:112-194 | run without interruption the atomic steps of any callback, delivered, ended, terminal, unroutable or undelivered, with any store failures, do what handling it does, and record the state sent and the state that a usable reply returned |
| `Isolation.OthersStay` | gateway/internal/httpx/inbound.go:112-194 | a step of one callback leaves every other in flight where it was, with the same steps open to it, so all interleavings are runs |
| `Isolation.NeverBlocked` | gateway/internal/httpx/inbound.go:112-194 | whatever is in flight can take its next step or fail, a new callback can arrive and any session can expire |
| `Isolation.LossesAreLocal` | gateway/internal/httpx/inbound.go:115-193 | a failure takes away its callback and an expiry its session, and neither touches anything else |
| `Sdk.NewApp` | sdk/go/app.go:109-137 | accepts exactly named, drawable, distinct screens with the start among them, and files each under its name in an application with the given start, first state and strings |
| `Sdk.Turn` | sdk/go/app.go:175-236 | restoring, handling and following an action, step by step, is TurnOf |
| `Sdk.Render` | sdk/go/app.go:240-273 | the prompt with the notice folded in or prepended, shrunk, with the state to keep |
| `Sdk.DecisionIsFollowed` | sdk/go/app.go:175-273 | input at a screen that takes it: an ending shows the handler's own text, or the farewell in the language it left, whole if it fits; a move draws the named screen and a stay the same one, with the handler's own state and language and its text as the notice; a failure or an unknown screen is an error |
| `Sdk.DecisionsAre` | sdk/go/app.go:75-85 | moving, staying and finishing carry the screen or the message they are given, and only finishing ends |
| `Sdk.OtherTurns` | sdk/go/app.go:192-212 | without input the current screen is drawn without a notice; input at a finished one gets the farewell; a lost screen is an error |
| `Sdk.ReadableGoesOn` | sdk/go/app.go:176-200 | a readable state goes on at its own screen, in its own language, with its own data |
| `Sdk.UnreadableStartsOver` | sdk/go/app.go:176-200 | no state and an unreadable one start over |
| `Sdk.ServedVersions` | sdk/go/handler.go:74-82 | any version but 1, said or unsaid, is refused; null and absent states are served alike |
| `Sdk.ServesTheTurn` | sdk/go/handler.go:82-93 | a served request is answered with its turn: the screen, and the state to keep or, exactly when the dialogue is over, word to forget it; a turn that fails is not answered |
| `Sdk.NoStateIffEnded` | sdk/go/app.go:175-273 | a turn leaves no state exactly when it ends the dialogue |
| `Sdk.ResponsesFit` | sdk/go/app.go:208-273 | a response is within budget, except that a farewell to input at a finished screen is only if its text fits |
| `Sdk.KeptStateIsResumable` | sdk/go/app.go:192-273 | a kept state names a declared screen that takes input, so it meets neither the lost-screen error nor the finished-screen farewell |
| `EndToEnd.RestoredIsLive` | gateway/internal/httpx/inbound.go:115-169 | what the SDK restores after the gateway's admission and handover rules is the live state, or a blank one |
| `EndToEnd.ServedIsStepped` | sdk/go/handler.go:82-93 | the reply passes the gateway's checks and its state rules as the step's own outcome, but for a farewell at a finished screen that does not fit |
| `EndToEnd.StatelessEqualsStateful` | gateway/internal/httpx/inbound.go:112-194 | every sequential run through gateway, webhook and SDK, with any store failures, gives the answers of a direct in-memory run whose memory fails alike exactly when no farewell at a finished screen along it is too long; and then the stored blobs are the live states |
| `EndToEnd.SteadyScreensHold` | sdk/go/app.go:192-212 | when tenants keep their screens and start on one that takes input, no run ever answers such a farewell, however long it is |
| `EndToEnd.RunsKeep` | gateway/internal/httpx/inbound.go:145-193 | what each application's steps keep, every dialogue of every run has |
| `EndToEnd.HandoverShowsStartScreen` | gateway/internal/httpx/inbound.go:150-169 | over any run, one input per turn: a handover asks for turn 1 with no state; the path is empty, and the start screen is drawn, exactly when the new tenant did not answer the path before, as after every saved turn; else the input is taken at the start screen |
| `EndToEnd.LostTurnLosesStartScreen` | gateway/internal/httpx/inbound.go:150-178 | a run whose handover delivers turn 1, no state and a path: the service tenant's own first turn was not delivered |
| `Reader.ReaderContext.ReadPages` | adapters/fediverse/main.go:264-282 | pages the post beside the measured header and navigation |
| `Reader.ReaderContext.RenderPost` | adapters/fediverse/main.go:287-311 | clamps the page and draws header, page and the controls that lead somewhere |
| `Reader.ReaderContext.HandlePost` | adapters/fediverse/main.go:216-240 | moves between pages, back to the list, or refuses |
| `Reader.ReaderContext.RenderTimeline` | adapters/fediverse/main.go:162-197 | lists the posts that fit under title or notice and records how many |
| `Reader.ReaderContext.HandleTimeline` | adapters/fediverse/main.go:198-211 | opens a listed post at its first page, ends, or refuses |
| `Reader.ReaderContext.HandleMenu` | adapters/fediverse/main.go:134-157 | fetches the timeline, shows about, ends, or refuses |
| `Reader.HeaderFor` | adapters/fediverse/main.go:319-325 | the bounded author label, with a counter when there are several pages |
| `ReaderLaws.PageTells` | adapters/fediverse/main.go:287-325 | a post screen is the author in at most 28 GSM runes, which page of how many when there are several, the page itself and the controls |
| `ReaderLaws.StalePageShowsLast` | adapters/fediverse/main.go:295-297 | a stored page past the last is shown and kept as the last |
| `ReaderLaws.ItemTells` | adapters/fediverse/main.go:163-180 | each row of the timeline has its place as key, the author or "Post" and the place, and the age in brackets when there is one |
| `ReaderLaws.StepKeepsReachable` | adapters/fediverse/main.go:125-254 | every event keeps listed within the posts, the cursor on a post and the page within its pages |
| `ReaderDialogue.OnlyShownControlsWork` | adapters/fediverse/main.go:213-311 | over two turns: a control is on the screen just sent exactly when typing it is accepted and the screen has room for it under its notice; what is not accepted repeats the screen under the refusal; a post without pages offers nothing and 0 still leads back |
| `ReaderDialogue.ControlsAreShownIff` | sdk/go/app.go:240-273 | through notice and Shrink a post screen still shows a control exactly when all of it fits or, before the last one, the control and three runes more fit with the marker |
| `ReaderDialogue.NoControlIsReadIff` | sdk/go/app.go:240-273 | on a page with a next one no text of a control can be read anywhere exactly when there is no room for the first |
| `ReaderDialogue.RefusalHidesControls` | sdk/go/app.go:240-273 | after a refused input no control can be read exactly when there is no room for the first under the refusal, and all of them still work |
| `ReaderLaws.NextThenPrevReturns` | adapters/fediverse/main.go:222-233 | Next then Prev gives the same screen and state |
| `ReaderDialogue.PressingNextTurnsPages` | adapters/fediverse/main.go:198-240 | opening an item and pressing 1 shows the pages in order, one each, from the first |
| `ReaderDialogue.ReadingShowsTheWholePost` | adapters/fediverse/main.go:198-311 | from the timeline to the last page every screen is its whole page between header and controls, the next 1 is refused, and what the screens show between them is every visible rune of the post once and in order |
| `ReaderLaws.PostScreensFit` | adapters/fediverse/main.go:271-311 | a post screen fits and is shown whole when the counter is no wider than reserved and the label has no extension character or the page is UCS-2 |
| `ReaderLaws.MiddlePageFitsIff` | adapters/fediverse/main.go:271-279 | on a full middle page the screen fits exactly when counter digits and extension characters stay within four |
| `ReaderLaws.ReserveIsEnoughIff` | adapters/fediverse/main.go:271-279 | counting the label in runes is enough for all texts exactly when it has no extension character |
| `FetchedPosts.CapBytes` | adapters/fediverse/mastodon.go:197-210 | a fetched text keeps to the cap: it is itself, or is cut before the last rune that starts in the allowed bytes, trimmed and marked |
| `FetchedPosts.FetchedReserveIsEnoughIff` | adapters/fediverse/main.go:271-279 | the cap does not help: for the posts that can be fetched counting runes is enough under the same condition |
| `FetchedPosts.FetchedGsmPages` | adapters/fediverse/mastodon.go:23-34 | a fetched post in the GSM alphabet has at most 91 pages |
| `ReaderLaws.TimelineShowsListed` | adapters/fediverse/main.go:162-197 | the timeline, also under a notice, is shown whole: as many posts as fit, one line each, and the way out |
| `ReaderDialogue.OnlyListedItemsOpen` | adapters/fediverse/main.go:162-211 | over two turns: any input opens a post exactly when it reads as a number whose key begins a line of the timeline just sent; 0 is offered and ends; anything else lists again under the refusal |
| `ReaderLaws.KeySelectsItem` | adapters/fediverse/main.go:204-207 | the printed key of an item reads back as that item and no other |
| `ReaderLaws.ChoiceIff` | adapters/fediverse/main.go:202-207 | an input chooses the n-th item exactly when it is n in decimal, with any leading zeros, perhaps after a plus sign, within white space |
| `Shipped.ShippedReserve` | adapters/fediverse/main.go:88-123 | with the shipped strings the reserve is at most 61 in every language |
| `Shipped.ShippedReaderPagesWhole` | adapters/fediverse/main.go:264-282 | so no post loses a visible rune, and pages never exceed one more than its runes |
| `Shipped.ShippedPostScreensFit` | adapters/fediverse/main.go:287-311 | up to 99 pages, with no extension character in the label or a UCS-2 page, the screen is shown unshrunk |
| `Shipped.ShippedTimeline` | adapters/fediverse/main.go:162-197 | the shipped timeline always has room for its way out, also after a refused choice |
| `Shipped.ShippedItems` | adapters/fediverse/main.go:162-211 | on the shipped timeline, in every language, any input but 0 opens a post exactly when the screen just sent lists its key |
| `Shipped.ShippedKeysAreLabels` | adapters/fediverse/main.go:88-123 | in every language each control begins with the key that works it |
| `Shipped.ShippedEmptyPost` | adapters/fediverse/main.go:287-294 | a post without visible text shows the notice for it |
| `Shipped.ShippedReading` | adapters/fediverse/main.go:198-311 | with the shipped strings and reserve, a post of at most 99 pages, as any fetched post in the GSM alphabet is, is read whole under the label condition by opening it and pressing 1 |
| `Shipped.ShippedReserveIsEnoughIff` | adapters/fediverse/main.go:271-279 | with the shipped strings the screens of all fetched posts of an author fit, counters permitting, exactly when the label has no extension character |
| `Shipped.ShippedRefusalHidesControls` | adapters/fediverse/main.go:213-311 | such a dialogue from its first screen, on a post that can be fetched: dial in, press 1 three times, then a wrong key; neither "1. Next" nor "2. Prev" nor "0. Back" can be read, and 1 still turns the page |
| `ShippedMenus.ShippedMenuUnderNotice` | adapters/fediverse/main.go:125-157 | a wrong choice or an unreachable instance shows the menu again under the reason, and its last line, the way out, is then on the screen in every language but French |
| `ShippedMenus.ShippedMenuLeads` | adapters/fediverse/main.go:133-157 | each row of the menu leads where it says: 1 to the titled timeline of what the instance answers, 2 to the closing notice, 0 to the farewell in the dialogue's language |
| `Shipped.ReaderBehindGateway` | adapters/fediverse/main.go:83-254 | over every run through gateway, webhook and SDK the reader answers as in memory, and each stored session is the blob of a sound reader state |

## Left out

- `Pagination.Paginate`: its laws are stated for non-negative reserves; below zero only the equality with the specification function is proved.
- `ReaderLaws.PostScreensFit`: assumes the counter's digits fit the four reserved; a post of more than 99 pages can exceed them, as `ReaderLaws.MiddlePageFitsIff` shows. A fetched post in the GSM alphabet has fewer (`FetchedPosts.FetchedGsmPages`); one in UCS-2 is not bounded below that here.
- `Canonical.Validate`: an event carries neither its arrival time nor its raw body.
- `Routing.ValidateTenant`: parsing a webhook URL is not modelled; a tenant carries the scheme that parsing yields.
- `Gateway.Inbound.Handle`: runs on the store's contract, the map of live sessions with arbitrary failures, rather than on the memory store object. Runs on the memory store are shown to answer as runs on that map in which each expiry is a timeout (`MemoryRuns.MemoryRunIsStoreRun`).
- `Gateway.TurnsCountSavedScreens`: sequential runs only; turn numbers are not unique under concurrent callbacks, as the repository's own notes say.
- `EndToEnd.StatelessEqualsStateful`: sequential runs, all tenants served by the SDK; the tenants' states are one type, each tenant with its own codec.
- `Webhook.Deliver`: the tenant is a function; signing, timeouts, redirects, byte limits and the removal of the raw request body are not modelled, and a nil path and an empty one are the same value.
- `Sdk.Turn`: encoding a state never fails; logging and cancellation are not modelled.
- `Sdk.Translate`: language codes are compared as they are, without lower-casing.
- Invalid UTF-8: texts are sequences of code points, so malformed byte strings are not represented.
- Integer width: counts and times are unbounded; an input number too large for `strconv.Atoi` is refused by the code and, being larger than any list, by the model.
- The Redis store, HTTP servers and clients, logging, request ids, trusted-proxy checks, YAML configuration, the Mastodon client, apart from its byte cap, with its HTML stripping and time formatting, the simulator adapter and terminal, and the web site: plumbing without a property beyond the parts above.
- JSON syntax: blobs are opaque texts, recognised only as empty or `null`.
