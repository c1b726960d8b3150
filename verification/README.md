# AUDENIQ back end: models and proofs

A Dafny 4.11 model of the parts of the music-distribution back end whose behaviour spans many
functions or a whole run, with proofs about them. `dafny verify dfyconfig.toml` checks everything.

Operations that change state step by step are classes and methods with loops, proved against
specification functions on values; properties are lemmas about those functions, over all inputs, all
runs or all interleavings. The invariants proved over all runs are the classes' `Valid()`: every method
that is a whole transaction requires and ensures it. The helpers called inside one
(`RevokeEverySession`, `End`, `StoreCanonical`, `RecordOutputs`, `EnqueueOnce`) run where it does not
hold yet and say what they do to their own rows.

## What is modelled

**The ERN 3.8.2 message.** `XmlTree` has reader events, element trees and the events of a tree.
`ErnWriter` appends events to a buffer, section by section, and is proved to write the events of the
tree that `ErnMessage` describes. `ErnScan` is the scanner with its explicit stack; on the events of a
tree it computes what a tree walk computes. `ErnValidate` has the rules over a scanned message. The
modules `ErnWritten`, `ErnDepth`, `ErnProfile` and `ErnAccepted` join the two sides: every message
written is accepted, with exactly known warnings, and no part of one is. `ErnRead` reads a document from
its events as a recipient does, and `ErnReadBack` says what is then read of a generated message;
`ErnRequests` and `ErnFindings` say which inputs are accepted and which findings appear. `ErnDeals` is about periods
and pre-orders; `IsoDates` and `Numerals` show when comparing dates as text is sound; `ErnSample` has a
release that is generated.

**Territories.** `Territory`, `ContractScope`, `ScopeRequests` and `OutgoingDeals`: narrowing regions, the staff input
and its stored form, and the last check of a message's DealList against the contract, followed from
the writer through the value reader to the comparison.

**State machines.** `Addons` (orders and payments) with `AddonMoney`, `AddonConservation` and
`AddonDesk`; `ContractTerms` (ends of releases and contracts, the sweep); `Stage3` and `Stage3Safety`
(the leased worker and its two fenced transactions); `Credentials` (logins against password changes);
`RateLimit`. One database transaction is one step. Rows are identified by their position.
`AddonRequests`, `ContractRequests`, `CredentialRequests` and `Stage3Progress` state on rows when each
request goes through and what it leaves, and what an accepted one means for every following run.

**Parsers, printers and folds.** `Lyrics`, `AudioHeader`, `AcceptEncoding` with `AcceptMeaning`,
`Transfers`, `Corrections` with `CorrectionRequests`, `MessagePreset`.

## Where the code does not do what it says

Each of these has a lemma with a concrete input or run and one with the exact condition.

- A message with a pre-order deal repeats its territory codes. `narrow` leaves a list as it came when
  the contract is worldwide and keeps repetitions when it filters one, so the comparison with the
  sorted list fails: such a message is refused unless the region is worldwide or both sides are
  exclusions, also when it lies inside the contract (`OutgoingDeals.WithinExactlyWhen`,
  `OutgoingDeals.KoreaRefusedUnderWorldwide`; crates/core/src/contract_scope.rs:204-238).
- An unpaid order can be repriced under an open card window, and the captured amount is then not the
  sum of its parts (`AddonConservation.SyncMatches`, `AddonConservation.RepricedRunLosesMoney`).
- Two `rate_all` calls that read before either writes count a bucket past limit + 1. What is admitted
  stays within the limit (`RateLimit.OvershootsExactlyWhen`, `RateLimit.RacingRateAllOvershoots`,
  `RateLimit.WindowBound`).
- The sweep closes a contract together with at most 200 terms; with more due, terms that were due by
  the contract's date alone stay scheduled until their own date
  (`ContractTerms.StrandsExactlyWhen`; a run: `ContractTerms.CrowdIsReached`, `ContractTerms.CrowdIsStranded`).
- Delivery jobs are queued without READY_FOR_DELIVERY when the release leaves preparation between the
  two transactions (`Stage3Safety.HandoffWithoutReadyExactlyWhen`,
  `Stage3Safety.JobWithoutReady`).
- Dates are compared as text. Text order is calendar order exactly when the years agree in the sense of
  `IsoDates.YearsAgree`, in practice when neither is past 9999 (`IsoDates.TextOrderExactlyWhen`). Beyond,
  a takedown can fail to end the deal (`ErnDeals.TakedownEndsExactlyWhen`, `ErnDeals.TakedownMissed`) and a
  pre-order deal can be missing (`ErnDeals.GuardedPreOrders`, `ErnDeals.PreOrderMissed`). It never opens
  late: the callers refuse a pre-release that does not start before the release, and a deal that starts
  before it (crates/core/src/preparation_model.rs:261-276, crates/core/src/ddex_validate.rs:566-574).
- The version of a message is looked for in its whole text, so a text that holds the address of another
  schema, a title for one, decides it (`ErnProfile.VersionExactlyWhen`, `ErnProfile.AddressInATitle`;
  crates/core/src/ddex_validate.rs:119-141). Whether a written message is accepted does not depend on it.
- The status page starts from the live catalogue and an update from the frozen snapshot, so they show
  different credits when the catalogue has moved on (`Corrections.StatusAgreesExactlyWhen`,
  `Corrections.LateArtistIsNotSent`).

## Model

| member | source | states |
|---|---|---|
| ErnScan.ScanDocument | crates/core/src/ddex_validate.rs:712-846 | the loop with its explicit stack, pending text and growing record gives, for every event list and size, the record or the refusal that folding the events one by one gives |
| ErnScan.RunNode | crates/core/src/ddex_validate.rs:733-836 | below the root's sections, after the events of any element the stack is again exactly the path of open elements, the record has grown by what a walk over the element finds, and the scan stops as too deep exactly when the path plus the element's height passes 64 |
| ErnScan.ScanIsTreeWalk | crates/core/src/ddex_validate.rs:712-846 | on the events of any tree with text in its leaves: refused over 8,000,000 bytes, refused when higher than 64, otherwise the record (root, sections, header, release list, resources defined and referenced, deal references, in document order) is the one a direct tree walk gives |
| ErnScan.TruncatedIsRefused | crates/core/src/ddex_validate.rs:840-844 | a document cut off after any number of events is refused; only the empty prefix gives a record, and that one has no root |
| ErnScan.ReleasesMeaning | crates/core/src/ddex_validate.rs:766-829 | the number of release records is the number of Release elements, and the referenced resources are the texts of all ReleaseResourceReference elements in order; what each record holds is ErnScan.ReleaseRecords |
| ErnValidate.ValidateErnMessage | crates/core/src/ddex_validate.rs:277-472 | the findings pushed step by step are, in order, those the rules give for the detected version and profile and the scanned record |
| ErnValidate.CheckResources | crates/core/src/ddex_validate.rs:441-452 | the loop over references reports exactly the references no resource defines |
| ErnValidate.CheckReleases | crates/core/src/ddex_validate.rs:453-465 | the loop over deals reports exactly the references no release record carries |
| ErnValidate.ResourcesResolve | crates/core/src/ddex_validate.rs:441-452 | no error among them exactly when every reference is defined |
| ErnValidate.ReleasesResolve | crates/core/src/ddex_validate.rs:453-465 | no error among them exactly when every deal names a release of the list |
| ErnValidate.AcceptedExactlyWhen | crates/core/src/ddex_validate.rs:277-472 | a message has no error finding exactly when it scans and its record is sound (root, sections, version and profile rules, references); the expected profile never decides |
| ErnWriter.MessageWriter.MessageHeader | crates/core/src/ddex_ern.rs:325-361 | appends to the growing buffer exactly the header element of the envelope |
| ErnWriter.MessageWriter.Details | crates/core/src/ddex_ern.rs:496-580 | appends exactly the per-territory details of a track: title, artist, contributors, line, technical block, read back by ErnReadBack.RecordingRead |
| ErnWriter.MessageWriter.Recordings | crates/core/src/ddex_ern.rs:444-582 | the loop over the tracks in order appends one recording each, numbered from A1 |
| ErnWriter.MessageWriter.ImageResource | crates/core/src/ddex_ern.rs:596-635 | appends exactly the cover image with the next A-number |
| ErnWriter.MessageWriter.ResourceList | crates/core/src/ddex_ern.rs:437-591 | appends all recordings and then the image, closed |
| ErnWriter.MessageWriter.References | crates/core/src/ddex_ern.rs:683-692 | the loop appends the A-numbers 1 to n + 1, the image's included |
| ErnWriter.MessageWriter.ReleaseList | crates/core/src/ddex_ern.rs:657-736 | appends exactly the one release R001 with its references and dates |
| ErnWriter.MessageWriter.DealTerms | crates/core/src/ddex_ern.rs:800-891 | appends exactly the terms of one deal: models, uses, territories, price, period, display dates |
| ErnWriter.MessageWriter.DealList | crates/core/src/ddex_ern.rs:753-798 | appends the main deal and, when there is one, the pre-order deal |
| ErnWriter.MessageWriter.Message | crates/core/src/ddex_ern.rs:909-972 | from an empty buffer to the whole message, every opened element closed |
| ErnWriter.GenerateDdexErn382 | crates/core/src/ddex_ern.rs:894-973 | the buffer at the end is the events of the message tree, or the first error of metadata, envelope or durations; what they say is ErnReadBack.ReadBack |
| ErnWritten.WalkWritten | crates/core/src/ddex_ern.rs:894-973 | whatever titles, names and dates are, a walk over the message finds one release R001 of the release's type, the A-numbers 1 to n + 1 defined in order and referenced in the same order, and deals for R001 only |
| ErnWritten.ARefsDistinct | crates/core/src/ddex_ern.rs:583-588 | no A-number is defined twice, however many tracks |
| ErnWritten.ResourcesWritten | crates/core/src/ddex_ern.rs:437-635 | the resource list defines exactly A1 to An+1 and has no video |
| ErnWritten.ReleasesWritten | crates/core/src/ddex_ern.rs:657-736 | the release list has one record, R001, which references every A-number |
| ErnWritten.DealsWritten | crates/core/src/ddex_ern.rs:753-798 | the deals name R001 and nothing else |
| ErnDepth.MessageLow | crates/core/src/ddex_ern.rs:894-973 | the message nests at most eight levels and has its only DealList last |
| ErnProfile.ProfileRead | crates/core/src/ddex_validate.rs:145-162 | from the text of the written prolog the detected profile is AudioSingle for one track and AudioAlbum otherwise, whatever text follows |
| ErnAccepted.ScanWritten | crates/core/src/ddex_validate.rs:712-846 | scanning a written message within the size limit gives exactly that record |
| ErnAccepted.WrittenIsAccepted | crates/core/src/ddex_validate.rs:277-472 | every message the writer produces, within the size limit, has no error finding, and exactly which warnings it has; over the limit it has the one size error |
| ErnAccepted.CutOffIsRefused | crates/core/src/ddex_validate.rs:277-472 | no proper prefix of a written message is accepted |
| ErnDeals.DealEndings | crates/core/src/ddex_ern.rs:767-891 | every deal of the message ends on the deal end, or at the last second of that day with a simultaneous release, and no other end is written |
| ErnDeals.DealBeginnings | crates/core/src/ddex_ern.rs:767-891 | the main deal starts on the deal start, or at its instant with a simultaneous release; a pre-order deal starts on the pre-release day, before the deal start; no other start is written |
| ErnDeals.EndIsTheEarlierLimit | crates/core/src/ddex_ern.rs:767-780 | the deal end is the takedown date or the licence's last day, and as text after neither |
| ErnDeals.EndOnTheCalendar | crates/core/src/ddex_ern.rs:767-780 | the deal ends on a calendar day after neither limit exactly when there is one limit or two whose years agree |
| ErnDeals.TakedownEndsExactlyWhen | crates/core/src/ddex_ern.rs:767-780 | of a takedown and a licence the deal ends on the earlier day exactly when their years agree; for a takedown in 0 to 9999, exactly when the licence ends by 9999 |
| ErnDeals.TakedownMissed | crates/core/src/ddex_ern.rs:767-780 | a generated takedown of July 2026 whose deal ends in the year 10000 |
| ErnDeals.PreOrderWritten | crates/core/src/ddex_ern.rs:767-797 | a pre-order deal is written exactly when there is a pre-release start before the deal start, the deal is a download sale and the message is no takedown; then once |
| ErnDeals.PreOrderOnTheCalendar | crates/core/src/ddex_ern.rs:767-797 | pre-order deals appear for exactly the pre-release days strictly before the deal start exactly when the two years agree; with a deal start in 0 to 9999, exactly when the pre-release starts by 9999 |
| ErnDeals.GuardedPreOrders | crates/core/src/ddex_ern.rs:767-797 | when the pre-release starts before the release and no deal before it, as the callers see to, no pre-order deal opens late, and one is missing exactly when the two years do not agree: from the year 0 on, when the pre-release starts by 9999 and the deal later, or both past 9999 and out of reading order |
| ErnDeals.PreOrderMissed | crates/core/src/ddex_ern.rs:767-797 | a generated message of January 10000 without the pre-order deal its pre-release of December 9999 asks for |
| ErnDeals.PreOrderAfterTheDeal | crates/core/src/ddex_ern.rs:767-797 | the writer alone, given a pre-release in the year 10000 for a deal of June 2026, which its callers refuse, writes the pre-order deal late |
| ErnSample.SampleIsGenerated | crates/core/src/ddex_ern.rs:894-973 | a one-track release is generated for every region and all dates: the results about generated messages are not about nothing |
| ErnDeals.TracksInOrder | crates/core/src/ern.rs:50-54 | the tracks written are a permutation of the release's, ordered by disc and number |
| IsoDates.TextOrderIsDateOrder | crates/core/src/ddex_ern.rs:767-780 | for years 0 to 9999, comparing YYYY-MM-DD texts is comparing dates |
| IsoDates.TextOrderExactlyWhen | crates/core/src/ddex_ern.rs:767-780 | for any two dates, comparing the texts is comparing the dates exactly when the years agree: equal, both in 0 to 9999, a negative one against one of those, two past 9999 of which the smaller is not above the leading digits of the larger, or two negative ones of which it is |
| IsoDates.IsoInjective | crates/core/src/ddex_ern.rs:767-780 | no two dates of any years print alike |
| IsoDates.TextOrderFailsPast9999 | crates/core/src/ddex_ern.rs:767-780 | every date past the year 9999 reads before every date of the years 0 to 9999 |
| Territory.NarrowMeets | crates/core/src/territory.rs:111-135 | an answer of narrow reaches a place exactly when both regions do |
| Territory.NarrowNothingLeft | crates/core/src/territory.rs:111-135 | no answer means no common place, or exclusions that together fill the code table |
| Territory.FromCodesOfNormal | crates/core/src/territory.rs:139-155 | a sorted list of codes without repetition is read as itself |
| Territory.FromCodesShape | crates/core/src/territory.rs:139-155 | what is read is worldwide or a sorted, non-empty list of known codes, never exclusions |
| ContractScope.ScopeReach | crates/core/src/contract_scope.rs:59-76 | the scope of a listed and an excluded list reaches exactly the listed places that are not excluded |
| ContractScope.FromInput | crates/core/src/contract_scope.rs:80-113 | the staff input check with its set-building loop gives the scope or the first error, an unreadable or past end date among them |
| ContractScope.ChosenMeaning | crates/core/src/contract_scope.rs:101-106 | the platforms kept are exactly the trimmed codes of the input, sorted, once each, all known |
| ContractScope.StoredRoundTrip | crates/core/src/contract_scope.rs:115-165 | storing a scope and reading it back gives it back |
| ContractScope.InputSurvivesStorage | crates/core/src/contract_scope.rs:80-165 | every scope staff can enter is one of those |
| ContractScope.DspFindings | crates/core/src/contract_scope.rs:178-199 | the findings pushed are exactly the three reasons that apply; none exactly when the platform may receive the release |
| OutgoingDeals.XmlValues | crates/core/src/transport.rs:799-833 | the loop over untrimmed texts, sections and resolved references is the fold over the events up to the first reader error |
| OutgoingDeals.ValuesOfTree | crates/core/src/transport.rs:799-833 | on a tree in which only leaves have the name, it gives exactly their contents, trimmed, in document order |
| OutgoingDeals.WrittenLeafValue | crates/core/src/transport.rs:799-833 | a value the writer wrote, whatever characters it escaped, is read back as itself, trimmed |
| OutgoingDeals.ErnWithin | crates/core/src/contract_scope.rs:204-221 | true without a DealList, otherwise whether narrowing the region read from it by the contract changes nothing |
| OutgoingDeals.DealsEndTheMessage | crates/core/src/contract_scope.rs:204-207 | the part the check reads out of a written message is its DealList and the end tag |
| OutgoingDeals.OneDeal | crates/core/src/contract_scope.rs:208-220 | for a sorted region the comparison holds exactly when the region lies inside the contract's |
| OutgoingDeals.TwoDeals | crates/core/src/contract_scope.rs:208-220 | for codes that come twice it holds exactly when the region lies inside and is worldwide, or both are exclusions |
| OutgoingDeals.WithinExactlyWhen | crates/core/src/contract_scope.rs:204-238 | for every message generated for a region: it passes exactly when the region lies inside the contract's and, with a pre-order deal, the region is worldwide or both are exclusions |
| OutgoingDeals.KoreaRefusedUnderWorldwide | crates/core/src/contract_scope.rs:204-221 | a generated message for Korea alone, with a pre-order deal, is refused under a worldwide contract although its region lies inside |
| AddonMoney.StepKeeps | crates/core/src/addons.rs:459-1290 | submission, balance payment, window, confirmation, cancellation and staff step each keep all of `Inv` |
| AddonMoney.RunKeeps | crates/core/src/addons.rs:459-1290 | in every reachable state: an order in work, delivered or completed is paid; a release has one live order per service; for each captured card payment the prices of its orders are the open ones plus the given-back ones; balance plus open balance-paid orders is the other income; each order is charged once and given back exactly once when closed, never otherwise |
| AddonMoney.PayableIs | crates/core/src/addons.rs:547-559 | the orders a payment takes are exactly the unpaid waiting ones of the release that were asked for, once each |
| AddonConservation.ConservedExactlyWhen | crates/core/src/addons.rs:638-721 | in every reachable state the captured amount is conserved exactly when it equals the prices its orders have now |
| AddonConservation.SyncMatches | crates/core/src/addons.rs:479-492 | a resubmission keeps every payment in step with its orders exactly when it reprices no order of an open window |
| AddonConservation.WindowMatches | crates/core/src/addons.rs:586-607 | opening a window, with its amount stored in 32 bits, keeps them in step |
| AddonConservation.AtMostThree | crates/core/src/addons.rs:547-602 | a payment takes at most three orders, so that amount does not wrap |
| AddonConservation.QuietRunsConserve | crates/core/src/addons.rs:459-1290 | in every run without such a repricing each captured payment is conserved, however many windows were opened and whatever was closed meanwhile |
| AddonConservation.RepricedRunLosesMoney | crates/core/src/addons.rs:479-492 | a run that resubmits with a higher price under an open window captures 100 for an order of 300 |
| AddonConservation.ChargeAllExactlyWhen | migrations/0157_addon_services.sql:130-148 | paying several orders from the balance charges all, or is refused exactly when the balance is below their total |
| AddonConservation.StepKeepsFinal | crates/core/src/addons.rs:726-808 | no step touches a cancelled, rejected or completed order |
| AddonConservation.FinalForever | crates/core/src/addons.rs:726-808 | nor does any run |
| AddonDesk.Desk.SyncFromSubmission | crates/core/src/addons.rs:459-521 | the loop over the choices of a submission updates, closes and inserts orders as AddonRequests.SubmitOutcome says; the new tables are those of the step |
| AddonDesk.Desk.PayFromBalance | crates/core/src/addons.rs:560-585 | charges the orders in turn and takes nothing back out only by failing as a whole; the new tables are those of the step |
| AddonDesk.Desk.PayByCard | crates/core/src/addons.rs:586-630 | opens a window that fixes the orders and their total; the new tables are those of the step |
| AddonDesk.Desk.ConfirmPayment | crates/core/src/addons.rs:638-721 | captures once, settles the orders still waiting and gives back the parts of the others; the new tables are those of the step |
| AddonDesk.Desk.CloseAndRefund | crates/core/src/addons.rs:726-776 | closes an order and gives back what was paid the way it was paid, or changes nothing; the new tables are those of the step |
| AddonDesk.Desk.CancelOrder | crates/core/src/addons.rs:779-808 | the artist may close an order that is not in work; the new tables are those of the step |
| AddonDesk.Desk.StaffUpdate | crates/core/src/addons.rs:1223-1290 | the staff moves and which statuses they leave from; the new tables are those of the step |
| AddonDesk.Desk.Charge | migrations/0157_addon_services.sql:130-148 | one order charged, or refused and nothing changed |
| RateLimit.FrozenIsPlainCutOff | crates/core/src/auth.rs:275-288 | for calls at any times the frozen count is the plain count cut off at limit + 1, in the same window |
| RateLimit.SameVerdicts | crates/core/src/auth.rs:275-288 | so both give every call the same verdict |
| RateLimit.OverChangesNothing | crates/core/src/auth.rs:275-288 | a call on a bucket that is over changes nothing; any other call changes it |
| RateLimit.FrozenWhileOver | crates/core/src/auth.rs:275-288 | over any number of further calls in its window a bucket that is over refuses all and keeps its row |
| RateLimit.TwoWindows | crates/core/src/auth.rs:275-288 | for calls in order, an interval as long as a window meets at most two windows |
| RateLimit.SlidingBound | crates/core/src/auth.rs:275-288 | no fifteen minutes admit more than twice the limit |
| RateLimit.WindowBound | crates/core/src/auth.rs:275-312 | with rate and rate_all mixed and racing, no window of a bucket admits more calls than its limit |
| RateLimit.MixedSlidingBound | crates/core/src/auth.rs:275-312 | nor does any fifteen minutes admit more than twice its limit |
| RateLimit.CallOnBucket | crates/core/src/auth.rs:275-312 | a call either leaves a bucket or counts it once, and is admitted only within its limit |
| RateLimit.OvershootsExactlyWhen | crates/core/src/auth.rs:292-312 | a call takes a bucket past limit + 1 exactly when it is a rate_all whose read missed that one of its buckets is at limit + 1 by now |
| RateLimit.FreshRunsAreCapped | crates/core/src/auth.rs:275-312 | without such races no bucket passes limit + 1, and a call refused because some bucket is over counts nothing in any |
| RateLimit.RacingRateAllOvershoots | crates/core/src/auth.rs:292-312 | two racing rate_all calls count a bucket to limit + 2 |
| RateLimit.LimitTable.RateOnce | crates/core/src/auth.rs:275-288 | the statement on one bucket; the other buckets are untouched |
| RateLimit.LimitTable.RateAll | crates/core/src/auth.rs:292-312 | the read over all buckets and the loop over them: what the step does to every bucket and the verdict |
| Credentials.RunKeeps | crates/core/src/auth.rs:585-1017 | in every interleaving each live password session was opened with the user's current password version |
| Credentials.OneCommitPerPassword | crates/core/src/auth.rs:919-1017 | of all changes and resets that replaced one password at most one committed |
| Credentials.SecondChangeRefused | crates/core/src/auth.rs:919-1017 | of two changes that verified the same hash, once one commits the other never does, whatever happens between |
| Credentials.NothingSurvivesANewPassword | crates/core/src/auth.rs:988-998 | after a committed change or reset none of the user's sessions of that time is ever live again, in any run that follows |
| Credentials.Accounts.CommitLogin | crates/core/src/auth.rs:705-755 | a session is opened only if the verified hash is still the stored one and the user active; the new tables are those of the step |
| Credentials.Accounts.RevokeEverySession | crates/core/src/auth.rs:885-918 | the loop revokes all sessions of the user and no other; the new tables are those of the step |
| Credentials.Accounts.ReplacePassword | crates/core/src/auth.rs:988-998 | new version, sessions revoked, reset tokens closed; the new tables are those of the step |
| Credentials.Accounts.CommitChange | crates/core/src/auth.rs:919-1017 | commits only with the same hash and a live session; the new tables are those of the step |
| Credentials.Accounts.CommitReset | crates/core/src/password_reset.rs:340-417 | consumes an unexpired token once and sets a new password; the new tables are those of the step |
| Credentials.Accounts.RevokeSession | crates/core/src/auth.rs:849-884 | revokes one of the user's own sessions; the new tables are those of the step |
| Credentials.Accounts.SignOutEverywhere | crates/core/src/auth.rs:885-918 | ends every session of the user; the new tables are those of the step |
| ContractTerms.StepKeepsClosed | crates/core/src/contract_terms.rs:123-157 | no step reopens a term that has ended |
| ContractTerms.EndedForever | crates/core/src/contract_terms.rs:123-157 | over any run an ended term stays ended |
| ContractTerms.RunTakedownsOnce | crates/core/src/contract_terms.rs:472-533 | in every reachable state the takedowns of a release were queued once if its term has ended and never otherwise |
| ContractTerms.RunSameOrg | crates/core/src/contract_terms.rs:123-157 | a term always belongs to the organisation of its release, and no contract end is marked as set by staff |
| ContractTerms.StaffEndsStay | crates/core/src/contract_terms.rs:160-464 | a stored end marked as staff's is unchanged in any run without a staff step on the release or a sweep (from the request on: ContractRequests.StaffTerminationStands) |
| ContractTerms.OwnEndsStay | crates/core/src/contract_terms.rs:357-464 | a release's own end is unchanged in any run without an artist's or staff's step on it or a sweep, however often the contract's end is scheduled and cancelled |
| ContractTerms.ArtistsMoveOnlyTheirOwn | crates/core/src/contract_terms.rs:160-325 | an artist's step leaves every end set by staff or by the whole contract as it is |
| ContractTerms.OwnersMoveOnlyContractEnds | crates/core/src/contract_terms.rs:357-464 | an owner's step leaves every release's own end and every ended term as it is |
| ContractTerms.ScheduleThenCancel | crates/core/src/contract_terms.rs:357-464 | after scheduling and cancelling a contract's end exactly the releases with an end of their own are scheduled, unchanged |
| ContractTerms.OwnFirst | crates/core/src/contract_terms.rs:493-502 | a batch takes terms past their own date before any other |
| ContractTerms.SweepDrains | crates/core/src/contract_terms.rs:472-533 | one sweep removes min(200, due) from the terms past their own date |
| ContractTerms.RepeatedSweepsDrain | crates/core/src/contract_terms.rs:472-533 | n sweeps of a day remove min(200 n, due) |
| ContractTerms.StrandsExactlyWhen | crates/core/src/contract_terms.rs:493-531 | a sweep that closes a contract leaves one of its terms scheduled past the contract's date exactly when more than 200 are due and one is due by that date alone |
| ContractTerms.CrowdIsStranded | crates/core/src/contract_terms.rs:493-531 | a run with 201 releases whose sweep closes the contract and leaves one release scheduled a hundred days on |
| ContractTerms.CrowdIsReached | crates/core/src/contract_terms.rs:160-425 | that run, release by release, reaches the state |
| ContractTerms.StrandedIsBlocked | migrations/0123_review_fixes.sql:6-19 | such a release keeps its platforms until its own date, and new deliveries are blocked at once |
| ContractTerms.StrandedStaysBlocked | migrations/0123_review_fixes.sql:6-19 | and from that day on in every run that follows |
| ContractTerms.Register.WriteTerm | crates/core/src/contract_terms.rs:123-157 | refused exactly for a closed row; no closed row is reopened and nothing else changes; the new tables are those of the specification |
| ContractTerms.Register.SetReleaseTerm | crates/core/src/contract_terms.rs:160-224 | an artist or staff sets a release's end; the new tables are those of the specification |
| ContractTerms.Register.CancelReleaseTerm | crates/core/src/contract_terms.rs:293-325 | and takes it back; the new tables are those of the specification |
| ContractTerms.Register.TakeOver | crates/core/src/contract_terms.rs:357-399 | the loop over the organisation's releases; the new tables are those of the specification |
| ContractTerms.Register.SetOrgTerm | crates/core/src/contract_terms.rs:402-425 | the owner ends the contract; the new tables are those of the specification |
| ContractTerms.Register.CancelOrgTerm | crates/core/src/contract_terms.rs:429-464 | and takes it back together with the ends it had set; the new tables are those of the specification |
| ContractTerms.Register.Terminate | crates/core/src/contract_terms.rs:568-621 | staff end a release now or later, as ContractRequests.StaffOutcome says; the new tables are those of the specification |
| ContractTerms.Register.SettleFinally | crates/core/src/contract_terms.rs:631-663 | final settlement of an ended term; the new tables are those of the specification |
| ContractTerms.Register.PickBatch | crates/core/src/contract_terms.rs:493-502 | at most 200 due terms, those past their own date first, oldest first; the new tables are those of the specification |
| ContractTerms.Register.EndBatch | crates/core/src/contract_terms.rs:503-526 | the loop that ends each and queues its takedowns once; the new tables are those of the specification |
| ContractTerms.Register.Warn | crates/core/src/contract_terms.rs:475-492 | every end at most thirty days ahead has its notice, and nothing else changes: what is due stays due; the new tables are those of the specification |
| ContractTerms.Register.SweepTerms | crates/core/src/contract_terms.rs:472-533 | the whole transaction; the new tables are those of the specification |
| Stage3.WorkIsOwn | crates/core/src/distribution.rs:690-1030 | a worker's step changes the stage of its own attempt only, and never that of a committed one |
| Stage3.StepKeeps | crates/core/src/distribution.rs:690-1030 | every step keeps all of `Consistent` |
| Stage3.RunKeeps | crates/core/src/distribution.rs:690-1030 | over every interleaving of claims, lost leases, crashes, retries and moving epochs: one snapshot per verification package, one frozen package per snapshot, one delivery job of each kind per package; every attempt's references are to its own rows; lease tokens differ; a ready release was made so by a committed attempt of its own |
| Stage3Safety.NoLeaseNoCommit | crates/core/src/distribution.rs:762-910 | without its lease an attempt writes nothing in either fenced transaction and stops |
| Stage3Safety.OneHolder | crates/core/src/operations.rs:246-298 | at most one attempt holds a job |
| Stage3Safety.StaleForever | crates/core/src/operations.rs:246-298 | a lease once taken over is never held by the old attempt again |
| Stage3Safety.StaleNeverWrites | crates/core/src/distribution.rs:762-910 | and in no run that follows does it commit, or store a snapshot it had not |
| Stage3Safety.OnePackage | crates/core/src/distribution.rs:344-407 | a verification package has one frozen package |
| Stage3Safety.OneHandoffPerVerification | crates/core/src/distribution.rs:690-1030 | and at most one delivery job of each kind |
| Stage3Safety.ReadyIsBacked | crates/core/src/distribution.rs:845-1018 | READY_FOR_DELIVERY implies package, artifact and both jobs, and that the attempt read the epoch the package pins |
| Stage3Safety.HandoffWithoutReadyExactlyWhen | crates/core/src/distribution.rs:911-915 | jobs are queued without READY exactly when the second transaction commits after the release has left preparation |
| Stage3Safety.JobMeansReady | crates/core/src/distribution.rs:911-915 | in runs in which nothing else moves a preparing or ready release, a delivery job means READY |
| Stage3Safety.CorrectedRunReaches | crates/core/src/distribution.rs:690-1030 | a correction between the two transactions is reached by a run |
| Stage3Safety.JobWithoutReady | crates/core/src/distribution.rs:911-915 | and the second transaction then queues the jobs of a release in correction |
| Stage3Safety.Store.StoreCanonical | crates/core/src/distribution.rs:314-337 | the snapshot's row, inserted once; the new tables are those of the step |
| Stage3Safety.Store.RunFirstTransaction | crates/core/src/distribution.rs:762-839 | lease check, snapshot, status, as Stage3Progress.FirstOutcome says; the new tables are those of the step |
| Stage3Safety.Store.FreezePackage | crates/core/src/distribution.rs:344-407 | look, then insert; the new tables are those of the step |
| Stage3Safety.Store.RunSecondTransaction | crates/core/src/distribution.rs:900-1018 | lease check, READY, outputs and jobs; the new tables are those of the step |
| Stage3Safety.Store.RecordOutputs | crates/core/src/distribution.rs:951-1001 | artifact and both jobs are there, no row is there twice that was not, the others are as they were, and repeating it changes nothing; the new tables are those of the step |
| Stage3Safety.Store.EnqueueOnce | crates/core/src/operations.rs:59-69 | the key is there, once if no key was there twice, and a second call with it changes nothing; the new tables are those of the step |
| Lyrics.LrcLines | crates/core/src/addons.rs:97-142 | the loop over the lines gives the number of timed lines or refuses |
| Lyrics.ReadLine | crates/core/src/addons.rs:103-137 | one line of the loop |
| Lyrics.ReadTags | crates/core/src/addons.rs:108-130 | the inner loop over a line's tags |
| Lyrics.PrintedIsRead | crates/core/src/addons.rs:97-142 | every printed sheet that fits (headers, blank lines, lines with one or more stamps) is accepted with its number of timed lines |
| Lyrics.ReadIsPrinted | crates/core/src/addons.rs:97-142 | whatever is accepted is the print of such a sheet |
| AudioHeader.Probe | crates/core/src/audio_header.rs:22-124 | the FLAC branch and the WAV walk with its moving position, never reading past the end |
| AudioHeader.UnpackPack | crates/core/src/audio_header.rs:39-46 | unpacking the 64-bit STREAMINFO word of section 8.2 of RFC 9639 inverts packing for all field values |
| AudioHeader.PackUnpack | crates/core/src/audio_header.rs:39-46 | and packing inverts unpacking for all 64-bit words |
| AudioHeader.AnsweredExactlyWhen | crates/core/src/audio_header.rs:56-124 | a WAV file is answered exactly when at most 4096 chunks from byte 12 on give the answer |
| AudioHeader.ChainFacts | crates/core/src/audio_header.rs:56-124 | such a chain has strictly growing positions inside the file, ends it with its only data chunk read, and has a valid fmt chunk before it |
| AudioHeader.FlacRoundTrip | crates/core/src/audio_header.rs:26-55 | probing a FLAC header written with any fields gives back its rate, channels, depth and frames exactly when STREAMINFO comes first and whole, block sizes are in order, the depth is at least 4 and there is a length |
| AudioHeader.WavRoundTrip | crates/core/src/audio_header.rs:56-124 | probing a WAV file written with any format fields, other chunks around, a longer format chunk, any declared size and data cut short gives back rate, channels, depth and frames exactly when the fields are plain PCM and the data chunk is usable |
| AcceptEncoding.EncodingQuality | web/shared/transport.ts:29-43 | the nested loops over declarations and parameters compute the quality, in thousandths |
| AcceptEncoding.LowestDeclared | web/shared/transport.ts:31-41 | each name has the lowest quality any of its declarations gives |
| AcceptEncoding.ForwardedReadsBack | web/shared/transport.ts:47-53 | the printed header reads back as the two qualities it was made from |
| AcceptEncoding.ForwardingKeepsQuality | web/shared/transport.ts:29-53 | for any header text the forwarded one gives br and gzip the same qualities (sections 12.4.2 and 12.5.3 of RFC 9110) |
| AcceptEncoding.ForwardingTwice | web/shared/transport.ts:47-53 | forwarding twice is forwarding once |
| Transfers.ReadLimitedBody | web/shared/transport.ts:110-134 | the filled buffer is the whole body, or too large exactly when the declared length or the received bytes pass the limit, however the body is cut |
| Transfers.VideoComplete | crates/core/src/addons.rs:971-978 | the loop over the stored parts checks number and size of each |
| Transfers.CompleteExactlyWhen | crates/core/src/addons.rs:826-831 | it passes exactly on parts numbered from 1, all full but the last, that one not empty, together the declared size |
| Corrections.NormalizeCredits | crates/core/src/corrections.rs:102-121 | the loop keeps trimmed credits once each, or stops at the first error |
| Corrections.Normalize | crates/core/src/corrections.rs:83-131 | the checked request or the first error |
| Corrections.NormalizedIsClean | crates/core/src/corrections.rs:83-131 | an accepted request names tracks of the release once each, and no artist's credit |
| Corrections.Approve | crates/core/src/corrections.rs:374-420 | the nested loops of an approval give the recorded correction and the parties created |
| Corrections.Party | crates/core/src/corrections.rs:349-370 | an existing party of the name, or a new one; a party that exists changes nothing |
| Corrections.ApprovedCreditsAre | crates/core/src/corrections.rs:391-409 | names and roles are the request's and each party is the one of that name |
| Corrections.ApprovedIsClean | crates/core/src/corrections.rs:374-420 | an approved request fixes different tracks of the release and has no artist's credit |
| Corrections.OverlayOne | crates/core/src/corrections.rs:511-542 | one correction over all tracks: locked credits kept, the correction's appended |
| Corrections.Overlay | crates/core/src/corrections.rs:501-544 | all approved corrections in order |
| Corrections.FoldIsClosedForm | crates/core/src/corrections.rs:501-544 | for corrections without an artist's credit each track ends with its original locked credits and then exactly those of the last correction that names it |
| Corrections.OverlayTwice | crates/core/src/corrections.rs:501-544 | for such corrections applying the list twice is applying it once |
| Corrections.ApprovedFoldIsClosedForm | crates/core/src/corrections.rs:501-544 | for every list of requests: the fold of the approved ones is the closed form, and names and roles after the locked credits are exactly what the last accepted request naming the track asked for |
| Corrections.ApprovedTwice | crates/core/src/corrections.rs:501-544 | for every list of requests applying the approved ones twice is applying them once |
| Corrections.LockedFixDoubles | crates/core/src/corrections.rs:71-76 | were a locked credit ever in a correction, repeating it would double the credit |
| Corrections.Status | crates/core/src/corrections.rs:277-310 | the loops that fold the corrections for the status page |
| Corrections.StatusAgrees | crates/core/src/corrections.rs:277-310 | from the same credits, what the status page shows of a track is what the overlay sends |
| Corrections.StatusAgreesExactlyWhen | crates/core/src/corrections.rs:235-314 | for every list of requests, from the live catalogue on one side and the frozen snapshot on the other: the two agree on a track exactly when its locked credits are the same in both, or all its credits when no accepted request names it |
| Corrections.LateArtistIsNotSent | crates/core/src/corrections.rs:235-314 | an artist added to the catalogue after the snapshot is shown and never sent, whatever is approved |
| MessagePreset.Render | crates/core/src/ddex_preset.rs:117-151 | the loop over the shrinking rest gives the filled template or refuses |
| MessagePreset.PrintedIsFilled | crates/core/src/ddex_preset.rs:117-151 | the print of literals and variables is filled with the literals and values in order |
| MessagePreset.FilledIsPrinted | crates/core/src/ddex_preset.rs:117-151 | nothing else is: an unknown or unclosed variable is refused |
| MessagePreset.RendersExactlyWhen | crates/core/src/ddex_preset.rs:117-151 | rendering succeeds exactly on such a print with a value that is not blank |
| MessagePreset.Resolve | crates/core/src/ddex_preset.rs:83-112 | the default, the override or an error, field by field |
| MessagePreset.ResolvesExactlyWhen | crates/core/src/ddex_preset.rs:83-112 | an override resolves exactly when its template is the print of literals and variables with a variable or a literal that is not blank, and its offset fits 32 bits |
| MessagePreset.ResolvedAlwaysRenders | crates/core/src/ddex_preset.rs:94-151 | a resolved preset renders for every non-blank package, platform and date, to its pieces with the values put in |
| MessagePreset.DefaultRenders | crates/core/src/ddex_preset.rs:48-55 | the default template renders the platform's old message id |
| ErnScan.ReleaseRecords | crates/core/src/ddex_validate.rs:814-824 | without the scanner's own step: record k of the release list has as reference and type the last such texts found from the k-th Release element up to the next one |
| ErnScan.RecordsOfReleases | crates/core/src/ddex_validate.rs:814-824 | when every child of the list is a Release, record k has the last reference and type text inside the k-th one |
| ErnScan.GroupsAreTheList | crates/core/src/ddex_validate.rs:766-829 | those stretches put together are the list, the first one being what stands before any Release |
| ErnScan.GroupsStartWithReleases | crates/core/src/ddex_validate.rs:766-829 | each later stretch starts with a Release and has no other |
| Roles.RolesAreKnown | crates/core/src/ddex_ern.rs:394-413 | every role written is one of eight ERN knows; exactly the spellings of an artist and a featured artist are locked |
| ErnReadBack.ReadBack | crates/core/src/ddex_ern.rs:894-973 | read from its events alone, every generated message is one element in which header, update mark, each recording, the image, the release and each deal say, under the names and in the order of ERN 3.8.2, what envelope, tracks in order and release say |
| ErnReadBack.HeaderRead | crates/core/src/ddex_ern.rs:325-361 | thread and message id, sender, principal and recipient with their ids, creation time and control type |
| ErnReadBack.RecordingRead | crates/core/src/ddex_ern.rs:437-582 | the k-th recording has the ISRC, both titles, version, language, duration, display artist and page, credits with roles, line, codec, measured values, preview, file name and hash of its track, and the references A and TA with k |
| ErnReadBack.ResourcesRead | crates/core/src/ddex_ern.rs:437-591 | recording k is that of the k-th track in order; then the image |
| ErnReadBack.ReleaseRead | crates/core/src/ddex_ern.rs:657-752 | UPC, R001, title, the A-numbers, type, display artist, warning, dates and both lines |
| ErnReadBack.TermsRead | crates/core/src/ddex_ern.rs:800-891 | models, uses, territories, price, order mark, period by the two limits and the opening, and display dates of a deal |
| ErnReadBack.DealsRead | crates/core/src/ddex_ern.rs:753-798 | the deals name R001: one, and one more exactly for a download store before the deal opens |
| ErnRequests.GeneratedExactlyWhen | crates/core/src/ddex_ern.rs:249-293 | a message is written exactly for a complete release in a complete envelope with measured tracks; what is missing first is the answer |
| ErnProfile.VersionExactlyWhen | crates/core/src/ddex_validate.rs:119-141 | a written message is taken for 3.8.2 exactly when nothing behind the root's attributes names a 4.x schema |
| ErnProfile.AddressInATitle | crates/core/src/ddex_validate.rs:119-141 | with the address of the 4.3 schema in any of its texts it is taken for 4.3 |
| ErnFindings.FindingsHaveCauses | crates/core/src/ddex_validate.rs:277-472 | each rule's finding appears exactly when the record gives cause for it, as advice or as an error by the rule; a message not read, or with another root, draws that one error |
| ScopeRequests.ListMeans | crates/core/src/territory.rs:139-155 | a list is refused exactly when an entry before the first world marker is no code; it is everywhere with a marker or without entries, otherwise exactly its codes, sorted, once each |
| ScopeRequests.NarrowExactlyWhen | crates/core/src/territory.rs:111-135 | no answer exactly when no place is left or the exclusions name 251 different codes |
| ScopeRequests.TerritoriesOutcome | crates/core/src/contract_scope.rs:59-76 | invalid exactly when a list cannot be read; empty exactly when everything is excluded, by a marker or code by code |
| ScopeRequests.InputExactlyWhen | crates/core/src/contract_scope.rs:80-113 | staff may enter a scope exactly when lists are short, territories readable and left, the last day not past and the platforms known; it is what was entered |
| ScopeRequests.InputErrors | crates/core/src/contract_scope.rs:80-113 | the first thing wrong is the answer |
| ScopeRequests.StoredDefaults | crates/core/src/contract_scope.rs:115-165 | missing members of the stored object mean everywhere, every platform, no user uploads |
| AddonRequests.SubmitOutcome | crates/core/src/addons.rs:459-521 | after a submission a dropped service has no waiting order, the one it had being cancelled with the rest of the row as it was; a wanted one has exactly one live order, at the new price when unpaid or new, the old row when paid; every other row and table is as it was |
| AddonRequests.RefusedExactlyWhen | crates/core/src/addons.rs:547-559 | a payment is refused exactly when nothing waits, or a named order does not wait or is named twice |
| AddonRequests.BalanceOutcome | crates/core/src/addons.rs:560-585 | it goes through from the balance exactly when it may and the balance covers the bill; then exactly the covered orders are paid and submitted, each charged its price once |
| AddonRequests.WindowOutcome | crates/core/src/addons.rs:586-630 | a card window opens exactly when it may, cards are ready and the bill is between 1 and 2147483647; it lists the covered orders and the bill |
| AddonRequests.ConfirmOutcome | crates/core/src/addons.rs:638-721 | a window is taken exactly when open and approved: waiting orders are paid by it, and exactly one part goes back for each other one, of its price |
| AddonRequests.CloseOutcome | crates/core/src/addons.rs:726-776 | a live order is closed, its payment given back the way it came, and nothing else moves; refused exactly when the card part cannot go back |
| AddonRequests.CancelOutcome | crates/core/src/addons.rs:779-808 | an artist may cancel exactly an order that waits or was submitted |
| AddonRequests.StaffOutcome | crates/core/src/addons.rs:1223-1290 | staff may do exactly the moves of the table, a rejection with a note; only a rejection moves money |
| RateLimit.AdmittedExactlyWhen | crates/core/src/auth.rs:275-288 | call k is admitted exactly when fewer than the limit came before it in its fifteen-minute window, counted by positions in the list of calls |
| RateLimit.PausedIsAdmitted | crates/core/src/auth.rs:275-288 | more than fifteen minutes after the last call the next one is admitted |
| RateLimit.CallOutcome | crates/core/src/auth.rs:275-312 | when a call counts nothing, what each of its rows is otherwise, and that it is admitted exactly when none then passes its limit |
| CredentialRequests.LoginOutcome | crates/core/src/auth.rs:705-755 | a session is opened exactly when the verified hash is still that of the active user |
| CredentialRequests.BeginLoginOutcome | crates/core/src/auth.rs:585-704 | only a verified password of an active user starts a login, at the hash of the moment |
| CredentialRequests.BeginChangeOutcome | crates/core/src/auth.rs:919-960 | a change starts from a session of an active user, with the hash of the moment |
| CredentialRequests.WrongPasswordChangesNothing | crates/core/src/auth.rs:919-1017 | a change asked for with a wrong old password never goes through, in any run |
| CredentialRequests.ChangeOutcome | crates/core/src/auth.rs:919-1017 | a change goes through exactly with a live session, an active user, the hash it saw and the right old password; then the hash is new and exactly the user's sessions are revoked |
| CredentialRequests.ResetOutcome | crates/core/src/password_reset.rs:340-417 | a reset goes through exactly with an unused token in time of an active user, and uses up all the user's tokens |
| CredentialRequests.RevokeOutcomes | crates/core/src/auth.rs:849-918 | sessions are revoked exactly by a live session of their user, one or all |
| CredentialRequests.TokensWorkOnce | crates/core/src/password_reset.rs:340-417 | after a reset no token sent to the user before ever resets again, in any run |
| CredentialRequests.LateLoginRefused | crates/core/src/auth.rs:705-755 | a login verified before a change or reset never gets in after it, in any run |
| CredentialRequests.NewPasswordSignsIn | crates/core/src/password_reset.rs:340-417 | after a reset the new password opens the user's only live session |
| CredentialRequests.SignedOutForGood | crates/core/src/auth.rs:885-918 | after signing out everywhere no session of the user of that time is live again, in any run |
| ContractRequests.StaffOutcome | crates/core/src/contract_terms.rs:568-621 | staff may end any release that has not ended, for three reasons; the row then is theirs |
| ContractRequests.ArtistOutcome | crates/core/src/contract_terms.rs:160-224 | when an artist's end is accepted, on catalogue, notice and row, and what the row then is |
| ContractRequests.CancelOutcome | crates/core/src/contract_terms.rs:293-325 | an artist takes back exactly a scheduled end that neither staff nor the contract set |
| ContractRequests.SettleOutcome | crates/core/src/contract_terms.rs:631-663 | exactly an ended term is settled |
| ContractRequests.OwnerOutcome | crates/core/src/contract_terms.rs:357-425 | with thirty days' notice every submitted release without an end of its own takes the contract's, every other row stays |
| ContractRequests.OwnerCancelOutcome | crates/core/src/contract_terms.rs:429-464 | a scheduled contract end is taken back together with exactly the ends it set |
| ContractRequests.BatchOutcome | crates/core/src/contract_terms.rs:493-502 | a batch has at most 200 terms, all due; a due one is left out only when the batch is full of earlier ones |
| ContractRequests.SweepOutcome | crates/core/src/contract_terms.rs:472-533 | every row after a sweep: ended with settlement due in ninety days, warned in the thirty days before, contracts that are past over, one takedown more for each ended term |
| ContractRequests.StaffTerminationStands | crates/core/src/contract_terms.rs:293-621 | after an accepted staff termination, in every run without a staff step on the release or a sweep, its end stands with day and reason and no artist sets or cancels it |
| ContractRequests.ArtistEndStands | crates/core/src/contract_terms.rs:160-464 | an artist's accepted end stands the same way while the contract's end is set and taken back |
| ContractRequests.TerminationIsCarriedOut | crates/core/src/contract_terms.rs:472-621 | and the first sweep from its day on with at most 200 due ends it for good, with its takedowns queued exactly once |
| Stage3Progress.FirstOutcome | crates/core/src/distribution.rs:762-839 | with its lease, on a release that passed Stage 2 or prepares, an attempt stores its own snapshot and the release prepares; with the epoch moved the release goes to correction and no row is added; otherwise nothing happens |
| Stage3Progress.LookOutcome | crates/core/src/distribution.rs:344-407 | the package found is that of the snapshot, and nothing is added |
| Stage3Progress.FreezeOutcome | crates/core/src/distribution.rs:344-407 | a package is added only when no other attempt added it meanwhile |
| Stage3Progress.CheckOutcome | crates/core/src/distribution.rs:845-900 | the checks pass exactly with their outcome at the pinned epoch |
| Stage3Progress.SecondOutcome | crates/core/src/distribution.rs:900-1018 | with its lease and a ledger that agrees the attempt commits, its outputs and jobs are there, and a preparing release is ready by it; otherwise nothing happens |
| Stage3Progress.ClaimOutcome | crates/core/src/operations.rs:246-298 | a queued job with attempts left is claimed with a token nobody had |
| Stage3Progress.ReclaimOutcome | crates/core/src/operations.rs:82-130 | a job whose lease ran out is queued again while attempts are left; after that it is dead and its release in correction |
| Stage3Progress.RetryCompletes | crates/core/src/distribution.rs:799-817 | whatever ran before and wherever its worker stopped: reclaimed and claimed again, the new attempt makes the release ready in its five steps, whatever steps earlier attempts at the job take in between |
| Stage3Progress.CrashIsMadeGood | crates/core/src/distribution.rs:799-817 | so an attempt that crashed before committing is made good by the next |
| Stage3Progress.LastCrashIsReported | crates/core/src/operations.rs:473-510 | and after the last attempt the release is in correction: it never stays in preparation for good |
| AcceptMeaning.QualityMeans | web/shared/transport.ts:29-43 | an encoding has the lowest quality declared for it, else the wildcard's lowest, else none |
| AcceptMeaning.QualityParameter | web/shared/transport.ts:34-36 | a parameter is a quality exactly when it is q, blanks, an equals sign, blanks and the value |
| AcceptMeaning.LastQuality | web/shared/transport.ts:33-38 | the last quality of a declaration counts; without one it is full |
| AcceptMeaning.ThousandthsMeans | web/shared/transport.ts:37-37 | a text of the grammar of section 12.4.2 of RFC 9110 is what it says in thousandths, any other is 0 |
| CorrectionRequests.CreditsOutcome | crates/core/src/corrections.rs:102-121 | credits are accepted exactly when each is well formed and no artist's; kept trimmed, once each, in order of first appearance; the first bad one is the error |
| CorrectionRequests.AcceptedExactlyWhen | crates/core/src/corrections.rs:83-131 | a request is accepted exactly when genre, tracks and credits are good and it asks for something; what it then asks for |
| CorrectionRequests.RefusedAtTheFirst | crates/core/src/corrections.rs:83-131 | the error is that of the first thing wrong |
| CorrectionRequests.ArtistsAreKept | crates/core/src/corrections.rs:71-76 | the credits left in place are exactly the artists', in their order |
| CorrectionRequests.UpdateCarries | crates/core/src/corrections.rs:501-544 | an update sends of a track its artists' credits and those of the last entry of the last correction that names it |
| CorrectionRequests.LastGenre | crates/core/src/corrections.rs:501-544 | the genre is that of the last correction that has one |
| MessagePreset.ResolvedFields | crates/core/src/ddex_preset.rs:83-112 | what an override names is its own, everything else the default's |
| MessagePreset.VariablesMean | crates/core/src/ddex_preset.rs:117-151 | each variable stands for its own value |

## Left out

- XML below the event level: attributes (only the ones the profile is read from are text), NFC
  normalisation, the byte encoding and the reader itself. Documents are assumed to have text in leaves.
- ErnWriter.GenerateDdexErn382: attributes are not written, and identifiers, hashes and storage keys are
  checked by one flag of the release; the same holds for the section methods `Details`, `ImageResource`,
  `ReleaseList`, `DealTerms` and `Message`.
- OutgoingDeals.ErnWithin: the DealList is found by its start event, not by searching the text for it; the
  writer escapes texts, so the text occurs nowhere else in its messages.
- Calendar validity of a day of the month: dates are triples compared in order.
- `preflight_release`, `gate_findings`, `escalated_warnings` and `extract_ern_metadata`: lists of
  independent checks.
- `issue_missing_identifiers`, the identifier ledger and the wire messages of Stage 3: the outputs of
  the second transaction are one flag and the artifact and job rows.
- Backoff times, heartbeats and requests to retry a job: a job is queued again when its lease has run out.
- The early exit of `run_prepare_release` for a package frozen before: a read with no effect.
- Card payments are pending or captured: other stored statuses and a payment of another provider, which
  are refused when a payment is confirmed, are not part of this model.
- Amounts are those of one organisation and one card provider; the provider confirms and gives back as
  a whole or not at all. Windows are not rate limited.
- `FOR UPDATE SKIP LOCKED` in the sweep, notes, notices and events of orders and terms.
- Password hashing, sealing and signatures: every new hash is a fresh version. Expiry of a session is a
  step that may happen at any time.
- Durations as floating point: frames and rate stay integers, and the printed duration of a track is
  given with its value.
- `toLowerCase` is modelled on ASCII letters; the names looked up are ASCII.
- Parsing of the stored JSON: a missing or mistyped member is none. Of the contract's end date only whether its text is a date, and which.
- `text_policy` checks of corrected names, roles and genres, and the parties an approval binds.
- Sorting of stored video parts by number: `Transfers.VideoComplete` takes the sorted list.
- RateLimit.SlidingBound: for calls whose times do not run backwards; so does RateLimit.MixedSlidingBound
  for calls in the order they take effect.
- Corrections.StatusAgrees: the stored JSON of a request and of a correction is read back as written.
- `deal_start_date`, `message_sender` and `escalates` of presets: one-line facts.
- Routes, headers, row-level security, audit rows, object storage and all other modules.
