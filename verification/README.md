# Verified models of the Stripe seed, the local SES/SNS emulator and their neighbours

This project models the parts of the repository that carry real state, branching or arithmetic, and
proves what they are for. `dafny verify dfyconfig.toml` checks the whole project.

- **Stripe seed** (`StripeRemote`, `StripeSync`, `StripeSafety`, `StripeConvergence`, `StripePricing`,
  `StripeMeters`, `StripeSeed`, `StripeCatalogue`, `StripeScripts`). An account is a state; every API call is a step that works, fails before
  it takes effect, or takes effect and then fails, as a list of faults says. A trace records the account
  after every call, so the safety results speak of every moment of every run, failed ones included.
  `StripeMeters` and `StripeCatalogue` follow the settings keys to the meters, products and prices they stand for.
  `StripeScripts` holds the scripts in their own form, a client object and loops, each proved equal to the
  function the results are about.
- **SES/SNS emulator** (`EmulatorModel`, `EmulatorSafety`, `EmulatorEvents`, `EmulatorRuns`, `EmulatorOrder`,
  `EmulatorPosts`, `EmulatorRequests`, `EmulatorServer`). A machine with a clock, pending timers, the state in memory and the file on disk; its
  events are requests, the passing of time, a timer firing, and a restart. Timers of one duration wait in one
  list, as in Node, and fire in the order they were set; a timer may fire any time after it is due, and after a
  stall any list may go first. Node's own choice of list is among these, and the runs that show a promise
  broken keep to it. The process may start from any data file. `EmulatorServer` is the mutable object with one method
  per handler and one for a timer that fires; it is always where some run of the machine is.
- **Inbound mail** (`Base64`, `EncodedWord`, `Mime`, `MimeReader`, `MimeConverse`). The printer, and a reader written from section
  5.1.1 of RFC 2046, section 6.8 of RFC 2045, section 4 of RFC 4648 and sections 2, 4 and 6 of RFC 2047: encoded
  words in either encoding and any case, anywhere in the text. `MimeConverse` shows what never comes back.
- **Cache wrapper** (`CacheModel`, `CacheProof`, `CacheClient`). Any number of calls interleaved step by step
  on one store whose entries expire.
- **Contact properties** (`ContactProperties`, `ContactLenses`). Objects as ordered lists of entries.
- **Email renderer** (`EmailRenderer`, `EmailMeaning`, `EmailMarkup`). Documents to markup with shape, text, hrefs and
  the margins that depend on neighbours; `EmailMarkup` reads a document back from its markup.
- **Icons** (`Ico`), **addresses and domains** (`CanonicalEmail`), **billing** (`Usage`, `PricingEstimate`).

Assumptions: Stripe search is exact and immediately consistent and shows at most 100 products; ids and UUIDs are
fresh; JSON round-trips the values stored, and each part a data file has is of its type; file writes succeed
once a save fires; strings are ASCII as far as case and white space go; `DELIVERY_DELAY_MS` is a whole number
and, as in Node, one outside 1 to 2147483647 counts as one.

## Where a promise does not hold everywhere

Each of these is proved in both directions: the property holds exactly under the condition.

- A run of the sync in which every call works settles every plan on sale (`StripeConvergence.SyncSettlesWhen`), from
  any account: when forced, just when no plan's name has more than 100 active products, whatever prices there are; in
  update mode, just when each has one at most, with at most one current price per type. The seed's settings read back
  (`StripeSeed.SeedReadsBack`) and lead to the whole price list (`StripeCatalogue.SeedSellsTheList`): just when no plan's
  and no add-on's name has more than 100 active products.
- Events come out in order (`EmulatorOrder.OrderNeedsTheDelay`), in all runs in which no timer is later than some
  slack when one fires: just when the delivery delay is exactly 100 ms, or exceeds 100 ms by more than the slack and is at most 2147483647
  ms, the longest Node keeps. The
  comment at `packages/local-ses-sns/src/events.ts:104` promises it without a condition. That every event
  comes out at most once, and all of them in time, holds for every delay and every stall.
- A message reads back as the form it was built from (`MimeConverse.MailComesBackWhen`): just when sender, recipients
  and filename hold no line break (CR and LF together), the filename has no quote and no backslash
  (`MimeReader.QuotingRoundTrip`), and the subject is not printable text in which some word is an encoded word already
  (`Mime.HeaderRoundTrip`).
- A cache hit is younger than the reader's own time to live (`CacheProof.ReaderBoundWhen`): just when no write on the
  key may live longer than that.
- Reading a contact property does not depend on the order of the entries (`ContactLenses.OrderIndependentWhen`): just
  when the key has a canonical name or no letter.
- Replacing variable values obeys the lens laws (`ContactLenses.ReadsWhatWasPutWhen`,
  `ContactLenses.SecondPutWinsWhen`): just when the empty name is not allowed.
- Rendering commutes with filling variables in (`EmailMeaning.RenderCommutes`): just when no code block has a
  variable among its children.
- The output's text is the document's (`EmailMeaning.TextIsKept`): where code blocks hold only text, just when no
  unmarked text outside them is empty; where none is empty, just when code blocks hold only text. With both faults at
  once they may cancel out (`EmailMeaning.FaultsMayCancel`).
- An icon file reads back (`Ico.IcoRoundTrip`): just when every size is 1 to 256.
- Reducing an address twice is reducing it once (`CanonicalEmail.CanonicalTwice`): just when dropping a Gmail
  address's dots brings no white space to its front.
- A domain's list is closed under taking an entry's list (`CanonicalEmail.SuffixClosure`): just when the entry
  is trimmed.
- Transactional cost is exact (`Usage.RoundingBound`): just when twelve divides the count.

## Model

| member | source | states |
|---|---|---|
| StripeConvergence.Converges | packages/lib/src/stripe/seed.ts:107-291 | after any sequence of runs with any tables, modes and failures, from an account with at most one active product per name and one current price per product, type and version, one failure-free run succeeds with exactly one active product per plan on sale and one current price per type it needs; a further update-mode run changes nothing and returns the same result, while the meters fit on one page |
| StripeConvergence.SyncSettlesWhen | packages/lib/src/stripe/seed.ts:116-291 | a failure-free run from any account succeeds, and settles every plan on sale and reports exactly the ids the account then holds if and only if each could be settled: when forced, at most 100 active products of its name; otherwise at most one, with at most one current price per needed type |
| StripeConvergence.EnsureOfferSettlesWhen | packages/lib/src/stripe/seed.ts:150-254 | the same for one product with its prices |
| StripeConvergence.SettlesForGood | packages/lib/src/stripe/seed.ts:107-291 | from any account that could be settled, a second run in update mode changes nothing and returns the same result, while the meters fit on one page |
| StripeConvergence.SyncFrame | packages/lib/src/stripe/seed.ts:137-270 | active products of any other name and their prices are left as they were |
| StripeConvergence.SyncFixed | packages/lib/src/stripe/seed.ts:116-291 | on a settled account an update-mode run leaves the account exactly as it is and reports its ids |
| StripeConvergence.EnsureProductCount | packages/lib/src/stripe/seed.ts:150-188 | how many active products of the name are left, from any number: at least one and otherwise unchanged when updating, one plus those beyond the search page when forced; which one is reported; no other name is touched |
| StripeConvergence.EnsureMetersSettles | packages/lib/src/stripe/seed.ts:72-134 | all three meters then exist and are the ones later lookups find, while at most 100 are listed |
| StripeConvergence.EnsurePricesFixed | packages/lib/src/stripe/seed.ts:327-334 | where each type has its one current price, nothing is created and those ids are returned |
| StripeSafety.SyncTrail | packages/lib/src/stripe/seed.ts:107-291 | after every single call of every run, whatever fails, there is at most one active product per name and one active price per product, type and version, every product of the start is still there, and every price of any earlier moment is still there unchanged; one moment is recorded per call, with the fault it used up, and the last is the account left |
| StripeSafety.RunAllKeepsInv | packages/lib/src/stripe/seed.ts:107-291 | the same over any sequence of runs; the earlier price list stays a prefix of the later one |
| StripeSafety.ArchiveAllMatches | packages/lib/src/stripe/seed.ts:171-176 | archiving the first k found leaves exactly the later ones active |
| StripeSafety.SyncAccounts | packages/lib/src/stripe/seed.ts:137-289 | past the meters every plan on sale is reported exactly once, as a product or as an error, four in all; before that nothing is reported but the fatal error |
| StripePricing.BumpedVersionMakesFreshPrices | packages/lib/src/stripe/seed.ts:21-26 | under a version tag no price carries yet, every reported price was made by this run |
| StripePricing.ReportedPricesChargeTheTable | packages/lib/src/stripe/seed.ts:196-253 | every reported price exists, is active, belongs to the reported product and charges the table's amounts in all currencies, provided the tagged prices were made from the table |
| StripePricing.SyncReports | packages/lib/src/stripe/seed.ts:107-291 | in every run, failures included, what is reported is a product with the plan's name and current prices of that very product |
| StripePricing.TermsMoney | packages/lib/src/stripe/seed.ts:28-43 | each price a plan is given is of a type it needs and carries the table's amount and local amounts for that type |
| StripeMeters.NewPricesAreBilledRight | packages/lib/src/stripe/seed.ts:116-254 | in every run, whatever fails, the three meters reported are active meters of the account, each for its own event; every price added for marketing or transactional usage is billed on the reported meter of that kind and any other is licensed; without meters no price is added |
| StripeMeters.SyncKeepsBilling | packages/lib/src/stripe/seed.ts:116-254 | where every price under the version tag is billed on an active meter for the event of its kind, or licensed when it is of none, every run keeps that so |
| StripeMeters.ReportedPricesAreBilledRight | packages/lib/src/stripe/seed.ts:196-254 | and then every reported price is a current one of the reported product, billed so |
| StripeMeters.MetersAreThere | packages/lib/src/stripe/seed.ts:72-134 | the three ids are those of active meters for the three events, found or created; meters are only added and no price is touched |
| StripeSeed.SeedReadsBack | apps/web/scripts/stripe-seed.ts:135-195 | after a failure-free seed of any account, reading the settings gives for every plan on sale and both add-ons its only active product and that product's only current price per type, if and only if none of these names had more than 100 active products |
| StripeSeed.KeysInjective | packages/lib/src/stripe/seed.ts:413-440 | no two slots share a key |
| StripeSeed.SlotOfKey | packages/lib/src/stripe/seed.ts:413-440 | every key can be read back to the one slot it belongs to |
| StripeSeed.WriteAllReads | packages/lib/src/stripe/seed.ts:452-477 | reading a slot after any assignments gives the last one to that slot, else what was there |
| StripeSeed.SettingsRead | apps/web/scripts/stripe-seed.ts:174-195 | reading any slot after the script gives its last write to that slot, else the stored value |
| StripeSeed.PlanTableFits | packages/lib/src/stripe/products.ts:9-77 | the names of the plan table's products differ from each other |
| StripeSeed.AddonsSettle | apps/web/scripts/stripe-seed.ts:152-172 | in any account the two add-on upserts leave one product and price each if and only if their names had at most 100 active products, and leave every plan's product and prices as they were |
| StripeCatalogue.SeedSellsTheList | apps/web/scripts/stripe-seed.ts:135-195 | after a failure-free seed of any account the settings lead to the whole price list if and only if none of its names had more than 100 active products: each key holds the id of the one active product of its name and tag, of that product's one current price, or of an active meter for its event; each price charges the listed amount in dollars, pounds and euros, usage on the meter of its kind and add-ons 100 and 200 |
| StripeCatalogue.SeedLeaves | apps/web/scripts/stripe-seed.ts:135-195 | of each name it sells under, such a seed leaves one active product, and those beyond the hundred the search showed |
| StripeCatalogue.SeedIsAllOrNothing | apps/web/scripts/stripe-seed.ts:135-195 | whatever fails, a seed leaves the settings as they are, or it writes them all: the meters' keys lead to active meters of the three events, the add-ons' keys hold products and prices, and the two webhook keys hold the new endpoint's values or stay as they were |
| StripeCatalogue.OfferIsCharged | apps/web/scripts/stripe-seed.ts:33-112 | a forced upsert leaves one product whose only current price of each type has exactly the terms asked for, whatever prices the account had |
| StripeScripts.EnsureMeter | packages/lib/src/stripe/seed.ts:72-97 | the client ends in the state, with the result or exception, of the specified step |
| StripeScripts.CreateOrUpdatePrice | packages/lib/src/stripe/seed.ts:311-364 | likewise for one price, searched by product, type and version first |
| StripeScripts.ArchiveEach | packages/lib/src/stripe/seed.ts:171-176 | the archiving loop does what archiving one after another does, stopping at the first failure |
| StripeScripts.FindOrCreateProduct | packages/lib/src/stripe/seed.ts:150-188 | the branches on found and forced come to the specified step |
| StripeScripts.BasePrices | packages/lib/src/stripe/seed.ts:190-208 | the base price ids assigned are those of the specified step |
| StripeScripts.UsagePrices | packages/lib/src/stripe/seed.ts:210-254 | the two metered price ids assigned are those of the specified step |
| StripeScripts.SyncEach | packages/lib/src/stripe/seed.ts:137-270 | the loop over plans, which catches each plan's exception and skips legacy plans, pushes exactly the specified products and errors |
| StripeScripts.SyncPlansToStripe | packages/lib/src/stripe/seed.ts:107-291 | the whole function, on the client object, equals the specified sync |
| StripeScripts.UpsertAddonProductAndPrice | apps/web/scripts/stripe-seed.ts:33-112 | an add-on's upsert equals the specified step |
| StripeScripts.GenerateDbConfig | packages/lib/src/stripe/seed.ts:445-478 | the map filled key by key equals the specified one |
| StripeScripts.AppSettings.UpsertAll | apps/web/scripts/stripe-seed.ts:185-195 | the upsert loop, in whatever order, leaves the settings overlaid with every pair of the config |
| StripeScripts.SeedDatabase | apps/web/scripts/stripe-seed.ts:135-195 | the script up to its upserts, with the two of a new webhook endpoint when there is one, equals the specified seed and writes nothing when the sync or an add-on fails |
| EmulatorRuns.EventsComeOutOnce | packages/local-ses-sns/src/events.ts:105-158 | in every run, from any data file, with any delay and any stalls, each message is sent at most once and its other events are a prefix of those its outcome is due, all of them exactly when none of its timers is pending, and each target got precisely those it lists in any case, or all when it lists none |
| EmulatorRuns.EventsComeInOrder | packages/local-ses-sns/src/events.ts:105-158 | in every run in which no timer is later than a slack the delay allows, each message's events are a prefix of those its outcome is due, send first |
| EmulatorOrder.OrderNeedsTheDelay | packages/local-ses-sns/src/events.ts:118-157 | events come in order in all runs whose timers are at most so late if and only if the delivery delay is 100 ms, or exceeds 100 ms by more than that and is at most 2147483647 ms |
| EmulatorOrder.TooSoon | packages/local-ses-sns/src/events.ts:118-157 | for every delay below 100 ms, a run without any lateness whose delivery comes out before its send |
| EmulatorOrder.TooLate | packages/local-ses-sns/src/events.ts:118-157 | for every delay above 100 ms, a run of two messages and one stall of at least the excess whose second delivery comes out before its send |
| EmulatorRuns.EverythingComesOut | packages/local-ses-sns/src/events.ts:118-157 | from any point of any run, however time goes on, only so many timers fire as there is work pending, a message's events are all out, each once, exactly when none of its timers is pending, and without a pending save the file holds the state |
| EmulatorRuns.TimeBringsEverything | packages/local-ses-sns/src/events.ts:118-157 | and time can always go on, with timers taken as Node takes them, until no timer is pending |
| EmulatorRuns.EveryRunIsSound | packages/local-ses-sns/src/store.ts:51-82 | in every run, whatever the delay and the data file, the file holds a state passed through, which a restart resumes; a single save is pending or the file is current; 200 quiet ms with nothing overdue make it current; the log is what was accepted since the last clear, newest first, or its last 500. From a file with at most 500 messages it is the last 500 at most; from one without repeated topics and subscriptions none repeats and no publish posts to an endpoint twice |
| EmulatorRuns.StepInv | packages/local-ses-sns/src/index.ts:49-329 | every request, tick, firing and restart keeps saving, log, each message's stage and what its targets got in order, whatever the delay and the file |
| EmulatorRuns.StepInvFrom | packages/local-ses-sns/src/index.ts:49-329 | and what a file with a fitting log, or without repeated topics and subscriptions, adds to that |
| EmulatorRuns.PublicationsAre | packages/local-ses-sns/src/events.ts:108-113 | one emission adds the event to exactly the targets that list it in any case or list none |
| EmulatorRuns.EmailGetsItsJob | packages/local-ses-sns/src/index.ts:206-211 | an accepted email gets its outcome's job with all the targets of its configuration set, else the fallback, else none |
| EmulatorRuns.TargetsAre | packages/local-ses-sns/src/index.ts:208-211 | the targets are exactly the enabled destinations with a topic |
| EmulatorRuns.PutByNameIs | packages/local-ses-sns/src/index.ts:100-122 | putting a destination replaces the one of its name in place or adds it at the end, the rest unchanged and names distinct |
| EmulatorRuns.OutcomeIsTheWorst | packages/local-ses-sns/src/events.ts:25-33 | the outcome of joined recipient lists is the worse of the two |
| EmulatorRuns.OutcomeIgnoresCase | packages/local-ses-sns/src/events.ts:25-33 | recipients that differ only in case give the same outcome |
| EmulatorPosts.EveryPostIsRight | packages/local-ses-sns/src/events.ts:48-62 | in every run, from any data file, each publication was posted when a timer of its own message fired, to exactly the endpoints the topic's http subscriptions had at that moment, or to the fallback, if any, when it had none |
| EmulatorPosts.StepPosts | packages/local-ses-sns/src/events.ts:108-113 | no other step publishes anything |
| EmulatorRequests.OutcomeIs | packages/local-ses-sns/src/events.ts:25-33 | an email is suppressed, bounced or complained about exactly when some recipient, case aside, is the simulator's address for that or has a local part ending in plus and that word, the first of the three that applies, and delivered otherwise |
| EmulatorRequests.EmailIsLogged | packages/local-ses-sns/src/index.ts:162-206 | an accepted email heads the log as it came, under a fresh id, to all its recipients or, when it names none, to those of its raw content, with the outcome they ask for |
| EmulatorRequests.EmailSetsItsTimers | packages/local-ses-sns/src/events.ts:118-157 | an email with targets or a fallback sets its send for 100 ms and its outcome for the delay, or for 1 ms when the delay is outside 1 to 2147483647, and a save for 200 ms; any other only the save |
| EmulatorRequests.SubscribingConfirms | packages/local-ses-sns/src/events.ts:65-82 | subscribing by a protocol that starts with http sets a confirmation for 1500 ms later and no other protocol does |
| EmulatorRequests.OthersSave | packages/local-ses-sns/src/store.ts:66-76 | every other request that changes something sets a save for 200 ms later and no other timer |
| EmulatorRequests.OnlyItsPart | packages/local-ses-sns/src/index.ts:49-329 | every request leaves alone the parts of the state it is not about |
| EmulatorRequests.IdentitiesAre | packages/local-ses-sns/src/index.ts:45-86 | after any sequence of requests each name's identity is what the requests for that name say, read from the last one back, and no other name has one |
| EmulatorRequests.TopicsAre | packages/local-ses-sns/src/index.ts:232-244 | after any sequence of requests a topic is listed exactly when it was created since it was last deleted, or was there and never deleted |
| EmulatorRequests.DestinationsAre | packages/local-ses-sns/src/index.ts:88-124 | after any sequence of requests the configuration sets are those created or put to, and each destination name leads to the last destination put under it |
| EmulatorRequests.UnsubscribeForgets | packages/local-ses-sns/src/index.ts:258-262 | exactly the subscriptions of that name are dropped, the others stay in order |
| EmulatorSafety.StepSaveOk | packages/local-ses-sns/src/store.ts:66-76 | at every step the only save timer is the remembered one, due 200 ms after the last change, and without one the file is current |
| EmulatorSafety.HandleSaves | packages/local-ses-sns/src/index.ts:49-329 | every request that only changes the state ends by scheduling a save of it |
| EmulatorSafety.StepStatesOk | packages/local-ses-sns/src/store.ts:51-76 | memory and file always hold states the run passed through |
| EmulatorSafety.StepMessagesOk | packages/local-ses-sns/src/store.ts:78-82 | the log, in memory and on file, is the newest-first list of the last 500 accepted |
| EmulatorSafety.StepLogOk | packages/local-ses-sns/src/store.ts:51-82 | from any file it is that or, until a message comes in, all of what the file had |
| EmulatorSafety.HandleShape | packages/local-ses-sns/src/index.ts:231-262 | topics stay distinct and no topic and endpoint are subscribed twice |
| EmulatorSafety.DeleteTopicForgets | packages/local-ses-sns/src/index.ts:238-244 | afterwards no topic and no subscription has that name and all others are kept |
| EmulatorSafety.SubscribeReplaces | packages/local-ses-sns/src/index.ts:245-257 | afterwards the new subscription is the only one of its topic and endpoint and all others are kept |
| EmulatorSafety.HttpEndpointsDistinct | packages/local-ses-sns/src/events.ts:48-50 | one publish posts to exactly the topic's http endpoints, each once |
| EmulatorServer.Emulator.constructor | packages/local-ses-sns/src/store.ts:51-61 | starting from any file gives the machine booted from it, at the beginning of a run |
| EmulatorServer.Emulator.PersistSoon | packages/local-ses-sns/src/store.ts:66-76 | the fields become those of the machine whose pending save was replaced |
| EmulatorServer.Emulator.WriteFile | packages/local-ses-sns/src/store.ts:68-75 | the save timer's callback is the machine's |
| EmulatorServer.Emulator.Accept | packages/local-ses-sns/src/store.ts:78-82 | unshift, truncate and save come to the machine's step |
| EmulatorServer.Emulator.ScheduleEvents | packages/local-ses-sns/src/events.ts:105-157 | the two timers set are the machine's |
| EmulatorServer.EnabledTargets | packages/local-ses-sns/src/index.ts:208-211 | the loop keeps exactly the specified targets, in order |
| EmulatorServer.Emulator.OutboundEmail | packages/local-ses-sns/src/index.ts:153-215 | the handler's new state is the machine's, one event further in its run |
| EmulatorServer.Emulator.PutEventDestination | packages/local-ses-sns/src/index.ts:97-124 | likewise |
| EmulatorServer.Emulator.CreateTopicNamed | packages/local-ses-sns/src/index.ts:232-237 | likewise, and the returned topic is then listed |
| EmulatorServer.Emulator.DeleteTopicByArn | packages/local-ses-sns/src/index.ts:238-244 | likewise |
| EmulatorServer.Emulator.SubscribeEndpoint | packages/local-ses-sns/src/index.ts:245-257 | likewise, with a confirmation timer for http protocols |
| EmulatorServer.Emulator.UnsubscribeArn | packages/local-ses-sns/src/index.ts:258-262 | likewise |
| EmulatorServer.Emulator.ClearLog | packages/local-ses-sns/src/index.ts:325-329 | likewise |
| EmulatorServer.Emulator.SetMailFromDomain | packages/local-ses-sns/src/index.ts:71-77 | likewise, creating the identity when missing |
| EmulatorServer.Emulator.SetDkim | packages/local-ses-sns/src/index.ts:79-86 | likewise |
| EmulatorServer.Emulator.CreateIdentity | packages/local-ses-sns/src/index.ts:49-61 | likewise |
| EmulatorServer.Emulator.RemoveIdentity | packages/local-ses-sns/src/index.ts:65-69 | likewise |
| EmulatorServer.Emulator.CreateSet | packages/local-ses-sns/src/index.ts:88-93 | likewise, keeping an existing set's destinations |
| EmulatorServer.Emulator.Publish | packages/local-ses-sns/src/events.ts:48-50 | the endpoints gathered are the specified ones, the fallback only when there is none |
| EmulatorServer.Emulator.EmitEvent | packages/local-ses-sns/src/events.ts:108-113 | the loop over targets publishes exactly the specified publications |
| EmulatorServer.Emulator.EmitTheOutcome | packages/local-ses-sns/src/events.ts:119-157 | the outcome timer's callback is the machine's, complaint timer included |
| EmulatorServer.Emulator.FireTimer | packages/local-ses-sns/src/events.ts:118-157 | a timer that fires does what the machine's step does, whichever callback it has, and the object stays where a run of the machine is |
| EmulatorServer.Emulator.FieldsAreSound | packages/local-ses-sns/src/store.ts:51-82 | so the fields always are as every run leaves them: file, log, topics, subscriptions, posts and events sent |
| Base64.DecodeEncode | packages/local-ses-sns/src/inbound.ts:37-49 | decoding by RFC 4648 undoes encoding for all bytes |
| Base64.DecodesOnlyEncodings | packages/local-ses-sns/src/inbound.ts:37-49 | a text decodes to some bytes if and only if it is their encoding |
| Mime.BuildMime | packages/local-ses-sns/src/inbound.ts:21-54 | the list grown by conditional pushes, folded attachment included, joins to the same text as the specified lines |
| Mime.FoldedIsJoined | packages/local-ses-sns/src/inbound.ts:49 | folding a text without white space is joining its chunks by line breaks, with none trailing |
| Mime.ChunksAre | packages/local-ses-sns/src/inbound.ts:49 | the chunks are at most 76 characters, all but the last exactly 76, and join to the text |
| EncodedWord.ReadsAsItself | packages/local-ses-sns/src/inbound.ts:17-19 | a header that is not encoded reads as itself by RFC 2047 if and only if none of its words is an encoded word |
| Mime.HeaderRoundTrip | packages/local-ses-sns/src/inbound.ts:17-19 | a header value reads back by RFC 2047 if and only if it is not printable text in which some word is an encoded word, of either encoding and any case |
| Mime.EncodedHeaderIsPrintable | packages/local-ses-sns/src/inbound.ts:17-19 | the header is one line of printable ASCII for every value |
| MimeReader.MailRoundTrip | packages/local-ses-sns/src/inbound.ts:21-54 | a reader that asks for MIME 1.0, multipart/mixed, UTF-8 bodies and an attachment of that disposition finds sender, recipients, message id, date, text, non-empty html and the attachment's bytes in the built message, for header values on one line |
| MimeReader.NamesComeBackWhen | packages/local-ses-sns/src/inbound.ts:17-47 | subject and filename come back unchanged if and only if the subject is not printable text with an encoded word in it and the filename has no quote and no backslash |
| MimeReader.QuotingRoundTrip | packages/local-ses-sns/src/inbound.ts:45-46 | a name between quotes reads back if and only if it has no quote and no backslash |
| MimeConverse.MailComesBackWhen | packages/local-ses-sns/src/inbound.ts:21-54 | a built message reads back as its form if and only if sender, recipients and filename hold no line break, the subject is not printable text with an encoded word in it, and the filename has no quote and no backslash |
| MimeConverse.BrokenFilename | packages/local-ses-sns/src/inbound.ts:45-46 | a filename with a line break is never read back, whatever it goes on with |
| MimeConverse.ReadsOneLines | packages/local-ses-sns/src/inbound.ts:25-26 | whatever the text, sender and recipients are read from one line each |
| MimeReader.SectionsFit | packages/local-ses-sns/src/inbound.ts:33-50 | no line of any part begins with two hyphens, so only delimiter lines do |
| MimeReader.PartsOfDelimited | packages/local-ses-sns/src/inbound.ts:33-52 | reading parts by RFC 2046 undoes delimiting them |
| CacheProof.BoundedStaleness | apps/web/src/server/redis.ts:26-54 | in every interleaving a cache hit returns a value that a call for the same key fetched and then stored less than its own time to live ago; any other returned value is the caller's own fetch |
| CacheProof.ReaderBoundWhen | apps/web/src/server/redis.ts:26-54 | in all runs whose writes on a key live no longer than one bound every hit on it is younger than another, if and only if the first is at most the second |
| CacheProof.DisabledLeavesTheStore | apps/web/src/server/redis.ts:36-47 | no step of a disabled call reads or changes the store |
| CacheProof.WritesLiveAsAsked | apps/web/src/server/redis.ts:31-49 | in every interleaving each write was made by a call for that key that is not disabled, and lives as long as that call asked, 120 seconds when it did not say |
| CacheClient.CachedFor | apps/web/src/server/redis.ts:26-54 | a value fetched and written is what every later call for the key gets until its time to live, 120 seconds by default, is over, whatever its own fetcher would give; from then on, and whenever disabled, it fetches |
| CacheProof.UnreadableNeverMatters | apps/web/src/server/redis.ts:37-45 | an expired, empty or unparsable entry acts as a missing one: every interleaving is also one of the store without it, with the same fetches, writes and returned values |
| CacheModel.RedisKeyInjective | apps/web/src/server/redis.ts:12-14 | two keys share a prefixed key only if they are the same |
| CacheClient.WithCache | apps/web/src/server/redis.ts:26-54 | outcome and store, for every answer Redis and the fetcher may give |
| CacheClient.AloneIsARun | apps/web/src/server/redis.ts:26-54 | one uninterrupted call is a run of the interleaved machine with that outcome and store |
| ContactProperties.NormalizeProperties | apps/web/src/lib/contact-properties.ts:12-24 | the loop of assignments builds the specified object, order included |
| ContactProperties.CanonicalTwice | apps/web/src/lib/contact-properties.ts:1-10 | a canonical name is its own canonical name, trimmed, allowed, and folds to the key's |
| ContactProperties.NormalIsFixed | apps/web/src/lib/contact-properties.ts:12-24 | a bag is left as it is, order included, if and only if it is normal |
| ContactProperties.NormalizeTwice | apps/web/src/lib/contact-properties.ts:12-24 | normalising is idempotent |
| ContactProperties.LastWriteWins | apps/web/src/lib/contact-properties.ts:18-21 | the value under a name is that of the last entry whose key has that normal name |
| ContactProperties.MergeIsNormalize | apps/web/src/lib/contact-properties.ts:56-65 | merging is normalising the entries of both in a row |
| ContactProperties.MergeIsNormal | apps/web/src/lib/contact-properties.ts:56-65 | a merge is already normal |
| ContactProperties.MergeAssociative | apps/web/src/lib/contact-properties.ts:56-65 | merging is associative, order included |
| ContactProperties.ReplaceVariableValues | apps/web/src/lib/contact-properties.ts:67-88 | the method with its deletions equals the specified replacement |
| ContactProperties.DeleteVariables | apps/web/src/lib/contact-properties.ts:77-81 | deleting key by key leaves exactly the entries that are no variables, in order |
| ContactLenses.OneCandidate | apps/web/src/lib/contact-properties.ts:34-41 | among normal names only the canonical one matches a key that has one |
| ContactLenses.LookupIsByName | apps/web/src/lib/contact-properties.ts:26-54 | on a normal bag a key with a non-empty canonical name reads what is filed under it, whatever the order; with an empty one it reads nothing |
| ContactLenses.LookupReads | apps/web/src/lib/contact-properties.ts:26-54 | on a normal bag a key with a non-empty canonical name reads what is filed under it: a text as it is, a number as shown, true and false as those words, anything else as nothing |
| ContactLenses.LookupReadsPlain | apps/web/src/lib/contact-properties.ts:26-54 | and so does a key without a canonical name from the one entry that equals it up to case |
| ContactLenses.CanonicalIs | apps/web/src/lib/contact-properties.ts:1-10 | a key's canonical name is the first allowed name that equals the trimmed key up to case |
| ContactLenses.OrderIndependentWhen | apps/web/src/lib/contact-properties.ts:26-54 | on all normal bags with the same entries the lookup of a key gives the same, whatever their order, if and only if the key has a canonical name or no letter |
| ContactLenses.ReplaceIs | apps/web/src/lib/contact-properties.ts:67-88 | as a map the result is the old entries that are not dropped with the normalised new ones over them, and it is normal |
| ContactLenses.ReadsWhatWasPutWhen | apps/web/src/lib/contact-properties.ts:67-88 | the result's variable part is always that of the new values if and only if no allowed name is empty |
| ContactLenses.PutBack | apps/web/src/lib/contact-properties.ts:67-88 | putting back a bag's own variable part gives its normal form |
| ContactLenses.SecondPutWinsWhen | apps/web/src/lib/contact-properties.ts:67-88 | a second replacement always overrides a first that held only variables if and only if no allowed name is empty |
| ContactLenses.OthersSurvive | apps/web/src/lib/contact-properties.ts:67-88 | properties that are no variables survive unless overwritten, and none appears from nowhere |
| EmailRenderer.RendersWhenSupported | packages/email-editor/src/renderer.tsx:205-321 | rendering throws exactly on documents with an unsupported node, mark or heading level outside code blocks |
| EmailRenderer.Renderer.Render | packages/email-editor/src/renderer.tsx:196-203 | the three options are set afresh by every call and the markup is that of the document under them |
| EmailMeaning.RenderCommutes | packages/email-editor/src/renderer.tsx:459-475 | rendering equals rendering the document with variables replaced by text first (with values the non-empty value, else the non-empty fallback, else the id in braces; without, the id with its fallback in braces), if and only if no code block has a variable child |
| EmailMeaning.RenderFilled | packages/email-editor/src/renderer.tsx:397-475 | rendering with values equals rendering, without any, the document whose variables were filled in first and whose link and button targets found among the link values, else the variables, were replaced by what they lead to, under the same condition |
| EmailMarkup.MarkupReadsBack | packages/email-editor/src/renderer.tsx:205-760 | reading the markup of a supported document, no values put in, gives the document: its nodes, levels, marks, links and texts, the empty text by its placeholder, a logo as an image, code as its text |
| EmailMarkup.FilledMarkupReadsBack | packages/email-editor/src/renderer.tsx:205-760 | with values, it gives the document with its variables, links and buttons filled in |
| EmailMarkup.TopGapsAre | packages/email-editor/src/renderer.tsx:205-221 | at the top level the gap below a node is closed exactly by a spacer after it, and the one above a quote exactly by a spacer before it |
| EmailMarkup.NestedGapsStay | packages/email-editor/src/renderer.tsx:205-321 | inside a paragraph, a heading, a list or a quote no gap is closed below and none above a quote |
| EmailMarkup.ListGaps | packages/email-editor/src/renderer.tsx:527-545 | in the items of a list only paragraphs have their gap closed |
| EmailMeaning.TextIsKept | packages/email-editor/src/renderer.tsx:341-372 | on supported documents the output's text in order is the source's if and only if no unmarked text is empty and code blocks hold only text, unless both fail |
| EmailMeaning.FaultsMayCancel | packages/email-editor/src/renderer.tsx:341-372 | a document with both faults whose text comes out the same |
| EmailMeaning.SpacersCloseGaps | packages/email-editor/src/renderer.tsx:205-221 | at the top level the gap below a node is closed exactly when a spacer follows |
| EmailMeaning.ItemParagraphsClose | packages/email-editor/src/renderer.tsx:527-545 | paragraphs directly inside a list item leave no gap, wherever the item stands |
| Ico.EncodeIco | apps/web/scripts/brand/generate.tsx:42-62 | the buffers written at fixed positions with a running offset are the specified file, or nothing when a number does not fit |
| Ico.EncodeEntry | apps/web/scripts/brand/generate.tsx:49-59 | one entry's buffer writes give its sixteen bytes, or nothing when a size, length or offset does not fit |
| Ico.IcoRoundTrip | apps/web/scripts/brand/generate.tsx:42-62 | decoding returns every frame's size and bytes if and only if every size is 1 to 256 |
| Ico.DecodeEncoded | apps/web/scripts/brand/generate.tsx:42-62 | every encoded file decodes, to the frames with other sizes read as 256 |
| Ico.RangesCoverTheFile | apps/web/scripts/brand/generate.tsx:48-61 | the data ranges in the directory start at its end, follow each other without gap and end with the file |
| Ico.RangesDisjoint | apps/web/scripts/brand/generate.tsx:48-61 | an earlier frame's range ends before a later one's begins |
| Ico.EncodesWhen | apps/web/scripts/brand/generate.tsx:43-56 | encoding succeeds if and only if count, sizes, lengths and offsets all fit |
| CanonicalEmail.CanonicalEmail | apps/web/src/lib/canonical-email.ts:8-22 | the reassignments come to the specified reduction |
| CanonicalEmail.TagsAreDropped | apps/web/src/lib/canonical-email.ts:8-22 | in lower case and without white space, an address with any plus and tag after its local part reduces to the same as without them: to itself, or for gmail.com and googlemail.com to the local part without its dots at gmail.com |
| CanonicalEmail.SidesAre | apps/web/src/lib/canonical-email.ts:9-14 | an address with nothing before or after its last at sign is only trimmed and put in lower case |
| CanonicalEmail.CanonicalTwice | apps/web/src/lib/canonical-email.ts:8-22 | the reduction is idempotent on an address if and only if no white space surfaces when its dots are dropped |
| CanonicalEmail.CanonicalTwiceWithoutSpace | apps/web/src/lib/canonical-email.ts:8-22 | it is idempotent on every address without inner white space |
| CanonicalEmail.SpaceExample | apps/web/src/lib/canonical-email.ts:17-20 | a Gmail address on which it is not |
| CanonicalEmail.SameMailbox | apps/web/src/lib/canonical-email.ts:8-22 | two addresses with both sides reduce alike if and only if their domains agree, googlemail folded, and their local parts agree up to the first plus, for Gmail without dots |
| CanonicalEmail.ListDomainAndParents | apps/web/src/lib/canonical-email.ts:30-37 | the loop lists the join of every label suffix of two or more labels, longest first |
| CanonicalEmail.SuffixClosure | apps/web/src/lib/canonical-email.ts:30-37 | applying it to the i-th entry gives the rest of the list if and only if that entry is trimmed |
| CanonicalEmail.SuffixClosureWithoutSpace | apps/web/src/lib/canonical-email.ts:30-37 | so always for a domain without white space |
| CanonicalEmail.SplitJoin | apps/web/src/lib/canonical-email.ts:31-34 | splitting on dots undoes joining labels |
| Usage.RatesAreTheTables | apps/web/src/lib/usage.ts:15-20 | the unit prices are the BASIC row of the plan table |
| Usage.FlooredIs | apps/web/src/lib/usage.ts:22-49 | twelve transactional emails are seven units, rounded down |
| Usage.CostIsUnits | apps/web/src/lib/usage.ts:42-59 | the two costs sum to the usage units times the unit price |
| Usage.RoundingBound | apps/web/src/lib/usage.ts:52-59 | transactional cost is below the true cost by less than a unit, and equal to it if and only if twelve divides the count |
| Usage.SplittingBound | apps/web/src/lib/usage.ts:42-50 | billing periods apart never exceeds billing their sum and falls short by at most 11/12 of a unit a period, hence at most n - 1 units |
| Usage.SplittingBoundIsTight | apps/web/src/lib/usage.ts:42-50 | for every number of periods that bound is reached |
| PricingEstimate.SharesSum | apps/web/src/components/marketing/PricingCalculator.tsx:93-100 | the two overage shares are non-negative and sum to the overage |
| PricingEstimate.EstimateIs | apps/web/src/components/marketing/PricingCalculator.tsx:83-106 | without usage rates or within the allowance the estimate is the plan's own price; beyond it, what comes on top is to the excess as the price of all the email at its rates is to all of it |
| PricingEstimate.CostBetweenRates | apps/web/src/components/marketing/PricingCalculator.tsx:93-105 | the overage costs between the lower and the higher rate for every email beyond the allowance |
| PricingEstimate.EstimateGrows | apps/web/src/components/marketing/PricingCalculator.tsx:88-106 | the estimate never decreases when either volume grows |

## Left out

- Clients, HTTP, logging and UI: the handlers' responses, the inbox pages and the console output are not modelled.
- Stripe: display names of meters, nicknames, tax behaviour, billing scheme and recurring intervals, which are the same in every call of a kind; product descriptions are a parameter.
- StripeConvergence.Converges: the second run's fixpoint is claimed while at most 100 meters exist, because the code looks for a meter on one page of 100 only.
- StripeScripts.SeedDatabase: the webhook endpoint of `apps/web/scripts/stripe-seed.ts:198-285` appears only as the two settings it may add, a parameter; listing, creating and updating endpoints are not modelled, nor is an upsert that throws.
- Subscriptions pointing only at existing topics: the code does not check this, and it is not claimed.
- Arrival of posts: publishing is not awaited, so only the order of emission is claimed.
- Emulator requests that change nothing are one request; the two routes that put a destination are one.
- A restart forgets pending timers, as the process does, so results about a message's events speak of messages accepted since the last start.
- A save that fails: the code logs it and goes on; here a save that fires succeeds.
- Header folding and other body encodings in `MimeReader`: the reader accepts what the builder can produce, base64 bodies and one-line headers with exact field names.
- Encoded words in character sets other than UTF-8 and US-ASCII, which section 6.2 of RFC 2047 lets a reader show as they stand, as this one does.
- Attachment types that hold a line break, which no media type does; readers that also end a line at a lone CR or LF, which section 2.2 of RFC 5322 does not allow in a message.
- An encoded subject longer than the 75 characters section 2 of RFC 2047 allows is still one word, as in the code.
- Renderer styles other than the margins that depend on neighbours; node and mark types that happen to name another member of the renderer object; heading levels that are no integers.
- JavaScript's order of integer-like keys, `__proto__`, and Unicode case mapping.
- `getRedis` and reconnecting; a foreign writer that stores valid JSON of its own under a cached key.
- IEEE rounding in the calculator and in the unit conversion: both are exact here.
- `emailDomain`, `getUsageRate`, `sampleDmarcReport` and the date helpers, which would only add easy members.
