# AdLink, modelled and verified

AdLink joins advertising and sales data: it ingests ads, insights, leads and deals, recognises people across
sources, links each lead to the ad that produced it, credits won deals to ads, and reports outcomes back to
the ad platform. Each stage is a loop over tables with unique keys. This project models those loops in Dafny
and proves what they are relied on for: that repeated runs settle, that nothing is counted or sent twice, and
that numbers computed in different ways agree.

Services are classes holding their tables; each method is proved equal to a specification function or a step
relation, and the lemmas are about those. Run `dafny verify dfyconfig.toml` to check everything.

| file | models |
|---|---|
| `Common`, `UpsertTable`, `Accumulators` | shared vocabulary; what a batch of keyed upserts does; the counters of the reports |
| `MatchDecision`, `Matching`, `UtmEvidence`, `MatchingConvergence`, `MatchingSafety` | the matching engine, what utm_content decides, its convergence, its invariant |
| `Identity`, `ContactResolving` | identifier normalisation and contact resolution |
| `CanonicalStatus`, `CrmSync`, `CrmRows`, `CrmMappings` | deal status, CRM ingest and the rows it stores, stage mappings |
| `CreativeName`, `MetaSync`, `MetaRows` | creative names, ad account ingest and the rows it stores |
| `MetricsData`, `ReportTerms`, `Performance`, `PerformanceLaws`, `AdRows`, `Cohorts`, `CohortWeeks`, `Reconciliation`, `CreativeInsights`, `MetricsService` | the three reports, what their rows hold and the laws between them |
| `Conversions`, `Feedback` | the feedback loop and the events it makes |
| `TenantScope` | the tenant-scoping query rewriter |
| `QrLogin` | the QR login protocol |

Where the answer of a query has no defined order, the model allows any: a matching run may take its leads in
any order and may see any sibling's ad, a push may take any 500 pending events. In the reports, an unordered
query's rows are one arbitrary but fixed sequence.

Results that differ from what a reader of the repository might expect:

- Matching settles in three runs from any state at all, and two are not enough (`TwoRunsAreNotEnough`).
- A deal read as won from its current stage alone is overridden when a qualifying stage joins its history;
  `WonSticks` says exactly when a win is final. Stored histories always hold the stage they were read with,
  and for those it is (`WonInHistorySticks`).
- With several CRM connections the stored status of a deal is no longer a cache for each of them. A connection
  that agreed with its deals still does after another saves its mapping (`ForeignMappings`) or syncs
  (`ForeignSync`) exactly when the two mappings have the same verdict on the deals concerned: both reach won in
  the deal's history or neither does; failing that both reach qualified or neither does; failing that they map
  its current stage alike. `TwoConnectionsDisagree` and `ForeignSyncDisagrees` are cases where it breaks.
- The comments speak of dated exchange rates; the code keeps only the newest rate of each pair
  (`NewestRateWins`), and the model follows the code.
- The rewriter does not look at the data of an `updateMany`: `MovingUpdate` says exactly when data that names
  another tenant reaches that tenant's rows, and `UpdateMovesRow` is such an update.
- An event whose ad account is gone is never closed (`OrphanStays`), so pushes drain everything exactly when
  there is none (`DrainsIffNoOrphan`). As a push takes any 500 pending events, fewer than 500 such orphans only
  slow the others down (`PushesDrain`), but 500 can hold them up for good (`OrphansStarve`).
- A second sync of the same insights can add rows when two ads of an account share an external id, since which of
  them an insight goes to depends on the order of an unordered query. `InsightsRepeatExactly` says that this is
  the only case.

## Model

| member | source | states |
|---|---|---|
| MatchDecision.DecisionIsFirstBest | packages/core/src/matching.ts:34-44 | sorting by reliability and taking the head decides for the earliest candidate of the most reliable method, with its own confidence if it has one |
| Matching.TieBreak | apps/api/src/matching/matching.service.ts:93-109 | a shared ad name is decided exactly when one of its ads spent on the lead's day (then the day's top spender wins) or exactly one of them ever spent |
| Matching.MatchingService.MatchLead | apps/api/src/matching/matching.service.ts:17-86 | from the row the caller read, however stale, and for some current sibling's ad, edge and audit row become those of the best candidate; every other row and column stays |
| Matching.RoundMade | apps/api/src/matching/matching.service.ts:112-119 | each round of the loop extends the run by one step and counts it if matched; the rows the loop still has to visit are as the pending query read them |
| Matching.MatchingService.MatchUnmatched | apps/api/src/matching/matching.service.ts:111-122 | visits each unmatched or review lead of the tenant once, in some order, each on the state left by the ones before; counts exactly the leads that end matched |
| Matching.MatchingService.Resolve | apps/api/src/matching/matching.service.ts:124-137 | sets the edge by hand and audits it, or fails without effect on a lead or ad that is not the tenant's |
| MatchingConvergence.DecisionShape | apps/api/src/matching/matching.service.ts:17-63 | own leadgen evidence beats a sibling's ad, which beats utm_content |
| UtmEvidence.UtmDecides | apps/api/src/matching/matching.service.ts:32-61 | without leadgen evidence or a sibling's ad: an ad of the tenant with utm_content as external id matches at 0.95; else the only ad of that name at 0.9; else, of several, the day's top spender or the only one that ever spent at 0.8, and failing that one of them is for review at 0.5; else unmatched |
| MatchingConvergence.EvidenceSpreads | apps/api/src/matching/matching.service.ts:23-30 | a lead that carries an ad before and after a run gets every live sibling matched in that run, whatever the order |
| MatchingConvergence.ThreeRunsConverge | apps/api/src/matching/matching.service.ts:17-122 | from any state, after three runs a fourth changes no lead row, each run with its own row order and sibling answers |
| MatchingConvergence.TwoRunsAreNotEnough | apps/api/src/matching/matching.service.ts:111-122 | the bound is tight: a state whose third run still changes a lead |
| MatchingConvergence.ContactsAgree | apps/api/src/matching/matching.service.ts:17-122 | after three runs two leads of one contact agree: both have an ad and the live ones are matched, or both are unmatched with none |
| MatchingConvergence.ContactsUniform | apps/api/src/matching/matching.service.ts:17-122 | with no rejected lead and every matched lead having an ad, every contact with two or more leads ends all matched with ads or all unmatched with none |
| MatchingSafety.AlwaysSafe | apps/api/src/matching/matching.service.ts:63-85 | in every history of lead ingests, runs, manual resolutions, ad ingests that keep each ad's id and tenant, and new spend, a matched lead has an ad of its tenant, a method, confidence of at least 0.7 and a latest audit row that agrees |
| MatchingSafety.MatchedEdgeIsKept | apps/api/src/ingest/crm-sync.service.ts:128-141 | no single event but a manual resolution of that lead changes a matched lead's edge |
| MatchingSafety.MatchedStaysMatched | apps/api/src/matching/matching.service.ts:111-137 | over any stretch of history without a manual resolution of it, a matched lead keeps its edge |
| Identity.EmailNormalForm | packages/core/src/identity.ts:6-11 | a normalised email is an address, is its own normal form, and has no white space and no capital letter |
| Identity.EmailExact | packages/core/src/identity.ts:8-11 | v is the normal form of an email if and only if v is an address and the lower case of the email's text between white space |
| Identity.AddressExact | packages/core/src/identity.ts:6 | an address is exactly three nonempty parts without "@" and white space, joined by "@" and "." |
| Identity.PhoneExact | packages/core/src/identity.ts:13-18 | v is the normal form of a phone if and only if v is "+" and the phone's digits in order and they are 7 to 15 |
| Identity.PhoneNormalForm | packages/core/src/identity.ts:13-18 | exactly phones of 7 to 15 digits have a normal form, which is its own; two phones share one exactly when their digits agree |
| Identity.IdentifiersExact | packages/core/src/identity.ts:27-41 | the identifiers are exactly the normal forms of the usable phones and emails, each once |
| Identity.NormalizeIdentifiers | packages/core/src/identity.ts:27-41 | the loops over phones and emails produce those identifiers in insertion order |
| ContactResolving.ContactResolver.Attach | apps/api/src/identity/contact-resolver.service.ts:43-51 | binds the unbound identifiers to the contact and leaves bound ones alone |
| ContactResolving.ContactResolver.ResolveContact | apps/api/src/identity/contact-resolver.service.ts:18-41 | answers the owner of the first bound identifier, else a new contact, and binds the payload's identifiers |
| ContactResolving.ResolveExact | apps/api/src/identity/contact-resolver.service.ts:18-51 | the contact is the owner of the first bound identifier, else a new one of the tenant with the payload's name; then all the payload's identifiers are bound, new ones to that contact, and no other binding changed |
| ContactResolving.RunExtends | apps/api/src/identity/contact-resolver.service.ts:43-51 | over any sequence of resolves, contact rows and identifier bindings are never rewritten |
| ContactResolving.ResolvedForGood | apps/api/src/identity/contact-resolver.service.ts:18-41 | once a payload was resolved, resolving it again after any other resolves answers the same contact and changes nothing |
| ContactResolving.RunKeepsSound | apps/api/src/identity/contact-resolver.service.ts:18-51 | over any sequence of resolves every binding points to a contact of its tenant and every contact owns an identifier |
| CanonicalStatus.RollupIgnoresOrder | apps/api/src/crm/canonical.ts:8-17 | order and repetition of the history do not matter |
| CanonicalStatus.RollupExact | apps/api/src/crm/canonical.ts:8-17 | won if ever in a won stage, else qualified if ever in a qualifying one, else the current stage's status, a lead by default |
| CanonicalStatus.QualifiedSticks | apps/api/src/crm/canonical.ts:8-17 | a longer history never takes a qualified deal below qualified |
| CanonicalStatus.WonSticks | apps/api/src/crm/canonical.ts:8-17 | no longer history lowers a won deal if and only if the win is in its history or no stage maps to qualified |
| CanonicalStatus.WonInHistorySticks | apps/api/src/crm/canonical.ts:8-17 | a history that holds the current stage keeps a win for good |
| CanonicalStatus.SameVerdictExact | apps/api/src/crm/canonical.ts:8-17 | two mappings give a deal whose history holds its stage the same status if and only if both reach won or neither does, failing that both reach qualified or neither does, and failing that they map the stage alike |
| UpsertTable.BatchTwice | apps/api/src/ingest/crm-sync.service.ts:128-165 | for updates that overwrite columns, the same batch of upserts a second time leaves the table as the first time did, duplicate keys included |
| UpsertTable.LastRecordDecides | apps/api/src/ingest/crm-sync.service.ts:151-165 | when every update overwrites the same columns, a row ends as its batch's last record for the key |
| CrmSync.CrmSyncService.UpsertLead | apps/api/src/ingest/crm-sync.service.ts:111-142 | a new lead is unmatched with its seed ad; a known one gets contact and signals refreshed and keeps match and date |
| CrmSync.CrmSyncService.UpsertDeal | apps/api/src/ingest/crm-sync.service.ts:144-166 | the deal's row becomes exactly the given data, no other row changes |
| CrmSync.CrmSyncService.StoreDeals | apps/api/src/ingest/crm-sync.service.ts:70-81 | stores each deal not before the floor with its stages, rolled-up status and contact |
| CrmSync.CrmSyncService.StoreBatch | apps/api/src/ingest/crm-sync.service.ts:43-81 | contacts, then leads, then deals with their histories: the tables become those of one ingest |
| CrmSync.CrmSyncService.Sync | apps/api/src/ingest/crm-sync.service.ts:27-101 | one ingest with the connection's mapping, followed by one matching run over the ingested leads |
| CrmSync.IngestTwice | apps/api/src/ingest/crm-sync.service.ts:37-81 | ingesting the same batch again, after the matcher rewrote any edges, changes no contact, identifier, deal or lead row |
| CrmSync.NothingBeforeFloor | apps/api/src/ingest/crm-sync.service.ts:35-38 | no lead or deal an ingest creates is dated before the day of the floor |
| CrmSync.DealRow | apps/api/src/ingest/crm-sync.service.ts:151-165 | after a batch a deal is its last record in the batch, or its old row if the batch has none |
| CrmRows.IngestedDeal | apps/api/src/ingest/crm-sync.service.ts:60-81 | the last record of a deal not from before the floor is stored field by field: its stage, amount, currency and dates, the stages it is or was in, the status they stand for, and the contact of the last contact record of the id it names |
| CrmRows.OtherDealsStay | apps/api/src/ingest/crm-sync.service.ts:70-81 | a deal no such record is about keeps its row |
| CrmRows.StagesExact | apps/api/src/ingest/crm-sync.service.ts:60-74 | the stored history holds exactly the current stage, first, and the stages of the deal's events, each once |
| CrmRows.ContactsByExternalId | apps/api/src/ingest/crm-sync.service.ts:45-50 | a contact reference is answered by the last contact record of that id with a usable identifier, and exactly if there is one |
| CrmRows.IngestedLead | apps/api/src/ingest/crm-sync.service.ts:111-142 | contact and signals are those of the lead's last stored record; date, ad and match status are the ones it had, or for a new lead the date and the seed ad of its first record, unmatched |
| CrmRows.OtherLeadsStay | apps/api/src/ingest/crm-sync.service.ts:54-58 | a lead no stored record is about keeps its row |
| CrmRows.SeedExact | apps/api/src/ingest/crm-sync.service.ts:124-127 | a new lead's ad is one of the tenant with the external id its record names, and it has one exactly if there is such an ad |
| CrmRows.BeforeIsEarlierDay | apps/api/src/ingest/crm-sync.service.ts:35-38 | before the floor means on an earlier day than the floor's |
| CrmMappings.CrmService.SetMappings | apps/api/src/crm/crm.service.ts:85-102 | upserts the mapping rows, then recomputes every deal of the tenant with the new mapping |
| CrmMappings.LastInputApplies | apps/api/src/crm/crm.service.ts:87-99 | a saved stage has the name and status of its last input |
| CrmMappings.OtherMappingsStay | apps/api/src/crm/crm.service.ts:87-99 | every other stage and every other connection keeps its mapping |
| CrmMappings.CrmService.Recanonicalize | apps/api/src/crm/crm.service.ts:106-118 | every deal of the tenant gets the status its stored history has; every other deal and every other column stays |
| CrmMappings.StoredStatusAgrees | apps/api/src/crm/crm.service.ts:104-118 | with one connection, after any sequence of whole ingests, matching runs and mapping changes every deal's stored status equals its recomputation |
| CrmMappings.ForeignMappings | apps/api/src/crm/crm.service.ts:106-117 | another connection's change of mappings keeps this connection's agreement if and only if on every deal of the tenant the two mappings reach the same of won and qualified, or neither, and then map its stage alike |
| CrmMappings.ForeignSync | apps/api/src/ingest/crm-sync.service.ts:70-81 | another connection's sync keeps this connection's agreement if and only if the two mappings have that same verdict on every deal the sync stored |
| CrmMappings.SyncedDeal | apps/api/src/ingest/crm-sync.service.ts:74-79 | an ingest leaves each deal its last record, holding its stage and the status of the connection's mapping, or its old row |
| CrmMappings.StagesStayRecorded | apps/api/src/ingest/crm-sync.service.ts:74 | whatever the connection, no event stores a history without its deal's stage |
| CrmMappings.TwoConnectionsDisagree | apps/api/src/crm/crm.service.ts:106-117 | with two connections the agreement can break: saving an empty mapping for one lowers the other's won deal |
| CrmMappings.ForeignSyncDisagrees | apps/api/src/ingest/crm-sync.service.ts:70-81 | from empty deals, one connection's sync of one deal breaks the other's agreement |
| CreativeName.ParseCreativeName | packages/core/src/creative.ts:25-37 | the nested loops with their early break compute the parse in which the first matching pattern with a free key takes each token |
| CreativeName.TokensOfJoin | packages/core/src/creative.ts:27 | splitting undoes joining words with "-" |
| CreativeName.WordThenRest | packages/core/src/creative.ts:27 | a word up to a separator or the end is one token |
| CreativeName.SeparatorSkipped | packages/core/src/creative.ts:27 | "-", "_" and white space separate tokens, and leading ones are skipped |
| CreativeName.RestExact | packages/core/src/creative.ts:16-23 | a pattern yields what its first alternative that fits and leaves something leaves of the token |
| CreativeName.AssignExact | packages/core/src/creative.ts:28-34 | a token sets the dimension of the first pattern that fits and is still free, and no other |
| CreativeName.AssignIgnores | packages/core/src/creative.ts:28-34 | a token no pattern fits is ignored |
| CreativeName.ExampleName | packages/core/src/creative.ts:1-5 | "Vid1-h2-c3" is video 1, hook 2, concept 3 |
| CreativeName.SetOnceFromSuffix | packages/core/src/creative.ts:27-35 | a dimension once set is never overwritten, and each value is a proper nonempty suffix of one token |
| CreativeName.RoundTrip | packages/core/src/creative.ts:16-37 | distinct dimensions written with their full prefixes in any order and joined by "-" parse back to exactly those dimensions |
| MetaSync.MetaSyncService.UpsertCreative | apps/api/src/ingest/meta-sync.service.ts:126-144 | finds or creates the creative of the tenant and external id, and answers its id; no creative without an external id |
| MetaSync.MetaSyncService.UpsertHierarchy | apps/api/src/ingest/meta-sync.service.ts:73-123 | the nested loops are keyed upserts of the campaigns, of the ad sets, and of the ads with their creatives, in order |
| MetaSync.MetaSyncService.StoreInsights | apps/api/src/ingest/meta-sync.service.ts:156-177 | upserts the insights of known ads on or after the connection day, by ad and day |
| MetaSync.MetaSyncService.IndexAds | apps/api/src/ingest/meta-sync.service.ts:152-156 | maps exactly the external ids of the account's ads, each to an ad that has it |
| MetaSync.MetaSyncService.Sync | apps/api/src/ingest/meta-sync.service.ts:37-71 | the hierarchy first, then the insights against the ads it left |
| MetaSync.StoreKeepsPlaces | apps/api/src/ingest/meta-sync.service.ts:126-144 | find-or-create never renumbers a creative and never makes a second one for a key, though no database constraint forbids it |
| MetaSync.CreativesTwice | apps/api/src/ingest/meta-sync.service.ts:126-144 | the same creatives a second time add no row and change no field, although absent dimensions keep their old values |
| MetaSync.StoreAdsExact | apps/api/src/ingest/meta-sync.service.ts:100-120 | the creative ids given to ads on the way are those of the final table, so a batch of ads is one plain keyed upsert |
| MetaSync.HierarchyTwice | apps/api/src/ingest/meta-sync.service.ts:73-123 | the same hierarchy a second time changes no campaign, ad set, ad or creative |
| MetaSync.LastInsightWins | apps/api/src/ingest/meta-sync.service.ts:159-177 | an ad's day holds the batch's last record for it, or its old row if there is none |
| MetaRows.InsightStored | apps/api/src/ingest/meta-sync.service.ts:159-177 | an ad's day holds the currency, spend, impressions, clicks, reach and frequency of the last row stored for it |
| MetaRows.CampaignStored | apps/api/src/ingest/meta-sync.service.ts:74-86 | a campaign has the name and states of its last record |
| MetaRows.OtherCampaignsStay | apps/api/src/ingest/meta-sync.service.ts:74-86 | a campaign without a record keeps its row |
| MetaRows.AdSetRecordsExact | apps/api/src/ingest/meta-sync.service.ts:87-99 | the ad sets written are exactly those listed, each under its own campaign, with its name and states |
| MetaRows.AdSetStored | apps/api/src/ingest/meta-sync.service.ts:87-99 | an ad set has what was last written under its key |
| MetaRows.ItemsExact | apps/api/src/ingest/meta-sync.service.ts:100-120 | the ads written are exactly those listed, each under its own ad set |
| MetaRows.AdStored | apps/api/src/ingest/meta-sync.service.ts:100-120 | an ad has the name and states of the last record under its key and points at the tenant's creative of the id that names, exactly if it names one |
| MetaRows.CreativeStored | apps/api/src/ingest/meta-sync.service.ts:126-144 | a creative has the name of its last record, and of each dimension the value of the last record whose name carries it, else the one it had |
| MetaSync.InsightsAreOfKnownAds | apps/api/src/ingest/meta-sync.service.ts:156-163 | everything stored is of an ad of the account and not before the connection day |
| MetaSync.SyncTwice | apps/api/src/ingest/meta-sync.service.ts:48-56 | the same hierarchy and insights a second time leave every table as it was, whatever each query of the ads answered, when no row to store names an external id two ads share |
| MetaSync.InsightsRepeatExactly | apps/api/src/ingest/meta-sync.service.ts:152-177 | repeating the insights changes nothing, for all stored rows and all answers of the two queries, if and only if no row to store names an external id that two ads of the account share |
| MetaSync.OneAdIndex | apps/api/src/ingest/meta-sync.service.ts:152-156 | when the account's ads have distinct external ids the query has only one answer |
| MetaSync.TwoAnswers | apps/api/src/ingest/meta-sync.service.ts:152-177 | with a shared id, two answers under which the second sync adds a row |
| Accumulators.RoundedSum | apps/api/src/metrics/metrics.service.ts:440-442 | n rounded amounts sum to within 0.005 n of the unrounded sum, and counts exactly |
| MetricsData.NewestRateWins | apps/api/src/metrics/metrics.service.ts:418-426 | a pair's rate is that of its newest row, and a pair has one exactly when it has a row |
| MetricsData.RateInForce | apps/api/src/metrics/metrics.service.ts:56-65 | amounts count as they are in the report's own currency, at the newest rate of their currency into it if there is one, and as they are if there is none |
| MetricsData.RevenueIsWorth | apps/api/src/metrics/metrics.service.ts:196 | a deal's revenue is its amount, zero if missing, at that rate for its currency, the report's own if missing |
| MetricsData.ConvertIsLinear | apps/api/src/metrics/metrics.service.ts:64-65 | conversion is linear in the amount, so grouping before converting is allowed |
| MetricsData.WeeksPartition | apps/api/src/metrics/metrics.service.ts:443-449 | each instant has exactly one Monday at most six days before its day |
| MetricsData.MondayLaws | apps/api/src/metrics/metrics.service.ts:443-449 | the Monday of an instant is monotone and idempotent |
| ReportTerms.RangeExact | apps/api/src/metrics/metrics.service.ts:57-62 | a range counts its days from first to last, both whole, from the day of the earliest connection on |
| ReportTerms.PerformanceRows | apps/api/src/metrics/metrics.service.ts:120-176 | the rows of the performance report: insights of the range since the ad account, matched leads of the range since the CRM, all deals since the CRM of their contacts, all matched leads with a contact since the CRM, oldest first |
| ReportTerms.CohortRows | apps/api/src/metrics/metrics.service.ts:236-285 | the rows of the cohort report likewise, its leads oldest first |
| ReportTerms.NodeInfo | apps/api/src/metrics/metrics.service.ts:78-104 | every node carries the name and parent of an ad, ad set or campaign of the query |
| ReportTerms.GroupIsTag | apps/api/src/metrics/metrics.service.ts:305-314 | each ad is grouped by its own creative's value of the requested dimension, "(untagged)" if it has none |
| ReportTerms.RoundExact | apps/api/src/metrics/metrics.service.ts:440-442 | rounding gives the nearest whole cents, the upper of two |
| ReportTerms.RowsShow | apps/api/src/metrics/metrics.service.ts:290-291 | cohort and creative rows keep every count, round both amounts and show revenue over unrounded spend, if there is spend |
| Performance.TreeOfJoin | apps/api/src/metrics/metrics.service.ts:67-110 | the tree built from the joined ads lists each node once and hangs each ad under its own ad set, campaign and currency |
| Performance.NodesOfAds | apps/api/src/metrics/metrics.service.ts:77-104 | the nodes are exactly the ads of the query, their ad sets and their campaigns |
| Performance.CreditsConserve | apps/api/src/metrics/metrics.service.ts:111-118 | crediting any amounts in any order keeps each parent equal to the sum of its children and each campaign to the sum of its ads |
| PerformanceLaws.RollUpConserves | apps/api/src/metrics/metrics.service.ts:67-201 | before rounding every metric of a campaign is the sum over its ad sets and over its ads |
| PerformanceLaws.ReportedRollUp | apps/api/src/metrics/metrics.service.ts:381-399 | after rounding, parent money is within 0.005 (n + 1) of the sum of n reported children or ads; counts agree exactly |
| PerformanceLaws.QualifiedWithinLeads | apps/api/src/metrics/metrics.service.ts:184-189 | at every node 0 <= qualified leads <= leads |
| PerformanceLaws.TouchIsExtremal | apps/api/src/metrics/metrics.service.ts:136-156 | a contact's ad is that of its earliest or latest matched lead, by model, and it has one exactly when it has such a lead |
| PerformanceLaws.EveryWinHasTouch | apps/api/src/metrics/metrics.service.ts:192-195 | every deal of an in-range contact has a touch ad: the skip before crediting is never taken |
| PerformanceLaws.WinsCreditedOnce | apps/api/src/metrics/metrics.service.ts:191-201 | the sales credits are the won deals, one each and in order, each to the ad of its contact's earliest or latest matched lead |
| PerformanceLaws.AdRowsTotal | apps/api/src/metrics/metrics.service.ts:120-201 | the ad rows sum to the report's spend, leads and won deals, under either model |
| PerformanceLaws.ModelsAgree | apps/api/src/metrics/metrics.service.ts:136-201 | first and last touch agree on every tenant-wide total |
| PerformanceLaws.AdRowIsItsCredits | apps/api/src/metrics/metrics.service.ts:111-118 | an ad's row holds exactly the credits made to that ad |
| AdRows.AdRow | apps/api/src/metrics/metrics.service.ts:120-201 | an ad's row holds the spend, impressions and clicks of its own in-range insights, the spend at the rate in force for its account's currency, the number of in-range leads matched to it and of those whose contact qualified, and the number of won deals whose touch ad it is with their amounts at the rate in force |
| PerformanceLaws.FloorsHideOldRows | apps/api/src/metrics/metrics.service.ts:60-62 | deleting all rows from before the connections changes no value of the report, for any range and model |
| Cohorts.TableSums | apps/api/src/metrics/metrics.service.ts:235-288 | the weeks together hold every lead, every contact's outcome and every insight's spend exactly once |
| Cohorts.OneWeekPerContact | apps/api/src/metrics/metrics.service.ts:241-246 | a contact is among those counted in week w if and only if its earliest lead in the range falls in w, and then once; each contact with a lead in the range has such a week |
| CohortWeeks.WeekRow | apps/api/src/metrics/metrics.service.ts:225-288 | there is a row for week w if and only if a lead or insight of the report falls in w; it holds the number of those leads, the spend of those insights at the rate in force, and the qualified contacts, won deals and their amounts at the rate in force of exactly the contacts whose earliest lead falls in w |
| CohortWeeks.ReportedWeeks | apps/api/src/metrics/metrics.service.ts:290-292 | the report lists exactly those weeks, each with these totals rounded and its return taken before rounding |
| Cohorts.WeeksIncrease | apps/api/src/metrics/metrics.service.ts:290-292 | the reported weeks are strictly increasing |
| Cohorts.ReportKeepsTotal | apps/api/src/metrics/metrics.service.ts:290-292 | sorting the weeks loses no week and no total |
| Reconciliation.ReportsReconcile | apps/api/src/metrics/metrics.service.ts:120-288 | the ad rows of the performance report and the weeks of the cohort report sum to the same leads, sales, revenue and spend before rounding, and no more contacts qualify than leads |
| Reconciliation.SpendAgrees | apps/api/src/metrics/metrics.service.ts:121-134 | spend grouped per ad and then converted equals spend converted row by row |
| Reconciliation.SafeMatchingHasAds | apps/api/src/matching/matching.service.ts:63-85 | the matching engine's invariant provides the reconciliation's condition that matched leads have known ads |
| Reconciliation.FloorsHideOldCohortRows | apps/api/src/metrics/metrics.service.ts:218-285 | deleting all rows from before the connections changes no value of the cohort report |
| CreativeInsights.GroupHoldsMembers | apps/api/src/metrics/metrics.service.ts:311-327 | a dimension group exists exactly if an ad row falls in it, and holds exactly the rows that do |
| CreativeInsights.GroupNearTruth | apps/api/src/metrics/metrics.service.ts:328-329 | a group's money is within 0.005 (n + 1) of the unrounded total of its n ads and its counts are exact, despite two roundings |
| CreativeInsights.GroupsConserve | apps/api/src/metrics/metrics.service.ts:311-327 | summed over the groups, counts equal those of all ads and money is within 0.005 n |
| CreativeInsights.ReportRanksGroups | apps/api/src/metrics/metrics.service.ts:328-331 | the report has exactly one row per group, and a row of higher return never stands after one of lower; groups without spend rank as -1 |
| CreativeInsights.ReportRowsReport | apps/api/src/metrics/metrics.service.ts:203-204 | the performance report has one row per node, in order of creation, with that node's accumulator rounded |
| MetricsService.MetricsService.LoadFx | apps/api/src/metrics/metrics.service.ts:418-426 | the loop over rates, newest first, keeps the first rate of each pair |
| MetricsService.MetricsService.BuildHierarchy | apps/api/src/metrics/metrics.service.ts:67-110 | the loop over ads builds the tree and one zero accumulator per node |
| MetricsService.MetricsService.AddUp | apps/api/src/metrics/metrics.service.ts:111-118 | adds the amount to the ad, its ad set and its campaign, to each once and to no other node |
| MetricsService.MetricsService.CreditInsights | apps/api/src/metrics/metrics.service.ts:120-134 | credits each ad's grouped insights, converted from its account's currency |
| MetricsService.MetricsService.Performance | apps/api/src/metrics/metrics.service.ts:50-205 | the whole report, computed loop by loop, is the specified one |
| MetricsService.MetricsService.CohortReport | apps/api/src/metrics/metrics.service.ts:213-294 | the whole cohort report, computed loop by loop, is the specified one |
| MetricsService.MetricsService.CreativeReport | apps/api/src/metrics/metrics.service.ts:298-332 | the performance rows grouped by dimension, best return first |
| Conversions.ConversionsService.CreateEvent | apps/api/src/conversions/conversions.service.ts:161-182 | adds the event and says so exactly when its id is new |
| Conversions.ConversionsService.GenerateEvents | apps/api/src/conversions/conversions.service.ts:25-100 | creates the requested events that do not exist and counts exactly those |
| Feedback.PurchaseGenerated | apps/api/src/conversions/conversions.service.ts:85-97 | after a generation every won deal past the floor whose contact has a lead to carry it has an event "PUR:" and its id; if new, that is a pending purchase of the deal's amount and currency with the leadgen id of the contact's youngest such lead and the account of its ad |
| Feedback.QualifiedGenerated | apps/api/src/conversions/conversions.service.ts:75-84 | the contact of every qualified or won deal past the floor has an event "QL:" and the id of its youngest lead; if new, with that lead's leadgen id and ad account |
| Feedback.CreatedFields | apps/api/src/conversions/conversions.service.ts:74-97 | every event a generation adds is one of these |
| Feedback.PurchasesCreated | apps/api/src/conversions/conversions.service.ts:85-97 | it adds exactly one purchase event for each such won deal that had none |
| Feedback.KeptIsYoungest | apps/api/src/conversions/conversions.service.ts:26-60 | the lead kept for a contact is the youngest of its matched leads since the CRM was connected whose ad is in an account of the tenant that opted in |
| Conversions.ConversionsService.PushPending | apps/api/src/conversions/conversions.service.ts:103-151 | pushes some batch of at most 500 pending events and counts exactly those that became accepted and rejected |
| Conversions.CreatedForOptedIn | apps/api/src/conversions/conversions.service.ts:26-39 | every event a generation adds is pending and for an account of the tenant opted in at that moment |
| Conversions.KeptLeadIsLastTouch | apps/api/src/conversions/conversions.service.ts:45-60 | the lead kept for a contact is the youngest of its matched leads among opted-in ads, and one is kept whenever there is one |
| Conversions.RequestsExact | apps/api/src/conversions/conversions.service.ts:74-97 | an event is requested if and only if it is the qualified-lead event of a contact with a kept lead and a qualified or won deal past the floor, or the purchase event of such a contact's won deal past the floor |
| Conversions.KeptTouchExact | apps/api/src/conversions/conversions.service.ts:57-60 | a contact has a kept lead exactly when it has a last-touch lead, and the lead's ad is of an opted-in account |
| Conversions.WonDealRequested | apps/api/src/conversions/conversions.service.ts:85-97 | every won deal past the floor whose contact has such a lead is requested, for the account of that lead's ad |
| Conversions.GenerateAgain | apps/api/src/conversions/conversions.service.ts:168-169 | generating again on unchanged data creates nothing, whatever was pushed or generated in between |
| Conversions.AtMostOnce | apps/api/src/conversions/conversions.service.ts:103-182 | over any serial run event ids stay unique, no id reaches the connector twice, and an event leaves pending at most once and never returns |
| Conversions.ClosedIffPushable | apps/api/src/conversions/conversions.service.ts:104-149 | a push takes pending events of the tenant only, all of them or 500; one leaves pending, accepted or rejected as the connector says, if and only if its account exists and the connector can push |
| Conversions.OthersStay | apps/api/src/conversions/conversions.service.ts:104-107 | no event of another tenant and no closed event is touched |
| Conversions.PushExact | apps/api/src/conversions/conversions.service.ts:110-149 | a push closes exactly those events, by the connector's verdict, and changes no other row |
| Conversions.OrphanStays | apps/api/src/conversions/conversions.service.ts:111-112 | an event whose account is gone keeps its row through any number of pushes |
| Conversions.PushesDrain | apps/api/src/conversions/conversions.service.ts:104-149 | with o pending events of the tenant without account, k pushes leave those and between max(0, n - 500 k) and max(0, n - (500 - o) k) of the n others |
| Conversions.DrainsIffNoOrphan | apps/api/src/conversions/conversions.service.ts:104-149 | after enough pushes for the number of pending events nothing is pending if and only if none of them had lost its account |
| Conversions.OrphansStarve | apps/api/src/conversions/conversions.service.ts:104-112 | a table with 500 such events and one that could be sent, and a push that changes nothing |
| Conversions.PushStalls | apps/api/src/conversions/conversions.service.ts:111-112 | a push changes nothing if and only if no event of its batch has an account, or the connector cannot push |
| TenantScope.Client.AllOperations | apps/api/src/prisma/prisma.client.ts:53-69 | rewrites the arguments in place as specified, then runs the query with them |
| TenantScope.PinnedMeans | apps/api/src/prisma/prisma.client.ts:58-59 | a pinned clause selects the tenant's rows among those of the caller's clause, whatever that says about tenants |
| TenantScope.UnpinnedMeans | apps/api/src/prisma/prisma.client.ts:58-59 | what is kept of the caller's clause is every condition but one on the tenant column |
| TenantScope.ScopedSelection | apps/api/src/prisma/prisma.client.ts:58-59 | the rewritten read is the caller's read on the tenant's slice |
| TenantScope.ScopedQueryIsOwn | apps/api/src/prisma/prisma.client.ts:58-59 | a scoped read or bulk write answers and leaves on the tenant's slice what the caller's own query, without its opinion on the tenant, does on that slice |
| TenantScope.ScopedCreateIsOwn | apps/api/src/prisma/prisma.client.ts:60-67 | a scoped create adds the caller's rows, all and in order, changed in the tenant column only |
| TenantScope.ScopedOperation | apps/api/src/prisma/prisma.client.ts:57-68 | a scoped operation answers and changes what it would on the tenant's slice alone, and no other slice |
| TenantScope.NoInterference | apps/api/src/prisma/prisma.client.ts:53-69 | over any interleaving of scoped operations each tenant gets the answers and the rows of running only its own operations on its own slice |
| TenantScope.MovingUpdate | apps/api/src/prisma/prisma.client.ts:58-59 | an updateMany whose data names another tenant leaves that tenant's slice alone if and only if it selects no row |
| TenantScope.UpdateMovesRow | apps/api/src/prisma/prisma.client.ts:58-59 | an update of one tenant that hands its row to another |
| TenantScope.ScopeOfRewriting | apps/api/src/prisma/prisma.client.ts:55 | every tenant-scoped model is rewritten alike; without a request context or on another model nothing is |
| QrLogin.QrLoginService.StartSession | apps/api/src/auth/qr/qr-login.service.ts:30-36 | stores a pending session that lives for the fixed time |
| QrLogin.QrLoginService.Poll | apps/api/src/auth/qr/qr-login.service.ts:39-51 | expired, refused, pending or the token, with the session dropped in the last case only |
| QrLogin.QrLoginService.Show | apps/api/src/auth/qr/qr-login.service.ts:54-60 | status and remaining time, without effect |
| QrLogin.QrLoginService.ApproveSession | apps/api/src/auth/qr/qr-login.service.ts:63-74 | approves a pending session within its remaining time, anything else without effect |
| QrLogin.DeliveredAtMostOnce | apps/api/src/auth/qr/qr-login.service.ts:46-49 | over any run a session's token is delivered at most once |
| QrLogin.AnswersExact | apps/api/src/auth/qr/qr-login.service.ts:39-74 | what a poll, a page view and an approval answer, from the operations before and the clock: before its deadline and until delivery a session is pending or, from its first approval on, holds that approval's token, which only the start's secret gets; otherwise expired |
| QrLogin.ExpiredAfterDelivery | apps/api/src/auth/qr/qr-login.service.ts:40-65 | after delivery every poll, page view and approval of the session says expired |
| QrLogin.DeliveryIsEarned | apps/api/src/auth/qr/qr-login.service.ts:39-74 | a delivered token went to the secret of the session's start and is that of its first and only accepted approval |
| QrLogin.DeadlineIsFixed | apps/api/src/auth/qr/qr-login.service.ts:71-72 | approval never moves the deadline set at the start, and from it on the session is over |
| QrLogin.OverForGood | apps/api/src/auth/qr/qr-login.service.ts:30-74 | a session that was delivered or expired stays over |

## Left out

- Connectors, queues, schedulers, controllers, guards and the web application: connector answers are given sequences.
- Hashing, encryption, password and token cryptography; the identifier's hash column and the hashed user data of a push.
- Sync bookkeeping: run rows, sync states and the failure paths that record them, log lines, and the date range asked of the ad platform.
- `recommend`, journeys, match rate, review queue and list endpoints: each is decided by one expression. Of the derived metrics only the return on spend that orders creative groups and fills cohort rows is modelled.
- Floating-point error: money, confidence and rates are exact reals.
- Concurrency inside one service method: every operation is one atomic step.
- Generated ids: a lead's, campaign's, ad set's or ad's id is its unique key in ingest and matching (only `upsertLead` creates leads); in the reports the ids of ads, ad sets and campaigns are told apart by level, since generated ids never collide; ad and account ids are never empty strings.
- The reports see one tenant's rows; that a query's tenant filter keeps others out is the subject of `TenantScope`. Status columns of report rows are not carried; days and weeks are day numbers instead of date strings.
- Audit rows carry no JSON detail; pushed events carry no timestamp and no response payload.
- Matching.MatchingService.MatchLead: a lead row deleted since the caller read it, on which the update fails, is not modelled; nothing in the modelled services deletes leads.
- Identity.EmailNormalForm: lower-casing is that of ASCII letters only, as is the case-insensitivity of creative-name prefixes.
- TenantScope.NoInterference: where clauses filter one table; relation filters, includes and nested writes, which the rewriter passes through unscoped, are not modelled, and the scoped calls of the repository use none.
- TenantScope.ScopedOperation: the same limits apply to its arguments.
- In the tenant scoping, operations with unique selectors (findUnique, update, delete, upsert), which the rewriter leaves alone, are one opaque operation outside the scoped ones; unique constraints and generated columns are not modelled.
- In the QR login, time is in whole seconds, and the random ids of two sessions never coincide.
- A won deal's status across incremental syncs is not sticky, since each sync overwrites the stored history; contacts are never merged; neither is claimed.
