# LeadPipe, modelled and proved in Dafny

LeadPipe collects company records from several sources and keeps one lead per company. This project models
its two stateful parts and the pure functions under them, and proves what they keep over whole histories.

**The deduplication store.** `Store.dfy` holds the tables (records, leads, links, sources) as a value `Db`,
each repository operation as a function on it, and the class `Database` whose methods update the tables in
place and are proved equal to those functions. `Pipeline.dfy` is the ingest of a record and the run loop with
its counters. Above them:

- `Ownership.dfy`: whatever is ingested, deleted or configured, a record belongs to a lead only through a
  settled link made by an exact key (or by having started the lead);
- `Derivation.dfy`: exactly which ingests, and which histories, leave every lead equal to the merge of exactly the
  records it owns; `Stranding.dfy` and `Returning.dfy` are reachable histories where it fails, and `Priorities.dfy` says which
  changes of the sources' priorities are harmless;
- `Provenance.dfy`: the links an ingest leaves, what it stores of an item, and when a lead was first seen;
- `Rerun.dfy`: collecting the same items again adds no record and no lead;
- `Erasure.dfy`: exactly what a deletion keeps out of every later collection; `Recollection.dfy` is an erased record
  that comes back, `Races.dfy` a deletion while collections are going;
- `Lookup.dfy`: the candidate query and best-match loop against a search of the whole table; `Crowding.dfy` is the
  reachable store in which its limit of 20 shows;
- `Merging.dfy`, `Matching.dfy`, `Fingerprint.dfy`, `OriginKeys.dfy`, `Emails.dfy`, `Hosts.dfy`: merge, match rules,
  slugs and similarity, the record-id sort key, and the normal forms of an email and of a website's domain;
  `Placeholders.dfy` says which shared values make two leads match.

**The job queue.** `Queue.dfy` has the job rows and the statements on them (class `JobTable`). `Workers.dfy` is a
collection as a worker runs it, from claim to commit or rollback, and `Counting.dfy` says what its counters count. `Protocol.dfy` runs workers, schedulers and a clock
against the job table as a transition system: lease safety, bounded attempts, one active job per source, bounded life
and backoff, and the exact heartbeat gap up to which they hold.

Two smaller loops complete it: keyset export (`Export.dfy`) and the per-host throttle (`Throttle.dfy`).

## How it is modelled

- A table is a map from ids to rows together with the next id; a query with `ORDER BY id` is `Tables.Ids`. One
  committed transaction is one step. The lock on a source row is held by a scheduler from `Lock` to `Insert`;
  `SKIP LOCKED` is a set of jobs that a claim may not take.
- A lead's nullable columns are a map from the nine column names to text; a null column is absent.
- The SHA-256 digest, the syntax checks of email, URL and phone, and the phone library are function parameters.
  `Hosts.dfy` follows the URL rules for scheme, user, host and port on text without brackets or percent signs; elsewhere
  the domain of a website is a parameter. No property needs the digest to be collision-free. Items enter the model already normalised; an item may carry
  the point at which its ingestion raises.
- Text is ASCII. Confidences, delays and job times are `real`, collection times are `int`.
- The throttle's event-loop lock and sleep appear as the two clock readings of a `Call`; `Behaves` says that a
  sleep lasts at least as long as asked.
- `Timely` is the one timing assumption: a live worker commits a heartbeat at least every `staleAfter`.

## Where a property fails, and exactly when it holds

- *A lead is rebuilt from its records* (docs/architecture.md, line 67). This breaks in four ways. An owned record that
  merges into another lead moves there, and its old lead is left as it was, possibly without any record
  (`Stranding.LeadsCanFallBehindTheirRecords`). If the two are linked already, the record stays with its owner, which is
  not rebuilt from the new data, while the lead that does not own it is (`Returning.UnclaimedMergeIsReachable`). An
  ingest that raises after storing the record leaves its owner behind (`Stranding.InterruptedIngestLeavesLeadBehind`).
  And a new priority changes the order of records
  without rewriting a lead; this is harmless in every reachable store exactly when it keeps the order of the sources
  (`Priorities.ReconfiguringIsSafeExactlyWhenOrderIsKept`). As long as priorities keep the order of each lead's records,
  all leads stay the merge of their records exactly when, in the first case, the old lead's other records alone already
  make up its row, in the second, the owner's row already shows the new data and the other lead's row is not changed
  by it, and in the third, the owner's row already shows the new data
  (`Derivation.LeadsAreDerivedExactlyWhenEventsKeepUp`).
- *A merge never depends on arrival order* (docs/deduplication.md, line 90). It holds exactly when candidates that
  tie for a slot agree on it (`Merging.MergeIgnoresOrderExactlyWhenTiesAgree`); stored records never tie, two
  candidates of one origin do (`Merging.SameOriginDependsOnOrder`).
- *The query hands the matcher every row it would accept* (docs/deduplication.md, lines 63-70). It does exactly when
  the incoming domain is not the empty string, which `https://www.` normalises to
  (`Lookup.QueryIsExactUnlessDomainEmpty`), and the best match is the true best up to exactly 20 selected leads
  (`Lookup.TwentyIsTheLimit`). Beyond that a reachable store gives one address a second lead
  (`Crowding.AddressGetsSecondLeadExactlyBeyondTwenty`).
- *Placeholders cannot create matches* (docs/deduplication.md, lines 20-22). `n/a` and `-` do not, as an email, phone or
  website (`Placeholders.PlaceholdersThatDoNot`), but `@`, `+358` and `https://-` each merge two leads
  (`Placeholders.PlaceholdersThatMerge`). A value that two leads share and nothing else makes them match exactly when:
  as an email, it has an `@`; as a phone, it is a valid number or begins with `+`; as a website, it leaves a domain,
  which it does exactly when any host follows `//`, or when without a scheme it begins with a well-formed host, in any
  case, whose port can be read. A shared
  name with a shared place matches exactly when it has a word that is no legal suffix, as `n/a` has, but is only ever
  left for review.
- *Deletion survives re-collection.* A deletion suppresses the email and domain that the lead shows, not those of its
  other records, so an erased record can come back (`Recollection.ErasedRecordComesBack`). It blocks exactly the records
  whose email or domain was listed before or is the normal form of the one shown
  (`Erasure.DeletionBlocksExactlyItsContacts`). A shown contact that is not its own normal form is not blocked itself: an
  address collected as `MAILTO:a@b` is stored with its prefix (`Emails.UpperCaseMailtoSurvives`), and of the well-formed
  hosts exactly those with three leading `www.` leave such a domain
  (`Suppressions.ThreePrefixesAreSuppressedDifferently`). And a collection that is going checks the list it loaded when it
  started: a deletion is final exactly when every such run already had the contact on its list
  (`Races.DeletionIsFinalExactlyWhenRunsKnow`).
- *One active job per source, one worker per job, attempts within their limit, finished jobs stay finished.* `fail` does
  not check who holds the job. Each of the four holds in every run of workers that commit a heartbeat at least every
  `gap` exactly when `gap` is at most the limit of the sweep (`Protocol.OneActiveExactlyWhenGapIsTolerated`,
  `Protocol.OneHolderExactlyWhenGapIsTolerated`, `Protocol.AttemptsInBoundsExactlyWhenGapIsTolerated`,
  `Protocol.FinishedStayExactlyWhenGapIsTolerated`).
- The code strips every trailing legal suffix, where docs/deduplication.md (line 24) says one; `lead_merges` rows are
  rewritten in place, where docs/architecture.md (line 68) says append-only. The model follows the code.

## Model

| member | source | states |
|---|---|---|
| Ownership.OwnershipNeedsAnExactKey | app/pipeline/runner.py:138-177 | In every history of ingests (interleaved, failing or not), deletions and configuration from an empty store, a record's owner exists and has a settled link to it, by rule initial or by email, website or phone at 0.85 or more: name similarity never attaches a record |
| Ownership.HistoryKeepsConsistent | app/repositories/leads.py:185-220 | The invariant behind it over all histories: unique record keys, links that resolve, no link of an unowned record, current matching keys on every lead |
| Ownership.ClaimKeepsConsistent | app/repositories/leads.py:194-220 | A claiming link leaves the record owned; it takes ownership when the link is new and leaves every record alone when it exists |
| Ownership.NoteKeepsConsistent | app/pipeline/runner.py:167-177 | A review link is safe because it never touches the owner's own link |
| Ownership.AttachKeepsConsistent | app/pipeline/runner.py:149-165 | All three branches of an ingest keep the invariant, end with the record owned, and leave a match awaiting review in a different lead |
| Ownership.DeleteErasesExactlyTheLead | app/repositories/leads.py:153-156 | Deleting a lead removes it, its records and every link of either, and changes nothing else |
| Provenance.LinksTellTheirRule | app/pipeline/runner.py:149-177 | In every reachable store a link needs review exactly when it was made by name, and its confidence is that of its rule: 1.0, 0.95 or 0.9 for an exact key, between 0.7 and 0.8 for a name |
| Provenance.WeakMatchAwaitsReview | app/pipeline/runner.py:167-177 | After an item whose best match is not merged automatically, its record is linked to that match for review, with the match's rule and confidence, and belongs to another lead |
| Provenance.ItemLinks | app/pipeline/runner.py:149-177 | After any stored item the links are the old ones with exactly these written: the merge, or the new lead, and the review |
| Provenance.StoredRecordShowsItem | app/repositories/records.py:42-77 | The stored record shows source, key, identifier, address, time, content, keys and grade of the item as it came |
| Provenance.FiledUnderItsIdentity | app/repositories/records.py:15-26 | An item rewrites a record if and only if that is of its source and has its identifier, or without one the digest of its content |
| Provenance.GradedExactly | app/validation/lead.py:15-33 | Invalid exactly without a name or with a malformed contact, unknown exactly with a name and no contact, else valid |
| Provenance.WrittenRowShowsTheBest | app/repositories/leads.py:104-119 | Each column and extra key of a written row is that of a record no other holder outranks, is missing only if all lack it, and the row is graded by what it shows |
| Provenance.ItemKeepsFirstSeen | app/repositories/leads.py:92-119 | A new lead was first and last seen with the item that starts it, and no later item changes when a lead was first seen |
| Provenance.HistoryKeepsFirstSeen | app/repositories/leads.py:92-119 | So over every history, and the id of a deleted lead never comes back |
| Derivation.IngestDerives | app/pipeline/runner.py:138-190 | After every stored record that starts a lead, refreshes its own, or merges where no link existed, even if its review link then fails, the record belongs to the written lead and that lead is the merge of exactly the records it owns |
| Derivation.AttachDerives | app/pipeline/runner.py:153-165 | The same for the attaching step, and what is written otherwise: the lead's own records plus the one it does not own |
| Derivation.AttachKeepsLeadsDerivedExactly | app/pipeline/runner.py:149-165 | All leads are the merge of their records after a record is attached if and only if the record keeps up: it starts a lead, refreshes its own, leaves behind a lead whose row its other records alone make up, or, merging without a claim, changes neither its owner's row nor the other's |
| Derivation.MoveKeepsUp | app/pipeline/runner.py:153-156 | The lead a record moves away from stays the merge of its records if and only if its row already is the merge of the others |
| Derivation.UnclaimedMergeKeepsUp | app/repositories/leads.py:194-212 | After a merge into a lead already linked to the record, owner and written lead are both derived if and only if the owner's row already is the merge with the new data and the written row already is the merge with the record it does not own |
| Derivation.ItemKeepsLeadsDerivedExactly | app/pipeline/runner.py:110-190 | The same for whole items, wherever they raise: if one is stored but not attached, its owner's row must already be the merge with the new data |
| Derivation.UnattachedKeepsUp | app/repositories/records.py:42-77 | A record stored but not attached leaves its owner the merge of its records if and only if the row before already is what re-merging with the new data would write |
| Derivation.LeadsAreDerivedExactlyWhenEventsKeepUp | app/pipeline/runner.py:180-190 | In every history whose priorities keep the order of each lead's records, and with record ids below 10^20, all leads are the merge of their records throughout if and only if every event keeps up |
| Derivation.SamePriorityOrderKeepsDerived | app/deduplication/merge.py:70-77 | Sources may be renamed and reprioritised as long as the records of each lead keep their order by priority: every lead stays the merge of its records without being rewritten |
| Derivation.OneSourceLeadsIgnorePriority | app/deduplication/merge.py:70-77 | Leads with records of one source only stay so under any change of priority |
| Priorities.ReconfiguringIsSafeExactlyWhenOrderIsKept | app/deduplication/merge.py:70-77 | For any old and new configuration: in every reachable store all leads stay the merge of their records if and only if the sources keep their order by priority |
| Joining.SecondIsCollected | app/pipeline/runner.py:149-165 | Two records of any two sources with a shared phone, collected one after the other, end up in one lead that is their merge |
| Joining.JoinedShows | app/deduplication/merge.py:70-77 | That lead can only be the merge of its records if it shows the address of the higher priority, then of the later sighting, then of the older record |
| Derivation.SteadyHistoryDerivesEveryLead | app/pipeline/runner.py:180-190 | In particular when no owned record changes lead and no failure leaves a stored record unattached, with priorities that keep the order of each lead's records and record ids below 10^20 |
| Derivation.SoleRecordStaysDerivedExactlyWhenSettled | app/pipeline/runner.py:153-160 | A lead's only record can never be moved without breaking this |
| Derivation.MovingStrandsTheOldLead | app/pipeline/runner.py:153-156 | A moved record's old lead keeps its row unchanged, and without records left it is the merge of nothing |
| Derivation.WrittenRow | app/repositories/leads.py:104-119 | Each written column is that of its best-ranked holder, and a lead was last seen with its newest record or when first seen, whichever is later |
| Derivation.CandidatesAreOwnedRecords | app/repositories/leads.py:168-183 | The candidates of a lead are its records, no more and no fewer, with their source's current name and priority |
| Derivation.RemergeUsesOwnedRecords | app/pipeline/runner.py:187-190 | Dropping the incoming record's old candidate and appending the new one gives exactly the candidates of the lead once it owns the record |
| Stranding.LeadsCanFallBehindTheirRecords | app/pipeline/runner.py:153-156 | A concrete three-record history ends with a stored lead that owns no record |
| Stranding.InterruptedIngestLeavesLeadBehind | app/pipeline/runner.py:138-157 | A concrete history with an ingest that raises in between ends with a lead that shows an address its only record no longer has |
| Returning.UnclaimedMergeIsReachable | app/pipeline/runner.py:153-156 | One record later the moved record merges back without being claimed: its lead does not show its address, and the lead that shows it owns no record |
| Rerun.RerunAddsNothing | app/pipeline/runner.py:138-165 | After a run without failures, collecting the same items again, in any order and after any other ingests, creates no record and no lead, if nothing was erased or unsuppressed |
| Rerun.KnownRunAddsNothing | app/repositories/records.py:42-77 | A run whose unsuppressed items are all known and owned keeps both tables' ids and counts no new lead |
| Rerun.HistoryKeeps | app/repositories/records.py:52-60 | Without deletions no record is dropped, renamed or disowned |
| Rerun.RunIsHistory | app/pipeline/runner.py:75-93 | A run changes the tables exactly as its items do one by one, so history theorems apply to runs |
| Erasure.ErasureSurvives | app/api/routes.py:95-120 | After a deletion with suppression no later run inserts or rewrites a record with the lead's email or domain until that entry is removed, for values that normalise to themselves |
| Erasure.DeletionBlocksExactlyItsContacts | app/repositories/suppressions.py:70-78 | For every lead and every record collected later: its deletion blocks the record if and only if the record's email or domain was listed before or is the normal form of the one that the lead shows |
| Recollection.ErasedRecordComesBack | app/api/routes.py:95-120 | Two records joined by a phone are erased with their lead, which showed the address of the first; the second is collected again and stored |
| Erasure.DeletionLists | app/repositories/suppressions.py:70-78 | A deletion lists the normal forms of the lead's email and domain and nothing else |
| Erasure.StoredEmailIsSuppressedAsIs | app/repositories/suppressions.py:31-34 | A normalised email is such a value exactly when it is plain or normalises to nothing |
| Erasure.ItemLeavesContact | app/pipeline/runner.py:123-128 | An ingest under a list naming a contact stores no record with it: every record carrying it afterwards was there before, unchanged |
| Races.ListedStaysOutExactlyWhenRunsKnow | app/pipeline/runner.py:69-128 | With any runs going, started and stopped, and items and deletions interleaved: a listed contact is never stored again until it is lifted if and only if every run going has a list that names it |
| Races.DeletionIsFinalExactlyWhenRunsKnow | app/api/routes.py:95-120 | Hence deleting a lead keeps its contact out, for a value that normalises to itself, if and only if every run going at that moment already had it on its list |
| Erasure.DeleteLeadRoute | app/api/routes.py:107-120 | The route suppresses the lead's contacts, then deletes it; a missing lead changes nothing |
| Suppressions.AddedIsListed | app/repositories/suppressions.py:56-68 | Adding lists the entry, keeps all others and their ids |
| Suppressions.SuppressionRepository.Add | app/repositories/suppressions.py:56-68 | Adding the same contact twice returns the existing entry |
| Suppressions.SuppressionRepository.AddForLead | app/repositories/suppressions.py:70-78 | Suppresses the email and the domain, each only if present, and returns the ids of exactly those entries |
| Suppressions.RemovalLiftsExactlyOneEntry | app/repositories/suppressions.py:80-84 | Removing lifts that one contact and no other, because no entry is listed twice |
| Suppressions.AddedStaysUnrepeated | app/repositories/suppressions.py:56-68 | Adding never lists an entry twice |
| Suppressions.StoredDomainIsSuppressedAsIs | app/normalization/url.py:27-69 | The domain of any website text, in any case and with a well-formed host or not, is suppressed as it is exactly when it has no outer space and is no well-formed host that begins with www. again |
| Suppressions.ThreePrefixesAreSuppressedDifferently | app/normalization/url.py:49-69 | Of the websites with a well-formed host, however spelled, exactly those with three leading www. or more are suppressed as another domain |
| Hosts.SpelledAnyWay | app/normalization/url.py:27-69 | A well-formed host gives the same domain with or without a web scheme and a port, in any case and with any path, unless text without a scheme has :// further on |
| Hosts.RespelledAs | app/normalization/url.py:49-59 | Its normal form has the scheme in lower case, https if there was none, the host without one www., and the port unless it is 80 for http or 443 for https |
| Hosts.ForeignIsKept | app/normalization/url.py:32-40 | Text of another scheme is kept as it came, and mailto and tel leave no domain |
| Hosts.DomainOfAnyText | app/normalization/url.py:27-69 | The domain of any text is that of the host it is rebuilt with, two leading www. dropped, or else of the host it names as it stands, one dropped, or none |
| Hosts.RebuiltDomain | app/normalization/url.py:52-69 | Reading the domain of a rebuilt URL gives its host back, whatever scheme, port and path it was rebuilt with |
| Hosts.StoredDomainIsDomainLike | app/normalization/url.py:62-69 | A stored domain is clean lower-case text without separators, in whatever case the website is written |
| Emails.NormalFormIsFixedExactlyWhenPlain | app/normalization/email.py:4-10 | A normalised email is its own normal form exactly when it has no mailto prefix and no outer angle bracket |
| Emails.UpperCaseMailtoSurvives | app/normalization/email.py:8-10 | An upper-case mailto prefix is kept, lowered, so the stored address normalises to a different one |
| Emails.CleanTextIsClean | app/normalization/text.py:6-10 | Cleaned text has single plain spaces inside and none at its ends |
| Text.LowerFoldsCapitals | app/normalization/email.py:10-10 | Folding maps each capital to its small letter and leaves every other character alone |
| Emails.CleanTextHasPlainBlanks | app/normalization/text.py:6-10 | No tab, line break or other separator is left, and no blank at an end or next to another |
| Counting.CountersCountItems | app/pipeline/runner.py:110-177 | Collected, suppressed, each grade, and duplicates with new leads are the numbers of items that were read, refused, graded so, and filed |
| Counting.ItemCounts | app/pipeline/runner.py:75-177 | What one item adds to each counter, errors and reviews included |
| Counting.SavedResultsCountItems | app/pipeline/runner.py:226-235 | So are the numbers saved with the job |
| Pipeline.RunConservesRecords | app/pipeline/runner.py:75-93 | After every prefix of a run the counters account for every record, with equality when nothing failed, and the lead table has grown by exactly the new leads |
| Pipeline.StoredConserves | app/pipeline/runner.py:153-177 | A stored record becomes exactly one duplicate or one new lead |
| Pipeline.CollectItems | app/pipeline/runner.py:69-93 | The loop over items with its counters computes the item-by-item fold; a rejected or raising record is counted and the run goes on |
| Workers.RunCollection | app/pipeline/runner.py:43-107 | Configures the source, marks the row running, loads the suppressions once, ingests the items, and unless the source crashed saves the counters and marks the row completed, or failed with the source's reason |
| Workers.SavedResultsAddUp | app/pipeline/runner.py:226-235 | The saved counters account for every collected record, and for exactly the leads the run added |
| Workers.WorkerRunCollects | app/pipeline/runner.py:43-93 | A worker's run does to the tables what collecting does under the suppressions listed when it starts and the priority just configured, so the erasure theorems apply to it |
| Pipeline.Ingest | app/pipeline/runner.py:110-177 | The ingest in place, with the point where it raises, equals its function on tables and counters |
| Pipeline.Attach | app/pipeline/runner.py:153-165 | Merge into the match, refresh the own lead or create one, with the matching counter |
| Store.Database.UpsertRecord | app/repositories/records.py:42-77 | Insert or overwrite by source and key, keeping the owner; says whether it is new |
| Store.Database.LinkRecord | app/repositories/leads.py:185-220 | Rewrite an existing link without claiming, or add one and claim if asked |
| Store.Database.DeleteLead | app/repositories/leads.py:153-156 | Delete with its cascades; says whether the lead existed |
| Store.Database.CreateLead | app/repositories/leads.py:92-97 | Adds one row under the next id, first seen at its collection time |
| Store.Database.RemergeLead | app/pipeline/runner.py:180-190 | Rebuilds a lead from its other records and the incoming one |
| Store.Database.FindBestMatch | app/pipeline/runner.py:193-206 | The scan with the exclusion and the strict comparison returns the best match of the candidates |
| Lookup.BestMatchIsBruteForce | app/pipeline/runner.py:193-206 | While at most 20 leads are selected, the best match is the lowest-id lead of highest confidence in the whole table, except the excluded one |
| Lookup.BestIsUnique | app/pipeline/runner.py:193-206 | No two leads are both best, so that search has one result |
| Lookup.TwentyIsTheLimit | app/repositories/leads.py:66-90 | For every number of selected leads, this holds on all tables if and only if the number is at most 20 |
| Crowding.AddressGetsSecondLeadExactlyBeyondTwenty | app/repositories/leads.py:66-90 | After n branches of one chain are collected, another record with the last one's address starts a second lead for it if and only if n exceeds 20 |
| Crowding.NextIsFiled | app/pipeline/runner.py:149-165 | In that store a new record joins a lead if and only if its address is that of one of the first 20 |
| Lookup.ExactKeyBeatsName | app/deduplication/matcher.py:25-30 | Hence a lead sharing an email, domain or phone is preferred to any merely similar name |
| Lookup.QueryIsExactUnlessDomainEmpty | app/repositories/leads.py:72-86 | The query selects exactly the stored leads the matcher accepts, on all tables, if and only if the incoming domain is not empty |
| Lookup.SelectedExactlyWhenMatched | app/deduplication/matcher.py:44-84 | For one stored row with current keys: selected if and only if matched |
| Lookup.StoredFingerprints | app/pipeline/runner.py:209-223 | The matcher sees a stored row through its stored keys and never sees an external id |
| Lookup.StoredMatchIsStrongest | app/deduplication/matcher.py:50-71 | Hence no rule that applies to a stored lead has a higher confidence than its match |
| Lookup.BestOfIsBest | app/pipeline/runner.py:196-206 | The loop's result has the highest confidence among the allowed candidates and the lowest id among those |
| Lookup.MostSimilarNameIsFound | app/pipeline/runner.py:193-206 | Among leads alike by name only, none is preferred under the cap to a strictly more similar one, and of equally good ones the lowest id is found, while at most 20 are selected |
| Merging.MergeIgnoresOrderExactlyWhenTiesAgree | app/deduplication/merge.py:37-67 | A merge is the same for every permutation of its candidates if and only if those tied for the best holder of a slot agree on it |
| Merging.MergeOfMembers | app/deduplication/merge.py:37-67 | Then it depends only on which candidates there are |
| Merging.SameOriginDependsOnOrder | app/deduplication/merge.py:70-77 | Two equally ranked candidates with different addresses merge differently in the two orders |
| Merging.AlikeMerge | app/deduplication/merge.py:37-77 | A merge depends on the order of its candidates' priorities, not on their values or the sources' names |
| Merging.WinnerOfConcat | app/deduplication/merge.py:41-55 | Merging two groups at once picks the better of their winners, slot by slot |
| Merging.WinnerIsLeast | app/deduplication/merge.py:90-91 | The winner of a slot holds it and is outranked by no other holder; there is none only when nobody holds it |
| Merging.ColumnsComeFromTheBest | app/deduplication/merge.py:45-77 | Each column of a merge is that of a holder beaten by none: higher priority, then later sighting, then more filled columns, then the older record id; website and domain come together, and a column is empty only if nobody has it |
| Merging.ExtrasComeFromTheBest | app/deduplication/merge.py:56-77 | So does each extra key, and the source is that of the best candidate |
| Merging.MergedColumnHasOneOrigin | app/deduplication/merge.py:45-55 | Each column and its recorded origin come from one best holder; website and domain share theirs |
| Merging.SortFindsWinners | app/deduplication/merge.py:41-46 | Stable sorting permutes, orders by rank, and its first holder of a slot is the winner |
| Merging.Merge | app/deduplication/merge.py:37-67 | Sorting once, scanning per column and overlaying extras from worst to best computes the slot-by-slot merge; no candidates is an error |
| Merging.LatestSightingIsMax | app/deduplication/merge.py:63-63 | A merged lead was collected when its newest candidate was |
| Merging.RankLessIsStrictOrder | app/deduplication/merge.py:70-77 | Ranks are strictly and totally ordered |
| OriginKeys.OriginOrderIsNumeric | app/deduplication/merge.py:80-82 | Below 10^20 the zero-filled key is injective and orders record ids as numbers |
| OriginKeys.OriginOrderLimit | app/deduplication/merge.py:80-82 | For every limit, ids below it sort as numbers if and only if the limit is at most 10^20 |
| Matching.FirstRuleIsStrongestUnlessIdentifierShared | app/deduplication/matcher.py:44-71 | Leads match exactly when some rule applies, by one that does; the first in order has the highest confidence exactly unless a shared identifier comes after a weaker rule |
| Matching.NameMatchExactly | app/deduplication/matcher.py:74-92 | Leads match by name exactly when they share no exact key and have slugs similar to 0.7 at least and an equal place; the confidence is then the smaller of the similarity and 0.8 |
| Matching.MatchIsSymmetric | app/deduplication/matcher.py:44-71 | Matching does not depend on which side is incoming |
| Matching.NameAloneNeverMerges | app/deduplication/matcher.py:16-30 | A match merges automatically exactly when it is not by name, and exact rules outscore names |
| Placeholders.SharedEmailMatchesExactlyWithAt | app/normalization/email.py:4-10 | Two leads sharing one email text as collected, and nothing else, match if and only if it has an at sign, and are then merged |
| Placeholders.SharedPhoneMatchesExactlyWithPlus | app/normalization/phone.py:6-16 | The same for a phone: if and only if it is a valid number or else begins with a plus sign |
| Placeholders.SharedWebsiteMatchesExactlyWithDomain | app/deduplication/fingerprint.py:83-98 | The same for a website: if and only if it leaves a domain |
| Placeholders.TextLeavesDomainExactlyWithHost | app/normalization/url.py:27-69 | It leaves one if and only if any host at all follows //, or without a scheme it begins with a well-formed host, in any case, whose port can be read |
| Placeholders.SharedNameMatchesExactlyWithWord | app/deduplication/matcher.py:74-84 | The same for a name in one place: if and only if it has a word that is no legal suffix, and then only for review |
| Placeholders.PlaceholdersThatMerge | app/deduplication/fingerprint.py:83-98 | An email @, a phone that is only a country code, and a website https://- each merge two leads on their own |
| Placeholders.PlaceholdersThatDoNot | app/deduplication/fingerprint.py:83-98 | n/a and - leave no key as an email, phone or website |
| Placeholders.NormalizingKeepsAt | app/normalization/email.py:4-10 | Normalising an email neither adds nor loses an at sign |
| Matching.SameNameSamePlaceNeedsReview | app/deduplication/matcher.py:74-84 | Two spellings of one company in one place, with no exact key in common, match at exactly 0.8 either way round and need review |
| Fingerprint.SlugIdentifiesCompanyName | app/deduplication/fingerprint.py:46-52 | Two names have the same slug if and only if they differ in case, punctuation and trailing legal suffixes only |
| Fingerprint.SlugIsFixed | app/deduplication/fingerprint.py:46-52 | A slug is its own slug |
| Fingerprint.WordsOfJoin | app/deduplication/fingerprint.py:49-52 | Splitting what was joined gives the same words back |
| Fingerprint.ComputeCompanySlug | app/deduplication/fingerprint.py:46-52 | The loop that pops suffixes computes the slug |
| Fingerprint.ComputeTrigrams | app/deduplication/fingerprint.py:55-63 | The growing set holds exactly the padded trigrams of the words |
| Fingerprint.SimilarityLaws | app/deduplication/fingerprint.py:66-70 | Similarity lies in [0, 1], is symmetric, and is 1 exactly for equal non-empty trigram sets |
| Fingerprint.SimilarityCountsSharedTrigrams | app/deduplication/fingerprint.py:66-70 | With s trigrams shared out of m and n the similarity is s / (m + n - s), and 0 without any |
| Fingerprint.TrigramsAreWindows | app/deduplication/fingerprint.py:55-63 | The trigrams are the windows of three over each word with two blanks before and one after it |
| Fingerprint.SlugOfWord | app/deduplication/fingerprint.py:46-52 | One word of letters and digits is its own slug in lower case unless it is a legal suffix |
| Fingerprint.PunctuationSeparates | app/deduplication/fingerprint.py:46-52 | Any other character only separates words |
| Fingerprint.SlugReads | app/deduplication/fingerprint.py:46-52 | A slug has small letters, digits and single words' blanks only |
| Fingerprint.PlacesAgreeExactly | app/deduplication/fingerprint.py:88-89 | Place keys are equal exactly when city and country agree up to case, or one side has only a city and the other only a country of that name, as long as no name has a bar in it |
| Fingerprint.EqualSlugsScoreOne | app/deduplication/fingerprint.py:66-70 | Every slug has similarity 1 with itself |
| Protocol.LeasesAreSafe | app/jobs/worker.py:66-126 | In every timely run a live worker's job is running at the attempt it was given, has no other live holder, and is not taken by the sweep |
| Protocol.ReachableRows | app/jobs/queue.py:32-133 | In every timely run attempts are below the maximum while pending and within 1..maximum while running, a job has an end time exactly when finished, and no source has two active jobs |
| Protocol.LifeIsBounded | app/jobs/queue.py:32-133 | Along every timely run a job's status or attempt changes at most twice per allowed attempt, and a finished row never changes again |
| Protocol.StepKeepsInv | app/jobs/queue.py:32-133 | Every timely step of any worker, scheduler or the clock keeps the invariant and moves each row strictly forward or not at all |
| Protocol.ReportKeepsInv | app/jobs/queue.py:87-109 | A failure or completion reported by a live worker meets the row it claimed, so the missing check is harmless while workers are timely |
| Protocol.RecoverTakesOnlyOrphans | app/jobs/queue.py:112-133 | While workers are timely, the sweep changes only running jobs that no live worker holds |
| Protocol.LiveJobIsSweptExactlyWhenSilent | app/jobs/queue.py:114-116 | A live worker's job is swept if and only if its last heartbeat is older than the limit |
| Protocol.InsertKeepsInv | app/jobs/service.py:40-53 | A scheduler's insert keeps one active job per source, because the lock covers look and insert |
| Protocol.OneActiveExactlyWhenGapIsTolerated | app/jobs/queue.py:87-133 | For every limit of the sweep and every gap: one active job per source holds in all runs of workers that beat at least every gap if and only if the gap is at most the limit |
| Protocol.OneHolderExactlyWhenGapIsTolerated | app/jobs/queue.py:32-133 | The same for at most one live worker per job |
| Protocol.AttemptsInBoundsExactlyWhenGapIsTolerated | app/jobs/queue.py:87-133 | The same for attempts below the maximum while pending and within 1..maximum while running |
| Protocol.FinishedStayExactlyWhenGapIsTolerated | app/jobs/queue.py:87-133 | The same for finished jobs never changing again |
| Protocol.SecondHolder | app/jobs/queue.py:112-133 | For every gap above the limit, a run in which the sweep hands a live worker's job to a second one |
| Protocol.LateReportExceedsAttempts | app/jobs/queue.py:87-102 | Likewise a run in which a late failure puts a job with all its attempts used back in line |
| Protocol.LateReportReopens | app/jobs/queue.py:87-102 | Likewise a run in which a late failure reopens a completed job |
| Protocol.LateReportBreaksOneActive | app/jobs/queue.py:87-109 | For every gap above the limit, a run with one heartbeat that late reopens a finished job beside a newer one of the same source |
| Protocol.ClaimsNeverRepeat | app/jobs/queue.py:46-63 | In every run, timely or not, no two claims return the same job at the same attempt |
| Protocol.ClaimsGoInQueueOrder | app/jobs/queue.py:32-63 | In every run, timely or not, no waiting, due and unlocked job is passed over for one queued after it, and if there is one, one is taken |
| Protocol.RunKeepsApart | app/jobs/queue.py:46-109 | In every run, timely or not, live workers of one job hold different attempts, none of which was reported as failed before |
| Protocol.TotalBackoffIsBounded | app/jobs/queue.py:87-102 | Hence in every run from the start, however late its workers, the backoffs of one job add up to at most one capped delay per attempt before the last |
| Queue.BackoffIsBounded | app/jobs/queue.py:25-29 | With jitter in [0, 1] a delay is between 2.5 and 300 seconds and never above the unjittered one |
| Queue.BackoffIsMonotone | app/jobs/queue.py:25-29 | At equal jitter a later attempt never waits less |
| Queue.CapFromSeventhAttempt | app/jobs/queue.py:27-27 | The cap is in force exactly from the seventh attempt |
| Queue.DelayDoublesUpToTheCap | app/jobs/queue.py:25-27 | The delay starts at five seconds and doubles with every attempt until it reaches 300 |
| Queue.JitterIsLinear | app/jobs/queue.py:28-29 | Jitter spreads the delay evenly over its upper half |
| Queue.RetryWaitsForItsBackoff | app/jobs/queue.py:87-102 | A failed attempt with retries left is claimable exactly from its backoff on, with its count kept |
| Queue.SweptJobIsRetriedOrFailed | app/jobs/queue.py:112-133 | The sweep changes exactly the running rows without a heartbeat or with one before the limit: claimable at once, or failed if the attempts are used up |
| Queue.Oldest | app/jobs/queue.py:35-45 | The claimed job is runnable and unlocked and was created before every other such job, or with it and has the lower id; none is claimed only if there is none |
| Queue.OldestIsClaimed | app/jobs/queue.py:35-63 | The same of a claim's result, in the columns of the table |
| Queue.ClaimStamps | app/jobs/queue.py:46-56 | A claim adds an attempt, stamps worker and heartbeat, and sets the start only the first time |
| Queue.FirstStartIsKept | app/jobs/queue.py:32-133 | Claims, heartbeats, failures and sweeps keep a job's first start |
| Queue.BeatStampsOnlyRunning | app/jobs/queue.py:79-84 | A heartbeat stamps a running row and changes nothing else |
| Queue.ReportsLeaveTheirError | app/jobs/queue.py:87-109 | A failure leaves its error cut to 2000 characters, a success clears it |
| Queue.NewJobWaits | app/repositories/jobs.py:17-21 | A new job has had no attempt and may be claimed from the moment it is queued |
| Queue.JobTable.Create | app/repositories/jobs.py:17-21 | Adds one pending job under the next id |
| Queue.JobTable.Claim | app/jobs/queue.py:32-76 | Takes the runnable unlocked job with the earliest creation time, then the lowest id, one attempt further |
| Queue.JobTable.Heartbeat | app/jobs/queue.py:79-84 | Stamps the row only while it is running |
| Queue.JobTable.Fail | app/jobs/queue.py:87-109 | Requeues with backoff or fails for good, by the attempt the worker was given |
| Queue.JobTable.RecoverStale | app/jobs/queue.py:112-133 | The two updates in sequence recover each silent row once and count exactly those rows |
| Queue.JobTable.EnqueueIfIdle | app/jobs/service.py:32-53 | Adds a job exactly when the source has no pending or running one |
| Workers.Worker.RunOnce | app/jobs/worker.py:66-104 | One claim, then the run of that job's source, all or nothing: either tables, counters and the completed row are committed together, or all three are as before the run and only the failure of that attempt is recorded; nothing if there was nothing to claim |
| Workers.Worker.MaybeRecover | app/jobs/worker.py:117-126 | At most one sweep per interval |
| Export.ExportUnderChange | app/repositories/leads.py:121-145 | Whatever changes between pages, ids come out strictly increasing, each matched when its page was read, and a completed export has every row that matched throughout |
| Export.ExportOfFixedTable | app/repositories/leads.py:132-145 | On an unchanged table the export ends and its pages together are the filtered table in id order |
| Export.IterExport | app/repositories/leads.py:132-145 | The loop over pages and rows computes that export |
| Export.PageIsPrefix | app/repositories/leads.py:121-130 | A page is ascending, matching, and misses nothing up to its last id |
| Throttle.WindowBound | app/fetch/limits.py:15-28 | A window of length T sees at most floor(T / m) + 1 releases of a host, for any interleaving of callers |
| Throttle.ReleasesAreSpaced | app/fetch/limits.py:20-28 | Each release of a host waits out the interval of the one before it |
| Throttle.EarlierCallerIsWaitedOut | app/fetch/limits.py:15-27 | Between two releases of a host lie the configured interval and the one the earlier caller asked for |
| Throttle.DomainThrottle.Wait | app/fetch/limits.py:15-28 | Holds the caller exactly until the host's next time and books the host until the later of the configured and the asked interval from its release; lets it pass if neither is positive |

## Left out

- Workers.RunCollection: is given the id of an existing job row, as a worker does; a run that makes its own row is left out with the direct `collect`.
- Pipeline.Ingest: partial writes go no further than an unowned or rewritten record, or a missing review link; the state of a database session after an error is not modelled.
- Derivation.LeadsAreDerivedExactlyWhenEventsKeepUp: a priority that reorders the records of a lead is outside, since the lead is only rebuilt when next written; record ids of 10^20 and above are too, since their order as text is no longer numeric.
- Protocol.LeasesAreSafe: timeliness is assumed of committed heartbeats; that the run transaction itself locks the job row is not modelled.
- Races.ListedStaysOutExactlyWhenRunsKnow: each item of a run is a step of its own; that a run's records become visible to others only with its commit is not modelled.
- Throttle.DomainThrottle.Wait: the event loop's lock and sleep are inputs, not code of the model.
- Emails.NormalFormIsFixedExactlyWhenPlain: ASCII only.
- Hosts.NormalizeUrl: text with brackets (numeric addresses), percent signs (zones) or control characters, and what becomes of path and query, are left to the URL library.
- Phone parsing, field syntax checks, JSON and hashing: library behaviour, taken as deterministic functions.
- PostgreSQL isolation levels, trigram indexes and `pg_trgm` itself: the SQL similarity is taken equal to the Python one.
- Direct `leadpipe collect`, the API's unchecked enqueue and the CANCELLED status: they bypass or never enter the lifecycle proved here.
- Age-based purging (a sequence of deletions), raw payloads, validation reasons, job ids on records, provenance listing and `contributors`: they would only add easy members.
- HTTP fetching, robots rules, source adapters, configuration, cron, CLI, telemetry, migrations, API schemas and export formatting: plumbing around the core.
