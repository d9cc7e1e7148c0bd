# Identity import reconciliation, modelled in Dafny

This project models the reconciliation core of `import-identities.go`, the tool that imports identity YAML files into a Sorting Hat (MariaDB) identity store. The model covers sequential mode, where the tool runs with one thread. It follows one run through these steps:

1. **Unaffiliated cleanup.** Each file's records lose their "Unaffiliated" enrollments (`cleanupUnaffiliated`).
2. **Record processing.** Each record is checked and its alias map is extracted from a second, loosely typed decode of the same YAML. Zero enrollment dates are replaced by the 1900/2100 bounds (`processItem`).
3. **Lookup.** The record is matched to a stored identity by the seven-strategy cascade of point queries (`lookupUIdentity`).
4. **Filing.** A resolved record is stamped with its uuid and the project slug (`setUUID`) and goes into the uuid map; an unresolved one goes into the missing list (`processResult`). An outcome whose uuid is the "skip" marker is dropped. That is a record without enrollments, or one whose store row reads "skip". Each file gets its own, fresh uuid map (import-identities.go:593, 604).
5. **Organization indexes.** The four indexes are built from the organizations table.
6. **Organization matching.** Every organization name of the resolved records passes through `processOrg`: an exact match first, then a lower-case match, then the lazily loaded regular-expression mapping file in two pattern passes.
7. **Reconciliation.** Each resolved record is reconciled with the store (`processUIdentity`):
   - the profile, alias and enrollment comparisons (`profilesDiffer`, `enrollmentsDiffer`);
   - organization id resolution (`getCompIds`);
   - the delete/insert decision;
   - the eleven counters merged into the batch total.

   The records reconciled are the values of the per-file uuid maps, file after file (import-identities.go:877-897). A uuid resolved in two files is reconciled twice.

Two helpers are modelled as well: `toYMDDate`, the date rendering used in enrollment keys, and `getConnectString`, which builds the data source name.

The store is an oracle:
- `Lookup.Rows` gives the uuid rows of each lookup query.
- `Reconcile.Db` gives the rows of the uidentities, profiles, identities and enrollments queries.
- `Orgs.Matcher` is the `select ? regexp ?` test.
- `Text.Normalizer` stands for NFKD normalisation.
- The process environment is `Config.Env`; a variable that is not in it reads as "".

Fatal exits (`fatalf`, `fatalOnError` on a malformed document, an unknown organization id, `please specify database via ...`) are `Fatal(reason)` results. Go map iteration order is modelled as the order of a sequence. Writes are `Reconcile.Action`s applied to the store in order, so later calls see earlier writes.

Files:

| file | contents |
|---|---|
| `wrappers.dfy` | `Option` and `Result` |
| `text.dfy` | `%0Nd` formatting, ASCII lower-casing, the printable-ASCII filter |
| `records.dfy` | records, `toYMDDate`, `shEnrollment.String` |
| `lookup.dfy` | the lookup cascade |
| `preprocess.dfy` | `postprocessIdentities`, `processItem`, `processResult`, `setUUID` |
| `cleanup.dfy` | `cleanupUnaffiliated`, both as written and corrected |
| `orgs.dfy` | the organization indexes and `processOrg` |
| `reconcile.dfy` | `processUIdentity`, the stats and the record loop |
| `config.dfy` | `getConnectString` |

Each method that follows a loop of the source is proved equal to a specification function. The properties below are proved about those functions.

## Model

| member | source | states |
|---|---|---|
| Text.FormatIntRoundTrip | import-identities.go:192-194 | a non-negative number below 10^w formats under `%0wd` to exactly w digits that read back as the number |
| Text.StripUnicode | import-identities.go:209-216 | every character left after normalisation and filtering is printable ASCII (code 32..126) |
| Text.StripUnicodeKeeps | import-identities.go:209-216 | each printable character of the normalised string is kept as often as it occurs and nothing else is; an all-printable normalised string comes back unchanged |
| Text.StripUnicodeInOrder | import-identities.go:209-216 | a character of the normalised string stays in place between what is kept before and after it exactly when it is printable |
| Text.KeepPrintable | import-identities.go:196-216 | the filter never lengthens a string, keeps only printable characters, and leaves an all-printable string unchanged |
| Text.KeepPrintableCounts | import-identities.go:209-216 | each printable character is kept as often as it occurs; no other character is kept |
| Text.KeepPrintableAppend | import-identities.go:209-216 | the filter of a concatenation is the concatenation of the filters, so order is kept |
| Text.KeepPrintableOne | import-identities.go:210-212 | one character is kept exactly when it is printable |
| Text.KeepPrintableIdempotent | import-identities.go:196-216 | filtering twice is filtering once |
| Text.ToLower | import-identities.go:663-667 | lower-casing keeps the length, leaves no upper-case ASCII letter, and changes a character only by the case offset |
| Text.ToLowerIdempotent | import-identities.go:695-697 | lower-casing an already lower-cased name changes nothing |
| Records.YMDRoundTrip | import-identities.go:192-194 | toYMDDate renders a date with a year of at most four digits as ten characters YYYY-MM-DD that parse back to the same year, month and day |
| Records.YMDSameDay | import-identities.go:192-194 | two dates render alike exactly when they fall on the same calendar day (time of day is ignored) |
| Records.ToYMDDate | import-identities.go:192-194 | toYMDDate; its properties are `Records.YMDRoundTrip` and `Records.YMDSameDay` |
| Records.EnrollmentString | import-identities.go:105-113 | the enrollment key; `Records.EnrollmentStringIgnoresTimeOfDay` and `Reconcile.KeysMembers` state what it is used for |
| Records.EnrollmentStringIgnoresTimeOfDay | import-identities.go:105-106 | moving an enrollment's dates within their days leaves its key unchanged |
| Text.FormatInt | import-identities.go:193 | `%0wd`; its property is `Text.FormatIntRoundTrip` |
| Lookup.Cascade | import-identities.go:225-400 | the query order of lookupUIdentity; its property is `Lookup.CascadeOrdered` |
| Lookup.FirstHit | import-identities.go:225-402 | the result is "" exactly when no query returns exactly one non-empty uuid; otherwise it is the single row of the first query that does, and every earlier query was inconclusive |
| Lookup.FirstHitAppend | import-identities.go:225-402 | a hit in an earlier strategy hides every later one; a miss passes the lookup on to the rest |
| Lookup.CascadeOrdered | import-identities.go:225-400 | the cascade starts with the by-name query and visits the strategies in non-decreasing order 1..7 |
| Lookup.ScanRows | import-identities.go:228-243 | the row loop fetches when at least one row exists, flags multiple rows when two exist, and yields a uuid exactly when the query is conclusive |
| Lookup.TryQueries | import-identities.go:245-270 | one strategy's query loop returns the first conclusive uuid of its queries, or "" |
| Lookup.LookupUIdentity | import-identities.go:218-403 | the uuid returned is the first conclusive hit of the whole cascade over the record's name, aliases and emails |
| Lookup.SharedNameUnresolved | import-identities.go:225-243 | with no aliases and no emails, a name shared by two stored identities leaves the record unresolved |
| Lookup.ResolvedByUniqueRow | import-identities.go:218-403 | a resolved uuid is never guessed: some query of the cascade returned exactly that uuid and nothing else |
| Preprocess.IdentsOf | import-identities.go:436-462 | the alias extraction is fatal exactly when some entry is malformed (non-string key, non-list value, non-string item under a non-reserved key), and never yields a reserved key |
| Preprocess.IdentsSound | import-identities.go:436-462 | every extracted alias source is the copy of some document entry |
| Preprocess.IdentsComplete | import-identities.go:436-462 | every entry with a non-reserved key is copied into the aliases |
| Preprocess.ExtractIdents | import-identities.go:436-462 | the extraction loop returns what the alias specification returns, including each fatal reason |
| Preprocess.WithDefaultDates | import-identities.go:463-473 | both dates of the result are non-zero, non-zero dates are kept, and nothing but the dates changes |
| Preprocess.WithDefaultDatesIdempotent | import-identities.go:463-473 | filling default dates twice is filling them once |
| Preprocess.DefaultDates | import-identities.go:463-473 | the enrollment list keeps its length and each enrollment gets its default dates |
| Preprocess.FillDefaultDates | import-identities.go:463-473 | the enrollment loop is fatal exactly when some enrollment has no organization, and otherwise fills default dates |
| Preprocess.ItemSpec | import-identities.go:420-492 | processItem's outcome; its properties are `Preprocess.EmptyNameFatalBeforeLookup`, `Preprocess.NoEnrollmentsSkipped` and `Preprocess.LookedRecordComplete` |
| Preprocess.ProcessItem | import-identities.go:420-492 | processItem returns the item specification: fatal without a name, skip without enrollments, fatal on a malformed document or unnamed organization, else the updated record and its cascade uuid |
| Preprocess.EmptyNameFatalBeforeLookup | import-identities.go:429-431 | an empty profile name is fatal whatever the store holds |
| Preprocess.NoEnrollmentsSkipped | import-identities.go:432-435 | a named record without enrollments is skipped, whatever its document holds |
| Preprocess.LookedRecordComplete | import-identities.go:436-482 | a looked-up record keeps profile, emails and uuid, has every enrollment named and dated, no reserved alias key, and the cascade's uuid |
| Preprocess.Stamp | import-identities.go:407-414 | setUUID sets the record's, the profile's and every enrollment's uuid and every enrollment's project slug, and changes nothing else |
| Preprocess.SetUUID | import-identities.go:407-414 | the in-place loop of setUUID yields the stamped record |
| Preprocess.ProcessResult | import-identities.go:493-505 | a record without enrollments changes nothing; a lookup whose uuid is "skip" leaves the updated record unstamped and unfiled; any other uuid stamps the record and files it under that uuid; "" appends it to the missing list |
| Preprocess.FileRecord | import-identities.go:493-505 | only slot i of the record array changes, to its final record (stamped only when filed under a uuid), and the map and list get that outcome |
| Preprocess.SkipNotFiled | import-identities.go:497-499 | an outcome carrying "skip" is neither filed nor listed as missing and its record is not stamped |
| Preprocess.ResolvedStep | import-identities.go:524-528 | one more outcome grows the map and the missing list by that outcome alone |
| Preprocess.PostprocessIdentities | import-identities.go:405-533 | fatal exactly when some record's outcome is fatal; otherwise every slot holds its final record, the map is the in-order filing of the outcomes other than "skip", and the missing list holds the unresolved records in order |
| Preprocess.ResolvedKeys | import-identities.go:493-505 | a uuid is in the map exactly when it was there before or some record resolved to it ("" and "skip" are never filed) |
| Preprocess.LastWriterWins | import-identities.go:499-501 | of two records that resolve to one uuid the later one is kept, stamped |
| Preprocess.ResolvedUntouched | import-identities.go:493-505 | an entry no record of the file resolves to keeps its old value |
| Preprocess.ResolvedStamped | import-identities.go:407-414 | every record of the map carries its key, never "" nor "skip", as uuid and the run's project slug |
| Preprocess.MissingExactly | import-identities.go:502-504 | the missing list holds exactly the records no strategy resolved |
| Cleanup.CleanupAsWritten | import-identities.go:538-555 | the inner loop as written returns what the as-written specification returns, including the panic |
| Cleanup.AsWrittenWithoutUnaffiliated | import-identities.go:538-555 | a list without "Unaffiliated" is left alone |
| Cleanup.AsWrittenSingle | import-identities.go:547-548 | a single "Unaffiliated" slot is overwritten by the last enrollment and the list shrinks by one |
| Cleanup.AsWrittenLone | import-identities.go:541-546 | a lone "Unaffiliated" enrollment leaves an empty list |
| Cleanup.AsWrittenPanics | import-identities.go:538-555 | [Unaffiliated, X, Unaffiliated] makes the code as written index past the shortened slice |
| Cleanup.Affiliated | import-identities.go:536-537 | the intended result contains no "Unaffiliated" enrollment |
| Cleanup.AffiliatedCount | import-identities.go:536-537 | the intended result keeps each other enrollment exactly as often as it occurs |
| Cleanup.SwapRemove | import-identities.go:547-548 | the swap with the last slot and the shortening remove exactly that enrollment |
| Cleanup.RemoveUnaffiliated | import-identities.go:538-555 | the corrected loop leaves no "Unaffiliated", keeps exactly the other enrollments (as a multiset), and leaves a clean list untouched |
| Cleanup.AsWrittenAgrees | import-identities.go:538-556 | whenever the code as written does not panic, it keeps exactly the enrollments that are not "Unaffiliated", as the corrected removal does |
| Cleanup.ScanStep | import-identities.go:539-553 | one slot of the as-written loop keeps the removed enrollments "Unaffiliated" and the stale copies balanced |
| Cleanup.AffiliatedSingle | import-identities.go:538-555 | on a list with one "Unaffiliated" slot the corrected removal and the code as written agree |
| Cleanup.CleanupUnaffiliated | import-identities.go:535-557 | every record of the array keeps all but its enrollments, which lose exactly the "Unaffiliated" ones |
| Orgs.IndexStep | import-identities.go:662-668 | reading one more organization row adds or overwrites that one key |
| Orgs.IndexKeys | import-identities.go:662-668 | a key is indexed exactly when some row carries it |
| Orgs.IndexLast | import-identities.go:662-668 | the last row with a key decides its value |
| Orgs.InitialInverse | import-identities.go:653-671 | with unique names and ids, name-to-id and id-to-name agree on every row and the lower-case indexes hold each row |
| Orgs.UnescapeEscape | import-identities.go:722 | unescaping a pattern whose backslashes were doubled restores it |
| Orgs.UnescapePlain | import-identities.go:722 | a pattern without a doubled backslash is used as it is |
| Orgs.FirstMapping | import-identities.go:720-762 | a pattern pass finds nothing exactly when no mapping applies; otherwise it gives the id of the first mapping that applies |
| Orgs.ScanMappings | import-identities.go:720-762 | the pattern loop stops at the first mapping that matches with a known target |
| Orgs.Load | import-identities.go:700-715 | the mapping file is loaded once, on the first name that needs it; afterwards loading changes nothing |
| Orgs.OrgIndex.constructor | import-identities.go:653-671 | the four indexes are those of the organization rows, read in order |
| Orgs.OrgIndex.ProcessOrg | import-identities.go:685-827 | processOrg is fatal exactly when canonicalization is, and otherwise leaves the canonicalized state |
| Orgs.OrgIndex.MatchMappings | import-identities.go:719-820 | the two pattern passes leave the state the mapping specification gives |
| Orgs.OrgIndex.ProcessOrgs | import-identities.go:844-848 | the loop over the names leaves the state canonicalizing them in order gives |
| Orgs.CanonicalizeAllStep | import-identities.go:844-848 | the loop handles the name at position i, then the rest |
| Orgs.KnownNameUnchanged | import-identities.go:691-694 | a name already in comp2id changes nothing |
| Orgs.CanonicalizeOutcome | import-identities.go:685-827 | afterwards the name is resolved or recorded as missing, earlier resolutions and missing names are kept with their ids, the lower-case indexes are untouched, and loaded mappings stay as they were |
| Orgs.ByMappingsOutcome | import-identities.go:719-820 | the pattern passes resolve the name or record it as missing, and touch neither lower-case index |
| Orgs.LearnOutcome | import-identities.go:747-752 | learning an alias adds exactly that key to comp2id |
| Orgs.LearnedIdOrigin | import-identities.go:685-827 | every id learned comes from comp2id, from lcomp2id, or is 0 from the lower-case tier |
| Orgs.Canonicalize | import-identities.go:685-827 | processOrg on one name; its properties are `Orgs.CanonicalizeOutcome`, `Orgs.CanonicalizeCoherent` and `Orgs.LowerCaseTierLearnsZero` |
| Orgs.ByMappings | import-identities.go:719-820 | the two pattern passes; their property is `Orgs.ByMappingsOutcome` |
| Orgs.CanonicalizeAll | import-identities.go:844-848 | processOrg over every name; its properties are `Orgs.CanonicalizeAllCovers`, `Orgs.CanonicalizeAllCoherent` and `Orgs.CanonicalizeAllMonotone` |
| Orgs.LowerCaseTierLearnsZero | import-identities.go:691-699 | any name without an exact entry whose lower-case form is known is cached with id 0, id 0 points back at it, and nothing else changes |
| Orgs.LowerCaseTierCachesZero | import-identities.go:694-699 | with "Acme Corp" stored, "acme corp" is cached with id 0 (the lower-case tier as written) |
| Orgs.InitialCoherent | import-identities.go:653-671 | with unique names the indexes start coherent |
| Orgs.LearnCoherent | import-identities.go:747-752 | learning an alias for a name without an id keeps the indexes coherent |
| Orgs.CanonicalizeCoherent | import-identities.go:685-827 | processOrg keeps the indexes coherent |
| Orgs.ResolvedStaysResolved | import-identities.go:691-694 | processing a resolved name again changes nothing |
| Orgs.CanonicalizeAllCoherent | import-identities.go:844-848 | the whole loop keeps the indexes coherent |
| Orgs.CanonicalizeConsistent | import-identities.go:813-820 | the missing counter keeps counting the missing names |
| Orgs.CanonicalizeAllConsistent | import-identities.go:844-848 | over distinct new names the counter equals the number of missing names |
| Orgs.CanonicalizeMissingGrowsBy | import-identities.go:813-820 | processOrg records at most the given name as missing |
| Orgs.CanonicalizeAllCovers | import-identities.go:844-848 | every visited name ends resolved or recorded as missing |
| Orgs.CanonicalizeAllMonotone | import-identities.go:844-848 | resolved and missing names are never forgotten |
| Orgs.CollectOrgs | import-identities.go:596-600 | the gathered names are those of the enrollments of the resolved records |
| Reconcile.AddAssociative | import-identities.go:944-962 | merging deltas is associative |
| Reconcile.AddCommutative | import-identities.go:944-962 | merging deltas is commutative |
| Reconcile.AddNoStats | import-identities.go:943-962 | the zero delta changes no total |
| Reconcile.SumAppend | import-identities.go:944-962 | the total of two batches of deltas is the merge of their totals |
| Reconcile.SumPermutation | import-identities.go:944-962 | the total does not depend on the order in which deltas are merged |
| Reconcile.BatchStats.constructor | import-identities.go:67-79 | a fresh total has every counter at zero |
| Reconcile.BatchStats.Merge | import-identities.go:944-962 | the deferred merge adds the delta to the total |
| Reconcile.BatchStats.AddEach | import-identities.go:948-958 | each of the eleven counters grows by its delta counter |
| Reconcile.ProfilesDiffer | import-identities.go:903-911 | profilesDiffer; its property is `Reconcile.ProfilesDifferProperties` |
| Reconcile.EnrollmentsDiffer | import-identities.go:913-935 | enrollmentsDiffer; its properties are `Reconcile.EnrollmentsDifferSearch` and `Reconcile.EnrollmentsDifferSameElements` |
| Reconcile.ProfilesDifferProperties | import-identities.go:903-911 | profilesDiffer is symmetric, false for equal profiles, blind to the uuid, and compares only names when a bot flag is missing |
| Reconcile.ImageMembers | import-identities.go:913-921 | a key is in a key map exactly when some element renders to it |
| Reconcile.KeysMembers | import-identities.go:913-921 | an enrollment key is present exactly when some enrollment of the list renders to it |
| Reconcile.EnrollmentsDifferSearch | import-identities.go:913-935 | the lists differ exactly when some key of one is missing from the other |
| Reconcile.EnrollmentsDifferSameElements | import-identities.go:913-935 | lists with the same elements never differ, whatever their order and repetition |
| Reconcile.CollectKeys | import-identities.go:916-921 | the key loop builds the key set of the list |
| Reconcile.CompareEnrollments | import-identities.go:913-935 | the two key loops and the two searches decide exactly whether the key sets differ |
| Reconcile.IdentityCheck | import-identities.go:1024-1053 | for one user name, same is counted only when found, and each at most once |
| Reconcile.IdentityCounts | import-identities.go:1017-1056 | identitiesSame ≤ identitiesFound ≤ the number of user names, and both are 0 outside compare mode or without emails |
| Reconcile.CollectEmails | import-identities.go:1017-1020 | the email loop builds the set of stripped emails |
| Reconcile.CountNames | import-identities.go:1023-1054 | the user-name loop of one source gives that source's tally |
| Reconcile.CountIdentities | import-identities.go:1021-1056 | the alias loop gives the identity tally |
| Reconcile.ExistingEnrollments | import-identities.go:1079-1107 | reading stored rows is fatal exactly when some row's org id is unknown; otherwise each row becomes an enrollment named by id2comp |
| Reconcile.ReadExisting | import-identities.go:1079-1107 | the row loop returns the stored-enrollment specification |
| Reconcile.ExistingPrefixFatal | import-identities.go:1097-1099 | the first unknown org id ends the read with its reason |
| Reconcile.ResolveOrg | import-identities.go:1113-1143 | a known organization gets its id and, when id2comp knows it, the canonical name; an unknown one is left alone; nothing else changes |
| Reconcile.CompIds | import-identities.go:1112-1144 | getCompIds resolves each enrollment in place, keeping the list length |
| Reconcile.GetCompIds | import-identities.go:1112-1144 | the getCompIds loop yields the resolved list |
| Reconcile.CompIdsIdempotent | import-identities.go:1112-1144 | with coherent indexes, getCompIds twice is getCompIds once |
| Reconcile.Inserts | import-identities.go:1199-1217 | the insert loop writes at most one row per enrollment, each with a positive org id and the run's slug |
| Reconcile.InsertsAccount | import-identities.go:1199-1218 | every enrollment is inserted or counted as skipped, and every positive-id enrollment is inserted |
| Reconcile.NoPositiveIdNoInserts | import-identities.go:1199-1218 | with no positive org id nothing is inserted and every enrollment is skipped |
| Reconcile.ZeroIdEnrollmentsSkipped | import-identities.go:1112-1218 | enrollments whose organizations are cached with id 0 get org id 0 and are all skipped by the insert loop |
| Reconcile.InsertEnrollments | import-identities.go:1199-1218 | the insert loop's writes and its added and skipped counters agree with the insert specification |
| Reconcile.Decide | import-identities.go:1175-1192 | equal enrollments are never rewritten; without stored rows nothing is deleted and the enrollments are inserted unless found equal; differing stored rows are deleted and re-inserted exactly in replace mode |
| Reconcile.ProfileCounts | import-identities.go:985-1016 | profilesFound is 1 exactly when a profile is stored, and profilesSame is counted only in compare mode |
| Reconcile.CompareStored | import-identities.go:1159-1171 | getCompIds runs and enrollments are compared exactly when stored rows exist in compare mode |
| Reconcile.EnrollmentWrites | import-identities.go:1145-1219 | the enrollment phase; its properties are `Reconcile.WritesActions` and `Reconcile.WritesLeaveRows` |
| Reconcile.Reconcile | import-identities.go:937-1220 | processUIdentity's outcome; its properties are `Reconcile.ReconcileCounters`, `Reconcile.ReconcileActions`, `Reconcile.ReconcileDecisionTable` and `Reconcile.ReconcileIdempotent` |
| Reconcile.ReconcileAll | import-identities.go:877-897 | the record loop over the per-file maps; its properties are `Reconcile.ReconcileRecords` and `Reconcile.ReconcileAllStep` |
| Reconcile.WriteEnrollments | import-identities.go:1145-1219 | the enrollment phase gives the writes and counters of the enrollment specification |
| Reconcile.ProcessUIdentity | import-identities.go:937-1220 | processUIdentity is fatal exactly when the reconciliation specification is, and otherwise issues its writes and merges its delta into the total |
| Reconcile.ProcessFound | import-identities.go:983-1219 | for a stored record, the profile, alias and enrollment phases give the found outcome |
| Reconcile.ReconcileCounters | import-identities.go:937-1220 | exactly one of found/not found; a missing record is left alone; same ≤ found; at most one delete; one write per delete or addition; a record's enrollments are all added or skipped, or none |
| Reconcile.ReconcileActions | import-identities.go:1175-1219 | a delete comes first and only in replace mode; the rest are inserts with a positive org id and the run's slug; stored rows are never touched without replace mode |
| Reconcile.WritesActions | import-identities.go:1175-1219 | the enrollment phase's writes have the same shape, for any stored rows |
| Reconcile.ReconcileDecisionTable | import-identities.go:1157-1219 | the full decision table: no stored rows → insert; stored and not replace → nothing; replace without compare → delete and insert; replace with compare → delete and insert exactly when the lists differ |
| Reconcile.ApplyAllAppend | import-identities.go:1175-1219 | applying two batches of writes is applying them one after the other |
| Reconcile.InsertsAppendRows | import-identities.go:1199-1217 | the inserts of a positive-id list add its rows at (uuid, slug) |
| Reconcile.ReadBackInserted | import-identities.go:1079-1144 | reading back the rows a resolved, stamped record was inserted as gives its resolved enrollments |
| Reconcile.StoredRowsNoWrites | import-identities.go:1161-1192 | a store that already holds a record's rows gets no writes in compare mode |
| Reconcile.WritesStoreRecord | import-identities.go:1175-1219 | after a compare-mode call with writes, the store holds exactly the record's rows at (uuid, slug) |
| Reconcile.WritesLeaveRows | import-identities.go:1175-1219 | compare-mode writes replace the rows at (uuid, slug) by the record's rows |
| Reconcile.ReconcileIdempotent | import-identities.go:937-1220 | importing the same resolved record twice in compare mode writes nothing the second time |
| Reconcile.ReconcileRecords | import-identities.go:893-897 | the sequential record loop threads the store through the writes and merges the sum of the deltas, or is fatal exactly when the loop specification is |
| Reconcile.ReconcileNext | import-identities.go:895-897 | one turn of the record loop applies one record's writes and delta |
| Reconcile.ReconcileAllStep | import-identities.go:893-897 | the loop handles record i, then the rest on the updated store |
| Reconcile.PrefixedAdd | import-identities.go:944-962 | merging two deltas in front of a total is merging their sum |
| Config.OrDefault | import-identities.go:1231-1255 | an empty variable takes the default; a set one is used as it is |
| Config.Settings | import-identities.go:1231-1258 | the user comes from USR, then USER; pass and db come from their variables; each empty setting takes its default; params "-" means none; proto, host and port are never empty |
| Config.DsnWins | import-identities.go:1229-1230 | a set DSN is returned unchanged, and then no other variable matters |
| Config.ConnectStringFatal | import-identities.go:1249-1252 | the result is fatal exactly when neither a DSN nor a database name is set |
| Config.RenderPieces | import-identities.go:1259-1268 | the assembled DSN is `user:pass@proto(host:port)/db` followed by the parameters |
| Config.RenderShape | import-identities.go:1259-1268 | an assembled DSN starts with the user and a colon and ends with `)/`, the database name and the parameters |
| Config.GetConnectString | import-identities.go:1227-1270 | getConnectString; its properties are `Config.DsnWins`, `Config.ConnectStringFatal` and `Config.AssembledShape` |
| Config.AssembledShape | import-identities.go:1229-1270 | without a DSN but with a database, the result is the rendering of the settings, of that shape |
| Config.ConnectStringDefaults | import-identities.go:1229-1270 | with only the password and database set, the result is `:pass@tcp(localhost:3306)/db?charset=utf8&parseTime=true` |

## Left out

- SQL I/O: each query is an oracle function, and each write is an `Action` applied to a value model of the store. Driver errors (`fatalOnError` on `query`/`exec`/`rows.Err`) are not modelled.
- Regular expressions (`select ? regexp ?`) are the `Matcher` parameter. NFKD normalisation is the `Normalizer` parameter.
- Concurrency: the thread pools, channels and mutexes of `postprocessIdentities`, `processOrg` and `processUIdentity` are left out; only sequential mode (one thread) is modelled. `getThreadsNum` is left out with them.
- YAML and file I/O: reading the import files, the mapping file (`ORGS_MAP_FILE` becomes `MapSource`), and both YAML decodes are modelled only by their decoded results (`UIdentity`, `Doc`).
- The CSV export of missing profiles, the timestamped file names (`time.Now`), `main`, the dry-run exit and all logging and debug printing are left out.
- The debug print of `*gProjectSlug` at import-identities.go:1178 dereferences a nil slug when debug is on; debug output is not part of this model.
- `set @origin` is a session variable with no effect on the reconciliation: it is not modelled.
- Go map iteration order (uuid map, organization set, alias map) is modelled as the order of a sequence; results are proved for any such order where it matters (`SumPermutation`, `EnrollmentsDifferSameElements`).
- Text.ToLower: lower-cases ASCII letters only, because Unicode case mapping is not modelled.
- Reconcile.BatchStats.Merge: a fatal exit aborts the run, so the deferred merge of a delta during a panic is not modelled.
- Reconcile.ProcessUIdentity: the in-place rewrite of the record's enrollment slice (shared with the caller's copy) is modelled on values; aliasing of that slice is not modelled.
- Orgs.OrgIndex.ProcessOrg: the lower-case tier caches id 0 for a name (import-identities.go:697-699 and 821-826) and the second pattern pass looks up the raw target in `lcomp2id` (import-identities.go:791); both are modelled as written.
- Config.GetConnectString: the comment at import-identities.go:1222-1226 says only the password is required and gives the defaults `shuser` and `shdb`; the code requires the database variable and has no default user or database. The model follows the code.

## Findings

| source | as written | input that shows it | evidently intended | confidence | as-written member | corrected member |
|---|---|---|---|---|---|---|
| import-identities.go:538-556 | After a swap-removal the range loop keeps visiting the original slots of the old backing array. A slot past the shortened length that still holds "Unaffiliated" is then indexed out of range. | a record with enrollments [Unaffiliated, X, Unaffiliated] | remove every "Unaffiliated" enrollment and keep the others | not executed | Cleanup.AsWrittenPanics | Cleanup.RemoveUnaffiliated |
