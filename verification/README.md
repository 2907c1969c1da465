# CT-CVE: a verified model of the matching pipeline

CT-CVE keeps a vulnerability catalogue, receives signed inventory snapshots from CT Ops, matches the installed packages
against the catalogue and posts findings back. This project models that pipeline in Dafny and proves what each stage
promises to the next.

| Stage | Modules |
|---|---|
| Strings, numerals, comparisons | `GoStrings`, `Numerals`, `Ordering` |
| Version order | `VersionEpoch`, `DebianVersion`, `RpmVersion`, `NaturalVersion`, `DistroVersion` |
| Matching | `Matcher`, `RedHatPackage` |
| Catalogue | `CveCatalogue`, `FeedRecords` |
| Snapshots | `CtOps`, `SnapshotTables`, `SnapshotStore`, `SnapshotTheorems`, `RowFields`, `OneAdvisory`, `SnapshotRuns` |
| Concurrent snapshots | `SnapshotTransactions`, `SerialOrder`, `CommitVerdicts`, `LoneCalls` |
| Signed requests | `NonceStore`, `ServiceToken`, `ReplayProtection` |
| Endpoint and delivery | `FindingDelivery`, `InventoryEndpoint`, `CtOpsView`, `EndpointRuns` |
| Concurrent deliveries | `DeliveryOrder`, `ConcurrentExamples` |

How to read it:

- A Go string is a Dafny string whose characters are its bytes. Character classes are those of `unicode` on one byte.
- Code that loops or updates state is a method (in a class where the source updates a store). Its `ensures` ties it to a
  specification function, and the lemmas speak about that function.
- Each database table is a map, or a sequence of rows in scan order. Each SQL statement is an update of it. A transaction
  works on a copy of the tables and writes it back at commit. A `fault` parameter says which statements the database
  refuses, so every contract covers every failure.
- Concurrent transactions are a state machine over their statements: READ COMMITTED reads, row locks held to the end, and
  aborts at any point. A statement computes its row from the committed tables and the transaction's own rows.
- SHA-256, HMAC, time parsing and printing are function parameters. The clock, the outcome of each POST and the row order
  of a query are parameters or nondeterministic choices.
- Times are unbounded integers in nanoseconds. Epoch differences wrap at 64 bits, as in the code.

Findings about the code, each stated as a lemma with its exact condition:

- The comparator follows the version order if and only if the epoch difference fits in 64 bits
  (`DistroVersion.CompareAgainstOrder`). Epochs `2^63 - 1` and `-1` make two versions each lower than the other.
- While no other call reads a later time in between, a signed request can be replayed if and only if its timestamp was
  exactly five minutes ahead of the clock when it was first accepted (`ReplayProtection.ReplayPossibleIffOnBoundary`); every
  good token can sign such a request (`ReplayProtection.BoundaryRequestIsReplayed`). Whatever the clocks of concurrent calls
  say, a nonce is accepted again if and only if some call since has purged at a time at least ten minutes later
  (`ReplayProtection.AcceptedAgainIff`, with an input in `ReplayProtection.LateClockLetsReplayThrough`).
- A repeated snapshot is answered as the first call if and only if the first call has nothing to deliver, or delivers, or
  had stored its changed answer when the repeat looked. This holds in every interleaving
  (`SnapshotTransactions.RepeatAnswerIff`); `ConcurrentExamples.RepeatDuringDelivery` is a repeat that arrives too early.
  For calls handled one after another the same is stated on the endpoint itself (`EndpointRuns.RepeatGivesFirstAnswer`,
  with an input in `EndpointRuns.RepeatCanDiffer`).
- The in-memory nonce store answers like the database store if and only if no token id followed by a colon begins another
  token id (`NonceStore.StoresAgreeIff`).
- Commits and deliveries of concurrent calls need not come in the same order. A finding is open as the last committed report
  that names it says; CT Ops takes it to be open as the last report says of which it was sent a page that names it; so CT
  Ops is right if and only if these two say the same (`DeliveryOrder.WhatCtOpsKnows`). It is right about everything if all
  reports are sent, and those that share a package in commit order (`DeliveryOrder.CommitOrderKeepsInStep`). With two full
  reports in the reverse order it is wrong (`ConcurrentExamples.ReverseDeliveryMisleads`).
- Even when calls are handled one after another, CT Ops is told of a resolution once. If that page is not posted, CT Ops
  takes the finding to be open until it is matched again (`EndpointRuns.MissedResolutionStays`).
- A resolved finding keeps `first_seen_at <= last_seen_at` if and only if it was not first seen later than the time of the
  resolving snapshot (`SnapshotRuns.RowTimesAfterSnapshot`); snapshots that commit out of time order can break it
  (`SnapshotRuns.LateCommitResolvesBeforeFirstSeen`).
- A snapshot that marks a host deleted leaves a finding of that host open if and only if it was open and the snapshot does
  not name its package (`SnapshotTheorems.DeletedHostFindings`, with an input in `OneAdvisory.DeletedHostCanKeepFinding`).

## Model

| member | source | states |
|---|---|---|
| GoStrings.DigitsExactly | internal/vuln/version.go:86-92 | the digits, one by one |
| GoStrings.LettersExactly | internal/vuln/version.go:111-123 | the letters of `unicode` among single bytes, one by one |
| GoStrings.CasesExactly | internal/vuln/matcher.go:44-76 | case is changed letter by letter |
| Numerals.NumericStringsByValue | internal/vuln/version.go:232-245 | for digit strings of any length the comparison has the sign of the difference of the numbers; empty reads as zero, leading zeros are ignored |
| VersionEpoch.PrintedEpoch | internal/vuln/version.go:134-144 | any epoch from -(2^63-1) to 2^63-1 written before a colon is read back, whatever follows |
| VersionEpoch.EpochExactly | internal/vuln/version.go:134-144 | an optional sign and any digits before the first colon are the epoch iff the number fits 64 bits; else all stays version |
| VersionEpoch.OtherPrefixIsNoEpoch | internal/vuln/version.go:134-144 | any other prefix, and the colon, stay part of the version |
| VersionEpoch.EpochDifference | internal/vuln/version.go:35-37 | the wrapped difference is zero only for equal epochs and has the right sign iff the difference is a 64-bit number; otherwise the opposite sign |
| DebianVersion.TakeDebianNonDigit | internal/vuln/version.go:78-84 | the longest prefix of non-digits |
| DebianVersion.TakeDigits | internal/vuln/version.go:86-92 | the longest prefix of digits |
| DebianVersion.DebianLexCompare | internal/vuln/version.go:94-109 | terminates with the sign of the order of the two weight sequences padded by 0 |
| DebianVersion.DebianPartCompare | internal/vuln/version.go:57-76 | terminates with the sign of the lexicographic order of (non-digit run, number) blocks padded by ("", 0) |
| DebianVersion.CompareDebianVersion | internal/vuln/version.go:32-42 | the sign of epoch (wrapped difference), then upstream part, then revision |
| DebianVersion.CharacterOrder | internal/vuln/version.go:111-123 | tilde below the end of a run, the end below letters, letters below everything else, codes within a class |
| DebianVersion.PartOrderIsTotal | internal/vuln/version.go:57-76 | the part order is reflexive, sign-antisymmetric and transitive on all strings |
| DebianVersion.DebianOrderIsTotal | internal/vuln/version.go:32-42 | so is the version order, with epochs compared as integers |
| DebianVersion.TildeLowersPart | internal/vuln/version.go:57-123 | appending anything that begins with a tilde makes a part strictly lower (Debian Policy Manual, section 5.6.12) |
| DebianVersion.WrittenOrder | internal/vuln/version.go:32-55 | for versions written as [epoch:]upstream[-revision], whatever dashes the upstream part has: epochs decide, then upstream parts, then revisions; a missing epoch is zero, a missing revision empty |
| DebianVersion.FirstDifferentCharacterDecides | internal/vuln/version.go:94-123 | runs are ordered by the first character in which they differ, the end being below all but a tilde |
| DebianVersion.BlockAfterCommon | internal/vuln/version.go:57-76 | behind a common beginning that ends in a number the next non-digit runs decide, then the numbers by value |
| RpmVersion.TakeRPMPart | internal/vuln/version.go:184-194 | the longest prefix of digits, or of letters and tildes |
| RpmVersion.RpmVerCmp | internal/vuln/version.go:146-178 | terminates with the sign of the lexicographic order of the token lists: letters below numbers, numbers by value, proper prefix lower |
| RpmVersion.CompareRPMVersion | internal/vuln/version.go:125-132 | the sign of epoch (wrapped difference), then version and release as one token list |
| RpmVersion.RpmPartOrderIsTotal | internal/vuln/version.go:146-178 | the token order is a total preorder on all strings |
| RpmVersion.RpmOrderIsTotal | internal/vuln/version.go:125-132 | so is the version order, with epochs compared as integers |
| RpmVersion.EqualIffSameTokens | internal/vuln/version.go:146-194 | two strings compare equal exactly when their token lists are the same |
| RpmVersion.TokensAcrossSeparators | internal/vuln/version.go:146-182 | a non-empty run of separators splits a string into independently tokenised halves |
| RpmVersion.SeparatorsDoNotMatter | internal/vuln/version.go:146-182 | which separators are used, and how many, never shows in a comparison; leading and trailing ones vanish |
| RpmVersion.NumbersByValue | internal/vuln/version.go:146-178 | behind a common beginning that ends in a separator, numbers compare by value and equal ones are passed over |
| RpmVersion.LettersAsWritten | internal/vuln/version.go:146-194 | letters and tildes compare as written |
| RpmVersion.LettersBelowNumbers | internal/vuln/version.go:154-161 | letters are below numbers, and what goes on is above what ends |
| RpmVersion.WrittenOrder | internal/vuln/version.go:125-144 | written epochs decide first |
| NaturalVersion.TakeNaturalPart | internal/vuln/version.go:224-230 | the longest prefix of digits, or of non-digits |
| NaturalVersion.CompareNaturalVersion | internal/vuln/version.go:200-222 | terminates with the sign of the lexicographic order of the segment lists |
| NaturalVersion.NaturalOrderIsTotal | internal/vuln/version.go:200-222 | a total preorder on all strings although mixed segments compare as raw text |
| NaturalVersion.ExtensionIsNotLower | internal/vuln/version.go:200-222 | a string never ranks above an extension of itself |
| NaturalVersion.NumbersByValue | internal/vuln/version.go:200-222 | behind any common beginning that does not end in a digit numbers compare by value: 1.9 is below 1.10 |
| NaturalVersion.TextsAsWritten | internal/vuln/version.go:212-217 | behind any common beginning that ends in a digit or is empty, texts compare as written |
| NaturalVersion.NumberAgainstText | internal/vuln/version.go:205-217 | a number and a text compare as written when only one of them is numeric; behind common text the number is lower |
| DistroVersion.CompareDistroVersion | internal/vuln/version.go:9-30 | -1, 0 or 1 by the comparator of the source |
| DistroVersion.SchemesBySource | internal/vuln/version.go:9-20 | two comparisons tell for every source which scheme it has: Debian for four names, RPM for seven, natural for all others |
| DistroVersion.CompareAgainstOrder | internal/vuln/version.go:9-42 | the code gives the version order when the epochs can be subtracted in 64 bits, and the opposite when not |
| DistroVersion.CompareIsOrderIffEpochsComparable | internal/vuln/version.go:9-42 | so it gives the version order if and only if they can |
| DistroVersion.VersionOrderIsTotal | internal/vuln/version.go:9-30 | every scheme's order is a total preorder |
| DistroVersion.CompareIsTotalOnNonNegativeEpochs | internal/vuln/version.go:9-30 | on non-negative epochs the code itself is a total preorder |
| DistroVersion.WrappedEpochsAreBothLower | internal/vuln/version.go:35-37 | a pair of versions that are each below the other |
| DistroVersion.ZeroEpochIsImplicit | internal/vuln/version.go:134-144 | an explicit zero epoch changes nothing |
| Matcher.MatchesExactly | internal/vuln/matcher.go:5-42 | a match means: distribution and name fit, a version is installed, and it is listed or strictly below the fix in the version order |
| Matcher.DistributionFitsExactly | internal/vuln/matcher.go:9-76 | the distribution fits iff the ids are equal up to case, or the package is RPM, the advisory RHEL, and the package of one of nine rebuilds or like RHEL |
| Matcher.OtherDistributionNeverMatches | internal/vuln/matcher.go:44-52 | an advisory of another distribution never matches a Debian or Alpine package |
| Matcher.EligibleExactly | internal/vuln/matcher.go:6-100 | source, distribution version, codename and name, in the fields of package and advisory |
| Matcher.ComparedVersion | internal/vuln/types.go:100-129 | which version is compared: the named source version, for RPM only with the installed epoch and release, else the installed version |
| Matcher.ObstaclesNamed | internal/vuln/matcher.go:6-21 | the first of source, distribution, version, codename and name that does not fit is the reason |
| Matcher.ReasonsNamed | internal/vuln/matcher.go:23-41 | the verdict and its reason name the first condition that decides |
| Matcher.VerdictIsOrderIffComparable | internal/vuln/matcher.go:32-41 | the verdict on an unlisted version is the version order iff the epochs can be subtracted |
| Matcher.MatchThroughFixedVersionIsBelow | internal/vuln/matcher.go:27-41 | a match through the fix is strictly below it; nothing unlisted at or above it matches |
| Matcher.LowerVersionStillMatches | internal/vuln/matcher.go:5-42 | a match through the fix stays one for every non-empty version that is not higher |
| Matcher.RaisedFixKeepsMatch | internal/vuln/matcher.go:5-42 | raising a fix to another non-empty one never loses a match |
| Matcher.WrappedEpochMatches | internal/vuln/matcher.go:35-40 | without the epoch condition a higher version matches |
| Matcher.MajorVersionCoversMinors | internal/vuln/matcher.go:54-62 | an advisory for a RHEL major version covers it and its minor releases only |
| Matcher.BestRPMVersionKeepsEpochAndRelease | internal/vuln/types.go:114-129 | the chosen version keeps any epoch and release that the installed version carries |
| RedHatPackage.ArchitectureStripped | internal/feed/distro.go:400-411 | a listed architecture is cut off, and nothing else |
| RedHatPackage.ArchitecturesByName | internal/feed/distro.go:400-411 | exactly the ten architectures, by name, are cut off |
| RedHatPackage.NoDotNoArchitecture | internal/feed/distro.go:400-404 | without a dot nothing is cut off |
| RedHatPackage.SplitReadsBack | internal/feed/distro.go:372-398 | whatever is split was written as name, version and release between dashes, none of them blank |
| RedHatPackage.SplitInvertsPrintFile | internal/feed/distro.go:372-411 | splitting inverts printing for every architecture but src, with or without ".rpm", however many dashes the name has |
| RedHatPackage.SplitOfSourceFile | internal/feed/distro.go:372-398 | for ".src.rpm" files it does iff the rest ends neither in ".rpm" nor in a dot and a listed architecture |
| CveCatalogue.CveStore.UpsertCVERecords | internal/store/postgres.go:101-108 | all rows are upserted in order, or those before the failing statement |
| CveCatalogue.InsertIsMergeIntoDefaults | internal/store/postgres.go:153-180 | inserting a row is merging it into a row of defaults |
| CveCatalogue.BatchIsOneMerge | internal/store/postgres.go:101-180 | a batch changes each row as if its records for that CVE had first been merged into one |
| CveCatalogue.RerunIsIdempotent | internal/store/postgres.go:101-180 | running a whole batch again changes nothing, even with repeated CVEs |
| CveCatalogue.KnowledgeOnlyGrows | internal/store/postgres.go:161-179 | over any run flags stay raised and filled columns stay filled |
| CveCatalogue.StoredIff | internal/store/postgres.go:153-160 | a CVE is stored after a run iff it was before or some record is for it |
| CveCatalogue.EveryColumnKeepsLastFilled | internal/store/postgres.go:153-179 | over any run each value column of a CVE, stored before or by the run itself, ends with the last known value that a record as it came carries; empty metadata counts as unknown |
| CveCatalogue.UnknownRow | internal/store/postgres.go:153-180 | where nothing is known a row has the column defaults |
| CveCatalogue.FlagsAccumulate | internal/store/postgres.go:153-172 | over any run, from any table, a flag is raised iff it was before or some record raises it |
| CveCatalogue.InterleavingsAgree | internal/store/postgres.go:153-180 | any two interleavings of an NVD-shaped and a KEV-shaped batch agree on every column but the source |
| CveCatalogue.SourceDependsOnOrder | internal/store/postgres.go:177 | the source column does depend on the order |
| FeedRecords.ParseNVDAPI | internal/feed/nvd.go:123-175 | one record per item with an id, in order |
| FeedRecords.ParseCISAKEV | internal/feed/cisa.go:56-95 | one record per entry with an id, in order |
| FeedRecords.NVDColumns | internal/feed/nvd.go:149-173 | each column an NVD item fills, by the field it comes from |
| FeedRecords.DescriptionChosen | internal/feed/nvd.go:177-190 | the first English description, else the first, else none |
| FeedRecords.MetricChosen | internal/feed/nvd.go:192-205 | CVSS 4.0 before 3.1 before 3.0 before 2 |
| FeedRecords.SeverityWords | internal/feed/nvd.go:223-238 | the words of each severity |
| FeedRecords.KEVColumns | internal/feed/cisa.go:71-93 | each column a KEV entry fills, by the field it comes from |
| FeedRecords.RecordsInOrder | internal/feed/nvd.go:149-173 | wherever an item stands it gives one record in its place, or none without an id |
| FeedRecords.EntriesInOrder | internal/feed/cisa.go:71-93 | the same for KEV entries |
| FeedRecords.NVDRecordsHaveNVDShape | internal/feed/nvd.go:149-173 | NVD records never fill a KEV column, the title or the metadata |
| FeedRecords.KEVRecordsHaveKEVShape | internal/feed/cisa.go:71-93 | KEV records fill KEV columns only |
| FeedRecords.FeedsCommute | internal/feed/syncer.go:78-95 | however the upserts of one NVD and one KEV document interleave, the table is that of one after the other but for the source |
| SnapshotStore.PostgresStore.ApplyInventorySnapshot | internal/store/ctops.go:41-88 | a known id is answered from the store and changes nothing; a new one changes every table as specified; a failure changes nothing and needs a refused statement or a NUL |
| SnapshotStore.PostgresStore.UpsertInventory | internal/store/ctops.go:54-63 | every host and package row is upserted in order, unless a statement is refused or an id holds a NUL |
| SnapshotStore.PostgresStore.MatchSnapshotFindings | internal/store/ctops.go:291-344 | the findings table after opening matches and resolving stale rows, and the findings to report |
| SnapshotStore.PostgresStore.DeletedHosts | internal/store/ctops.go:296-299 | the last row of the snapshot for a host decides |
| SnapshotStore.PostgresStore.OpenPackageFindings | internal/store/ctops.go:324-335 | one upsert and one finding per matching candidate, in order |
| SnapshotStore.PostgresStore.AffectedCandidates | internal/store/ctops.go:346-371 | the joined rows whose binary or source name is a non-empty name of the snapshot |
| SnapshotStore.PostgresStore.ResolveStaleFindings | internal/store/ctops.go:498-587 | exactly the stale rows are resolved and reported once each, in any row order |
| SnapshotStore.PostgresStore.ReadStaleRows | internal/store/ctops.go:502-576 | one resolved finding for each stale row, no row twice |
| SnapshotTheorems.HitIsFoundByName | internal/vuln/matcher.go:86-100 | a row that matches a package carries one of its names, also when only the source name fits |
| SnapshotTheorems.NamesExactly | internal/store/ctops.go:346-362 | the names searched for are exactly the non-empty binary and source package names |
| SnapshotTheorems.CandidatesExactly | internal/store/ctops.go:362-371 | the candidates are exactly the rows with one of the names, joined with their CVE |
| SnapshotTheorems.PrefilterLosesNothing | internal/store/ctops.go:346-371 | the matches from the prefiltered rows are, one by one, those of a full scan |
| SnapshotTheorems.MatchedIffFound | internal/store/ctops.go:304-336 | a key is found iff some active snapshot row matches some catalogue row |
| SnapshotTheorems.MatchedExactly | internal/store/ctops.go:304-336 | a key is matched iff a snapshot row that is neither removed nor deleted, of a host whose last row is not deleted, matches a catalogue row, by its own fields |
| SnapshotTheorems.GonePackageHasNoOpenFinding | internal/store/ctops.go:304-344 | a package named only in removed or deleted rows, or rows of deleted hosts, has no open finding afterwards |
| SnapshotTheorems.MatchesDescribeTheirOrigin | internal/store/ctops.go:430-459 | every reported match describes, field by field, an active package and a catalogue row that matches it, with the matcher's reason |
| SnapshotTheorems.ResolvedReportMirrorsMatch | internal/store/ctops.go:461-573 | writing a match to its row and reading it back as resolved repeats it but for status, times and CVE summary |
| SnapshotTheorems.KeyTextIsInjective | internal/store/ctops.go:607-609 | on NUL-free host and package ids the joined text identifies the key |
| SnapshotTheorems.KeyTextNeedsNULFreeIDs | internal/store/ctops.go:607-609 | with a NUL in an id two keys share a text |
| SnapshotTheorems.RememberedIffMatched | internal/store/ctops.go:330-552 | looking up the joined text answers whether the key was matched |
| SnapshotTheorems.RowAfterSnapshot | internal/store/ctops.go:461-587 | every row of the findings table after a snapshot: untouched, opened or re-opened, resolved, or as before |
| SnapshotTheorems.OpenFindingsAfterSnapshot | internal/store/ctops.go:291-344 | open findings for the snapshot's packages are exactly the matched keys; other organisations and packages are as before |
| SnapshotTheorems.DeletedHostFindings | internal/store/ctops.go:296-344 | if the snapshot marks a host deleted, a finding of that host is open afterwards iff it was before and the snapshot does not name its package |
| OneAdvisory.DeletedHostCanKeepFinding | internal/store/ctops.go:502-511 | a deleted host whose package is not named keeps its open finding |
| SnapshotTheorems.StaleIff | internal/store/ctops.go:502-552 | the rows to resolve are exactly the open findings of named packages that were not matched again |
| SnapshotTheorems.SnapshotKeepsValid | migrations/0001_initial.sql:49-63 | foreign keys to the catalogue and NUL-freedom are kept |
| RowFields.MatcherInput | internal/store/ctops.go:309-323 | the package as the matcher sees it, field by field |
| RowFields.StorableExactly | internal/store/ctops.go:48-63 | which ids must not hold a NUL, because a text column refuses it |
| RowFields.HostRow | internal/store/ctops.go:225-228 | a host is stored as sent, but for its status |
| RowFields.FindingRowOf | internal/store/ctops.go:461-496 | a match is stored with its own values, field by field |
| RowFields.FindingIDOf | internal/store/ctops.go:602-605 | the id of a finding is made of the four ids of its key |
| RowFields.SummaryOf | internal/store/ctops.go:396-424 | what a report says about its CVE |
| RowFields.SnapshotRowOf | internal/store/ctops.go:70-80 | the answer to a first-time snapshot and the row that stores it, field by field |
| RowFields.StatusRowAfter | internal/store/ctops.go:589-600 | the status row after a snapshot: used now, the rest as it was or as the defaults |
| RowFields.ResponseChanged | internal/store/ctops.go:119-130 | a changed answer replaces the stored one and nothing else |
| SnapshotRuns.StepKeepsHistory | internal/store/ctops.go:439-496 | every step keeps first_seen_at <= last_seen_at, resolved_at null or last_seen_at, and the id a function of the key |
| SnapshotRuns.RunKeepsHistory | internal/store/ctops.go:461-585 | so does every serial run with non-decreasing times; rows, ids and first_seen_at survive any number of resolve/reopen cycles |
| SnapshotRuns.RunsFromEmpty | internal/store/ctops.go:461-585 | in particular every run from empty tables |
| SnapshotRuns.OpenIffLastVerdict | internal/store/ctops.go:291-344 | after any serial run, whatever the clock does, a finding is open iff the last snapshot naming its package matched it against the catalogue of that time |
| SnapshotRuns.ReplayChangesNothing | internal/store/ctops.go:48-52 | an id once stored stays stored, and sending it again at any later point of a run changes no table |
| SnapshotRuns.RowTimesAfterSnapshot | internal/store/ctops.go:461-587 | without any assumption on the clock: exactly when a row keeps first_seen_at <= last_seen_at and its first_seen_at |
| SnapshotRuns.LateCommitResolvesBeforeFirstSeen | internal/store/ctops.go:577-585 | a two-snapshot run whose later commit carries an earlier time resolves a finding before it was first seen |
| SnapshotRuns.HostsAfterSnapshot | internal/store/ctops.go:220-250 | the host table holds the snapshot's last row per host, others are as before |
| SnapshotRuns.PackagesAfterSnapshot | internal/store/ctops.go:252-289 | the package table holds the last row per package with the earliest first_seen_at ever reported |
| SnapshotTransactions.StepKeepsKeys | migrations/0005_ct_ops_connector.sql:57-71 | every statement of every transaction keeps locked rows disjoint, committed keys unique, held keys new, and what was posted a prefix of the report |
| SnapshotTransactions.AtMostOneCommits | internal/store/ctops.go:41-88 | in every interleaving at most one transaction per (organisation, snapshot id) commits, none if the id was stored |
| SnapshotTransactions.OnlyTheWinnerDelivers | internal/ctops/handler.go:117-133 | in every interleaving all pages posted for one (organisation, snapshot id) come from the call that committed, and together are a prefix of its report |
| SnapshotTransactions.RepeatAnswerIff | internal/ctops/handler.go:117-135 | in every interleaving a repeat is answered as the call that committed iff that call delivers or has nothing to, or had stored its changed answer when the repeat looked |
| SnapshotTransactions.CallAfterCommitIsReplay | internal/store/ctops.go:48-52 | a call that starts after the commit of its id never writes, commits or delivers, however the rest goes on |
| SerialOrder.StaleNowIsStale | internal/store/ctops.go:502-511 | the stale rows selected while others commit are those of the transaction alone |
| SerialOrder.OthersCommit | internal/store/ctops.go:41-88 | a commit of another transaction changes no row that a transaction has read or will decide on |
| SerialOrder.CommitIsAtomic | internal/store/ctops.go:82-87 | at its commit a transaction has done to the tables as committed then what it would have done alone |
| SerialOrder.EveryInterleavingIsSerial | internal/store/ctops.go:41-88 | in every interleaving, also with syncs and changed responses, the tables are those of the serial run of the committed snapshots in commit order, each against the catalogue it selected from |
| CommitVerdicts.CommitDecides | internal/store/ctops.go:291-344 | whatever syncs and other commits come in between, after its commit the open findings of the packages a transaction names are those it matched against the catalogue it selected from |
| CommitVerdicts.ReportFacts | internal/store/ctops.go:335-343 | the report of a transaction names exactly the findings it matched, as open, and the open ones it did not, as resolved |
| CommitVerdicts.OpenAfterEveryInterleaving | internal/store/ctops.go:291-344 | in every interleaving, syncs included, a finding is open iff the last committed snapshot naming its package matched it against the catalogue it selected from |
| LoneCalls.AloneCanCommit | internal/store/ctops.go:41-88 | while no other transaction holds a row, one with a new key can always go on to its commit |
| DeliveryOrder.NextPageIsBatch | internal/ctops/handler.go:199-210 | the pages posted in the machine are the batches of the delivery loop |
| DeliveryOrder.WhatCtOpsKnows | internal/ctops/handler.go:117-133 | in every interleaving a finding is open as the last committed report naming it says, CT Ops believes the last posted report naming it, and is right iff they agree |
| DeliveryOrder.CommitOrderKeepsInStep | internal/ctops/handler.go:117-133 | if every report is sent, and reports sharing a package in commit order, CT Ops knows exactly the open findings |
| ConcurrentExamples.ReverseDeliveryMisleads | internal/ctops/handler.go:127-128 | two reports posted in full in the reverse order of their commits leave CT Ops with an open finding that is resolved |
| ConcurrentExamples.RepeatDuringDelivery | internal/ctops/handler.go:117-135 | a repeat that looks between commit and update is told none while the first call is told retry_findings |
| NonceStore.MemoryNonceStore.RememberNonce | internal/ctops/service_token.go:78-93 | expired entries go, a live key is refused, a new one is stored with its expiry |
| NonceStore.NonceTable.RememberNonce | internal/store/ctops.go:26-39 | the same on (token id, nonce); a failing insert leaves the expired rows deleted |
| NonceStore.StoresAgreeIff | internal/ctops/service_token.go:78-93 | for a set of token ids both stores give the same answers on every call sequence iff no id followed by a colon begins another id |
| NonceStore.ClashConfusesMemoryStore | internal/ctops/service_token.go:87 | for any two such ids the in-memory store refuses a fresh nonce that the database store remembers |
| NonceStore.StoresAgreeWithoutColons | internal/ctops/service_token.go:78-93 | in particular both stores agree when no token id contains a colon |
| ServiceToken.VerifyServiceRequest | internal/ctops/service_token.go:95-168 | verdict and nonce table are those of the checks in order followed by the nonce |
| ServiceToken.SignThenVerify | internal/ctops/service_token.go:170-187 | a request signed with a good token verifies, for any method, path and body, if the nonce is fresh and the clock within five minutes |
| ServiceToken.AcceptedMeansSigned | internal/ctops/service_token.go:95-168 | an accepted request carries a valid token, a timely timestamp, the hash of its body and the token's signature |
| ServiceToken.DeviationsAreNamed | internal/ctops/service_token.go:110-165 | a signed request presented with a revoked, unscoped or foreign token, late, with another body, method or path, or again is refused with the code for that |
| ServiceToken.AlteredHeadersAreNamed | internal/ctops/service_token.go:125-154 | a signed request whose timestamp, nonce, content hash or signature header is removed or altered is refused with the code for that |
| ServiceToken.BadAuthorizationIsNamed | internal/ctops/service_token.go:95-109 | exactly when an authorization is missing, malformed or of an unknown token, the code says so |
| ServiceToken.RefusalStatus | internal/ctops/service_token.go:95-165 | 403 for a good token without scope or of another organisation, 401 for every other refusal |
| ServiceToken.SignedTextLines | internal/ctops/service_token.go:216-217 | the signed text is the five parts line by line |
| ServiceToken.SignedTextIsInjective | internal/ctops/service_token.go:216-217 | the signed text determines upper-cased method, path, timestamp, nonce and hash when all but the path are newline-free |
| ReplayProtection.AcceptancesAreApart | internal/ctops/service_token.go:156-165 | in every run two acceptances of one (token id, nonce) are at least ten minutes apart if no call up to the second reads a later time than it |
| ReplayProtection.AcceptedAgainIff | internal/store/ctops.go:26-39 | with no assumption on the clocks: a nonce presented again is accepted iff since its last acceptance some call has purged at a time at least ten minutes later |
| ReplayProtection.LateClockLetsReplayThrough | internal/ctops/handler.go:102-112 | a call whose clock is ten minutes ahead lets an accepted request through again at the same time |
| ReplayProtection.AcceptedTwiceMeansBoundary | internal/ctops/service_token.go:135-165 | one request accepted twice, with no later clock in between, was exactly five minutes ahead, and came again exactly ten minutes later |
| ReplayProtection.AcceptedAtMostOnce | internal/ctops/service_token.go:135-165 | a request strictly less than five minutes ahead at first acceptance is not accepted again, unless a call in between reads a later time |
| ReplayProtection.ReplayPossibleIffOnBoundary | internal/ctops/service_token.go:135-165 | an accepted request can be sent again later and accepted, with nothing in between, iff it is on that boundary |
| ReplayProtection.BoundaryRequestIsReplayed | internal/ctops/service_token.go:135-165 | whatever a good token signs, shown to an empty nonce table five minutes before its timestamp, is accepted now and again later |
| FindingDelivery.Outbox.DeliverFindings | internal/ctops/handler.go:195-250 | posts the pages up to the first failure; succeeds iff configured and every page is posted and recorded |
| FindingDelivery.PostedIsPrefix | internal/ctops/handler.go:199-209 | what has been posted is a prefix of the findings, all of them after the last page |
| FindingDelivery.BatchesAreBounded | internal/ctops/handler.go:199-203 | every batch is of the organisation and has 1 to 5000 findings, 5000 but for the last |
| FindingDelivery.BatchesAreDistinct | internal/ctops/handler.go:199-210 | no two batches of a delivery share an id, whatever the clock does |
| FindingDelivery.BatchIDNamesPage | internal/ctops/handler.go:301-304 | the page number can be read off a batch id |
| FindingDelivery.BatchIDsEqualIff | internal/ctops/handler.go:301-304 | across deliveries two batch ids are equal iff second, organisation and page are |
| InventoryEndpoint.ServeInventorySnapshot | internal/ctops/handler.go:72-136 | a valid, authentic, storable snapshot on a working database succeeds, and only valid and authentic ones do; every refusal has the status and code of its cause; failure changes no snapshot table; success leaves the tables, the answer and the posted pages specified; a replay posts nothing |
| InventoryEndpoint.ValidExactly | internal/ctops/handler.go:252-288 | the conditions on a snapshot, in its own fields, with the limits of 500 hosts and 25000 packages |
| InventoryEndpoint.OnlyInventoryTokensGetIn | internal/ctops/handler.go:97-112 | whoever gets in shows an unrevoked token with scope inventory:write of the very organisation the snapshot claims, from a connection of that organisation |
| EndpointRuns.SuccessIsPossible | internal/ctops/handler.go:117-133 | what the endpoint does on a first-time success is an event of the runs below: a prefix of the findings is posted, all of them if delivery succeeds |
| EndpointRuns.RunKeepsResponse | internal/store/ctops.go:184-202 | a stored response survives every later call, failure and sync, handled one after another |
| EndpointRuns.RepeatGivesFirstAnswer | internal/ctops/handler.go:117-135 | for calls handled one after another: at any later point of a run a repeat changes nothing and gets the first answer iff nothing was due, or delivery or the update succeeded |
| EndpointRuns.RepeatCanDiffer | internal/ctops/handler.go:127-135 | with one advisory and one package under it, delivery failed and the update lost, the first answer says retry_findings and every repeat says none |
| EndpointRuns.FirstTimeStep | internal/ctops/handler.go:117-133 | CT Ops is right about every finding posted and thinks as before of the others; what is reported is what is matched or was open |
| EndpointRuns.OutOfStepIffChangeNotPosted | internal/ctops/handler.go:127-133 | one call puts CT Ops out of step at exactly the findings it opened or resolved without posting them |
| EndpointRuns.InStepAfterRun | internal/ctops/handler.go:117-133 | for calls handled one after another: if every delivery of a run is posted in full, CT Ops is right about a finding at the end iff it was at the start or the finding was reported |
| EndpointRuns.AllPostedKeepsInStep | internal/ctops/handler.go:117-133 | for calls handled one after another: as long as everything is posted CT Ops knows exactly the open findings |
| EndpointRuns.MissedResolutionStays | internal/store/ctops.go:502-511 | for calls handled one after another: a resolution that was not posted is not reported again before the finding is matched again, whatever is delivered |
| EndpointRuns.ResolutionCanBeMissed | internal/ctops/handler.go:127-133 | a concrete upgrade whose resolution is not posted |

## Left out

- RpmVersion.RpmVerCmp: speaks for ASCII strings only, because the source skips separators rune by rune but scans parts byte by byte; on other strings the model is the bytewise variant.
- ServiceToken.SignThenVerify: assumes of SHA-256 that its hexadecimal form has 64 characters, and of time printing that the truncated time is read back; neither is modelled, and there are no cryptographic claims.
- FeedRecords.ParseNVDAPI: starts from the decoded document; JSON, HTTP and paging are not modelled.
- SerialOrder.EveryInterleavingIsSerial: a snapshot whose transaction is overtaken by a sync counts as matched against the older catalogue, because that is what the code does; other writers of ct_ops_connection_status, deadlock detection and lock time-outs appear only as aborts or not at all.
- SnapshotTransactions.OnlyTheWinnerDelivers: each page is one step, posted and acknowledged at once. Calls whose ids hold a NUL are not in the machine: their statements are refused.
- EndpointRuns.MissedResolutionStays: posted means acknowledged with 2xx; a page that CT Ops received but whose response was lost counts as never told, here and in `DeliveryOrder`.
- ReplayProtection.ReplayPossibleIffOnBoundary: Postgres keeps microseconds, so on the database store "exactly" holds only for instants that are whole microseconds.
- InventoryEndpoint.ServeInventorySnapshot: starts from a decoded snapshot; routing, the method check, the body limit, JSON and the error texts are not modelled.
- White space and letter case in `strings.TrimSpace`, `Fields`, `EqualFold`, `ToLower` and `ToUpper` are those of ASCII.
- Time differences are unbounded; Go saturates them for instants centuries apart.
- Postgres text is checked for NUL in organisation, host, package and snapshot ids only; other refused text is a refused statement.
- The columns created_at, updated_at, the random row id and the metadata of findings, numeric rounding and the normal form of jsonb are not modelled.
- ct_ops_connection_status is modelled only where a snapshot touches it; deliveries, errors and health checks do not write it here.
- The affected_packages upsert, the Debian, Ubuntu, Alpine and Red Hat feed parsers, and the connection-health endpoint are not modelled; they would add members of the same kind.
- Two RememberNonce calls whose statements overlap in time are not modelled; each call is one step of a run.
- Several catalogue rows can match one key, and the code reports each; results are stated over keys.
- The user interface, sign-in, configuration, logging and deployment are not modelled.
