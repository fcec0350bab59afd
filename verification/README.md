# A verified model of the double-entry engine

This project models the accounting of one company: a journal of numbered asientos, the movement accounts they are posted
to, the date until which the books are closed, the snapshots of past closings, and the versioned cache beside them. It
proves what the year-end closing, the logical exercises, the journal service, the demo importer and the three reports
promise, for every input and for every sequence of operations.

Amounts are integer cents and dates are day numbers. Pure functions over `Books` specify each operation. Where the
program works step by step (validation loops, the mutable balance map of the planner, posting, account creation, totals
loops, the cache) a method over `Company`, `BalanceMap` or `Store` does the same and is proved equal to its specification.

| module | what it holds |
|---|---|
| `Basics`, `Sorting` | options, results, the errors of the services; the stable sort behind `order_by` |
| `Model`, `Turnovers` | the records of the books; sums of posted lines over windows of dates |
| `Journal` | validation, numbering, the period lock, posting, reversal |
| `AccountResolution`, `Names`, `ClosingSupport` | finding, linking and creating movement accounts; when two names are one |
| `Exercises` | the boundary scan, the exercise in progress, report windows |
| `Balances` | real and virtual balance nodes, loaded from the journal and mutated by drafts |
| `ClosingPlan`, `ClosingService` | the planner as a specification, and as the service computes it |
| `ClosingExecution` | resolution of virtual accounts, posting of the drafts, the snapshot, the lock |
| `PlanProperties`, `ClosingTheorems`, `ClosingEffects`, `ClosingEntries` | what a plan and its execution guarantee, and book where |
| `ClosingAcceptance`, `ClosingSnapshots`, `ClosingExamples` | which closings go through; what a snapshot stores; concrete companies |
| `OpeningEntry`, `OpeningEffects` | the inventory entry a company starts with, and what it books |
| `Runs`, `History` | the state machine, its invariant, and what follows from it for whole runs |
| `ReportQueries`, `JournalBook`, `Ledger`, `TrialBalance` | the three reports |
| `ReportContents`, `ReportAgreement`, `ReportExamples` | what each shows, how they agree, and where they do not |
| `SharedTable`, `ReportCache`, `QueryAnswers`, `CacheLoss` | rows of other companies; the version protocol and cached reads; what a read answers; a lost version |
| `DemoValidation`, `DemoImport`, `DemoAcceptance`, `DemoSoundness` | the static validator, the replay, what the first accepts, and why it guards the second |

## Main results

- The preview of a closing is what its execution does (`ExecuteFollowsPlan`, `PreviewIsFaithful`, `ReloadIsFaithful`):
  every draft is postable, execution fails only where the preview or the creation of support accounts does, and posting
  with resolution commutes with applying drafts to the balance map.
- A closing takes every account to zero up to its date, and its reopening restores the books (`ClosesToZero`,
  `ReopeningRestores`, `ClosingMoves`, `SnapshotMatchesReopening`).
- `PlannedIff` and `ClosingSucceeds` say exactly which closings of sound books are planned and go through, and
  `NextClosingIff` which can follow another, all in terms of the journal, the counts and the account table.
- What is booked where: `OpeningBooks` gives both sides of the opening entry from its payload, `ClosingBooksDifferences` the
  accounts of count differences by code and name, `ClosingPosts` the entries of a closing one by one.
- Account resolution takes names as the same exactly up to case and white space at the ends (`VariantsIff`,
  `ResolvedAccounts`); `FindsOwned`, `TakesOn` and `CreatesNew` say which account is found, linked or created.
- The balances a closing loads over the whole history are those of the trial balance of the exercise, but for what is
  dated outside every exercise just before it (`LoadedMeetsTrial`, `LoadedIsTrial`).
- The invariant of `Runs` holds in every reachable state (`RunKeeps`). So the exercise scan never raises
  (`ReachableExercises`), nets since a closing are nets over all history (`NetSinceClosing`), and history up to the lock is
  frozen (`FrozenHistory`).
- The boundary scan is an exact parser (`ScanIsExact`) and report windows do not mix exercises (`WindowIsolation`).
- Each report shows what its query asks for, line by line and column by column (`BookContents`, `CardContents`,
  `TrialContents`, `ReportWindow`); the three agree (`ReportsAgree`, `LedgerMeetsBook`, `TrialBalances`); and cached reads
  are fresh and answer the query made (`CacheIsCoherent`, `EveryReadAnswers`).
- The static demo validator accepts exactly what `AcceptedIff` says, and implies the dynamic guards of the replay
  (`ValidatorIsSound`).

## What the proofs show about the code

- `is_balanced` can be false. A cash or inventory shortage credits a virtual account beside the real ones of its
  colectiva, and the guard looks at colectivas as a whole. `SheetBalancesIff` gives the exact condition and
  `ShortageUnbalancesSheet` an instance, from the books to the executed closing.
- A loss leaves 3.02 in debit, which the guard on equity rejects, so a loss beyond the credit in 3.02 blocks the next
  closing until it is covered, and a smaller one does not (`NextFitsIff`, `LossBlocksClosing`; `LossYearBlocks` is an instance).
- A snapshot row of a virtual account stores no account, although the reopening entry books one. Every row names an account
  exactly when no count differs from the books and the net result is zero (`SnapshotAccountsIff`, `StoredAccountsIff`), so
  every year with a gain or a loss stores a 3.02 row without one (`LossYearNamesNoAccount`). With the support accounts looked
  up, snapshot and entry agree in every case (`SnapshotMatchesReopening`).
- In sound books the exercise start, the open exercise and the two duplicate checks of a closing request follow from its
  other checks (`RequestGuardIff`).
- Posting between a closing and its reopening is allowed. It belongs to no exercise, and makes the balances of the next
  closing differ from the trial balance by exactly those lines (`LoadedMeetsTrial`; `LoadedExceedsTrial` is an instance).
- The ledger and the trial balance differ when a report starts after its end and an exercise is active, by what the ledger
  brings forward (`LedgerExcess`). The request validation rejects such a range when both dates are given
  (apps/reports/serializers.py:18-25), so it takes an omitted end, a start after today, and an exercise already closed at
  a later date (`ReportsDisagree`).
- Losing the version key of the cache lets the version start again, and bumps after the loss only choose which old version
  comes round: what was stored under it is served as current. `LostVersionListIff` and `LostVersionReportIff` say exactly when
  a read is still fresh; `LossServesStaleList`, `LossThenClosingServesStaleList` and `OpenedBooksGoStale` are runs in which it
  is not.
- Account resolution bumps the version of the account chart and not that of the reports
  (apps/companies/account_resolution.py:131-132). Cached reports stay right because both its callers post afterwards
  (apps/companies/services.py:167, apps/companies/demo_import.py:107), which `CacheIsCoherent` relies on.
- The demo validator does not look at the inventory kind of the opening (`KindNotValidated`), so an accepted payload fails
  on an unknown one (`KindFailsIff`, `AcceptedOfAnyKind`).

Rows below cite the repository by path and line.

## Model

| member | source | states |
|---|---|---|
| Journal.VerdictIsPostable | apps/journal/services.py:58-123 | Validation accepts lines exactly when they are a balanced asiento: positive amounts, both sides present, only movement accounts of the company |
| Journal.FirstFault | apps/journal/services.py:94-112 | No fault is found exactly when every line is sound on its own |
| Journal.AcceptedLines | apps/journal/services.py:58-123 | Lines are accepted exactly when all amounts are positive, all accounts are leaf accounts of level 2 linked to the company, both sides occur and debits equal credits |
| Journal.FaultyLine | apps/journal/services.py:94-112 | Of faulty lines the first one decides the error: amount, then level, then subaccounts, then company |
| Journal.ValidateLines | apps/journal/services.py:58-123 | The validation loop, with its running totals and flags, raises exactly the error of the specification, or none |
| Journal.PostIff | apps/journal/services.py:151-161 | A posting is accepted exactly when it is a postable asiento dated in open books, and is either the opening of an empty journal or follows one |
| Journal.CreateJournalEntry | apps/journal/services.py:140-209 | Posting appends one entry under the next number, or rejects the call and leaves the books alone |
| Journal.NextNumber | apps/journal/services.py:126-136 | A journal numbered 1 to n goes on with n + 1 |
| Journal.ReverseJournalEntry | apps/journal/services.py:213-307 | Reversal appends the entry with its sides swapped, or rejects and leaves the books alone; it does not validate lines |
| Journal.SwappedPostable | apps/journal/services.py:237-253 | Swapping the sides of a postable asiento gives a postable asiento, so skipping validation in a reversal is safe |
| Turnovers.SwappedTwice | apps/journal/services.py:237-253 | Swapping twice gives the original lines back |
| History.ReachableJournal | apps/journal/services.py:126-209 | In every reachable state entry i has number i, is a postable asiento over the company's movement accounts, reversals included, and only the first entry is an opening |
| History.ReversalCancels | apps/journal/services.py:229-303 | A reversal comes after the entry it reverses, nets to the opposite for every account, and is the only reversal of that entry |
| History.ReversingAReversal | apps/journal/services.py:237-253 | Reversing a reversal gives the original lines back |
| History.ReverseIff | apps/journal/services.py:223-237 | In sound books an entry can be reversed exactly when it exists, is a manual, invoice, receipt or other entry, nothing reverses it yet and the books are open on the date |
| History.ReversedOnce | apps/journal/services.py:229-230 | An entry already reversed is rejected, whatever the date |
| History.PostByHandIff | apps/journal/services.py:140-209 | In sound books users can post exactly postable entries of the four ordinary types, after the opening and outside the closed period; any other type is refused |
| Runs.PostErrors | apps/journal/services.py:151-161 | In sound books a posting is refused for a second opening, a missing opening or a closed period, in this order, before its lines are looked at |
| AccountResolution.LeastFree | apps/companies/account_resolution.py:37-40 | The suffix chosen is the least one in 1..99 that no sibling has; there is none exactly when all 99 are taken |
| AccountResolution.NextChildSuffix | apps/companies/account_resolution.py:29-40 | The loop over siblings and candidates computes that suffix |
| AccountResolution.ResolveServes | apps/companies/account_resolution.py:53-134 | Every spec maps to a movement account of this company, under its colectiva and name; the table only grows and codes stay unique |
| AccountResolution.ResolveIdempotent | apps/companies/account_resolution.py:53-134 | Resolving any of the same specs again creates and links nothing and gives the same accounts |
| AccountResolution.ResolveOneFails | apps/companies/account_resolution.py:92-127 | A spec fails only when all 99 codes of its colectiva are used, or an account by that name is not a movement account |
| AccountResolution.ResolveSpec | apps/companies/account_resolution.py:83-130 | The body of the loop finds, links or creates the account of one spec, as specified |
| AccountResolution.ResolveCompanyMovementAccounts | apps/companies/account_resolution.py:43-134 | The loop over specs, with its two dictionaries kept up to date in place, computes the specified table and index, or restores the table and fails |
| Names.VariantsIff | apps/companies/account_resolution.py:20-21 | Keys treat two names alike exactly when, white space at their ends aside, they have the same length and pairwise equal characters or the two cases of one ASCII letter |
| Names.ResolvedAccounts | apps/companies/account_resolution.py:43-134 | Every spec gets a movement account of the company under its colectiva and by a spelling of its name; two specs get one account exactly when colectivas are equal and names are such spellings of each other |
| Names.VariantResolves | apps/companies/account_resolution.py:63-95 | After a name has been resolved, any spelling of it creates and links nothing and finds the same account; another name or colectiva finds another account |
| Names.FindsOwned | apps/companies/account_resolution.py:93-127 | A spec finds the last account the company has of its name and colectiva; one that is not a movement account is an error |
| Names.TakesOn | apps/companies/account_resolution.py:95-127 | If it has none, the last account of that name whoever owns it is linked when nobody does |
| Names.CreatesNew | apps/companies/account_resolution.py:108-121 | Otherwise a leaf of level 2 by the name as given is created under the least free code, or the codes are exhausted |
| Names.CajaSpelled | apps/companies/account_resolution.py:20-21 | Instance: " caja " is a spelling of "Caja" and "Cajas" is not |
| Names.CajaFound | apps/companies/account_resolution.py:63-94 | Instance: a company that has "Caja" under 1.01 gets that account for " caja ", and none is created |
| ClosingSupport.EnsureServes | apps/closing/support.py:67-106 | Afterwards each of the support accounts exists as a movement account of this company; no existing row changes |
| ClosingSupport.EnsureAgain | apps/closing/support.py:67-106 | A second call creates nothing and finds the same accounts |
| ClosingSupport.EnsureOneFails | apps/closing/support.py:31-42 | A support account fails only when it is missing and its colectiva is absent or full |
| ClosingSupport.EnsureCompanyClosingAccounts | apps/closing/support.py:67-106 | The loop over support specs, creating accounts in place, computes the specified table and index |
| ClosingEntries.SupportNamed | apps/closing/support.py:5-106 | Afterwards the company has an account of each of the eight names, the six colectivas of results exist, rows are as they were, and each new account bears one of the names the company lacked |
| OpeningEntry.BuildOpeningSpecs | apps/companies/services.py:98-107 | The loop over a dictionary gives one item per colectiva and stripped name, in order of first occurrence, with the total of its items |
| OpeningEntry.GroupConserves | apps/companies/services.py:98-107 | Grouping items conserves their total |
| OpeningEntry.GroupPositive | apps/companies/services.py:98-107 | Positive items group into positive items, each under a colectiva of the input, and something groups into something |
| OpeningEntry.OpeningBalances | apps/companies/services.py:155-205 | Assets against liabilities and capital balance, for any payload |
| OpeningEntry.CreateOpeningEntry | apps/companies/services.py:114-216 | Opening a company posts the inventory entry as entry one, or fails and leaves everything as it was, accounts included |
| OpeningEffects.GroupedByName | apps/companies/services.py:98-107 | Grouping gives exactly one item per colectiva and trimmed name that occurs, with the sum of its items |
| OpeningEffects.OpeningBooks | apps/companies/services.py:155-216 | For every selection of accounts entry one debits the assets of the payload resolved into it, and credits its liabilities and, if the capital account is selected, assets less liabilities; each item lies on an account of its colectiva and name |
| OpeningEffects.OpeningByColectiva | apps/companies/services.py:155-216 | The same colectiva by colectiva, in terms of the payload alone |
| OpeningEffects.NewCompanyOpens | apps/companies/services.py:155-216 | Instance: opening with 1000 in the till has 1000 in debit on 1.01 and 1000 in credit on 3.01, and nothing the other way round |
| OpeningEffects.OpenIff | apps/companies/services.py:114-216 | A company opens exactly when its journal is empty, the date is not closed, there are assets, the items of each name add up to something positive, assets exceed liabilities, the inventory kind is known and the accounts resolve |
| OpeningEffects.OpenErrors | apps/companies/services.py:114-216 | The first reason that applies is the error: already opened, capital not positive, an account, the kind, the closed period |
| DemoSoundness.OpeningPostable | apps/companies/services.py:155-205 | With assets, positive amounts and positive capital the opening lines are a postable asiento over the resolved accounts |
| Balances.ApplyLinesAdds | apps/closing/services.py:250-293 | Applying draft lines to the balance map adds, for every selection of accounts and each side, exactly what the lines carry; real and virtual nodes stay apart and none disappears |
| Balances.BalanceMap.GetOrCreateVirtual | apps/closing/services.py:224-247 | The virtual node of a colectiva and name is found, or appended with nothing on it |
| Balances.BalanceMap.ApplyEntry | apps/closing/services.py:250-293 | The loop over lines, mutating the nodes, leaves the nodes of the specification |
| Balances.KeysTellApart | apps/closing/services.py:59-63 | Two accounts of the table, or support accounts, share a key only if they are the same |
| Balances.LoadedSums | apps/closing/services.py:180-221 | Loaded nodes carry, for every selection of accounts and each side, exactly what the journal does up to the date |
| Balances.ByCodeOnce | apps/closing/services.py:195-201 | The order by account code lists every account once |
| Sorting.SortSorts | apps/closing/selectors.py:88-96 | Sorting gives a permutation of its input in rank order |
| ClosingTheorems.LoadedBalanced | apps/closing/services.py:180-221 | The nodes loaded from a sound journal balance as a whole |
| PlanProperties.AdjustedBalance | apps/closing/services.py:360-512 | Both adjustments give postable drafts, keep the nodes balanced, and bring each counted colectiva to its count |
| PlanProperties.AdjustmentMoves | apps/closing/services.py:382-437 | An adjustment moves its colectiva by the difference, nothing as a whole, and no third colectiva |
| ClosingService.BuildAdjustmentEntries | apps/closing/services.py:360-512 | The two adjustments, each drafted from the nodes the one before has mutated, are those of the specification |
| ClosingEntries.PlanBooksDifferences | apps/closing/services.py:382-510 | In every plan the adjustments net the cash difference on 1.01, a shortage on 4.12 and a surplus on 5.06, the inventory difference on 1.09, a shortage on 4.13 and a surplus on 5.07, zero without a count and on any other colectiva, all on the accounts with these names |
| ClosingEntries.ClosingBooksDifferences | apps/closing/services.py:964-1007 | The same of the adjustment entries an executed closing posts, and of the accounts they are posted to |
| ClosingService.GroupPatrimonial | apps/closing/services.py:326-334 | The grouping loop holds, for exactly the patrimonial colectivas present, the sums of debits and credits of their nodes |
| ClosingService.ValidateNaturalBalances | apps/closing/services.py:326-357 | Checking the grouped totals rubro by rubro raises the error of the specification |
| PlanProperties.ResultMoves | apps/closing/services.py:669-747 | The result entries take from any selection its loss and gain balances, and give the result account the difference |
| ClosingService.BuildResultClosingEntries | apps/closing/services.py:669-747 | Drafting the gains after the losses have been applied to the nodes gives the same drafts as drafting both from the adjusted nodes |
| ClosingService.OtherRubroKept | apps/closing/services.py:669-747 | Posting to other rubros changes no closing line of a rubro |
| ClosingEntries.PlanBooksResult | apps/closing/services.py:669-747 | The result entries of a plan net the net result on 3.02, on the account "Resultado del Ejercicio", touch no other patrimonial account, credit losses and debit gains |
| PlanProperties.ResultsClosed | apps/closing/services.py:669-747 | After the result closing any selection of accounts of rubros 4 and 5 nets to zero and the nodes still balance |
| PlanProperties.PatrimonialOk | apps/closing/services.py:776-818 | The patrimonial entry is postable: it balances because the nodes do and the results are at zero |
| PlanProperties.EverythingCloses | apps/closing/services.py:776-818 | After the patrimonial lines every selection of accounts nets to zero |
| PlanProperties.ReopeningMoves | apps/closing/services.py:820-840 | The reopening books for any selection what the patrimonial entry took away |
| PlanProperties.SnapshotIsReopening | apps/closing/services.py:750-773 | The snapshot lines carry, as a multiset, the accounts, sides and amounts of the reopening draft |
| PlanProperties.SnapshotByCode | apps/closing/services.py:750-761 | Snapshot lines stand in the order of their account codes, a virtual account at its colectiva |
| ClosingSnapshots.SnapshotInOrder | apps/closing/services.py:750-761 | Snapshot rows stand by colectiva and then by account code, virtual accounts first |
| PlanProperties.SnapshotCarries | apps/closing/services.py:750-773 | The snapshot carries, for any selection, the balances of its patrimonial nodes on each side, and their net |
| ClosingSnapshots.VirtualRowIff | apps/closing/services.py:750-773 | The snapshot has a row for a virtual account exactly when the plan leaves something on it: the difference of its count, or the net result |
| ClosingSnapshots.SnapshotAccountsIff | apps/closing/services.py:750-773 | Every row of a plan's snapshot names an account exactly when no count differs from the books and the net result is zero |
| ClosingSnapshots.StoredAccountsIff | apps/closing/services.py:942-959 | The same of the rows an executed closing stores |
| ClosingExamples.LossYearNamesNoAccount | apps/closing/services.py:942-959 | Instance: the loss year stores a row for the result of the exercise that names no account |
| ClosingSnapshots.SnapshotMeetsSheet | apps/closing/services.py:617-666 | Debits of the asset rows are the assets of the sheet, credits of the liability rows its liabilities, and the equity rows net its total equity less the debit balances of equity accounts; the other sides are exactly the unnatural balances and the shortages |
| PlanProperties.SheetEquation | apps/closing/services.py:617-666 | Assets less liabilities and equity equal the credit balances of asset nodes less the debit balances of liability and equity nodes; the sheet balances exactly when these cancel |
| ClosingService.ValidateRequest | apps/closing/services.py:128-167 | The checks of a request, in order, raise the error of the specification |
| ClosingService.BuildSimplifiedClosingPlan | apps/closing/services.py:843-899 | The planner over the mutable balance map computes the specified plan or its first error |
| ClosingEffects.NaturalGuardIff | apps/closing/services.py:326-357 | The guard passes exactly when every patrimonial colectiva, at its count or else as the journal has it on the closing date, is on its natural side |
| ClosingAcceptance.RequestGuardIff | apps/closing/services.py:128-167 | In sound books a request is valid exactly when the company is opened, nothing is dated after the closing, the lock is before it and the reopening after it: the start, chain, open-exercise and duplicate checks follow from these |
| ClosingAcceptance.PlannedIff | apps/closing/services.py:843-899 | A closing of sound books is planned exactly when its request is admitted, patrimonial colectivas and every single result account are on their natural sides in the journal, and some patrimonial account has a net in the journal or a count is off the books |
| ClosingAcceptance.SupportIff | apps/closing/support.py:67-106 | The support accounts can be ensured exactly when each exists, or its colectiva exists or is created by the closing and has a free code |
| ClosingAcceptance.ClosingSucceeds | apps/closing/services.py:964-1007 | A closing of sound books goes through exactly when its request is admitted, the balances fit, something patrimonial is left to close, and each support account exists or has room |
| ClosingAcceptance.RequestErrors | apps/closing/services.py:128-167 | The error of a request in sound books, with the checks in order |
| ClosingAcceptance.PlanErrors | apps/closing/services.py:326-357 | The error of a plan in terms of the journal and the counts: a colectiva of assets, liabilities or equity on the wrong side, then a loss account in credit, a gain account in debit, and last nothing to close |
| ClosingAcceptance.ResultErrors | apps/closing/services.py:554-587 | Loss accounts in credit are reported before gain accounts in debit, each as the journal has them |
| ClosingAcceptance.NextFitsIff | apps/closing/services.py:352-357 | The balances a closing leaves fit the next one exactly when its loss is no more than the credit in 3.02, and the next counts are not negative |
| ClosingAcceptance.NextClosingIff | apps/closing/services.py:964-1007 | Exactly when one closing can follow another straight away |
| ClosingExamples.OpenedBooksClose | apps/closing/services.py:964-1007 | Instance: a company with 1000 in the till and 1000 of capital closes on the day it opens, whatever it counts |
| ClosingEffects.SheetBalancesIff | apps/closing/services.py:655-666 | The two sides of the sheet of a plan differ by the credit balances of asset accounts before the closing, plus the cash and inventory shortages, less the debit balances of liability and equity accounts; `is_balanced` holds exactly when that is zero |
| ClosingEffects.NetResultIs | apps/closing/services.py:554-587 | The net result of a plan is what the result accounts net in the journal, plus what the counts add to the books |
| ClosingExamples.ShortageUnbalancesSheet | apps/closing/services.py:617-666 | Instance: with 1000 in the till and less than that counted, the plan is built and executed, and its sheet is out of balance by what is missing |
| ClosingEffects.ClosingMoves | apps/closing/services.py:964-1007 | After a closing and its reopening each patrimonial colectiva stands at its count or where it stood before, but 3.02, which takes on the net result of the sheet |
| ClosingEffects.LossBlocksClosing | apps/closing/services.py:352-357 | A debit net in 3.02 on the closing date makes planning and execution fail |
| ClosingEffects.LossBlocksNextClosing | apps/closing/services.py:352-357 | A closing whose loss exceeds the credit in 3.02 cannot be followed by another closing straight away |
| ClosingExamples.LossYearCloses | apps/closing/services.py:669-747 | Instance: a year with a loss of 300 closes, with a net result of -300 |
| ClosingExamples.LossYearBlocks | apps/closing/services.py:352-357 | After it no closing succeeds, whatever its dates and counts |
| ClosingExecution.ResolveLineAccountIds | apps/closing/services.py:902-923 | Virtual lines are resolved to support accounts, which are ensured first; an unknown one fails |
| ClosingExecution.ExecuteSimplifiedClosing | apps/closing/services.py:964-1027 | Execution posts the drafts in order through the journal service, stores the snapshot and moves the lock, or rolls everything back |
| ClosingEntries.ClosingPosts | apps/closing/services.py:964-1007 | A closing appends one adjustment per count that differs, at most two result entries, the patrimonial closing and the reopening, in this order, numbered on, of these types and on the two dates; the reopening has the lines of the patrimonial entry with sides exchanged |
| ClosingEntries.ClosingDebitsBeforeCredits | apps/closing/services.py:382-818 | Every entry of a closing but the reopening lists its debits before its credits |
| ClosingTheorems.ResolvedTurnover | apps/closing/services.py:902-923 | Resolved lines carry, for any selection of real accounts, what the draft carries for what resolves into it, also where a virtual and a real node name one account |
| ClosingTheorems.DraftsFit | apps/closing/services.py:669-840 | Every draft of a plan is accepted by the journal service, and no support account is missing |
| ClosingTheorems.ExecuteFollowsPlan | apps/closing/services.py:964-1007 | Execution succeeds exactly when the preview does and the support accounts can be ensured; otherwise it fails with that same error |
| ClosingTheorems.PreviewIsFaithful | apps/closing/services.py:843-899 | Posting adjustments and results with resolution gives any selection of real accounts, on each side, the total of the plan's final nodes that resolve to it |
| ClosingTheorems.ReloadIsFaithful | apps/closing/services.py:902-923 | Reloading the balances from the posted journal gives each real account the sum of the plan's final nodes that resolve to it |
| ClosingTheorems.ClosesToZero | apps/closing/services.py:776-818 | After a closing every account, and every selection of accounts, nets to zero over all lines up to the closing date |
| ClosingTheorems.ReopeningRestores | apps/closing/services.py:820-840 | Patrimonial closing and reopening together leave every account net as it was just before |
| ClosingTheorems.ResultsStayClosed | apps/closing/services.py:669-747 | Accounts of rubros 4 and 5 are at zero after the reopening too |
| ClosingTheorems.CountCarriesOver | apps/closing/services.py:382-510 | A counted amount is the net of its colectiva in the reopening entry and over the whole history afterwards |
| ClosingTheorems.CountIsStored | apps/closing/services.py:926-960 | The stored snapshot holds the counted amount for its colectiva |
| ClosingTheorems.CountedNodes | apps/closing/services.py:382-510 | A counted colectiva stands at its count after the adjustments, after the result closing and in the reopening draft |
| ClosingTheorems.SnapshotMatchesReopening | apps/closing/services.py:926-960 | The stored snapshot names the last two entries and carries the accounts, sides and amounts of the reopening: of the draft as they are, of the posted entry once virtual accounts, which a snapshot row stores without an id, are resolved |
| Exercises.ScanBoundaries | apps/closing/selectors.py:101-152 | The scan, with its current opening and flags, returns the exercises of a chain and raises on anything else |
| Exercises.BuildLogicalExercises | apps/closing/selectors.py:87-158 | Reading, sorting and scanning the boundaries gives the exercises of the specification, or raises |
| Exercises.ScanIsExact | apps/closing/selectors.py:101-152 | The scan accepts exactly the boundaries some well-indexed exercises flatten to, which are the prefixes of one opening followed by closings and reopenings, and returns exercises that flatten to them |
| Exercises.FlattenInverts | apps/closing/selectors.py:101-152 | Flattening the exercises of a chain gives its boundaries back |
| Exercises.FlattenAlternates | apps/closing/selectors.py:101-152 | The marks of any well-indexed exercises alternate as a chain does, with an odd count exactly when the last one is open |
| Exercises.IntersectedRun | apps/closing/selectors.py:208-213 | The exercises a range meets are a contiguous part of the chain |
| Exercises.WindowIsolation | apps/closing/selectors.py:188-238 | The active exercise is the latest of that part, the others are listed latest first, and no date shown or computed over belongs to another exercise |
| Exercises.NoExerciseNoDates | apps/closing/selectors.py:214-224 | A range no exercise meets shows no date of any exercise |
| Exercises.ReportWindow | apps/closing/selectors.py:188-238 | A report computes from the start of the latest exercise that meets the range and shows from there or from the start asked for, whichever is later; with none it does both from the start asked for, and it always ends where asked |
| Exercises.ScannedInOrder | apps/closing/selectors.py:88-96 | The scan reads exactly the openings, patrimonial closings and reopenings, each as often as the journal has it, by date and then number |
| Runs.RunKeeps | apps/closing/services.py:964-1007 | Opening, posting, reversing, account changes and closings, in any order and number, keep the invariant: numbering, balance, alternating boundaries, lock, zero nets at closings, reversals, snapshots |
| Runs.CloseKeeps | apps/closing/services.py:964-1007 | A closing keeps the invariant |
| Runs.SealKeeps | apps/closing/services.py:776-840 | Ending sound books with a patrimonial closing, a reopening and their snapshot keeps the invariant if everything nets to zero at the closing |
| Runs.ReverseKeeps | apps/journal/services.py:213-307 | A reversal keeps the invariant |
| Runs.OpenKeeps | apps/companies/services.py:114-216 | An opening keeps the invariant |
| Runs.ScannedIsPosted | apps/closing/selectors.py:88-96 | In sound books the boundaries sorted by date and number are in posting order |
| Runs.ExercisesOfSoundBooks | apps/closing/selectors.py:87-158 | In sound books the scan does not raise; exercises do not overlap, each closed one has its snapshot, only the last is open |
| Runs.ExerciseInProgress | apps/closing/selectors.py:180-185 | An opened company has an exercise in progress: the last, started at the last boundary |
| History.ReachableExercises | apps/closing/selectors.py:87-158 | All of that in every state reachable from a company without entries |
| History.NetSinceClosing | apps/closing/services.py:180-221 | The net of any selection of accounts up to a date is its net over the lines dated after any closing up to that date |
| History.LoadedMeetsTrial | apps/closing/services.py:180-221 | For every request with an active exercise, the balances loaded over the whole history and the trial balance of the resolved context differ, account by account, by exactly what is dated between the closing before that exercise and its reopening, or before the opening |
| History.LoadedIsTrial | apps/reports/services/trial_balance.py:52-77 | They agree, account by account, when nothing is dated there |
| ReportExamples.LoadedExceedsTrial | apps/reports/services/trial_balance.py:52-77 | Instance: 5 posted between a closing and its reopening make the loaded balance of the till exceed its trial-balance net by 5 |
| History.FrozenHistory | apps/journal/services.py:38-44 | Up to the lock the journal is the same in every later state: entries are only added, and none is dated there |
| History.LockAdvances | apps/closing/services.py:1005-1007 | A closing moves the lock strictly forward, and it never moves back |
| ReportQueries.ChronologicalTurnover | apps/reports/services/journal_book.py:47-58 | The entries of a window in order of date and number turn over what the journal does in it |
| JournalBook.GetJournalBook | apps/reports/services/journal_book.py:58-103 | The nested loops add entry totals up to the turnover of the window |
| ReportContents.ChronologicalShows | apps/reports/services/journal_book.py:42-58 | What a window shows is ordered by date and number and has exactly the entries dated in it, each as often as the journal |
| ReportContents.BookContents | apps/reports/services/journal_book.py:58-103 | Each book entry is one of the window: its lines carry the amounts of the posted lines in the column of their side, the columns add up to its totals, and these to the grand totals |
| Ledger.BuildCard | apps/reports/services/ledger.py:170-205 | The loop over an account's movements computes running balances, period totals and closing balance as nets over windows of the journal |
| Ledger.GetLedger | apps/reports/services/ledger.py:62-221 | The ledger has a card for each listed account, or an error for an account that is not the company's |
| ReportContents.CardContents | apps/reports/services/ledger.py:123-205 | The movements of a card are the lines of the account in the entries the window shows, in their order, each in the column of its side; what is brought forward nets the dates before the window |
| ReportContents.LedgerContents | apps/reports/services/ledger.py:62-121 | The ledger lists the accounts of the company by code, each once, or the one asked for |
| Ledger.RunningStep | apps/reports/services/ledger.py:172-203 | Each running balance is the one before it, or the opening, plus the signed amount of its movement |
| Ledger.RunningEndsAtClosing | apps/reports/services/ledger.py:172-205 | The last running balance is the closing balance; without movements that is the opening |
| TrialBalance.Accumulate | apps/reports/services/trial_balance.py:122-156 | The loop over rows fills the dictionary of groups with the subtotals of each colectiva, and the grand totals |
| TrialBalance.GetTrialBalance | apps/reports/services/trial_balance.py:28-211 | The trial balance of the specification: rows by code with their saldo columns, groups by colectiva with theirs, totals |
| ReportContents.SaldoColumns | apps/reports/services/trial_balance.py:18-25 | A saldo shows debits less credits: in the first column if positive, the negation in the second if negative, nothing at zero |
| ReportContents.TrialContents | apps/reports/services/trial_balance.py:122-183 | Every row of every group holds the debits and credits of its account in the window, and the saldo columns their net, at most one of them filled and with a positive amount; groups hold the sums of their rows and stand by code |
| ReportContents.OneRow | apps/reports/services/trial_balance.py:122-156 | No account has two rows |
| ReportContents.HasRow | apps/reports/services/trial_balance.py:52-77 | Every account with a line in the window has a row, in the group of its colectiva |
| ReportAgreement.LedgerMeetsTrial | apps/reports/services/ledger.py:123-203 | When what is shown does not begin after the day following its end, the closing balance of an account is its signed net over the trial-balance window |
| ReportAgreement.LedgerExcess | apps/reports/services/ledger.py:123-140 | Otherwise the two differ by exactly what the ledger brings forward from dates after the end |
| ReportExamples.ReportsDisagree | apps/reports/services/ledger.py:123-140 | Instance: with an exercise closed ahead of today and a start after today, they differ by 300 |
| ReportAgreement.LedgerWithoutActive | apps/reports/services/ledger.py:123-203 | With no active exercise they agree for every range |
| ReportAgreement.OrderedRange | apps/closing/selectors.py:188-238 | A range that does not start after its end resolves to a window that does not either |
| ReportAgreement.ContextsNested | apps/closing/selectors.py:188-238 | What is shown never begins before what is computed |
| ReportAgreement.ReportsAgree | apps/reports/services/trial_balance.py:122-150 | For every range that does not start after its end, the ledger closes each account at the signed net of its trial-balance row |
| ReportAgreement.LedgerMeetsBook | apps/reports/services/journal_book.py:58-103 | Period debits and credits of all cards add up to the grand totals of the journal book |
| ReportAgreement.SubtotalsAddUp | apps/reports/services/trial_balance.py:122-156 | Subtotals of the colectivas add up to the grand total |
| ReportAgreement.TrialBalances | apps/reports/services/trial_balance.py:122-183 | Total debits equal total credits, both the turnover of the window, and the saldos deudores of the colectivas equal their saldos acreedores |
| ReportAgreement.SaldoColumnsAddUp | apps/reports/services/trial_balance.py:158-183 | The saldo columns of the groups add up to the totals reported |
| ReportCache.Store.SafeAdd | apps/common/cache.py:33-38 | Only a missing key is set; a failing backend says nothing and changes nothing |
| ReportCache.Store.SafeIncr | apps/common/cache.py:41-46 | A stored number is incremented; anything else, or a failing backend, gives nothing and changes nothing |
| ReportCache.Store.GetOrInitVersion | apps/reports/cache.py:20-25 | A positive version is returned, anything else restarts at 1 |
| ReportCache.Store.BumpVersion | apps/reports/cache.py:28-40 | The version becomes 2 if missing, else one more, also when the addition or the increment fails and a fallback is taken |
| ReportCache.Store.ListLogicalExercises | apps/closing/selectors.py:161-173 | The cached list under the version, or a fresh scan that is then stored |
| ReportCache.Store.GetReport | apps/reports/cache.py:63-120 | A report service looks up, computes on a miss and stores |
| ReportCache.BumpKeeps | apps/reports/cache.py:28-40 | While the version is not lost, nothing is stored under the current version after a bump, so the cache is coherent with any books |
| ReportCache.BumpCoherentIff | apps/reports/cache.py:28-40 | From any cache, a lost version included, a bump leaves it coherent with some books exactly when nothing is stored above the new version and what is stored under it is fresh |
| ReportCache.KeyDetermines | apps/reports/cache.py:63-82 | Two contexts of sound books with the same key have the same report |
| ReportCache.ReadKeeps | apps/reports/cache.py:63-120 | Reading a report returns a fresh computation and keeps the cache coherent |
| QueryAnswers.ReadAnswers | apps/reports/cache.py:63-120 | What a coherent cache answers to a query fits the fields of that query: the range it shows or computes over, and the account asked for |
| QueryAnswers.EveryReadAnswers | apps/reports/cache.py:63-120 | After any admissible run every report read shows only entries dated from the start asked for to the end, and every such entry of the active exercise; for the trial balance the turnovers of that exercise, for the ledger the cards of the account asked for |
| ReportCache.ForeignRow | apps/reports/cache.py:63-82 | A row that another company adds to the shared account table changes no exercise list and no report, so it needs no bump |
| ReportCache.CacheIsCoherent | apps/reports/cache.py:20-48 | In every sequence of writes, reads and evictions, every list and report read equals a fresh computation, if each successful write of the company bumps and the version is not lost; account resolution, which itself bumps nothing, counts as a write of the posting it serves, and rows added by other companies need no bump |
| CacheLoss.LostVersionServesTheOldList | apps/reports/cache.py:20-40 | After the version is lost and any number of bumps, a list stored under the version that has come round is served, whatever the books have become |
| CacheLoss.LostVersionListIff | apps/reports/cache.py:20-40 | The list read then is fresh exactly when a list stored under that version is |
| CacheLoss.LostVersionReportIff | apps/reports/cache.py:63-120 | The same of a report, once the list is fresh |
| CacheLoss.LostVersionCoherentIff | apps/reports/cache.py:20-25 | Losing the version leaves a coherent cache coherent exactly when it holds nothing else |
| CacheLoss.LossServesStaleList | apps/closing/selectors.py:161-173 | After a list read, any closing and the loss of the version, the old list is read again, and it lacks an exercise; all of the run but the loss is admissible |
| CacheLoss.LossThenClosingServesStaleList | apps/reports/cache.py:28-40 | Bumping does not help: with a list stored under version n, losing the version and then closing with n - 1 bumps brings it back as current |
| CacheLoss.OpenedBooksGoStale | apps/closing/selectors.py:161-173 | Instance: the closing of a company on the day it opens |
| DemoValidation.ValidateOpening | apps/companies/demo_validation.py:21-64 | The loops accept exactly the openings specified: admitted colectivas, positive amounts, positive capital |
| DemoValidation.ValidateDemoLines | apps/companies/demo_validation.py:124-207 | The innermost loop accepts exactly balanced lines with both sides, known colectivas, names and positive amounts |
| DemoValidation.ValidateExerciseEntries | apps/companies/demo_validation.py:67-228 | The nested loops, with the expected start carried along, accept exactly the exercises specified |
| DemoValidation.ValidateDemoPayload | apps/companies/demo_validation.py:231-237 | The validator accepts exactly the payloads specified |
| DemoAcceptance.AcceptedIff | apps/companies/demo_validation.py:21-237 | A payload is accepted exactly when it has a name and exercises, all closed but maybe the last, its dates in order never go back and each reopening is later than its closing, its entries are manual, described and sound, and its opening has admitted colectivas, positive amounts and more assets than liabilities |
| DemoAcceptance.AcceptedLinesIff | apps/companies/demo_validation.py:124-207 | Lines are accepted exactly when they have colectivas of the base chart, names and kinds and, wherever their accounts are found, are a postable asiento |
| DemoImport.ImportDemoJournalEntries | apps/companies/demo_import.py:122-142 | The loop resolves and posts entries one after another, stopping at the first failure |
| DemoImport.ImportLogicalExercises | apps/companies/demo_import.py:157-174 | The loop replays each exercise and its closing, stopping at the first failure |
| DemoImport.ImportDemoCompany | apps/companies/demo_import.py:177-224 | The import replays an accepted payload, or leaves the books as they were |
| DemoSoundness.DemoPostable | apps/companies/demo_validation.py:124-207 | An accepted entry becomes a postable asiento over the resolved accounts |
| DemoSoundness.ImportedEntry | apps/companies/demo_import.py:97-142 | An imported entry is appended with its date and type, line by line with the amount and side of its kind, on the account of its colectiva and name |
| DemoSoundness.RequestPasses | apps/closing/services.py:128-167 | When a closing of the replay is dated as the validator demands, every check of its request passes |
| DemoSoundness.CloseStands | apps/companies/demo_import.py:157-174 | After a closing the replay stands at the start of the next exercise: sound books, that date in progress and open, nothing later |
| DemoSoundness.KindNotValidated | apps/companies/demo_validation.py:21-64 | Changing the inventory kind of a payload never changes whether it is accepted |
| DemoSoundness.AcceptedOfAnyKind | apps/companies/demo_validation.py:231-237 | Instance: a payload accepted with any inventory kind |
| DemoSoundness.KindFailsIff | apps/companies/services.py:175-175 | An accepted payload fails on its inventory kind exactly when the kind is unknown and the accounts of the opening resolve; with an unknown kind the import always fails |
| DemoSoundness.ValidatorIsSound | apps/companies/demo_import.py:177-224 | Importing an accepted payload of any length can fail only for its balances at a closing, for accounts that cannot be found or created, or for an unknown inventory kind |

## Left out

- Database and ORM: queries are folds over the entry sequence and the account table, an atomic block is a step that
  succeeds or changes nothing, and unique constraints are part of the invariant. Rows come in table order where a query
  names no order, which decides between accounts of the same name.
- Hordak transactions and legs: each line stands for its own leg, so that legs mirror lines is not a statement here.
- Interleaved transactions: the lock and the reversal checks come before the row lock in the code; all steps here are serial.
- Identity of entries: an entry is named by its number, so the check that an entry belongs to the company is the check
  that it exists.
- Other companies: their accounts are rows of the shared table with another owner, added by a step; their journals, and
  their linking of rows nobody owns, are not modelled.
- Renaming, moving and deleting accounts; a linked account stays a movement account, as the account services see to.
- The level check of a parent colectiva in account resolution: parents are colectivas by construction.
- Lower case and whitespace beyond ASCII in account names.
- Decimals beyond two places and storage limits; formatting an amount with two places and reading it back is the identity
  on cents.
- Descriptions, references, currencies, account codes as text, and the summaries a plan returns beside its drafts.
- `_group_statement_nodes` and the income statement: groups of the sheet by colectiva, of which only the totals and the net
  result are modelled.
- `get_closing_state`, `get_current_book_balances`, account options and the exercise metadata attached to reports: views of
  what is modelled.
- Roles, ownership, visibility and read-only companies: the actor may write.
- Parsing of payloads, from opening data or demo files, and the owner, slug and hash of a demo company.
- Cache lifetimes and failed reads and writes; of the failures only those of an addition and of an increment during a bump
  are modelled. A closing is one step of the cache
  protocol, because its snapshot is written after its last bump.
- Company names inside reports, which a rename leaves stale in the cache.
- Today's date: the end of a report and the date of a reversal are given.
