# Verification of the textile suite

A Dafny model of the parts of the suite where several people, several tables or several processes meet,
with proofs of what those parts keep. `dafny verify dfyconfig.toml` checks everything.

| File | What it models |
|---|---|
| `WorkspaceMerge.dfy` | The three-way merge of workspace documents, row by row and field by field |
| `WorkspaceSync.dfy` | One server and any number of browsers that edit, save, poll, conflict, rebase, give up and commit reviewed documents |
| `WorkspaceRuns.dfy` | What every run guarantees: whose edit, deletion, giving up or reviewed commit stands behind each stored change |
| `WorkspaceOverwrites.dfy` | When a stored version overwrites what its author did not touch: exact conditions over runs |
| `Settlement.dfy` | Saving and removing sales and incoming invoices with the rows they post |
| `FinancePostings.dfy` | What the rows posted by a saved invoice hold, field by field |
| `SettlementMoney.dfy` | Where the money of an accepted sale goes |
| `FinanceRuns.dfy` | Runs of invoice saves and removals, manual check assignment and check status changes; check references |
| `FinanceLedger.dfy` | What those runs keep in the books: exact postings, explained balances, and what a returned check moves |
| `FinanceBacking.dfy` | When every endorsement line stays backed by a check assigned to its invoice |
| `LedgerViews.dfy` | Pull and push forms of account balances, transfers |
| `AccessStore.dfy` | The portal's access table and its mutex-held operations |
| `AccessRuns.dfy` | Every interleaving of those operations, with half-done trial grants |
| `AccessGrants.dfy` | What each operation on accounts changes, when it goes through, and what a granted trial gives |
| `PurchaseOrders.dfy` | Submitting, approving and rejecting purchase orders |
| `OrderGrants.dfy` | What an approved order grants, and what submissions and rejections store |
| `OrderRuns.dfy` | Runs of the order handlers with approvals that die halfway, beside administrative changes |
| `OrderLosses.dfy` | How an order comes to two accounts, to somebody else's, or loses its marker |
| `Rebind.dfy` | The placeholder rewriter and the upsert statement |
| `UpsertReader.dfy` | A reader of the upsert statement that gets back what it was built from |
| `LegacyMigration.dfy` | The legacy migration: upserts, skips, conflicts, protected content, the transaction |
| `LegacyOutcomes.dfy` | Which rows a migration leaves out, exactly when it goes through, and what it never touches |
| `OwnerRepair.dfy` | Giving every tenant an owner |
| `PriceSuggestion.dfy` | The suggested price of an incoming invoice |
| `PollThrottle.dfy` | The relay's poll slot, retries and getMe cache |
| `Sorting.dfy`, `Lists.dfy`, `Traces.dfy`, `Common.dfy` | A stable sort, filters and sums, moments of a run, Option and Result |

**How the sides fit.** Code that assigns fields or loops is a class or a method with a loop, proved equal to
a function of the old state; the properties are lemmas about those functions and about runs of them.
Workspace documents are maps from field to rows or a scalar, and a row is named by the same chain of
identifying fields as in the source. Tables are sequences (application state, JSON files) or finite maps
from merge key to row (database tables). Money is counted in whole units, times are whole numbers, and
prices and poll times are reals.

**Assumptions about the surroundings.** The workspace server stores a PUT exactly when its revision is
current and otherwise answers with the current state and revision
(`financial/web/src/App.jsx:940-957`), and takes a reviewed commit on the same condition; a late PUT or
commit may still arrive after its sender has given up on it, and a poll may carry any stored version. Fresh
row and invoice ids are new. Outcomes of calls to other services, generated names, tokens and the clock are
given from outside.

**What turned out not to hold**, each with a witness or with the exact condition under which it does:

- After a sixth conflict in a row the next save can overwrite another user's row (`GiveUpOverwritesIff`,
  `GiveUpOverwritesForeignEdit`). A reviewed commit leaves the base behind, so that the next refusal
  (`ReviewOverwritesIff`) or quiet poll (`PollOverwritesIff`) prefers the committed row to what others have made
  of it since, and the next save puts it back (`ReviewedCommitPutsBackForeignEdit`). Without either, a stored
  version changes only what its author edited and rows deleted meanwhile (`UsuallyOnlyOwnCellsChange`).
- A save cut off between two PUTs can swallow an undo (`UndoneEditStaysOnServer`,
  `CleanClientIsUpToDateIff`).
- An untouched array replaces another user's scalar in the same field (`ServerScalarSurvivesIff`), and
  rows deleted on one side come back (`DeletedRowReturns`).
- Registering one operational source a second time under a new id leaves the first registration's rows and
  check references behind (`SaveIncomingKeepsRefIff`, `SaveIncomingKeepsBookedIff`,
  `SecondRegistrationOrphansCheck`).
- Saving an incoming invoice over itself, or removing it, restores the books only if the checks it endorses
  were open and unassigned and it displaced nothing (`IncomingSaveReplacesIff`, `IncomingRemoveUndoesSaveIff`).
- A sale's line that pays cash into an account the book does not list is recorded nowhere. So would be one that
  endorses a check, which the validation accepts but the sale form does not offer
  (`financial/web/src/App.jsx:293-305`, `AcceptedSaleIsSettled`).
- Saving or removing a sale one of whose checks has been endorsed to an incoming invoice leaves that invoice's
  line without its check (`SaveSaleKeepsBackedIff`, `RemoveSaleKeepsBackedIff`).
- A trial grant writes back what it read: the login a customer has just chosen, and order markers added in
  between, can be lost (`StaleGrantLosesLogin`, `GrantKeepsLoginIff`, `EntitleKeepsMarkersIff`,
  `OrderMarkerIsLost`).
- Rejecting an order after its approval died leaves the account alive (`RejectAfterDeath`,
  `RejectLeavesAccountIff`); a marker edited away before the order is saved gives the order a second account
  (`LostMarkerRun`); a reused id is taken for the order's own account (`ReusedIdIsTakenForTheOrders`).

## Model

| member | source | states |
|---|---|---|
| `WorkspaceMerge.MergeRowsLoop` | financial/web/src/App.jsx:718-758 | the loops over server and local rows build the server rows, replaced where the local row differs from the base, followed by the local-only rows |
| `WorkspaceMerge.MergeWorkspace3Way` | financial/web/src/App.jsx:704-770 | visiting field names in any order gives the merge of each field of either side |
| `WorkspaceMerge.SameRowIff` | financial/web/src/App.jsx:694-702 | two rows stand for one row of the table if and only if the first identifying field present in each (id, number, source id, check number, tracking number) holds the same name that is not blank, or neither has such a name and they are equal |
| `WorkspaceMerge.MergedRowByKey` | financial/web/src/App.jsx:718-758 | for every key the result holds the local row where it differs from the base, otherwise the server's row, otherwise the local one |
| `WorkspaceMerge.MergedKeyOrder` | financial/web/src/App.jsx:732-758 | result keys are the server's keys in server order, then local-only keys in local order: exactly the union |
| `WorkspaceMerge.MergeKeepsKeysDistinct` | financial/web/src/App.jsx:718-758 | no key is repeated in the result when neither side repeats one |
| `WorkspaceMerge.MergeAtRowCell` | financial/web/src/App.jsx:704-758 | a row settles from the three sides' rows for its key alone |
| `WorkspaceMerge.MergeAtCell` | financial/web/src/App.jsx:704-770 | so does every cell of documents that agree on which fields are arrays, and the result agrees too |
| `WorkspaceMerge.ServerScalarSurvivesIff` | financial/web/src/App.jsx:704-770 | for every base, server and local document a scalar of the server survives in a field if and only if the local side holds no array there and is as the base or as the server; so an untouched local side loses it if and only if the base holds an array |
| `WorkspaceMerge.MergeSymmetricIffUnconflicted` | financial/web/src/App.jsx:704-770 | swapping server and local gives the same content if and only if no cell was changed in two different ways |
| `WorkspaceMerge.LocalRowSurvivesRebases` | financial/web/src/App.jsx:732-752 | along any chain of rebases a locally changed row keeps its value unless an earlier version already held it |
| `WorkspaceMerge.LocalRowYieldsOnceServed` | financial/web/src/App.jsx:953-963 | once a version held the local value, the next version's row replaces it |
| `WorkspaceMerge.DeletedRowReturns` | financial/web/src/App.jsx:732-752 | a row is missing from the result only if both sides lack it |
| `WorkspaceSync.WorkspaceClient.constructor` | financial/web/src/App.jsx:797-807 | adopting a server version sets base, value and revision and leaves nothing pending |
| `WorkspaceSync.WorkspaceClient.UpdateValue` | financial/web/src/App.jsx:1057-1064 | an edit sets the value and the dirty flag and adds exactly the changed cells to the history |
| `WorkspaceSync.WorkspaceClient.StartSave` | financial/web/src/App.jsx:931-944 | a save sends the live value, or only clears the flag when nothing differs from the base |
| `WorkspaceSync.WorkspaceClient.OnAccepted` | financial/web/src/App.jsx:938-950 | after an accepted PUT a dirty client sends again without moving its base, and a clean one takes the value as its base and starts counting refusals anew |
| `WorkspaceSync.WorkspaceClient.OnRefused` | financial/web/src/App.jsx:952-977 | a refusal rebases by merging up to five times in a row, then keeps the unmerged value |
| `WorkspaceSync.WorkspaceClient.OnPoll` | financial/web/src/App.jsx:876-910 | a quiet poll is ignored while dirty, saving or not newer; otherwise it is adopted, or merged if the value differs from the base, and the merged document becomes the base |
| `WorkspaceSync.WorkspaceClient.OnReviewed` | financial/web/src/App.jsx:1070-1077 | a stored reviewed commit replaces value and revision and leaves the base where it is |
| `WorkspaceSync.WorkspaceClient.OnResume` | financial/web/src/App.jsx:967-972 | the pause after giving up ends with the count at zero |
| `WorkspaceSync.RebaseAgrees` | financial/web/src/App.jsx:953-963 | after a rebase the value departs from the new base only in cells this client edited, revived, gave up on or had changed by a reviewed commit |
| `WorkspaceSync.StepKeepsInv` | financial/web/src/App.jsx:772-1082 | every step of server and clients, giving up, reviewed commits and late deliveries included, keeps the invariant, and versions are only appended |
| `WorkspaceSync.RunKeepsInv` | financial/web/src/App.jsx:772-1082 | so does every run |
| `WorkspaceRuns.StoredVersionsChangeOnlyOwnCells` | financial/web/src/App.jsx:931-1077 | in every run, also for PUTs delivered late: where a stored version differs from the one before, it has an author, a sending step and a last alignment of that author before it, and between the two the author edited the cell, or the server held the row at or after the alignment and dropped it by the version the PUT was made on, or the author gave up on a newer content of the cell, or had it changed by a reviewed commit, the sending itself included |
| `WorkspaceRuns.AttemptsCountRefusals` | financial/web/src/App.jsx:943-977 | in every run a client's conflict counter is the number of its refusals since its last load, taken poll, clean accepted save or end of a pause, counted on the steps of the run alone |
| `WorkspaceRuns.UsuallyOnlyOwnCellsChange` | financial/web/src/App.jsx:931-977 | while nobody is refused a sixth time in a row, counted on the steps of the run, or commits a reviewed document, only own edits since the alignment and rows dropped since it change |
| `WorkspaceRuns.StoredVersionHasAuthor` | financial/web/src/App.jsx:931-945 | every stored version but the first was sent at some step, by a save or a reviewed commit, on the version before it, by a client last aligned at some earlier step |
| `WorkspaceRuns.KnownWasSent` | financial/web/src/App.jsx:938-945 | every PUT the system knows, on its way, given up by its sender or stored, was sent at some step, a save or a reviewed commit, with all its sender answers for |
| `WorkspaceRuns.BlameIsExplained` | financial/web/src/App.jsx:938-945 | each cell a PUT answers for was edited, dropped by the server, given up on or changed by a reviewed commit between the sender's last alignment and the sending |
| `WorkspaceRuns.OnlyEditsExtendEdited` | financial/web/src/App.jsx:1057-1064 | only the user's own edit adds a cell to those edited, and no aligning step keeps one |
| `WorkspaceRuns.EditedCellsWereEdited` | financial/web/src/App.jsx:1057-1064 | every cell counted as edited was changed by that user in an edit after the client's last alignment |
| `WorkspaceRuns.OverruledCellsWereGivenUp` | financial/web/src/App.jsx:957-972 | every cell counted as given up on was set aside by a refusal after five others in a row, counted on the steps of the run, since the last alignment, when the server had changed it since the base |
| `WorkspaceRuns.ReviewedCellsWereCommitted` | financial/web/src/App.jsx:1065-1077 | every cell counted as reviewed was changed by a reviewed commit of that user after the last alignment |
| `WorkspaceRuns.BehindMeansCommitted` | financial/web/src/App.jsx:1065-1077 | a base can depart from the version it stands for only after a stored reviewed commit since the alignment |
| `WorkspaceRuns.LostValueHasACulprit` | financial/web/src/App.jsx:931-977 | a cell that differs between two versions was overwritten by a version between them that changed it and answers for it |
| `WorkspaceRuns.CleanClientShowsItsBase` | financial/web/src/App.jsx:795-807 | a clean client with no reviewed commit since its last alignment shows exactly the version its base stands for, and is not saving |
| `WorkspaceRuns.RestIsCurrentIff` | financial/web/src/App.jsx:876-1077 | a client at rest has base and revision of one version if and only if no save of its own was cut off after an accepted PUT and no reviewed document of its own was stored since it was last loaded, refused, confirmed clean or brought up by a poll |
| `WorkspaceRuns.CleanClientIsUpToDateIff` | financial/web/src/App.jsx:876-984 | a clean client with no reviewed commit since its alignment shows the version whose revision it holds if and only if no PUT of its own was accepted since its last resync, or the last one accepted held exactly the document its base held |
| `Settlement.PaymentValidation` | financial/web/src/App.jsx:1818-1830 | the filter, the sum and the checking loop report an imbalance first, then the first incomplete line |
| `Settlement.PaymentsAcceptedIff` | financial/web/src/App.jsx:1818-1830 | payments are accepted if and only if the positive lines add up to the total within the tolerance and each of them is complete: an account for cash, number and due date for a check, a check for an endorsement; an imbalance is reported before anything else |
| `WorkspaceOverwrites.ValueAfterRefusals` | financial/web/src/App.jsx:952-977 | through any number of merging refusals in a run, the content a client starts with in a cell survives if and only if it can win a merge, differs from the base it started on and no version met on the way holds it; otherwise the last version's content is there |
| `WorkspaceOverwrites.GiveUpOverwritesIff` | financial/web/src/App.jsx:952-977 | after a refusal that leaves a cell as it is, being the sixth in a row or by a version without the row, the next version stored by that client, through any run with any further refusals in between, changes the cell if and only if its content differed from the refusing version's and then outlasted every later one; a cell the client does not answer for held what its base version held |
| `WorkspaceOverwrites.PollOverwritesIff` | financial/web/src/App.jsx:882-902 | after a quiet poll that merges, the next version stored by that client changes a cell its user leaves alone if and only if no refusal comes first and the merge took the local side: the local content differs from the polled one and from the base, or the polled version lacks the row |
| `WorkspaceOverwrites.ReviewOverwritesIff` | financial/web/src/App.jsx:1065-1077 | after a stored reviewed commit, the next version stored by that client changes a cell its user leaves alone if and only if a refusal comes first, the committed content differs from the base left behind and no version met on the way holds it |
| `WorkspaceOverwrites.OnlyCommitsMakePollsMerge` | financial/web/src/App.jsx:789-902 | a clean client has a value other than its base, so that a poll merges, only after a reviewed commit since its alignment |
| `WorkspaceLosses.GiveUpOverwritesForeignEdit` | financial/web/src/App.jsx:957-972 | a run of 48 steps with six refusals, each behind another user's edit of an invoice, after which the client's next stored version puts the invoice back though its user never edited it |
| `WorkspaceLosses.ReviewedCommitPutsBackForeignEdit` | financial/web/src/App.jsx:1065-1077 | for every first content of an invoice, a run of 12 steps in which one client commits a reviewed invoice, another one changes it further, the first one polls and saves an edit of a note, and that save puts the invoice back |
| `WorkspaceLosses.UndoneEditStaysOnServer` | financial/web/src/App.jsx:931-984 | a nine-step run after which a client calls itself clean while the server keeps an edit its user took back |
| `Settlement.PostedMeans` | financial/web/src/App.jsx:4527-4565 | rows posted for payment lines carry their invoice as origin, and their contents do not depend on the fresh ids |
| `Settlement.ReplaceMeans` | financial/web/src/App.jsx:4515-4565 | replacing one origin's rows leaves exactly the new ones there and every other origin as it was |
| `Settlement.SaveSaleLoop` | financial/web/src/App.jsx:4507-4577 | the updater's filters and loop put each line's row in front of the tables freed of the sale's old rows |
| `Settlement.SaveIncomingLoop` | financial/web/src/App.jsx:4035-4086 | the incoming updater reopens its old checks, posts its rows and endorses the checks its lines name |
| `Settlement.SaleTables` | financial/web/src/App.jsx:4507-4577 | after a sale is saved its rows are the newly posted ones and all other rows are as before |
| `Settlement.IncomingTables` | financial/web/src/App.jsx:4035-4086 | the same for an incoming invoice, with its one stock row |
| `FinancePostings.SavedSalePosts` | financial/web/src/App.jsx:4507-4577 | after a sale is saved, each cash line has exactly one movement into its account from the customer, each check line exactly one open and unassigned check of the customer with the line's amount, number and due date, each barter line exactly one stock row with its kind, item, quantity and price, under the line's fresh id, and the sale has no other rows |
| `FinancePostings.SavedIncomingPosts` | financial/web/src/App.jsx:4035-4086 | after an incoming invoice is saved, each cash line has exactly one movement out of its account, each check line exactly one check given out with its amount, number and due date, the goods one stock row, and nothing else is there of it; each check a line names is handed on to the supplier that day, each one it had before and no longer names is open again, and every other check is as before |
| `FinancePostings.RemovedIncomingReopens` | financial/web/src/App.jsx:4118 | removing an incoming invoice opens exactly its checks again and changes nothing else of any check |
| `FinancePostings.SavedInvoices` | financial/web/src/App.jsx:4035-4084 | a saved sale stands in front of all sales but those of its number, a saved incoming invoice in front of all but the one of its id and those registered for the same operational source |
| `FinancePostings.RemovedInvoices` | financial/web/src/App.jsx:4601-4617 | removing a sale takes out it and the rows of its number, removing an incoming invoice it and the rows of its id, and nothing else |
| `Settlement.SaleSaveReplaces` | financial/web/src/App.jsx:4507-4577 | saving a sale over one with the same number is saving it alone |
| `Settlement.SaleRemoveUndoesSaveIff` | financial/web/src/App.jsx:4507-4617 | removing a sale just saved restores everything if and only if its number was unused |
| `Settlement.IncomingSaveReplacesIff` | financial/web/src/App.jsx:4035-4086 | saving an incoming invoice over its former version is saving it alone, up to endorsement days, if and only if it displaces what the former did and the checks only the former endorsed were free |
| `Settlement.IncomingRemoveUndoesSaveIff` | financial/web/src/App.jsx:4035-4118 | removing an incoming invoice just saved restores the books, up to endorsement days, if and only if it displaced nothing, its id was unused and its checks were free |
| `SettlementMoney.CashArrives` | financial/web/src/App.jsx:4531-4535 | cash movements of a sale raise the known accounts' balances by the cash lines to those accounts |
| `SettlementMoney.TotalIsValue` | financial/web/src/App.jsx:1236-1247 | the sum of account balances is the sum of what each movement adds to known accounts |
| `SettlementMoney.SaleMoneyIsConserved` | financial/web/src/App.jsx:4507-4577 | bank inflow, posted checks, barter stock, credit and unrecorded lines of a saved sale add up to its payment lines exactly |
| `SettlementMoney.AcceptedSaleIsSettled` | financial/web/src/App.jsx:1818-1830 | for an accepted sale those add up to its total within the validation tolerance, and nothing is unrecorded if and only if all cash goes to known accounts and no line endorses a check |
| `SettlementMoney.IncomingMoneyIsConserved` | financial/web/src/App.jsx:4035-4086 | cash taken from known accounts, own checks, endorsed checks, credit and unrecorded lines of a saved incoming invoice add up to its payment lines exactly |
| `SettlementMoney.PaidAndOwedIsTotal` | financial/web/src/App.jsx:1196-1214 | paid amount plus debt of an accepted sale is its total within the same tolerance |
| `SettlementMoney.PaidAndOwedIs` | financial/web/src/App.jsx:1196-1214 | for any sale they add up to the lines when there is open credit or no shortfall, otherwise to the total |
| `FinanceRuns.SaveSaleKeepsRef` | financial/web/src/App.jsx:4507-4577 | saving a sale keeps every check reference sound |
| `FinanceRuns.RemoveSaleKeepsKeysAndRef` | financial/web/src/App.jsx:4601-4617 | removing one keeps ids distinct and references sound |
| `FinanceRuns.FoundAfterSave` | financial/web/src/App.jsx:4084 | which invoice an id finds after a save that may drop other registrations |
| `FinanceRuns.SaveIncomingKeepsRefIff` | financial/web/src/App.jsx:4035-4086 | saving an incoming invoice keeps references sound if and only if no check it does not endorse itself is endorsed to a registration it drops |
| `FinanceRuns.RemoveIncomingKeepsKeysAndRef` | financial/web/src/App.jsx:4118 | removing an incoming invoice reopens its checks and keeps references sound |
| `FinanceRuns.AssignTakesAnOpenCheck` | financial/web/vite-financial-integrity-v2.js:67-99 | manual assignment changes at most the chosen check, which was open and had the number asked for |
| `FinanceRuns.AssignIff` | financial/web/vite-financial-integrity-v2.js:67-99 | a check is handed over by hand if and only if number and receiver are given and the picked one is open with that number, or none is picked and just one is open with it, so that an ambiguous number is refused; then only that check changes, to assigned, receiver and day |
| `FinanceRuns.AssignKeepsKeysAndRef` | financial/web/vite-financial-integrity-v2.js:67-99 | and keeps references sound |
| `FinanceRuns.MarkKeepsRef` | financial/web/src/App.jsx:5581-5647 | clearing, returning or bouncing a check by the buttons offered keeps references sound |
| `FinanceRuns.MarkMeans` | financial/web/src/App.jsx:5581-5647 | a status change alters that check and, when it comes back from an invoice it was endorsed to, turns that invoice's lines for it into credit; nothing else of the books changes |
| `FinanceLedger.SaveSaleBooks` | financial/web/src/App.jsx:4507-4577 | after a sale is saved every origin's rows are what its invoice posts |
| `FinanceLedger.RemoveSaleBooks` | financial/web/src/App.jsx:4601-4617 | the same after a sale is removed by its id |
| `FinanceLedger.SaveIncomingBooks` | financial/web/src/App.jsx:4035-4086 | the same after an incoming invoice is saved, for every origin not dropped |
| `FinanceLedger.RemoveIncomingBooks` | financial/web/src/App.jsx:4118 | the same after one is removed |
| `FinanceLedger.MarkBooks` | financial/web/src/App.jsx:5581-5647 | the same after a check changes status, although invoice lines are rewritten |
| `FinanceLedger.StepKeepsInv` | financial/web/src/App.jsx:4035-4118 | every step keeps keys distinct, references sound and every invoice's rows exact, with no row outliving its invoice |
| `FinanceLedger.RunKeepsInv` | financial/web/src/App.jsx:4035-4118 | so does every run: in particular a check naming an incoming invoice is assigned, the invoice exists and has a line for it |
| `FinanceLedger.BookedCash` | financial/web/src/App.jsx:1236-1247 | the movements kept for an invoice are worth its cash lines |
| `FinanceLedger.StepKeepsExplained` | financial/web/src/App.jsx:1236-1247 | no step changes the part of the balances that stored invoices do not explain |
| `FinanceLedger.RunKeepsExplained` | financial/web/src/App.jsx:1236-1247 | over every run the sum of balances moves exactly as the cash lines of the stored invoices |
| `FinanceLedger.SaveIncomingKeepsBookedIff` | financial/web/src/App.jsx:4084 | saving leaves rows without an invoice if and only if it drops another registration that has posted something |
| `FinanceLedger.SecondRegistrationOrphansCheck` | financial/web/src/App.jsx:4084 | a concrete second registration that is accepted, orphans a check and leaves a stock row behind |
| `FinanceLedger.ReturnMovesDebt` | financial/web/src/App.jsx:1285-1303 | a returned or bounced check, however many lines name it, keeps the invoice's payment total, raises the issuer's returned total by its amount, raises what is owed to the endorsee of a financial invoice by what those lines had covered of it, and moves nobody else's figures |
| `FinanceLedger.ReturnMovesDebtIff` | financial/web/src/App.jsx:1285-1303 | with one line of the check's amount, what is owed to the endorsee rises by exactly that amount if and only if the invoice was financial and not overpaid |
| `FinanceLedger.ReturnedLines` | financial/web/src/App.jsx:5629-5645 | the rewritten lines keep the payment total and take what named the check out of what is paid |
| `FinanceBacking.SaveSaleKeepsBackedIff` | financial/web/src/App.jsx:4507-4577 | saving a sale leaves every endorsement line of the incoming invoices with a check assigned to its invoice if and only if no former check of the sale has been endorsed to one |
| `FinanceBacking.RemoveSaleKeepsBackedIff` | financial/web/src/App.jsx:4601-4617 | the same for removing a sale |
| `FinanceBacking.SaveIncomingKeepsBackedIff` | financial/web/src/App.jsx:4035-4086 | saving an incoming invoice does so if and only if each check it endorses is in the table and free, its own, or endorsed to a registration it drops |
| `FinanceBacking.MarkKeepsBacked` | financial/web/src/App.jsx:5581-5647 | clearing, returning or bouncing a check by the buttons offered always does |
| `FinanceBacking.StepKeepsBackedIff` | financial/web/src/App.jsx:4035-4118 | every step of the books keeps all endorsement lines backed exactly under these conditions |
| `FinanceBacking.RunKeepsBacked` | financial/web/src/App.jsx:4035-4118 | in a run of such steps checks and endorsement lines match both ways |
| `LedgerViews.AccountBalanceLoop` | financial/web/src/App.jsx:1236-1247 | the reduce computes opening plus what each movement adds |
| `LedgerViews.BalanceMoves` | financial/web/src/App.jsx:1236-1247 | a balance starts at the opening, moves with the account's own movements, in or out, and the other way with transfers that name it as counter account |
| `LedgerViews.PushLoop` | scripts/recon/four_ledger.py:70-85 | the accumulation loop computes the pushed nets and adds no account |
| `LedgerViews.PushEqualsPull` | scripts/recon/four_ledger.py:70-85 | with movements booked alike the one-pass nets equal the per-account balances for every account |
| `LedgerViews.PushEqualsPullIff` | scripts/recon/four_ledger.py:70-85 | they agree after every prefix if and only if every transfer to a known account has a known account of its own and a direction in or out |
| `LedgerViews.TransferConservesIff` | financial/web/src/App.jsx:1238-1247 | a transfer leaves the sum of balances alone if and only if both or neither of its accounts are listed |
| `AccessStore.UsernameTaken` | portal_server/main.go:385-406 | the loop finds a clash exactly when another record of the project has the name, ignoring case |
| `AccessStore.MaxId` | portal_server/main.go:4773-4781 | the highest id in the table, or 0 |
| `AccessStore.NextAccessId` | portal_server/main.go:4773-4781 | the loop gives the highest id plus one |
| `AccessStore.ExistingCompany` | portal_server/main.go:3262-3285 | the highest company id among records of the organisation, by reference or by name, and 0 exactly when there is none |
| `AccessStore.ExistingFinancialCompanyId` | portal_server/main.go:3262-3285 | the loop computes it |
| `AccessStore.FindTenant` | portal_server/main.go:3331-3338 | the loop finds the first weaving tenant of the company |
| `AccessStore.UniqueGeneratedUsername` | portal_server/main.go:3184-3207 | the first generated name that is free, or the last resort |
| `AccessStore.FillIn` | portal_server/main.go:3581-3594 | company, login and password filled in before a create |
| `AccessStore.ProvisionForCreate` | portal_server/main.go:3624-3683 | a create's calls to other services in order, each of which can refuse it, and the record it appends |
| `AccessStore.ProvisionForUpdate` | portal_server/main.go:3803-3849 | the same for an update |
| `AccessStore.Store.CreateManaged` | portal_server/main.go:3533-3683 | a create appends one record with the next id or changes nothing, with the refusals in the source's order |
| `AccessStore.Store.UpdateManaged` | portal_server/main.go:3685-3850 | an update replaces the one record or changes nothing |
| `AccessStore.Store.FinalizeAccessSetup` | portal_server/main.go:3957-4015 | ending a setup gives the record its login and password unless the name is taken |
| `AccessStore.Store.DeleteAccess` | portal_server/main.go:4126-4151 | a delete drops the records of the id, or nothing when syncing fails or none exists |
| `AccessStore.Store.ToggleAccess` | portal_server/main.go:4177-4202 | a toggle flips the active flag of the one record unless syncing fails |
| `AccessStore.Store.EntitleTrial` | portal_server/main.go:3883-3899 | the second section of a grant writes trial end, expiry and notes of the first |
| `AccessGrants.ToggleMeans` | portal_server/main.go:4177-4202 | a toggle of a known record goes through if and only if it has no weaving tenant or syncing succeeds; it flips the flag and nothing else, and twice restores the table |
| `AccessGrants.DeleteMeans` | portal_server/main.go:4126-4151 | a delete takes exactly the record out and keeps the order of the others, unless a weaving tenant cannot be synced |
| `AccessGrants.UnknownIdIsRefused` | portal_server/main.go:4126-4217 | an unknown id is refused by toggle, password change, token rotation and delete |
| `AccessGrants.FinalizeMeans` | portal_server/main.go:3957-4015 | ending a setup goes through if and only if there is a name, a password of eight characters and no other record of the project with the name, compared letter by letter without case; it gives the first record of the token its login and changes only what a setup sets |
| `AccessGrants.CreatedWasAsked` | portal_server/main.go:3533-3683 | nothing is created expired, for an unknown project, without modules or trial, or under a name in use |
| `AccessGrants.CreateGoesThroughIff` | portal_server/main.go:3533-3683 | a record ready for use is created if and only if the request is complete and not expired, the password has eight characters, the name given or generated is free, and for a textile one the provisioning service gives a company and, with weaving or a trial, the weaving service does its part |
| `AccessGrants.SetupIsBegunIff` | portal_server/main.go:3533-3683 | one whose login is left to its owner is created if and only if the request is complete, names a company and asks for neither weaving nor a trial |
| `AccessGrants.UpdateGoesThroughIff` | portal_server/main.go:3685-3850 | the exact condition for an update of a known record to go through, with what it asks of the other services |
| `AccessGrants.UpdatedTenant` | portal_server/main.go:3803-3849 | an updated record keeps its weaving tenant or takes that of its company; one is made only for an owner who has weaving or a trial and no tenant |
| `AccessGrants.CompanyIsReused` | portal_server/main.go:3262-3285 | an organisation keeps the highest company among its records, told by reference where there is one and otherwise by name without case, so that organisations of different references never share one by name |
| `AccessGrants.TenantIsReused` | portal_server/main.go:3331-3338 | a company keeps the weaving tenant of its first record that has one, and has none only when no record of it has |
| `AccessGrants.GrantRead` | portal_server/main.go:3852-3882 | a grant is begun if and only if the record is an owner's of the textile product and the days are one to ninety; the trial ends that many days from now, a longer paid time is kept, and no marker is dropped |
| `AccessGrants.GrantGives` | portal_server/main.go:3852-3899 | read and written with nothing in between, the record has that trial and nothing else of it changes |
| `AccessGrants.ListedNewestFirst` | portal_server/main.go:4783-4791 | the listing holds the stored accounts, later creations first and higher ids first among equals |
| `AccessStore.BringNewest` | portal_server/main.go:4783-4791 | the inner loop brings the newest remaining record to the front and loses none |
| `AccessStore.SortAccesses` | portal_server/main.go:4783-4791 | the exchange sort leaves nothing behind something newer and is a permutation |
| `AccessRuns.CreateKeepsInv` | portal_server/main.go:3533-3683 | a create keeps ids positive and distinct, logins distinct within a project, and textile records with a company |
| `AccessRuns.UpdateKeepsInv` | portal_server/main.go:3685-3850 | so does an update |
| `AccessRuns.FinalizeKeepsInv` | portal_server/main.go:3957-4015 | so does ending a setup |
| `AccessRuns.WithoutKeepsInv` | portal_server/main.go:4126-4151 | so does a delete |
| `AccessRuns.StepKeepsInv` | portal_server/main.go:3533-4217 | so does every mutex-held section, including the separate ones of a grant |
| `AccessRuns.RunKeepsInv` | portal_server/main.go:3533-4217 | so does every interleaving of them |
| `AccessRuns.OthersStay` | portal_server/main.go:3533-4217 | no section changes, adds or removes a record other than its target and a newly created one |
| `AccessRuns.CreateAppends` | portal_server/main.go:3533-3683 | a create appends one active record with the next id holding field by field what was asked for, with generated login and password where none was given and the company and tenant the services or the table offer |
| `AccessRuns.UpdateReplaces` | portal_server/main.go:3685-3850 | an update replaces the one record by what was asked for, field by field, and keeps token, creation, flag, password and trial end where the request leaves them open |
| `AccessRuns.EntitleKeepsMarkersIff` | portal_server/main.go:3857-3899 | from the section of a run that reads a record for a grant to the one that writes it: the record leaves with the markers it had at the read, so its markers survive if and only if every one added in between had been there at the read; where nothing in between took one off, if and only if nothing added one |
| `AccessRuns.GrantKeepsLoginIff` | portal_server/main.go:3883-3930 | from the second section of a grant to a successful third one in any run: the record keeps the login it has if and only if that is the login it had after the second section, or it had none then and the name generated now is it |
| `AccessRuns.StaleGrantLosesLogin` | portal_server/main.go:3852-3930 | a concrete interleaving in which a login just chosen is replaced by a generated one |
| `PurchaseOrders.Desk.CreatePurchaseOrder` | portal_server/orders.go:219-246 | the scan inherits the requester from the first approved order of the customer and gives back a repeated order |
| `PurchaseOrders.Desk.SavePurchaseOrder` | portal_server/orders.go:310-325 | the scan overwrites the first order with the id or reports that there is none |
| `PurchaseOrders.Desk.FindPurchaseOrderAccess` | portal_server/orders.go:296-308 | the newest account that the order names or that carries its marker |
| `PurchaseOrders.Desk.ApprovePurchaseOrder` | portal_server/orders.go:341-470 | an approval attaches, extends or creates an account and then saves the order |
| `PurchaseOrders.Desk.RejectPurchaseOrder` | portal_server/orders.go:472-486 | a rejection saves the order unless it is approved or has an account |
| `PurchaseOrders.RepeatIsIgnored` | portal_server/orders.go:225-246 | submitting an order again within ten minutes gives back the first and stores nothing |
| `PurchaseOrders.FoundMeans` | portal_server/orders.go:296-308 | the search fails if and only if no account carries the marker and the order's own account is gone |
| `OrderGrants.ApprovalGrants` | portal_server/orders.go:341-470 | an approval stores the order approved for one account: the newest one it has already, unchanged; or the requester's, whose paid time and trial end are the later of its own and the order's, with every module kept and the ordered ones added, and login, company and contact kept; or a new active owner account of the order's company and contact paid for 30 days, a year with annual billing, with a trial of 30 days instead of modules when it is one. Refused, it stores nothing |
| `OrderGrants.ApprovalGoesThrough` | portal_server/orders.go:341-470 | when the services answer, an approval of an order that is not rejected is not refused if it has an account, or its requester's account can be extended, or it has no requester, asks for something and a free name is found |
| `OrderGrants.SubmitMeans` | portal_server/orders.go:219-246 | a submission gives back the same order handed in less than ten minutes before, storing nothing, or stores it for the account it names or that of the customer's first approved order, taking over its company |
| `OrderGrants.RejectMeans` | portal_server/orders.go:472-486 | a rejection goes through if and only if the order is neither approved nor has an account, and marks only it |
| `OrderRuns.AtMostOneAccount` | portal_server/orders.go:341-470 | an order has at most one live account created for it |
| `OrderRuns.SubmitKeepsInv` | portal_server/orders.go:142-254 | a submission keeps the order invariant |
| `OrderRuns.RejectKeepsInv` | portal_server/orders.go:472-486 | so does a rejection |
| `OrderRuns.AdminKeepsInv` | portal_server/main.go:4773-4781 | so does any change of the access table without id reuse that drops markers only of saved orders |
| `OrderRuns.ApproveKeepsInv` | portal_server/orders.go:341-470 | so does an approval, whether or not it dies before saving the order |
| `OrderRuns.StepKeepsInv` | portal_server/orders.go:142-486 | so does every step: approved if and only if the account id is positive, markers on one account, on the requester's or the created one, and created accounts traceable |
| `OrderRuns.RunKeepsInv` | portal_server/orders.go:142-486 | so does every run |
| `OrderRuns.StatusIsFinal` | portal_server/orders.go:341-486 | approved and rejected orders stay so, and an approved one names an account |
| `OrderRuns.RunKeepsStatus` | portal_server/orders.go:341-486 | so over every run |
| `OrderRuns.StoreStepIsSafe` | portal_server/main.go:3533-4217 | any section of the access store that reuses no id, adds no marker and drops none too early may stand beside the order handlers |
| `OrderRuns.RetryAttaches` | portal_server/orders.go:346-354 | approving again after a death attaches to the account already made or extended and changes no account |
| `OrderRuns.RunCreatesOnce` | portal_server/orders.go:341-470 | in a run without deletions no order is given a second account, however often its approval dies or is repeated |
| `OrderRuns.RejectAfterDeath` | portal_server/orders.go:472-486 | rejecting after a death goes through and leaves the created account alive |
| `OrderRuns.RejectLeavesAccountIff` | portal_server/orders.go:472-486 | a rejection that goes through leaves alive an account created for the order if and only if the order has no requester and some account carries its marker at the call |
| `OrderLosses.RetryCreatesIff` | portal_server/orders.go:296-308 | an approval of an unsaved order creates an account if and only if none carries its marker |
| `OrderLosses.LostMarkerDuplicates` | portal_server/orders.go:341-470 | whenever an account made for an unsaved order has lost its marker the next approval makes a second live one |
| `OrderLosses.LostMarkerRun` | portal_server/orders.go:341-470 | approve, die, clear the notes, approve: from every sound world in which both creations succeed the order ends with two live accounts |
| `OrderLosses.LostMarkerRunExists` | portal_server/orders.go:341-470 | such a run from a single order, with the invariant held up to the clearing of the notes |
| `OrderLosses.ReusedIdIsTakenForTheOrders` | portal_server/main.go:4773-4781 | after the order's account is deleted the next one created is taken for it if and only if it gets the same id |
| `OrderLosses.ApprovalBetweenSections` | portal_server/orders.go:382-437 | an order that extends an account between the first two sections of a grant on it has its marker there until the second, and after it if and only if it was there before the first |
| `OrderLosses.OrderMarkerIsLost` | portal_server/main.go:3857-3899 | such a run, in which the marker of an order is really lost |
| `Rebind.RebindLoop` | operational_cycle_go/cmd/legacysync/main.go:1358-1386 | the scan with its quote flag and counter computes the rewriting |
| `Rebind.RebindNumbersInOrder` | operational_cycle_go/cmd/legacysync/main.go:1358-1386 | for postgres the text is cut at exactly its question marks outside single quotes, and between the pieces, in order, stand $k with k read in base ten as 1, 2 and so on; for any other dialect it stays as it is |
| `Rebind.DigitsReadBack` | operational_cycle_go/cmd/legacysync/main.go:1379 | the digits written for an index are decimal digits that read from the left in base ten as that index, with no leading zero |
| `Rebind.OneDecimalText` | operational_cycle_go/cmd/legacysync/main.go:1379 | and they are the only such text, so that distinct indexes have distinct placeholders |
| `Rebind.RebindTwiceIsOnce` | operational_cycle_go/cmd/legacysync/main.go:597-645 | rewriting twice is rewriting once, for every text |
| `Rebind.ValuesLineUpIff` | operational_cycle_go/cmd/legacysync/main.go:613-645 | placeholder k, read in base ten, stands at value k if and only if the text around the value list holds no question mark outside quotes and the list is preceded by an even number of quotes |
| `Rebind.UpsertValuesLineUp` | operational_cycle_go/cmd/legacysync/main.go:613-645 | with names free of quotes and question marks the upsert statement reaches the database with $1, $2 and so on, read in base ten, at its values in order |
| `Rebind.UpdateColumnsAreColumns` | operational_cycle_go/cmd/legacysync/main.go:625-634 | an existing row has every column overwritten but its merge key and its company |
| `UpsertReader.UpsertReadsBack` | operational_cycle_go/cmd/legacysync/main.go:613-645 | a reader of the statement, written apart from the builder, gets back table, columns with one value each, keys and overwritten columns, whatever quotes the names hold; in postgres, after both rewritings and with names free of quotes and question marks, the values read $1, $2 and so on |
| `LegacyMigration.UpsertRows` | operational_cycle_go/cmd/legacysync/main.go:545-605 | the row loop upserts row by row, stops at the first refusal, and counts skipped and written rows |
| `LegacyMigration.SyncTableReport` | operational_cycle_go/cmd/legacysync/main.go:482-611 | one table's synchronisation with its early outcomes and counters |
| `LegacyMigration.SyncedRow` | operational_cycle_go/cmd/legacysync/main.go:545-645 | after a table is synchronised each key holds the last source row for it laid over the row before; what that row holds column by column is `CommittedRunDeliversSourceData` |
| `LegacyMigration.ForeignRowsUntouched` | operational_cycle_go/cmd/legacysync/main.go:1273-1308 | in a company-scoped table every other company's row is exactly what it was |
| `LegacyMigration.SourceKeysArrive` | operational_cycle_go/cmd/legacysync/main.go:545-605 | every row that is not skipped has its key in the table afterwards, under the company |
| `LegacyMigration.ArrivesUnder` | operational_cycle_go/cmd/legacysync/main.go:597-645 | the key a source row arrives under holds for each merge key the company, the derivation of the row, or the row's value in the column it is mapped to |
| `LegacyMigration.SyncIdempotent` | operational_cycle_go/cmd/legacysync/main.go:482-611 | synchronising a table again changes nothing |
| `LegacyMigration.Target.Run` | operational_cycle_go/cmd/legacysync/main.go:234-353 | a failed or dry run leaves every table as it was and a committed one is the whole migration |
| `LegacyMigration.PreservedConfigsKeepFingerprints` | operational_cycle_go/cmd/legacysync/main.go:427-451 | with the configurations of users and menu preserved the fingerprints cannot change, so the comparison at the end never refuses a run |
| `LegacyMigration.CommittedRunKeepsProtected` | operational_cycle_go/cmd/legacysync/main.go:322-340 | whatever the configurations, a committed run leaves the fingerprinted admins and menu and every table all of whose configurations are preserved as they were |
| `LegacyMigration.CommittedRunKeepsOtherCompanies` | operational_cycle_go/cmd/legacysync/main.go:1273-1308 | no committed run changes another company's row in a scoped table |
| `LegacyMigration.CommittedRunDeliversSourceKeys` | operational_cycle_go/cmd/legacysync/main.go:234-353 | a committed run leaves every source key that is not skipped in its table |
| `LegacyMigration.CommittedRunDeliversSourceData` | operational_cycle_go/cmd/legacysync/main.go:482-611 | after a committed run the last source row of each key is there column by column: what it has in the mapped column, or what a derivation gives, in every filled column other than key and company; the value before, or the default of a new row, in every other one |
| `LegacyOutcomes.SkippedIff` | operational_cycle_go/cmd/legacysync/main.go:1246-1271 | a source row is left out if and only if it is the user admin, its name trimmed and read without case, or a menu right whose user number is no number, the admin's or unknown, or whose trimmed menu key is empty or unknown |
| `LegacyOutcomes.ReasonIsFirstFault` | operational_cycle_go/cmd/legacysync/main.go:1246-1271 | the reason reported for a menu right is the first thing wrong with it, its user before its menu, and there is none when nothing is |
| `LegacyOutcomes.SkippedAreCounted` | operational_cycle_go/cmd/legacysync/main.go:545-611 | the report counts each row that is left out once |
| `LegacyOutcomes.SyncGoesThroughIff` | operational_cycle_go/cmd/legacysync/main.go:545-611 | a table is synchronised if and only if every row that is not left out has no null in its key, meets no refusal of the database, and no row of another company held its key before the first row was written |
| `LegacyOutcomes.RunGoesThroughIff` | operational_cycle_go/cmd/legacysync/main.go:234-353 | with users and menu preserved, a run goes through if and only if the target has the tables of users and menu with a user of the company, and every table that is synchronised has a merge key and admits all its rows as it stood before the run |
| `LegacyOutcomes.CommittedRunKeepsUsersAndMenu` | operational_cycle_go/cmd/legacysync/main.go:322-340 | whatever the configurations, a committed run neither adds, drops nor changes a user of the company or a menu row |
| `LegacyMigration.RunIsIdempotent` | operational_cycle_go/cmd/legacysync/main.go:234-353 | migrating again changes nothing |
| `LegacyMigration.RefreshedSequence` | operational_cycle_go/cmd/legacysync/main.go:850-879 | the repaired sequence hands out an id above every id in the table |
| `OwnerRepair.FindOwner` | portal_server/owner_integrity.go:52-62 | the scan of a group tells whether it has an owner |
| `OwnerRepair.BuildGroups` | portal_server/owner_integrity.go:41-51 | the group map holds each tenant's records in order |
| `OwnerRepair.ChooseInGroup` | portal_server/owner_integrity.go:52-91 | a group without an owner gives its first usable record by creation time, then id |
| `OwnerRepair.RepairTenantOwners` | portal_server/owner_integrity.go:41-98 | visiting the groups in any order gives the same table and count |
| `OwnerRepair.ChosenIsFirst` | portal_server/owner_integrity.go:64-91 | the promoted record is usable and no usable record of the tenant is earlier; there is one exactly when the tenant has a usable record and no owner |
| `OwnerRepair.RepairMeans` | portal_server/owner_integrity.go:41-98 | the repair makes an owner of exactly those records that can log in, belong to a tenant without an owner, and were created first of such records, with the lower id among equals; it sets role, permissions and team flag, and leaves all others |
| `OwnerRepair.OnePerTenant` | portal_server/owner_integrity.go:52-98 | at most one record per tenant changes, only in role, permissions and team flag |
| `OwnerRepair.EveryUsableTenantHasOwner` | portal_server/owner_integrity.go:41-98 | afterwards every tenant with a usable record has an owner, and a tenant that had one is untouched |
| `OwnerRepair.RepairIdempotent` | portal_server/owner_integrity.go:41-98 | repairing twice is repairing once |
| `PriceSuggestion.SuggestionIgnoresOrder` | financial/web/src/financialSupervisor.js:18-53 | rows with the same eligible samples give the same suggestion in any order |
| `PriceSuggestion.SuggestionIgnoresPermutation` | financial/web/src/financialSupervisor.js:18-53 | so does any permutation of the rows |
| `PriceSuggestion.IneligibleRowHasNoInfluence` | financial/web/src/financialSupervisor.js:24-38 | a row dated later, of another item, non-financial or otherwise not eligible has no influence |
| `PriceSuggestion.MostRecentOfPool` | financial/web/src/financialSupervisor.js:39-41 | the price is taken from exactly the most recent `limit` samples of the preferred pool |
| `PriceSuggestion.SamplesMean` | financial/web/src/financialSupervisor.js:18-38 | a sample is there if and only if some row is comparable (financial, not the draft itself, not dated later, of the same type, item, unit, currency and kind of goods) and costs that per unit, by its price or by its amount without tax over its quantity |
| `PriceSuggestion.SuggestionIsMedian` | financial/web/src/financialSupervisor.js:39-53 | the suggestion is the median of the selected prices rounded to the nearest whole number, halves up, and the confidence counts the samples of the draft's customer: two, one, none |
| `PriceSuggestion.PriceWithinSelection` | financial/web/src/financialSupervisor.js:43-53 | the suggestion lies between the rounded smallest and largest selected price, which are attained |
| `PollThrottle.Relay.ReserveSlot` | telegram_relay/runtime_proxy/relay.py:90-99 | a poll is admitted exactly when the next allowed time has come, and moves it one interval on |
| `PollThrottle.Relay.CallWithFallback` | telegram_relay/runtime_proxy/relay.py:86-124 | a kept getMe answer is used for an hour and a poll before its time is answered empty, both without an attempt; otherwise the first of one, two or three attempts that succeeds is returned, or the fallback of the method, and a good getMe answer is kept from when it came |
| `PollThrottle.AllowedNeverDecreases` | telegram_relay/runtime_proxy/relay.py:90-99 | the next allowed time never decreases |
| `PollThrottle.AdmittedPollsAreSpaced` | telegram_relay/runtime_proxy/relay.py:90-99 | sampled times of admitted polls lie at least one interval apart, in whatever order threads take the lock |

## Left out

- Workspace: loading from local storage, timers, rendering and the order in which React applies updates; an edit and its dirty flag are one step, and the end of the pause after giving up may come at any time.
- Workspace polls: the source looks at the saving flag before it fetches a quiet poll and not again after, so a poll fetched just before a clean client begins to save can be answered during that save; the model ignores such an answer.
- Workspace reviews: the preview, the approval it gives, and the status error that forbids a commit; a commit is one step of its client, during which the source ignores edits, polls and saves.
- Workspace rows: the text of JSON (key order, undefined against null) is value equality, a stored id that reads like a content key is taken as different from one, and only blanks are trimmed.
- Finance: opening balances, expenses, yarn-out invoices, manual movements, checkbooks and the edit and delete forms of checks; a run starts from any sound books, which may hold such rows.
- Finance texts: a sale's number is compared as text, notes, dates and banks that no rule reads are dropped, and money is whole units, so the tolerance is max(1, total / 1,000,000) on integers.
- `FinanceRuns.MarkKeepsRef`: the check the button was drawn for is the one stored when it is pressed; clearing without any account, which the source refuses, is not modelled.
- `FinanceLedger.RunKeepsInv`: runs do not register one operational source under two ids; what that does is stated exactly by the two lemmas about saving an incoming invoice.
- Accesses: permissions, team flag, last use, the legacy create and update, password hashing and changes of temporary passwords; names are compared without case for Latin letters only, and texts are already trimmed.
- `AccessStore.NextAccessId`: does not model 64-bit wrap-around of the highest id plus one.
- Orders: field validation of a submission, the wording of notes beyond the markers they contain, the handlers around the functions, and concurrent handlers; the list of orders is searched in stored order, which is immaterial with distinct ids.
- `OrderRuns.RunCreatesOnce`: relies on ids not being reused, on markers kept until the order is saved and on customers not quoting another order's marker; the first two are shown to be needed.
- Migration: the archive of legacy-only tables, snapshots and reports, schema fingerprints and the setting of sequences outside the transaction; equal fingerprints are taken as equal content, the user and menu lists are given, and merge keys are columns of the target.
- `LegacyMigration.UpsertRows`: merge keys of tables without companies are taken as columns that cannot be null, so that a null key makes the statement fail.
- `Rebind.RebindLoop`: does not model the fixed keyword replacements applied before the scan.
- Owner repair: texts are already trimmed and lower-cased; reading and writing the file is left out.
- `PriceSuggestion.SuggestionIgnoresPermutation`: needs distinct ids; name and date normalisation and locale collation are a given order on keys, and arithmetic is over reals.
- Relay: locks are atomic sections, and the upstream's answers are given.
- HTTP handlers, cryptography, calendars, printing, launch tickets, menus and advisor scoring are not part of this model.
