# Verified model of the ERP's bookkeeping core and its small protocols

This project models, in Dafny, the stateful heart of the ERP: the legacy double-entry books with
their vendor subsidiary ledger, the append-only stock ledger and the point-of-sale path on top of
it, the data reconciliation that moved WooCommerce stock to vendor shops, the product catalog, and
the protocols around them (desktop token refresh, license activation, bounded request bodies,
delivery lifecycle, last-administrator protection, workspace slugs). What is proved are properties
of whole runs and of several functions together.

Conventions:

- A database session is a class whose fields are growing sequences and maps of rows. A service
  function that changes rows is a method of that class. Next to it stands a function that says what
  the request does to a value of the tables, error cases included; the method is proved to do
  exactly that to its fields, and the run-wide theorems are lemmas about the function.
- A raised `ServiceError` is a `Failure`. The request rolls back, so the tables are as before. A
  helper that fails in the middle of a request leaves its partial writes, as in the source; the
  request around it undoes them.
- Beside the properties of runs there is for each request a lemma that says exactly when it goes
  through and which rows it leaves, written out in terms of its inputs.
- Fresh ids and tokens are counters, so they differ from all earlier ones.
- Clocks (`now`), and verdicts of services outside the model (`accepts`, `orderAccepted`,
  `paymentsAccepted`, `hasAddress`, `isReferenced`, `keyringWorks`), are arbitrary parameters.
- Concurrency is a state machine over atomic steps: license activation step by step between its
  transactions, and the desktop session step by step between its lock operations. Everything else is
  a sequence of requests.

Modules:

- money: `Rounding`, `Accounting`, `AccountingRuns`, `AccountingOutcomes`;
- stock: `Inventory`, `PosSale`, `ShopReconciliation`, `ShopReconciliationProofs`;
- catalog and slugs: `Decimal`, `ProductCodes`, `CatalogSkus`, `CatalogSkuProofs`, `CatalogOutcomes`,
  `FreedSkus`, `CatalogImages`, `WorkspaceSlug`, `SlugWords`;
- protocols and state machines: `DesktopSession`, `DesktopSessionLimits`, `DesktopSessionAnswers`,
  `LicenseServer`, `BodyLimit`, `Delivery`, `Administrators`, `AccountOutcomes`;
- helpers: `Sums`, `Text`, `Wrappers`.

Where the code falls short of what one would expect, the project keeps the code's behaviour, gives
an input that shows it, and proves exactly when the expectation is met:

- A locked period does not freeze a date when periods overlap, because one matching period is
  fetched (`OverlappingPeriodsCanBypassTheLock`). The lock is exact for every order of the rows if
  and only if the covering periods agree (`LockIsExactIffPeriodsAgree`).
- A partial payment can be refused as unbalanced although the order owes no more than its total,
  because every part is rounded on its own (`PartialPaymentCanBeRefused`). It is refused if and only
  if what rounding adds, read off residues, exceeds the payment's part of the order's slack
  (`PaymentRefusedIffOverdrawn`).
- A restored login can present a refresh token twice, for two separate reasons: the keyring is read
  before the lock is taken, and a keyring deletion that failed is swallowed
  (`RestoreCanPresentTwice`, `LaterRestoreCanPresentTwice`). A restore is safe if and only if its
  token is unused (`RestoreIsSafeIffUnused`), which holds when it runs alone and deletions work
  (`RestoringAloneIsSafe`).
- A logout can be undone by a refresh or login under way (`LogoutCanBeUndone`). The client stays
  signed out if and only if no thread can still install a session
  (`SignedOutStaysIffNobodyInstalls`).
- A SKU taken off a product is still in the table until the first flush, because the session does not
  flush on queries. One of its variants can have it in the same update if and only if a flush came
  before (`FreedSkuMovesIffFlushed`); uniqueness holds all the same (`SkusStayUnique`).
- The final-administrator guard also refuses updates that would leave an administrator, of an
  inactive administrator or contradicting themselves; these are the only two kinds
  (`GuardIsExactForActiveAdministrators`).

## Model

| member | source | states |
|---|---|---|
| `Rounding.RoundHalfEvenUnique` | erp/packages/core/accounting_services.py:852-858 | within half a unit, ties to even: these two clauses determine Python's `round` of a quotient, whatever the signs |
| `Rounding.RoundExact` | erp/packages/core/accounting_services.py:852-858 | a whole number of minor units is not changed by rounding |
| `Rounding.GainIsRoundingError` | erp/packages/core/accounting_services.py:852-858 | what rounding adds to a quotient can be read off the residue |
| `Rounding.ShareError` | erp/packages/core/accounting_services.py:852-858 | one rounded share is within half a unit of the proportional one |
| `Rounding.AccumulatedShareError` | erp/packages/core/accounting_services.py:852-858 | after k payments of at most the total, an accumulated share is within k/2 of the proportional one |
| `Rounding.PartialPaymentsWithinHalfPerPayment` | erp/packages/core/accounting_services.py:852-858 | k payments adding up to the total leave each accumulated share within k/2 of what is due |
| `Rounding.HalfPerPaymentIsAttained` | erp/packages/core/accounting_services.py:852-858 | the bound k/2 is the best possible: attained for every even k |
| `Accounting.LegacyBooks.ValidateJournalLines` | erp/packages/core/accounting_services.py:420-434 | the one-pass check returns both totals, or refuses a line on both sides, no lines, or unequal totals |
| `Accounting.LegacyBooks.CreateJournalEntry` | erp/packages/core/accounting_services.py:456-562 | appends exactly the payload's entry unless lines, period or authority refuse it; a non-empty source pair already posted returns the existing entry |
| `Accounting.FindSource` | erp/packages/core/accounting_services.py:466-475 | finds the first entry of the company with the source pair, or there is none |
| `Accounting.LegacyBooks.VendorBalanceMinor` | erp/packages/core/accounting_services.py:578-587 | the sum of the vendor's amounts in the company |
| `Accounting.LegacyBooks.AppendVendorLedgerEntry` | erp/packages/core/accounting_services.py:590-616 | appends one row whose stored balance is the vendor's previous balance plus its amount |
| `Accounting.VendorsOfCovers` | erp/packages/core/accounting_services.py:839-846 | grouping lists every vendor of the items exactly once and no other |
| `Accounting.LegacyBooks.GroupByVendor` | erp/packages/core/accounting_services.py:839-846 | each vendor's payable is the sum over its own items; the commission is the sum over all items |
| `Accounting.LegacyBooks.AllocatePayment` | erp/packages/core/accounting_services.py:839-858 | the payment's shares, commission and remainder as the allocation function gives them |
| `Accounting.LegacyBooks.BuildPaymentLines` | erp/packages/core/accounting_services.py:820-826 | the lines of a payment entry, zero parts left out |
| `Accounting.LegacyBooks.AppendVendorShares` | erp/packages/core/accounting_services.py:953-968 | one vendor row per share, in order, balances running on |
| `Accounting.LegacyBooks.PostOrderPaymentEntry` | erp/packages/core/accounting_services.py:798-969 | the whole posting: replay returns the existing entry, refusals change nothing, success adds the entry and the vendor rows |
| `Accounting.LegacyBooks.PostVendorSettlementEntry` | erp/packages/core/accounting_services.py:972-1078 | the whole settlement: replay, refusals, and the entry, vendor row and settlement row of a success |
| `AccountingRuns.CreateEntryAppends` | erp/packages/core/accounting_services.py:420-562 | a created entry balances, has no two-sided line, and is new for its source pair |
| `AccountingRuns.RunKeepsBooks` | erp/packages/core/accounting_services.py:420-616 | in every reachable state entries balance, no line is two-sided, a company and non-empty source pair has at most one entry, and every stored balance is the prefix sum of its own vendor |
| `AccountingRuns.TrialBalanceIsZero` | erp/packages/core/accounting_services.py:431-434 | debits minus credits, regrouped by account, sum to zero in every reachable state |
| `AccountingRuns.RunInControl` | erp/packages/core/accounting_services.py:911-1064 | over every run the company's vendor ledger totals the net credit of its account 2000 |
| `AccountingRuns.VendorBalancesAgreeWithControlAccount` | erp/packages/core/accounting_services.py:578-616 | over every run the vendor balances add up to the net credit on account 2000 |
| `AccountingRuns.ReplayChangesNothing` | erp/packages/core/accounting_services.py:809-817 | a posted payment or settlement repeated after any run, even into a locked period, returns the same entry and changes nothing |
| `AccountingRuns.PayEffect` | erp/packages/core/accounting_services.py:911-969 | a newly posted payment adds exactly one balanced entry and its vendor shares |
| `AccountingRuns.SettleEffect` | erp/packages/core/accounting_services.py:1019-1067 | a newly posted settlement adds exactly one balanced entry and one vendor row, and changes only its own settlement row |
| `AccountingRuns.PostedPaymentConserves` | erp/packages/core/accounting_services.py:857-951 | payables, commission and remainder add up to the amount; every account moves by exactly its part; the vendor ledger grows by exactly the payables |
| `AccountingRuns.SettlementClearsPayable` | erp/packages/core/accounting_services.py:1019-1067 | a settlement lowers its vendor's balance by the payable, pays it from the bank account, and marks only its own row paid in full by its entry |
| `AccountingRuns.PaymentAddsShare` | erp/packages/core/accounting_services.py:953-968 | a posted payment raises each vendor's balance by its rounded share, once |
| `AccountingRuns.GainFromPosting` | erp/packages/core/accounting_services.py:953-968 | from its posting on, over any run, a payment has its entry and the vendor rows written for it come to exactly its rounded share |
| `AccountingRuns.PaysOffOneMore` | erp/packages/core/accounting_services.py:798-969 | the runs that the next row is about can always be continued by any further payment of the order that posts |
| `AccountingRuns.LedgerWithinHalfPerPayment` | erp/packages/core/accounting_services.py:839-858 | k payments of one order that add up to its total, anywhere in a run of payments, settlements, journals and period changes and each at its own time, leave the vendor rows written for them within k/2 of its payable |
| `AccountingRuns.FullPaymentIsExact` | erp/packages/core/accounting_services.py:839-858 | a payment of the total or more allocates every payable and the commission exactly |
| `AccountingRuns.PaymentRefusedIffOverdrawn` | erp/packages/core/accounting_services.py:850-860 | for every payment: the posting request is refused as unbalanced if and only if the payment is new and positive and its parts overdraw it, a condition on residues and on the slack of the order |
| `AccountingRuns.PaymentPostsIff` | erp/packages/core/accounting_services.py:807-951 | a payment posts as a new entry if and only if it is new and positive, not overdrawn, accepted by the authoritative ledger, and its fetched period is open |
| `AccountingRuns.FullPaymentRefusedIffOwedMore` | erp/packages/core/accounting_services.py:857-860 | a new payment of exactly the total is refused if and only if the order owes more than its total |
| `AccountingRuns.PartialPaymentFitsWithMargin` | erp/packages/core/accounting_services.py:857-860 | whatever the residues, slack of half a unit per rounded part keeps a partial payment from being refused |
| `AccountingRuns.PartialPaymentCanBeRefused` | erp/packages/core/accounting_services.py:857-860 | an order that owes exactly its total, half to one vendor and half as commission, refuses a partial payment if and only if the amount is 3 modulo 4 |
| `AccountingRuns.LockIsExactWhenPeriodsAgree` | erp/packages/core/accounting_services.py:437-453 | where the periods covering a date agree, posting is refused as locked if and only if one of them is locked or closed |
| `AccountingRuns.LockIsExactIffPeriodsAgree` | erp/packages/core/accounting_services.py:437-453 | the lock is exact for every order in which the rows can be fetched if and only if the covering periods agree |
| `AccountingRuns.OverlappingPeriodsCanBypassTheLock` | erp/packages/core/accounting_services.py:445-453 | for any books and any unlocked covering row: with that row fetched first the request ends as if there were no periods, whatever locks cover its date |
| `AccountingOutcomes.JournalOutcome` | erp/packages/core/accounting_services.py:456-562 | every answer of a journal request: each refusal if and only if its reason holds, the stored entry with its date, the first entry for a repeated source pair |
| `AccountingOutcomes.PaymentOutcome` | erp/packages/core/accounting_services.py:807-951 | every answer of a payment request, each refusal if and only if its reason holds; a repeated payment gets the first entry |
| `AccountingOutcomes.PaymentEntryIsDated` | erp/packages/core/accounting_services.py:931-951 | a new payment's entry comes last, under the payment's date or today's |
| `AccountingOutcomes.SettlementPostsIff` | erp/packages/core/accounting_services.py:979-1055 | a settlement posts as a new entry if and only if it exists, has a positive payable, is not posted yet, is accepted by the authoritative ledger, and its fetched period is open |
| `AccountingOutcomes.SettlementOutcome` | erp/packages/core/accounting_services.py:979-1067 | every answer of a settlement request, and the entry, vendor row and settlement row of a new one, column by column |
| `Inventory.MovementDelta` | erp/packages/core/inventory_services.py:211-226 | when a request is well-formed, and the sign of its delta by kind |
| `Inventory.StockLedger.CurrentStock` | erp/packages/core/inventory_services.py:191-208 | the filtered sum over exactly the bucket's movements |
| `Inventory.StockLedger.StockLevels` | erp/packages/core/inventory_services.py:334-376 | the one-pass grouping lists exactly the selected buckets that have movements, agrees with the filtered sum on each, and leaves out only zeros |
| `Inventory.StockLedger.RecordStockMovement` | erp/packages/core/inventory_services.py:245-294 | appends exactly the requested movement or, in every error case, changes nothing |
| `Inventory.RecordAppends` | erp/packages/core/inventory_services.py:265-294 | a recorded movement changes its own bucket by its delta, no other, and leaves it non-negative |
| `Inventory.RecordIffAffordable` | erp/packages/core/inventory_services.py:211-294 | a movement is recorded if and only if its place accepts movements and the bucket can bear it; the bucket then changes by exactly the quantity in, the quantity out or the delta |
| `Inventory.MalformedIsRefused` | erp/packages/core/inventory_services.py:211-226 | a request without a change, or mixing quantity and delta, is refused |
| `Inventory.MovableIff` | erp/packages/core/inventory_services.py:253-264 | a place accepts movements if and only if warehouse, product and variant are the company's and active |
| `Inventory.FilterMeaning` | erp/packages/core/inventory_services.py:360-365 | each filter value restricts its own column, an absent or empty one nothing |
| `Inventory.RecordKeepsNonNegative` | erp/packages/core/inventory_services.py:265-275 | recording keeps every prefix of every bucket at zero or above |
| `PosSale.FindOrder` | erp/packages/core/commerce_services.py:380-386 | the first POS order of the company with the key, or there is none |
| `PosSale.AdminSaleWarehouse` | erp/packages/core/commerce_services.py:394-397 | without a vendor the sale draws on the warehouse it names, which has to exist |
| `PosSale.VendorSaleWarehouse` | erp/packages/core/commerce_services.py:387-393 | a vendor's sale draws on the vendor's own shop, opened if there is none, and on no other |
| `PosSale.Till.DeductLines` | erp/packages/core/commerce_services.py:453-468 | the loop deducts line by line, each line checked against what its predecessors left |
| `PosSale.Till.DeductAndPay` | erp/packages/core/commerce_services.py:453-488 | stock and payment part: all lines deducted, or nothing |
| `PosSale.Till.CreatePosSale` | erp/packages/core/commerce_services.py:372-505 | the whole sale: existing order for a repeated key, every refusal, or the deducted stock and the new order |
| `PosSale.DeductTakesDemand` | erp/packages/core/commerce_services.py:453-468 | after a deduction every bucket of the warehouse is down by exactly the lines' total, all others unchanged |
| `PosSale.DeductIffDemandsFit` | erp/packages/core/commerce_services.py:453-468 | the loop gets through exactly when every line accepts movements and, per bucket, the total over all lines is at most the stock |
| `PosSale.OrderOfLinesDoesNotMatter` | erp/packages/core/commerce_services.py:453-468 | permuting the lines changes neither success nor any resulting balance |
| `PosSale.SaleIffDemandsFit` | erp/packages/core/commerce_services.py:372-505 | a new sale succeeds if and only if its warehouse is found and active, a vendor sells only its own products, order and payments are accepted, every line accepts movements and the demands fit; it then takes exactly its lines and adds exactly its order |
| `PosSale.RunKeeps` | erp/packages/core/commerce_services.py:380-505 | over every run of sales, movements and edits no bucket goes negative, keys stay unique, orders are only added |
| `PosSale.ReachableShop` | erp/packages/core/inventory_services.py:245-294 | in every reachable shop every prefix of every bucket is non-negative and POS keys are unique per company |
| `PosSale.RetryDeductsNothing` | erp/packages/core/commerce_services.py:380-386 | a key repeated after any run returns the same order and deducts nothing |
| `ShopReconciliation.SoleVendor` | migrations/versions/202609180029_vendor_shop_shared_stock.py:146-160 | the vendor is found exactly when there is one candidate |
| `ShopReconciliation.Tables.QueryBalances` | migrations/versions/202609180029_vendor_shop_shared_stock.py:126-135 | one row per product and variant moved in the warehouse, with its summed balance |
| `ShopReconciliation.Tables.TransferRow` | migrations/versions/202609180029_vendor_shop_shared_stock.py:136-190 | the loop body for one balance row: skip, open a shop, or write the paired movements and the catalog quantity |
| `ShopReconciliation.Tables.StockTotal` | migrations/versions/202609180029_vendor_shop_shared_stock.py:22-29 | the filtered sum of one bucket |
| `ShopReconciliation.Tables.Upgrade` | migrations/versions/202609180029_vendor_shop_shared_stock.py:122-191 | both loops over all WOO warehouses, as the reconciliation function gives them |
| `ShopReconciliationProofs.TransferHere` | migrations/versions/202609180029_vendor_shop_shared_stock.py:136-190 | a row moves its own balance to the sole vendor's shop, or leaves everything |
| `ShopReconciliationProofs.TransferMarks` | migrations/versions/202609180029_vendor_shop_shared_stock.py:171-180 | a moved balance leaves two movements, each with the reference of the transfer, and is marked as transferred |
| `ShopReconciliationProofs.TransferElsewhere` | migrations/versions/202609180029_vendor_shop_shared_stock.py:136-190 | a row leaves every other product and variant as it was, transfer marks included |
| `ShopReconciliationProofs.ReconcileMoves` | migrations/versions/202609180029_vendor_shop_shared_stock.py:125-191 | exactly the positive WOO balances with one candidate and no earlier transfer move, to the candidate's shop; the catalog quantity becomes the shop's stock; all else stays |
| `ShopReconciliationProofs.ReconcileLeavesOthers` | migrations/versions/202609180029_vendor_shop_shared_stock.py:122-135 | a company without a WOO warehouse is untouched |
| `ShopReconciliationProofs.ReconcileEmptiesAndKeepsNonNegative` | migrations/versions/202609180029_vendor_shop_shared_stock.py:125-191 | moved balances end at zero, and no non-negative bucket becomes negative |
| `ShopReconciliationProofs.ReconcileKeepsTotal` | migrations/versions/202609180029_vendor_shop_shared_stock.py:171-172 | each company keeps its total stock of every product and variant |
| `ShopReconciliationProofs.NothingLeft` | migrations/versions/202609180029_vendor_shop_shared_stock.py:161-170 | afterwards no balance anywhere is left to move |
| `ShopReconciliationProofs.ReconcileIsIdempotent` | migrations/versions/202609180029_vendor_shop_shared_stock.py:161-170 | a second run changes nothing at all |
| `ShopReconciliationProofs.MovedIsMarked` | migrations/versions/202609180029_vendor_shop_shared_stock.py:161-180 | every balance the reconciliation moves ends up marked |
| `ShopReconciliationProofs.MovedOnce` | migrations/versions/202609180029_vendor_shop_shared_stock.py:161-170 | whatever movements are added later, a later run never moves that balance again while the product keeps its owner |
| `Decimal.ParsePadded` | erp/packages/core/catalog_services.py:171-199 | reading a printed sequence number gives it back, padded or not |
| `Decimal.PrintLength` | erp/packages/core/catalog_services.py:199-200 | a number needs more than k digits exactly from 10^k on |
| `ProductCodes.NextNumericSuffix` | erp/packages/core/catalog_services.py:171-177 | the max loop returns a number above every number found, and the next one after the largest |
| `ProductCodes.SuggestedSkuIsNew` | erp/packages/core/catalog_services.py:190-193 | a suggested SKU equals no existing code, whatever mix of codes exists |
| `ProductCodes.SuggestedSkuIsNext` | erp/packages/core/catalog_services.py:171-193 | the suggestion carries one more than the largest number of any code of its form, in at least six digits |
| `ProductCodes.PaddedSkuCounts` | erp/packages/core/catalog_services.py:171-177 | a code counts with its number however it is padded |
| `ProductCodes.Ean13CheckDigit` | erp/packages/core/catalog_services.py:180-187 | the loop returns the digit that completes the body to a valid code, and refuses exactly the bodies that are not twelve digits |
| `ProductCodes.CheckDigitCompletes` | erp/packages/core/catalog_services.py:180-187 | the check digit is the only digit that makes the weighted sum a multiple of 10 (section 7.9 of the GS1 General Specifications), at any length |
| `ProductCodes.SingleDigitErrorIsDetected` | erp/packages/core/catalog_services.py:180-187 | two valid codes never differ in exactly one digit |
| `ProductCodes.TranspositionDetectedUnlessFive` | erp/packages/core/catalog_services.py:180-187 | swapping unequal neighbours stays valid exactly when they differ by 5 |
| `ProductCodes.GenerateProductBarcode` | erp/packages/core/catalog_services.py:196-200 | the composed call gives the suggested barcode or the refusal |
| `ProductCodes.SuggestedBarcodeIsNewAndValid` | erp/packages/core/catalog_services.py:196-200 | a suggested barcode is new and valid; none is suggested exactly when the next number needs more than ten digits |
| `ProductCodes.SuggestedBarcodeIsNext` | erp/packages/core/catalog_services.py:196-200 | the suggestion carries one more than the largest number of any code of its form |
| `WorkspaceSlug.NormalizedIsCanonical` | migrations/versions/202607010012_company_workspace_slug.py:17-19 | every normalized name is non-empty, of letters, digits and single inner dashes |
| `WorkspaceSlug.NormalizeKeepsCanonical` | migrations/versions/202607010012_company_workspace_slug.py:17-19 | normalization is the identity on canonical slugs |
| `SlugWords.NormalizedIsItsWords` | migrations/versions/202607010012_company_workspace_slug.py:17-19 | the slug is the name's words, found by splitting, in small letters with single dashes between them, or "company" when there are none |
| `WorkspaceSlug.CandidatesDiffer` | migrations/versions/202607010012_company_workspace_slug.py:32-34 | the loop never tries a slug twice: decimal suffixes are injective |
| `WorkspaceSlug.Disambiguate` | migrations/versions/202607010012_company_workspace_slug.py:30-34 | the loop ends, with the first free candidate and a suffix of at most the number of used slugs plus 2 |
| `WorkspaceSlug.AssignSlugs` | migrations/versions/202607010012_company_workspace_slug.py:27-39 | every company gets the first free candidate of its base; all slugs are canonical and pairwise distinct |
| `WorkspaceSlug.AssignedAreDistinct` | migrations/versions/202607010012_company_workspace_slug.py:27-39 | any first-free assignment is without repetition |
| `WorkspaceSlug.AssignmentIsUnique` | migrations/versions/202607010012_company_workspace_slug.py:27-39 | the names determine the assignment |
| `CatalogSkus.CatalogTables.WriteRow` | erp/packages/core/catalog_services.py:718-758 | one payload entry: duplicate and uniqueness checks, the write to its row or a new one, and the flush |
| `CatalogSkus.CatalogTables.ReplaceProductVariants` | erp/packages/core/catalog_services.py:703-762 | entry by entry, then the unkept rows dropped; a refusal leaves the entries before it |
| `CatalogSkus.CatalogTables.ValidateVariantSkus` | erp/packages/core/catalog_services.py:599-615 | accepts exactly payloads without a repeated, own or taken SKU |
| `CatalogSkus.CatalogTables.Create` | erp/packages/core/catalog_services.py:886-975 | the creation request as far as it concerns SKUs, rolled back on refusal |
| `CatalogSkus.CatalogTables.Update` | erp/packages/core/catalog_services.py:1010-1156 | the update request as far as it concerns SKUs, with the product's new SKU pending until a flush |
| `CatalogSkus.CatalogTables.PermanentlyDelete` | erp/packages/core/catalog_services.py:1180-1310 | removes an archived, unreferenced product and its variants, nothing else |
| `CatalogSkuProofs.WriteVariantKeeps` | erp/packages/core/catalog_services.py:718-758 | rewriting one variant keeps every SKU unique in both tables, even with a pending product SKU |
| `CatalogSkuProofs.SkusStayUnique` | erp/packages/core/catalog_services.py:119-142 | in every reachable catalog no non-empty SKU is on two rows of a company, across products and variants |
| `CatalogSkuProofs.StepKeeps` | erp/packages/core/catalog_services.py:119-142 | each of create, update, archive and permanent delete keeps that |
| `CatalogSkuProofs.ReplacementLeavesThePayload` | erp/packages/core/catalog_services.py:703-762 | the product's variants are exactly the rows written, each with the SKU of its last entry; other products' variants are untouched |
| `CatalogSkuProofs.SuggestionIsFree` | erp/packages/core/catalog_services.py:896-907 | a suggested SKU always passes the uniqueness check |
| `CatalogOutcomes.WriteVariantsIff` | erp/packages/core/catalog_services.py:717-758 | a variant payload is accepted if and only if every entry's SKU is free: which rows stand in its way depends on what earlier entries have rewritten and flushed |
| `CatalogOutcomes.UpdateIff` | erp/packages/core/catalog_services.py:1018-1144 | an update goes through if and only if its SKU is on no other row, its variant payload is accepted and so is everything else |
| `CatalogOutcomes.UpdateStores` | erp/packages/core/catalog_services.py:1051-1145 | an accepted update has stored the SKU and the archived flag it carries on its product, and changed no other product or foreign variant |
| `CatalogOutcomes.UpdateStoresVariants` | erp/packages/core/catalog_services.py:1124-1145 | the variants it leaves are the rows its payload was written to, each with the SKU of its last entry |
| `CatalogOutcomes.CreateIff` | erp/packages/core/catalog_services.py:896-975 | a creation goes through if and only if its SKU is free and its payload passes the check before anything is written: it is never refused half-way |
| `CatalogOutcomes.CreateStores` | erp/packages/core/catalog_services.py:921-975 | an accepted creation adds one product row with its SKU and variants of it, and changes nothing else |
| `CatalogOutcomes.ArchiveAndDeleteOutcome` | erp/packages/core/catalog_services.py:1159-1310 | archiving sets one flag; deleting an archived, unreferenced product removes it and its variants and nothing else |
| `FreedSkus.FreedSkuMovesIffFlushed` | erp/packages/core/catalog_services.py:717-758 | for every catalog and update that takes a SKU off a product: giving it to one variant of the same request is accepted if and only if the product was flushed before its variants or the variant is not the first; otherwise the SKU counts as taken |
| `FreedSkus.OldSkuRefusedOnlyAtFirst` | erp/packages/core/catalog_services.py:1041-1057 | the smallest case: one renamed product and two new variants, refused in one order and accepted in the other |
| `CatalogImages.ImageTable.ReplaceProductImages` | erp/packages/core/catalog_services.py:765-832 | the reconciliation row by row, with foreign variants and external-id conflicts refused |
| `CatalogImages.ReplacementLeavesThePayload` | erp/packages/core/catalog_services.py:765-832 | visible images are exactly the payload's; a dropped row with an external id survives as pending removal and one without is gone; each status is reported exactly when its condition holds |
| `CatalogImages.ReplacementIff` | erp/packages/core/catalog_services.py:765-824 | a payload is accepted if and only if its variants are the product's and no external id is that of an earlier entry or of a row not rewritten by then |
| `CatalogImages.WrittenIsStable` | erp/packages/core/catalog_services.py:799-823 | taking the same payload entry again does not change the row or its status |
| `CatalogImages.ReapplyingChangesNothing` | erp/packages/core/catalog_services.py:765-832 | reapplying the payload with the resulting ids changes nothing |
| `LicenseServer.Find` | erp/apps/license_server/main.py:140-158 | the first row with the name, the key hash taking precedence, or there is none |
| `LicenseServer.LicenseTable.FindRecord` | erp/apps/license_server/main.py:140-158 | the query as a loop |
| `LicenseServer.LicenseTable.InsertRecord` | erp/apps/license_server/main.py:208-232 | the row is added unless key hash or license id exists |
| `LicenseServer.LicenseTable.RevokeRecord` | erp/apps/license_server/main.py:272-292 | the named row becomes revoked, otherwise as before, and its own new terms are answered |
| `LicenseServer.LicenseTable.RenewRecord` | erp/apps/license_server/main.py:299-339 | the named row becomes active for the given days, and its own new terms are answered |
| `LicenseServer.NewReplyIsHonest` | erp/apps/license_server/main.py:201-245 | each reply names the key's own row; a usable one carries the requester's device |
| `LicenseServer.RunKeepsInv` | erp/apps/license_server/main.py:196-245 | over every interleaving: one record per key and per id, signatures state the record's terms, all replies honest |
| `LicenseServer.RecordsNeverRebind` | erp/apps/license_server/main.py:272-339 | a record's key, id, device, plan and activation time never change |
| `LicenseServer.RacingActivationsAgree` | erp/apps/license_server/main.py:196-245 | all granted replies of racing activations of a key name one license and one device, each usable one its requester's |
| `LicenseServer.RevokedUntilRenewed` | erp/apps/license_server/main.py:204-206 | a revoked license stays revoked through any run without a renew of it |
| `LicenseServer.RevokedKeyIsNotUsable` | erp/apps/license_server/main.py:204-206 | while revoked, no activation of the key is granted usable terms |
| `LicenseServer.RenewReactivates` | erp/apps/license_server/main.py:299-339 | a renew changes exactly status, expiry and grace of exactly the row it names, and signs it anew |
| `LicenseServer.RevokeHitsItsRow` | erp/apps/license_server/main.py:272-292 | a revoke changes exactly the status of exactly the row it names, and signs it anew |
| `LicenseServer.UnknownNameChangesNothing` | erp/apps/license_server/main.py:279-287 | a name that no row has changes nothing |
| `LicenseServer.FirstAnswerOfRow` | erp/apps/license_server/main.py:201-206 | a known key is answered from its row: revoked terms to anybody, usable ones to their device, a refusal to any other |
| `LicenseServer.NewKeyIsInserted` | erp/apps/license_server/main.py:208-234 | an unknown key inserts an active row for the requester's device and 365 days, unless key or id is taken by then |
| `LicenseServer.SecondAnswerOfRow` | erp/apps/license_server/main.py:233-243 | an activation that lost the race is answered from the winner's row, by device alone |
| `LicenseServer.CommittedIsGranted` | erp/apps/license_server/main.py:244-245 | one that won is granted its own row |
| `DesktopSession.SessionFields.ClearMemorySession` | erp/apps/desktop/api_client.py:598-603 | all credentials cleared, generation raised, keyring untouched |
| `DesktopSession.SessionFields.DiscardLocalSession` | erp/apps/desktop/api_client.py:605-611 | memory cleared even if the keyring refuses |
| `DesktopSession.SessionFields.InstallSession` | erp/apps/desktop/api_client.py:482-516 | installed exactly when the keyring step succeeds, otherwise the session is discarded |
| `DesktopSession.SessionFields.RefreshAfterUnauthorized` | erp/apps/desktop/api_client.py:571-586 | run alone: at most one call, only for the failed token; the result is the current token or none |
| `DesktopSession.RunKeepsInv` | erp/apps/desktop/api_client.py:482-611 | the protocol invariant over every interleaving in which restores present unused tokens |
| `DesktopSession.NoTokenIsPresentedTwice` | erp/apps/desktop/api_client.py:518-586 | from any saved login, while each restore presents a token that was neither presented before nor is about to be installed: no refresh token is presented twice, and at most one refresh call is made per failed access token |
| `DesktopSessionLimits.RestoreIsSafeIffUnused` | erp/apps/desktop/api_client.py:518-529 | that condition is exact: a restore meets it if and only if no continuation in which later restores do so presents a token twice |
| `DesktopSessionLimits.RestoringAloneIsSafe` | erp/apps/desktop/api_client.py:518-529 | it is met where each restore has the client to itself until it presents its token, as at launch, and the keyring deletes when a refresh attempt asks it to |
| `DesktopSession.OneCallAtATime` | erp/apps/desktop/api_client.py:518-586 | the refresh lock admits one call at a time, restores included |
| `DesktopSession.ReturnedTokenIsCurrent` | erp/apps/desktop/api_client.py:518-586 | an attempt of any kind returns none or a token that was current while it held the lock |
| `DesktopSession.GenerationGrows` | erp/apps/desktop/api_client.py:511-516 | the generation never falls, and equal generations mean equal credentials |
| `DesktopSessionAnswers.UnauthorizedDecides` | erp/apps/desktop/api_client.py:571-582 | after a 401: a newer token is handed back, else the refresh token is presented, else the attempt ends, discarding a session whose token failed |
| `DesktopSessionAnswers.TimerDecides` | erp/apps/desktop/api_client.py:531-537 | the timer refreshes whenever there is a refresh token |
| `DesktopSessionAnswers.RestoreDecides` | erp/apps/desktop/api_client.py:518-525 | a restore presents the token it loaded |
| `DesktopSessionAnswers.AcceptedIsInstalled` | erp/apps/desktop/api_client.py:482-516 | an accepted call ends with exactly its tokens in the session and the keyring, and the new access token handed back |
| `DesktopSessionAnswers.RefusedIsDiscarded` | erp/apps/desktop/api_client.py:583-586 | a refused call ends with nothing in the session and nothing handed back |
| `DesktopSessionAnswers.LoginIsInstalled` | erp/apps/desktop/api_client.py:482-516 | a login ends with exactly its tokens in the session, remembered as asked |
| `DesktopSessionAnswers.SignOffClears` | erp/apps/desktop/api_client.py:598-611 | a sign-off ends with nothing in the session, the saved login deleted if the keyring works |
| `DesktopSessionLimits.SignedOutStays` | erp/apps/desktop/api_client.py:544-569 | signed out with no thread that can install a session, the client stays signed out until a login or restore |
| `DesktopSessionLimits.SignedOutStaysIffNobodyInstalls` | erp/apps/desktop/api_client.py:482-611 | and it stays signed out over all such runs only then: any thread that can still install does so in some continuation |
| `DesktopSessionLimits.RestoreCanPresentTwice` | erp/apps/desktop/api_client.py:518-529 | a concrete run without any deletion in which a restore beside a refresh presents a token again |
| `DesktopSessionLimits.LaterRestoreCanPresentTwice` | erp/apps/desktop/api_client.py:518-541 | a concrete run with never more than one thread in which a restore after a failed keyring deletion presents a token again |
| `DesktopSessionLimits.LogoutCanBeUndone` | erp/apps/desktop/api_client.py:544-586 | a logout that completes during a refresh from launch is undone in some continuation |
| `Administrators.DirectoryTables.SetUserRoles` | erp/packages/core/admin_services.py:151-165 | the user's links become exactly the given roles, or a role is missing and nothing changes |
| `Administrators.DirectoryTables.AssignAccountState` | erp/packages/core/admin_services.py:483-500 | `is_active` first, then `account_status`, then the password; sessions end when the account is disabled or the password changes |
| `Administrators.DirectoryTables.AssignFields` | erp/packages/core/admin_services.py:469-500 | the same with username and email before |
| `Administrators.DirectoryTables.Update` | erp/packages/core/admin_services.py:411-518 | the update request with its guard and every refusal |
| `Administrators.DirectoryTables.Create` | erp/packages/core/admin_services.py:367-408 | the creation request with every refusal |
| `Administrators.DirectoryTables.Approve` | erp/packages/core/admin_services.py:255-315 | approves only pending accounts, with the vendor role added |
| `Administrators.DirectoryTables.Reject` | erp/packages/core/admin_services.py:318-364 | rejects only pending accounts and ends their sessions |
| `Administrators.UpdateKeepsAdministrator` | erp/packages/core/admin_services.py:430-468 | no accepted update, whatever fields it combines, removes a company's last active administrator |
| `Administrators.AnAdministratorRemains` | erp/packages/core/admin_services.py:430-502 | a company that starts with an active administrator has one after every run |
| `Administrators.FinalAdministratorIsProtected` | docs/authentication_vendor_ledger.md:52-53 | the final active administrator cannot be paused, stopped, disabled or stripped of the role |
| `Administrators.NoneLeftIffTakesLast` | erp/packages/core/admin_services.py:469-502 | writing an update leaves a company without an active administrator exactly when it strips the last one of the role or leaves that account inactive |
| `Administrators.GuardIsNeeded` | erp/packages/core/admin_services.py:445-468 | the guard refuses every update, by role or by account state, that would leave no active administrator |
| `Administrators.GuardIsExactForActiveAdministrators` | erp/packages/core/admin_services.py:445-468 | while an active administrator exists, a refused update would leave none if and only if the user is one and the update does not merely contradict itself about being active |
| `Administrators.GuardAlsoProtectsInactiveAdministrators` | erp/packages/core/admin_services.py:451-468 | an inactive holder of the role can be neither stripped of it nor disabled while one active administrator is left, although that one would remain |
| `Administrators.GuardRefusesContradictoryUpdate` | erp/packages/core/admin_services.py:448-494 | for the last active administrator an update that clears `is_active` and sets `account_status` to active is refused, although the account would end active |
| `Administrators.DisabledAccountHasNoSessions` | erp/packages/core/admin_services.py:483-494 | an update that disables an account ends all its sessions |
| `AccountOutcomes.UpdateIff` | erp/packages/core/admin_services.py:420-468 | an update goes through if and only if username and email are free, the guard lets it pass and its roles are the company's |
| `AccountOutcomes.UpdateStores` | erp/packages/core/admin_services.py:469-502 | an accepted update has stored each field, exactly the given roles, and ended the sessions it has to end; no other user changes |
| `AccountOutcomes.CreateOutcome` | erp/packages/core/admin_services.py:367-400 | when a creation goes through, and the one enabled account it adds with exactly its roles |
| `AccountOutcomes.ApproveOutcome` | erp/packages/core/admin_services.py:255-289 | when an approval goes through, and the active account it leaves with exactly the selected roles and a vendor's own |
| `AccountOutcomes.RejectOutcome` | erp/packages/core/admin_services.py:318-336 | when a rejection goes through, and the stopped account it leaves without sessions |
| `BodyLimit.Call` | erp/apps/api/main.py:74-113 | the loop: passed through, refused by header or size, abandoned on disconnect, still waiting, or forwarded |
| `BodyLimit.Replay.Receive` | erp/apps/api/main.py:108-111 | the next buffered message, then disconnects |
| `BodyLimit.BufferStaysWithinLimit` | erp/apps/api/main.py:93-106 | at every moment the buffer holds exactly the bytes counted and never more than the limit |
| `BodyLimit.AcceptedIffTotalFits` | erp/apps/api/main.py:84-106 | a delivered body is forwarded exactly when header and total length are within the limit, and then as exactly its messages in order |
| `BodyLimit.UnfinishedOutcome` | erp/apps/api/main.py:84-106 | a request whose body never ends is too large, dropped on disconnect, or waited for |
| `BodyLimit.LimitByPath` | erp/apps/api/main.py:73-82 | the larger limit is for exactly the paths ending in the upload route; other protocols pass through |
| `BodyLimit.ChunkingDoesNotMatter` | erp/apps/api/main.py:93-106 | with absent or truthful headers, acceptance depends on the total length only |
| `BodyLimit.ReplayIsFaithful` | erp/apps/api/main.py:108-111 | the replay yields the buffered messages in order and then only disconnects |
| `BodyLimit.AcceptedBodyArrivesIntact` | erp/apps/api/main.py:93-113 | the application reads, byte for byte, the body the client sent, as one complete body |
| `Delivery.DeliveryDesk.CreateAssignment` | erp/packages/core/delivery_services.py:226-294 | assigns a ready order without an assignment, with its first history row, or refuses |
| `Delivery.DeliveryDesk.ReassignAssignment` | erp/packages/core/delivery_services.py:297-343 | changes only the rider and who assigned, unless delivered or cancelled |
| `Delivery.DeliveryDesk.ChangeAssignmentStatus` | erp/packages/core/delivery_services.py:346-426 | an allowed transition by the assignment's own rider with its time stamp and history row, or a refusal |
| `Delivery.TransitionsIff` | erp/packages/core/delivery_services.py:29-36 | whatever is not over can fail, only what is assigned can be cancelled, otherwise one stage forward; each step lowers the rank |
| `Delivery.CreateOutcome` | erp/packages/core/delivery_services.py:226-273 | when an order is assigned, and the fresh assignment and history row |
| `Delivery.ReassignOutcome` | erp/packages/core/delivery_services.py:297-325 | when an assignment is handed over, and that only rider and assigner change |
| `Delivery.ChangeOutcome` | erp/packages/core/delivery_services.py:346-393 | when a status changes, and the stamp, reason and history row it leaves |
| `Delivery.RunKeeps` | erp/packages/core/delivery_services.py:226-394 | in every run an order has at most one assignment, and each history is a chain of allowed transitions from assigned to the current status, with matching stamps |
| `Delivery.ChainIsShort` | erp/packages/core/delivery_services.py:29-36 | a strictly falling rank bounds a history's length |
| `Delivery.DeliveredChain` | erp/packages/core/delivery_services.py:29-36 | delivered means assigned, picked up and out for delivery before, in that order |
| `Delivery.ReachableHistories` | erp/packages/core/delivery_services.py:226-394 | both, in every run |
| `Delivery.TerminalIsFinal` | erp/packages/core/delivery_services.py:29-36 | terminal statuses never change over any run, not even under reassignment, and an assignment keeps its order |

## Left out

- The float `allocation_ratio`: the model uses the exact rational amount / total, so double-precision error in the ratio or the product is not modelled.
- `post_journal`, the authoritative ledger: only its verdict (`accepts`) is modelled, and that it does not touch the legacy tables; its own projection into them (`project_legacy`) is not used by the modelled calls.
- Manual journals on account 2000 are excluded from the control-account property only; all others are arbitrary there, and all journals are arbitrary in the other properties.
- Concurrent requests on the books, the stock, the catalog and the users: no database constraint backs the lookups there, so runs are sequences of requests.
- Accounts are named by company and code, the pair their table keeps unique; cash books, expenses, account and period maintenance are not modelled beyond arbitrary period changes.
- Item payables and commissions are non-negative, journal debits and credits are non-negative, and stock quantities are at least 1, as the request schemas require.
- Warehouse maintenance and trimming and lower-casing of movement types; the order of the rows that `stock_levels` returns.
- `RecordStockMovement`: appends the movement only; the catalog quantity that the source then copies from a vendor-shop warehouse, and the publishing queue it feeds, are not part of this model.
- `reserve_stock` and reservations: outgoing movements do not read them.
- `create_order`, `record_payment` and the shop's catalog synchronisation inside a POS sale are verdicts only; the lines that `order_items` returns are the lines passed in.
- The order relabelling, the audit rows and the downgrade of the stock reconciliation; the reference id is kept as the triple it is printed from. A company's WOO warehouse is assumed not to be a vendor shop, and a new shop's code is assumed not to be taken.
- Product fields other than SKU, barcode and images, and foreign-key refusals when a dropped variant is still referenced; such a refusal would roll the request back. The two kinds of refusal of a creation payload's variants (both 409) are one error.
- Empty-string SKUs are exempt from uniqueness as in the code's own checks; the per-table database constraint on them is not modelled.
- `ImageTable.ReplaceProductImages`: models the sync status and the fields it depends on; which variants belong to the product is a parameter, and creation and display order are not modelled.
- Non-ASCII text: digits, letters and white space are the ASCII ones, so Unicode digits in codes and Unicode lower-casing in names are not modelled; nor is the column length of a slug.
- The HMAC over a license payload (a signature is the terms it states; the company id and name in the first signed payload are not modelled), the validate endpoint, license events, and the admin key check. The row lock of a lookup for update is assumed to make each transaction atomic.
- The network, the real keyring and the server's view of revoked tokens: a refresh call is answered or refused arbitrarily, tokens are fresh, and the best-effort revocation has no local effect.
- `NoTokenIsPresentedTwice`: says nothing about runs in which a restore presents a used token; for each of them the property fails, now or in a continuation.
- `SessionFields.RefreshAfterUnauthorized`: one thread running alone; interleavings are covered by the state machine, which is on values, so its threads are not methods.
- `LicenseTable.InsertRecord`: one transaction; the race between transactions is covered by the state machine on values.
- Role maintenance: the Administrator role is not renamed or deleted during a run; password hashing, profile fields and the vendor's own status are not modelled.
- Delivery addresses, notifications and the finance refresh after a delivery.
- Web pages, the Qt user interface, connectors, configuration, backup and worker code.
