/** What the legacy books keep over every run of payments, settlements and journals. */
module AccountingRuns {
  import opened Wrappers
  import opened Sums
  import opened Rounding
  import opened Accounting

  datatype Op =
    | Pay(company: string, total: int, pay: Payment, items: seq<Item>, now: int, accepts: bool)
    | Settle(id: string, now: int, accepts: bool)
    | Journal(payload: Payload, now: int, accepts: bool)
    | DraftSettlement(id: string, row: Settlement)
    | ChangePeriods(periods: seq<Period>)

  function Outcome(b: Books, op: Op): Result<Posting, Error>
    requires op.Pay? || op.Settle? || op.Journal?
  {
    match op
    case Pay(company, total, pay, items, now, accepts) => PostPayment(b, company, total, pay, items, now, accepts)
    case Settle(id, now, accepts) => PostSettlement(b, id, now, accepts)
    case Journal(payload, now, accepts) => CreateEntry(b, payload, now, accepts)
  }

  /** One request; a raised error rolls back. Periods and draft settlements come from elsewhere. */
  function Step(b: Books, op: Op): Books {
    match op
    case DraftSettlement(id, row) => if id in b.settlements then b else b.(settlements := b.settlements[id := row])
    case ChangePeriods(ps) => b.(periods := ps)
    case _ => var r := Outcome(b, op); if r.Success? then r.value.books else b
  }

  function Run(b: Books, ops: seq<Op>): Books {
    if ops == [] then b else Step(Run(b, ops[..|ops| - 1]), ops[|ops| - 1])
  }

  const NO_BOOKS := Books([], [], map[], [])

  // ----- the invariants -----

  ghost predicate EntryBalanced(e: Entry) {
    && e.lines != []
    && Sum(e.lines, NetDebitOf) == 0
    && forall l :: l in e.lines ==> !OnBothSides(l)
  }

  ghost predicate SameSource(e: Entry, f: Entry) {
    && e.company == f.company
    && Given(e.sourceType) && Given(e.sourceId)
    && e.sourceType == f.sourceType && e.sourceId == f.sourceId
  }

  ghost predicate SourcesUnique(entries: seq<Entry>) {
    forall i, j :: 0 <= i < j < |entries| ==> !SameSource(entries[i], entries[j])
  }

  /** Every stored balance is the sum of the vendor's amounts up to and including its row. */
  ghost predicate BalancesArePrefixSums(ledger: seq<VendorEntry>) {
    forall i :: 0 <= i < |ledger| ==>
      ledger[i].balance == VendorBalance(ledger[..i + 1], ledger[i].company, ledger[i].vendor)
  }

  ghost predicate WellKept(b: Books) {
    && (forall e :: e in b.entries ==> EntryBalanced(e))
    && SourcesUnique(b.entries)
    && BalancesArePrefixSums(b.vendorLedger)
  }

  /** Subsidiary ledger and control account agree for the company. */
  ghost predicate InControl(b: Books, company: string) {
    Sum(b.vendorLedger, AmountIn(company)) == NetCredit(b.entries, Account(company, VENDOR_PAYABLE))
  }

  // ----- journal lines -----

  lemma {:induction false} NetDebitSplits(lines: seq<Line>)
    ensures Sum(lines, NetDebitOf) == Sum(lines, DebitOf) - Sum(lines, CreditOf)
  {
    if lines != [] {
      NetDebitSplits(lines[..|lines| - 1]);
    }
  }

  lemma AllLinesSnoc(entries: seq<Entry>, e: Entry)
    ensures AllLines(entries + [e]) == AllLines(entries) + e.lines
  {
    assert (entries + [e])[..|entries|] == entries;
  }

  lemma NetCreditSnoc(entries: seq<Entry>, e: Entry, a: Account)
    ensures NetCredit(entries + [e], a) == NetCredit(entries, a) - SumAt(e.lines, AccountOf, NetDebitOf, a)
  {
    AllLinesSnoc(entries, e);
    SumAtConcat(AllLines(entries), e.lines, AccountOf, NetDebitOf, a);
  }

  /** A created entry is balanced, one-sided line by line, and new for its source pair; a call
      that finds its source pair already posted changes nothing. */
  lemma CreateEntryAppends(b: Books, p: Payload, now: int, accepts: bool)
    requires CreateEntry(b, p, now, accepts).Success?
    ensures var r := CreateEntry(b, p, now, accepts).value;
      var e := Entry(p.company, p.sourceType, p.sourceId, PostedAt(p.postedAt, now), p.lines);
      && r.entry < |r.books.entries|
      && (if Existing(b, p).Some? then r.books == b
          else r.books == b.(entries := b.entries + [e]) && r.entry == |b.entries|
               && EntryBalanced(e) && forall f :: f in b.entries ==> !SameSource(f, e))
  {
    NetDebitSplits(p.lines);
    var e := Entry(p.company, p.sourceType, p.sourceId, PostedAt(p.postedAt, now), p.lines);
    if Existing(b, p).None? {
      forall f | f in b.entries ensures !SameSource(f, e) {
        if SameSource(f, e) {
          assert HasSource(f, p.company, p.sourceType.value, p.sourceId.value);
        }
      }
    }
  }

  lemma AppendKeepsEntries(entries: seq<Entry>, e: Entry)
    requires forall f :: f in entries ==> EntryBalanced(f)
    requires SourcesUnique(entries)
    requires EntryBalanced(e) && forall f :: f in entries ==> !SameSource(f, e)
    ensures forall f :: f in entries + [e] ==> EntryBalanced(f)
    ensures SourcesUnique(entries + [e])
  {
    forall i, j | 0 <= i < j < |entries + [e]| ensures !SameSource((entries + [e])[i], (entries + [e])[j]) {
      if j == |entries| {
        assert entries[i] in entries;
      }
    }
  }

  // ----- the vendor ledger -----

  lemma AppendKeepsBalances(ledger: seq<VendorEntry>, company: string, vendor: string, amount: int,
                            sourceType: string, sourceId: string)
    requires BalancesArePrefixSums(ledger)
    ensures BalancesArePrefixSums(AppendVendor(ledger, company, vendor, amount, sourceType, sourceId))
  {
    var after := AppendVendor(ledger, company, vendor, amount, sourceType, sourceId);
    var n := |ledger|;
    assert after[..n + 1] == after;
    SumAtSnoc(ledger, after[n], VendorOf, AmountIn(company), vendor);
    forall i | 0 <= i < n
      ensures after[i].balance == VendorBalance(after[..i + 1], after[i].company, after[i].vendor)
    {
      assert after[..i + 1] == ledger[..i + 1];
    }
  }

  lemma {:induction false} AppendSharesKeepsBalances(ledger: seq<VendorEntry>, company: string,
                                                     shares: seq<VendorShare>, paymentId: string)
    requires BalancesArePrefixSums(ledger)
    ensures BalancesArePrefixSums(AppendShares(ledger, company, shares, paymentId))
  {
    if shares != [] {
      var n := |shares| - 1;
      AppendSharesKeepsBalances(ledger, company, shares[..n], paymentId);
      AppendKeepsBalances(AppendShares(ledger, company, shares[..n], paymentId),
                          company, shares[n].vendor, shares[n].amount, "payment", paymentId);
    }
  }

  /** The subsidiary ledger of `other` grows by the shares exactly when it is the payer's company. */
  lemma {:induction false} AppendSharesAdds(ledger: seq<VendorEntry>, company: string, shares: seq<VendorShare>,
                                            paymentId: string, other: string)
    ensures Sum(AppendShares(ledger, company, shares, paymentId), AmountIn(other))
         == Sum(ledger, AmountIn(other)) + if other == company then ShareTotal(shares) else 0
  {
    if shares != [] {
      var n := |shares| - 1;
      AppendSharesAdds(ledger, company, shares[..n], paymentId, other);
      var before := AppendShares(ledger, company, shares[..n], paymentId);
      SumSnoc(before, AppendShares(ledger, company, shares, paymentId)[|before|], AmountIn(other));
    }
  }

  // ----- one step -----

  lemma PayKeepsBooks(b: Books, company: string, total: int, pay: Payment, items: seq<Item>, now: int, accepts: bool)
    requires WellKept(b)
    requires PostPayment(b, company, total, pay, items, now, accepts).Success?
    ensures WellKept(PostPayment(b, company, total, pay, items, now, accepts).value.books)
  {
    if PostsNew(b, company, total, pay, items, now, accepts) {
      var a := Allocate(items, pay.amount, total);
      PayEffect(b, company, total, pay, items, now, accepts);
      AppendKeepsEntries(b.entries, PaymentEntry(company, pay, now, a));
      AppendSharesKeepsBalances(b.vendorLedger, company, a.shares, pay.id);
    }
  }

  lemma SettleKeepsBooks(b: Books, id: string, now: int, accepts: bool)
    requires WellKept(b)
    requires PostSettlement(b, id, now, accepts).Success?
    ensures WellKept(PostSettlement(b, id, now, accepts).value.books)
  {
    if SettlesNew(b, id, now, accepts) {
      var s := b.settlements[id];
      SettleEffect(b, id, now, accepts);
      AppendKeepsEntries(b.entries, SettlementEntry(id, s, now));
      AppendKeepsBalances(b.vendorLedger, s.company, s.vendor, -s.payable, "settlement", id);
    }
  }

  lemma StepKeepsBooks(b: Books, op: Op)
    requires WellKept(b)
    ensures WellKept(Step(b, op))
  {
    match op
    case Pay(company, total, pay, items, now, accepts) =>
      if PostPayment(b, company, total, pay, items, now, accepts).Success? {
        PayKeepsBooks(b, company, total, pay, items, now, accepts);
      }
    case Settle(id, now, accepts) =>
      if PostSettlement(b, id, now, accepts).Success? {
        SettleKeepsBooks(b, id, now, accepts);
      }
    case Journal(p, now, accepts) =>
      if CreateEntry(b, p, now, accepts).Success? {
        CreateEntryAppends(b, p, now, accepts);
        if Existing(b, p).None? {
          AppendKeepsEntries(b.entries, Entry(p.company, p.sourceType, p.sourceId, PostedAt(p.postedAt, now), p.lines));
        }
      }
    case DraftSettlement(_, _) =>
    case ChangePeriods(_) =>
  }

  /** In every reachable state entries balance, no line is on both sides, each non-empty source
      pair of a company has at most one entry, and stored balances are prefix sums, however the
      vendors' rows interleave. */
  lemma {:induction false} RunKeepsBooks(ops: seq<Op>)
    ensures WellKept(Run(NO_BOOKS, ops))
  {
    if ops != [] {
      RunKeepsBooks(ops[..|ops| - 1]);
      StepKeepsBooks(Run(NO_BOOKS, ops[..|ops| - 1]), ops[|ops| - 1]);
    }
  }

  // ----- trial balance -----

  lemma {:induction false} BalancedEntriesSumToZero(entries: seq<Entry>)
    requires forall e :: e in entries ==> EntryBalanced(e)
    ensures Sum(AllLines(entries), NetDebitOf) == 0
  {
    if entries != [] {
      var init, last := entries[..|entries| - 1], entries[|entries| - 1];
      assert forall e :: e in init ==> e in entries;
      BalancedEntriesSumToZero(init);
      SumConcat(AllLines(init), last.lines, NetDebitOf);
      assert last in entries;
    }
  }

  /** Trial balance: in every reachable state debits minus credits, added up account by account
      over any duplicate-free list that covers the accounts in use, come to zero. */
  lemma TrialBalanceIsZero(ops: seq<Op>, accounts: seq<Account>)
    requires Distinct(accounts)
    requires forall l :: l in AllLines(Run(NO_BOOKS, ops).entries) ==> l.account in accounts
    ensures SumGroups(AllLines(Run(NO_BOOKS, ops).entries), AccountOf, NetDebitOf, accounts) == 0
  {
    var lines := AllLines(Run(NO_BOOKS, ops).entries);
    RunKeepsBooks(ops);
    BalancedEntriesSumToZero(Run(NO_BOOKS, ops).entries);
    Regroup(lines, AccountOf, NetDebitOf, accounts);
  }

  // ----- control account -----

  /** Journals entered by hand that leave the company's vendor-payable account alone. */
  ghost predicate LeavesControlAlone(op: Op, company: string) {
    op.Journal? ==> forall l :: l in op.payload.lines ==> l.account != Account(company, VENDOR_PAYABLE)
  }

  /** What a payment adds to the net credit of an account. */
  function PaymentCredit(company: string, amount: nat, a: Allocation, acct: Account): int {
    if acct.company != company then 0
    else if acct.code == PAYMENT_CLEARING then 0 - amount
    else if acct.code == VENDOR_PAYABLE then a.payables
    else if acct.code == COMMISSION_REVENUE then a.commission
    else if acct.code == SALES_REVENUE then a.remainder
    else 0
  }

  lemma LineOnAccount(l: Line, acct: Account)
    ensures SumAt([l], AccountOf, NetDebitOf, acct) == if l.account == acct then l.debit - l.credit else 0
  {
    assert [] + [l] == [l];
    SumAtSnoc([], l, AccountOf, NetDebitOf, acct);
  }

  lemma CreditLineOnAccount(company: string, code: string, amount: nat, acct: Account)
    ensures SumAt(CreditLine(company, code, amount), AccountOf, NetDebitOf, acct)
         == if acct == Account(company, code) then 0 - amount else 0
  {
    LineOnAccount(Line(Account(company, code), 0, amount), acct);
  }

  lemma PaymentLinesByAccount(company: string, amount: nat, a: Allocation, acct: Account)
    requires a.remainder >= 0
    ensures SumAt(PaymentLines(company, amount, a), AccountOf, NetDebitOf, acct) == 0 - PaymentCredit(company, amount, a, acct)
  {
    var clearing := [Line(Account(company, PAYMENT_CLEARING), amount, 0)];
    var payable := CreditLine(company, VENDOR_PAYABLE, a.payables);
    var commission := CreditLine(company, COMMISSION_REVENUE, a.commission);
    var sales := CreditLine(company, SALES_REVENUE, a.remainder);
    SumAtConcat(clearing + payable + commission, sales, AccountOf, NetDebitOf, acct);
    SumAtConcat(clearing + payable, commission, AccountOf, NetDebitOf, acct);
    SumAtConcat(clearing, payable, AccountOf, NetDebitOf, acct);
    LineOnAccount(clearing[0], acct);
    CreditLineOnAccount(company, VENDOR_PAYABLE, a.payables, acct);
    CreditLineOnAccount(company, COMMISSION_REVENUE, a.commission, acct);
    CreditLineOnAccount(company, SALES_REVENUE, a.remainder, acct);
    CodesDiffer();
  }

  lemma CodesDiffer()
    ensures PAYMENT_CLEARING != BANK
    ensures PAYMENT_CLEARING != VENDOR_PAYABLE && BANK != VENDOR_PAYABLE
    ensures COMMISSION_REVENUE != VENDOR_PAYABLE && SALES_REVENUE != VENDOR_PAYABLE
    ensures COMMISSION_REVENUE != PAYMENT_CLEARING && SALES_REVENUE != PAYMENT_CLEARING && SALES_REVENUE != COMMISSION_REVENUE
  {
    assert PAYMENT_CLEARING[0] == '1' && BANK[0] == '1' && VENDOR_PAYABLE[0] == '2';
    assert COMMISSION_REVENUE[0] == '3' && SALES_REVENUE[0] == '4';
    assert PAYMENT_CLEARING[2] != BANK[2];
  }

  function PaymentEntry(company: string, pay: Payment, now: int, a: Allocation): Entry
    requires pay.amount >= 0 && a.remainder >= 0
  {
    Entry(company, Some("payment"), Some(pay.id), PostedAt(pay.paidAt, now), PaymentLines(company, pay.amount, a))
  }

  ghost predicate PostsNew(b: Books, company: string, total: int, pay: Payment, items: seq<Item>, now: int, accepts: bool) {
    FindSource(b.entries, company, "payment", pay.id).None?
    && PostPayment(b, company, total, pay, items, now, accepts).Success?
  }

  function Posted(b: Books, company: string, total: int, pay: Payment, items: seq<Item>, now: int): Books
    requires pay.amount >= 0 && Allocate(items, pay.amount, total).remainder >= 0
  {
    var a := Allocate(items, pay.amount, total);
    b.(entries := b.entries + [PaymentEntry(company, pay, now, a)],
       vendorLedger := AppendShares(b.vendorLedger, company, a.shares, pay.id))
  }

  /** A payment that posts a new entry appends exactly that entry and its vendor shares. */
  lemma PayEffect(b: Books, company: string, total: int, pay: Payment, items: seq<Item>, now: int, accepts: bool)
    requires PostsNew(b, company, total, pay, items, now, accepts)
    ensures var a := Allocate(items, pay.amount, total);
      && pay.amount > 0 && a.remainder >= 0
      && PostPayment(b, company, total, pay, items, now, accepts).value
         == Posting(Posted(b, company, total, pay, items, now), |b.entries|)
      && EntryBalanced(PaymentEntry(company, pay, now, a))
      && forall f :: f in b.entries ==> !SameSource(f, PaymentEntry(company, pay, now, a))
  {
    var a := Allocate(items, pay.amount, total);
    CreateEntryAppends(b, PaymentPayload(company, pay, now, PaymentLines(company, pay.amount, a)), now, accepts);
  }

  lemma SettlementLinesOnControl(s: Settlement, other: string)
    requires s.payable > 0
    ensures SumAt(SettlementLines(s), AccountOf, NetDebitOf, Account(other, VENDOR_PAYABLE))
         == if other == s.company then s.payable else 0
  {
    var acct := Account(other, VENDOR_PAYABLE);
    var lines := SettlementLines(s);
    CodesDiffer();
    assert lines == ([] + [lines[0]]) + [lines[1]];
    SumAtSnoc([], lines[0], AccountOf, NetDebitOf, acct);
    SumAtSnoc([lines[0]], lines[1], AccountOf, NetDebitOf, acct);
    assert [] + [lines[0]] == [lines[0]];
  }

  function SettlementEntry(id: string, s: Settlement, now: int): Entry
    requires s.payable > 0
  {
    Entry(s.company, Some("settlement"), Some(id), PostedAt(s.paidAt, now), SettlementLines(s))
  }

  ghost predicate SettlesNew(b: Books, id: string, now: int, accepts: bool) {
    && PostSettlement(b, id, now, accepts).Success?
    && FindSource(b.entries, b.settlements[id].company, "settlement", id).None?
  }

  function Settled(b: Books, id: string, now: int): Books
    requires id in b.settlements && b.settlements[id].payable > 0
  {
    var s := b.settlements[id];
    b.(entries := b.entries + [SettlementEntry(id, s, now)],
       vendorLedger := AppendVendor(b.vendorLedger, s.company, s.vendor, 0 - s.payable, "settlement", id),
       settlements := b.settlements[id := Paid(s, |b.entries|, now)])
  }

  /** A settlement that posts a new entry appends exactly that entry and one vendor row, and updates
      its own row. */
  lemma SettleEffect(b: Books, id: string, now: int, accepts: bool)
    requires SettlesNew(b, id, now, accepts)
    ensures var s := b.settlements[id];
      && s.payable > 0
      && PostSettlement(b, id, now, accepts).value == Posting(Settled(b, id, now), |b.entries|)
      && EntryBalanced(SettlementEntry(id, s, now))
      && forall f :: f in b.entries ==> !SameSource(f, SettlementEntry(id, s, now))
  {
    CreateEntryAppends(b, SettlementPayload(id, b.settlements[id], now), now, accepts);
  }

  lemma PayKeepsControl(b: Books, company: string, total: int, pay: Payment, items: seq<Item>, now: int,
                        accepts: bool, other: string)
    requires InControl(b, other)
    requires PostPayment(b, company, total, pay, items, now, accepts).Success?
    ensures InControl(PostPayment(b, company, total, pay, items, now, accepts).value.books, other)
  {
    if PostsNew(b, company, total, pay, items, now, accepts) {
      var a := Allocate(items, pay.amount, total);
      PayEffect(b, company, total, pay, items, now, accepts);
      NetCreditSnoc(b.entries, PaymentEntry(company, pay, now, a), Account(other, VENDOR_PAYABLE));
      PaymentLinesByAccount(company, pay.amount, a, Account(other, VENDOR_PAYABLE));
      CodesDiffer();
      AppendSharesAdds(b.vendorLedger, company, a.shares, pay.id, other);
    }
  }

  lemma SettleKeepsControl(b: Books, id: string, now: int, accepts: bool, other: string)
    requires InControl(b, other)
    requires PostSettlement(b, id, now, accepts).Success?
    ensures InControl(PostSettlement(b, id, now, accepts).value.books, other)
  {
    if SettlesNew(b, id, now, accepts) {
      var s := b.settlements[id];
      var after := PostSettlement(b, id, now, accepts).value.books;
      SettleEffect(b, id, now, accepts);
      NetCreditSnoc(b.entries, SettlementEntry(id, s, now), Account(other, VENDOR_PAYABLE));
      SettlementLinesOnControl(s, other);
      SumSnoc(b.vendorLedger, after.vendorLedger[|b.vendorLedger|], AmountIn(other));
    }
  }

  lemma StepKeepsControl(b: Books, op: Op, company: string)
    requires InControl(b, company) && LeavesControlAlone(op, company)
    ensures InControl(Step(b, op), company)
  {
    match op
    case Pay(c, total, pay, items, now, accepts) =>
      if PostPayment(b, c, total, pay, items, now, accepts).Success? {
        PayKeepsControl(b, c, total, pay, items, now, accepts, company);
      }
    case Settle(id, now, accepts) =>
      if PostSettlement(b, id, now, accepts).Success? {
        SettleKeepsControl(b, id, now, accepts, company);
      }
    case Journal(p, now, accepts) =>
      if CreateEntry(b, p, now, accepts).Success? {
        CreateEntryAppends(b, p, now, accepts);
        var acct := Account(company, VENDOR_PAYABLE);
        NetCreditSnoc(b.entries, Entry(p.company, p.sourceType, p.sourceId, PostedAt(p.postedAt, now), p.lines), acct);
        SumAtAbsent(p.lines, AccountOf, NetDebitOf, acct);
      }
    case DraftSettlement(_, _) =>
    case ChangePeriods(_) =>
  }

  lemma {:induction false} RunInControl(ops: seq<Op>, company: string)
    requires forall op :: op in ops ==> LeavesControlAlone(op, company)
    ensures InControl(Run(NO_BOOKS, ops), company)
  {
    if ops != [] {
      var init, last := ops[..|ops| - 1], ops[|ops| - 1];
      assert forall op :: op in init ==> op in ops;
      assert last in ops;
      RunInControl(init, company);
      StepKeepsControl(Run(NO_BOOKS, init), last, company);
    }
  }

  /** Over every run, replays included, the vendor balances of a company add up to the net credit
      on its vendor-payable account. */
  lemma VendorBalancesAgreeWithControlAccount(ops: seq<Op>, company: string, vendors: seq<string>)
    requires forall op :: op in ops ==> LeavesControlAlone(op, company)
    requires Distinct(vendors)
    requires forall e :: e in Run(NO_BOOKS, ops).vendorLedger && e.company == company ==> e.vendor in vendors
    ensures SumGroups(Run(NO_BOOKS, ops).vendorLedger, VendorOf, AmountIn(company), vendors)
         == NetCredit(Run(NO_BOOKS, ops).entries, Account(company, VENDOR_PAYABLE))
  {
    RunInControl(ops, company);
    Regroup(Run(NO_BOOKS, ops).vendorLedger, VendorOf, AmountIn(company), vendors);
  }

  // ----- replays -----

  ghost predicate IsPosting(op: Op) {
    op.Pay? || op.Settle?
  }

  lemma {:induction false} AppendSharesGrows(ledger: seq<VendorEntry>, company: string, shares: seq<VendorShare>, paymentId: string)
    ensures ledger <= AppendShares(ledger, company, shares, paymentId)
  {
    if shares != [] {
      AppendSharesGrows(ledger, company, shares[..|shares| - 1], paymentId);
    }
  }

  /** The ledgers only grow, and a settlement never changes its company. */
  ghost predicate Extends(b: Books, later: Books) {
    && b.entries <= later.entries
    && b.vendorLedger <= later.vendorLedger
    && forall id :: id in b.settlements ==>
         id in later.settlements && later.settlements[id].company == b.settlements[id].company
  }

  lemma PayExtends(b: Books, company: string, total: int, pay: Payment, items: seq<Item>, now: int, accepts: bool)
    requires PostPayment(b, company, total, pay, items, now, accepts).Success?
    ensures Extends(b, PostPayment(b, company, total, pay, items, now, accepts).value.books)
  {
    if PostsNew(b, company, total, pay, items, now, accepts) {
      PayEffect(b, company, total, pay, items, now, accepts);
      AppendSharesGrows(b.vendorLedger, company, Allocate(items, pay.amount, total).shares, pay.id);
    }
  }

  lemma StepExtends(b: Books, op: Op)
    ensures Extends(b, Step(b, op))
  {
    if op.Pay? && Outcome(b, op).Success? {
      PayExtends(b, op.company, op.total, op.pay, op.items, op.now, op.accepts);
    }
  }

  lemma {:induction false} RunExtends(b: Books, ops: seq<Op>)
    ensures Extends(b, Run(b, ops))
  {
    if ops != [] {
      RunExtends(b, ops[..|ops| - 1]);
      StepExtends(Run(b, ops[..|ops| - 1]), ops[|ops| - 1]);
    }
  }

  lemma {:induction false} FindSourceStable(entries: seq<Entry>, more: seq<Entry>, company: string,
                                            sourceType: string, sourceId: string)
    requires entries <= more
    requires FindSource(entries, company, sourceType, sourceId).Some?
    ensures FindSource(more, company, sourceType, sourceId) == FindSource(entries, company, sourceType, sourceId)
  {
    var i := FindSource(entries, company, sourceType, sourceId).value;
    assert more[i] == entries[i] && more[i] in more;
    assert forall j :: 0 <= j < i ==> more[j] == entries[j];
  }

  lemma PostedIsFound(b: Books, op: Op)
    requires IsPosting(op) && Outcome(b, op).Success?
    requires op.Pay? ==> op.pay.id != ""
    requires op.Settle? ==> op.id != ""
    ensures var p := Outcome(b, op).value;
      && (op.Pay? ==> FindSource(p.books.entries, op.company, "payment", op.pay.id) == Some(p.entry))
      && (op.Settle? ==>
            op.id in p.books.settlements
            && FindSource(p.books.entries, p.books.settlements[op.id].company, "settlement", op.id) == Some(p.entry))
  {
    if op.Pay? && FindSource(b.entries, op.company, "payment", op.pay.id).None? {
      LastIsFound(b.entries, Outcome(b, op).value.books.entries, op.company, "payment", op.pay.id);
    }
    if op.Settle? && FindSource(b.entries, b.settlements[op.id].company, "settlement", op.id).None? {
      LastIsFound(b.entries, Outcome(b, op).value.books.entries, b.settlements[op.id].company, "settlement", op.id);
    }
  }

  lemma LastIsFound(entries: seq<Entry>, more: seq<Entry>, company: string, sourceType: string, sourceId: string)
    requires FindSource(entries, company, sourceType, sourceId).None?
    requires |more| == |entries| + 1 && more[..|entries|] == entries
    requires HasSource(more[|entries|], company, sourceType, sourceId)
    ensures FindSource(more, company, sourceType, sourceId) == Some(|entries|)
  {
  }

  /** The same payment or settlement, whatever else the repeated request carries. */
  ghost predicate Repeats(op: Op, again: Op) {
    || (op.Pay? && again.Pay? && again.company == op.company && again.pay.id == op.pay.id && again.pay.amount > 0)
    || (op.Settle? && again.Settle? && again.id == op.id)
  }

  /** Replay safety: once a payment or settlement is posted, posting it again after any run,
      even into a locked period or with other items, returns the same entry and changes nothing. */
  lemma ReplayChangesNothing(b: Books, op: Op, between: seq<Op>, again: Op)
    requires IsPosting(op) && Outcome(b, op).Success? && Repeats(op, again)
    requires op.Pay? ==> op.pay.id != ""
    requires op.Settle? ==> op.id != ""
    ensures var later := Run(Step(b, op), between);
      Outcome(later, again) == Success(Posting(later, Outcome(b, op).value.entry))
  {
    var posted := Step(b, op);
    var later := Run(posted, between);
    PostedIsFound(b, op);
    RunExtends(posted, between);
    if op.Pay? {
      FindSourceStable(posted.entries, later.entries, op.company, "payment", op.pay.id);
    } else {
      FindSourceStable(posted.entries, later.entries, posted.settlements[op.id].company, "settlement", op.id);
    }
  }

  lemma SettlementReducesBalance(ledger: seq<VendorEntry>, company: string, vendor: string, payable: int,
                                 sourceType: string, sourceId: string)
    ensures VendorBalance(AppendVendor(ledger, company, vendor, 0 - payable, sourceType, sourceId), company, vendor)
         == VendorBalance(ledger, company, vendor) - payable
  {
    var after := AppendVendor(ledger, company, vendor, 0 - payable, sourceType, sourceId);
    SumAtSnoc(ledger, after[|ledger|], VendorOf, AmountIn(company), vendor);
  }

  lemma SettlementLeavesBank(entries: seq<Entry>, id: string, s: Settlement, now: int)
    requires s.payable > 0
    ensures NetCredit(entries + [SettlementEntry(id, s, now)], Account(s.company, BANK))
         == NetCredit(entries, Account(s.company, BANK)) + s.payable
  {
    NetCreditSnoc(entries, SettlementEntry(id, s, now), Account(s.company, BANK));
    SettlementLinesOnBank(s);
  }

  /** The row of settlement `id`, once `was`, is paid in full by an entry posted for it. */
  ghost predicate PaidBy(after: Books, id: string, was: Settlement) {
    && id in after.settlements
    && var row := after.settlements[id];
       && row.company == was.company && row.vendor == was.vendor
       && row.status == "paid" && row.paid == row.payable == was.payable && row.paidAt.Some?
       && row.entry.Some? && row.entry.value < |after.entries|
       && HasSource(after.entries[row.entry.value], was.company, "settlement", id)
  }

  /** From `b` to `after` the vendor's balance falls by exactly the payable of settlement `id`, the
      bank account pays it out, and the row is marked paid in full by its entry, and no other row. */
  ghost predicate Clears(b: Books, after: Books, id: string)
    requires id in b.settlements
  {
    var s := b.settlements[id];
    && VendorBalance(after.vendorLedger, s.company, s.vendor) == VendorBalance(b.vendorLedger, s.company, s.vendor) - s.payable
    && NetCredit(after.entries, Account(s.company, BANK)) == NetCredit(b.entries, Account(s.company, BANK)) + s.payable
    && PaidBy(after, id, s)
    && after.settlements - {id} == b.settlements - {id}
  }

  lemma SettledClears(b: Books, id: string, now: int)
    requires id in b.settlements && b.settlements[id].payable > 0
    ensures Clears(b, Settled(b, id, now), id)
  {
    var s := b.settlements[id];
    SettlementReducesBalance(b.vendorLedger, s.company, s.vendor, s.payable, "settlement", id);
    SettlementLeavesBank(b.entries, id, s, now);
  }

  /** Every settlement that posts a new entry clears its payable. */
  lemma SettlementClearsPayable(b: Books, id: string, now: int, accepts: bool)
    requires SettlesNew(b, id, now, accepts)
    ensures Clears(b, PostSettlement(b, id, now, accepts).value.books, id)
  {
    SettleEffect(b, id, now, accepts);
    SettledClears(b, id, now);
  }

  lemma SettlementLinesOnBank(s: Settlement)
    requires s.payable > 0
    ensures SumAt(SettlementLines(s), AccountOf, NetDebitOf, Account(s.company, BANK)) == -s.payable
  {
    var lines, bank := SettlementLines(s), Account(s.company, BANK);
    CodesDiffer();
    assert lines == [lines[0]] + [lines[1]];
    SumAtConcat([lines[0]], [lines[1]], AccountOf, NetDebitOf, bank);
    LineOnAccount(lines[0], bank);
    LineOnAccount(lines[1], bank);
  }

  // ----- locked periods -----

  ghost predicate Covers(p: Period, company: string, at: int) {
    p.company == company && p.startsAt <= at <= p.endsAt
  }

  predicate Locked(p: Period) {
    p.status == "locked" || p.status == "closed"
  }

  lemma {:induction false} PeriodAtIsFirst(periods: seq<Period>, company: string, at: int)
    ensures PeriodAt(periods, company, at).Some? <==> exists p :: p in periods && Covers(p, company, at)
    ensures PeriodAt(periods, company, at).Some? ==>
      PeriodAt(periods, company, at).value in periods && Covers(PeriodAt(periods, company, at).value, company, at)
  {
    if periods != [] {
      PeriodAtIsFirst(periods[1..], company, at);
      assert periods[0] in periods;
      assert forall p :: p in periods <==> p == periods[0] || p in periods[1..];
    }
  }

  ghost predicate PeriodsAgree(periods: seq<Period>, company: string, at: int) {
    forall q, r :: q in periods && r in periods && Covers(q, company, at) && Covers(r, company, at) ==> Locked(q) == Locked(r)
  }

  /** A period that covers the date is locked or closed. */
  ghost predicate LockedAt(periods: seq<Period>, company: string, at: int) {
    exists q :: q in periods && Covers(q, company, at) && Locked(q)
  }

  /** On these period rows the payload is refused as locked exactly when a lock covers its date. */
  ghost predicate LockIsExact(b: Books, periods: seq<Period>, p: Payload, now: int, accepts: bool) {
    CreateEntry(b.(periods := periods), p, now, accepts) == Failure(PeriodLocked)
    <==> LockedAt(periods, p.company, PostedAt(p.postedAt, now))
  }

  /** Where the periods that cover the date agree, the lock is exact. */
  lemma LockIsExactWhenPeriodsAgree(b: Books, p: Payload, now: int, accepts: bool)
    requires CheckedLines(p.lines).Success?
    requires PeriodsAgree(b.periods, p.company, PostedAt(p.postedAt, now))
    ensures LockIsExact(b, b.periods, p, now, accepts)
  {
    PeriodAtIsFirst(b.periods, p.company, PostedAt(p.postedAt, now));
  }

  /** The same rows, row k first. */
  function Fronted(periods: seq<Period>, k: nat): seq<Period>
    requires k < |periods|
  {
    [periods[k]] + periods[..k] + periods[k + 1..]
  }

  lemma FrontedIsReordering(periods: seq<Period>, k: nat)
    requires k < |periods|
    ensures multiset(Fronted(periods, k)) == multiset(periods)
  {
    assert periods == periods[..k] + [periods[k]] + periods[k + 1..];
  }

  lemma SameRows(periods: seq<Period>, reordered: seq<Period>)
    requires multiset(reordered) == multiset(periods)
    ensures forall q :: q in reordered <==> q in periods
  {
    forall q ensures q in reordered <==> q in periods {
      assert q in multiset(reordered) <==> q in multiset(periods);
    }
  }

  /** Only the period that the query happens to fetch decides: with an unlocked covering row fetched
      first, the request ends as if there were no periods at all, whatever locks cover its date. */
  lemma OverlappingPeriodsCanBypassTheLock(b: Books, p: Payload, now: int, accepts: bool, k: nat)
    requires CheckedLines(p.lines).Success? && k < |b.periods|
    requires Covers(b.periods[k], p.company, PostedAt(p.postedAt, now)) && !Locked(b.periods[k])
    ensures multiset(Fronted(b.periods, k)) == multiset(b.periods)
    ensures var bypassed := CreateEntry(b.(periods := Fronted(b.periods, k)), p, now, accepts);
      var free := CreateEntry(b.(periods := []), p, now, accepts);
      && bypassed != Failure(PeriodLocked)
      && (bypassed.Success? <==> free.Success?)
      && (bypassed.Success? ==> bypassed.value.entry == free.value.entry && bypassed.value.books.entries == free.value.books.entries)
  {
    FrontedIsReordering(b.periods, k);
    assert Fronted(b.periods, k)[0] == b.periods[k];
  }

  lemma AgreeingOrdersAreExact(b: Books, p: Payload, now: int, accepts: bool, reordered: seq<Period>)
    requires CheckedLines(p.lines).Success? && multiset(reordered) == multiset(b.periods)
    requires PeriodsAgree(b.periods, p.company, PostedAt(p.postedAt, now))
    ensures LockIsExact(b, reordered, p, now, accepts)
  {
    SameRows(b.periods, reordered);
    LockIsExactWhenPeriodsAgree(b.(periods := reordered), p, now, accepts);
    assert b.(periods := reordered).(periods := reordered) == b.(periods := reordered);
  }

  /** The lock is exact in whatever order the rows are fetched if and only if the periods covering
      the date agree. */
  lemma LockIsExactIffPeriodsAgree(b: Books, p: Payload, now: int, accepts: bool)
    requires CheckedLines(p.lines).Success?
    ensures (forall reordered :: multiset(reordered) == multiset(b.periods) ==> LockIsExact(b, reordered, p, now, accepts))
       <==> PeriodsAgree(b.periods, p.company, PostedAt(p.postedAt, now))
  {
    var at := PostedAt(p.postedAt, now);
    if PeriodsAgree(b.periods, p.company, at) {
      forall reordered | multiset(reordered) == multiset(b.periods) ensures LockIsExact(b, reordered, p, now, accepts) {
        AgreeingOrdersAreExact(b, p, now, accepts, reordered);
      }
    } else {
      var q, r :| q in b.periods && r in b.periods && Covers(q, p.company, at) && Covers(r, p.company, at)
                  && Locked(q) && !Locked(r);
      var k :| 0 <= k < |b.periods| && b.periods[k] == r;
      OverlappingPeriodsCanBypassTheLock(b, p, now, accepts, k);
      SameRows(b.periods, Fronted(b.periods, k));
      assert !LockIsExact(b, Fronted(b.periods, k), p, now, accepts);
    }
  }

  // ----- allocation -----

  /** Conservation: a payment that posts a new entry moves the amount received, account by account:
      the clearing account takes it all, vendor payable, commission and sales share it out without
      loss, no other account moves, and the vendor ledger grows by exactly the vendors' part. */
  lemma PostedPaymentConserves(b: Books, company: string, total: int, pay: Payment, items: seq<Item>, now: int, accepts: bool)
    requires PostsNew(b, company, total, pay, items, now, accepts)
    ensures var a := Allocate(items, pay.amount, total);
      var after := PostPayment(b, company, total, pay, items, now, accepts).value.books;
      && a.payables + a.commission + a.remainder == pay.amount && a.remainder >= 0
      && (forall acct :: NetCredit(after.entries, acct) == NetCredit(b.entries, acct) + PaymentCredit(company, pay.amount, a, acct))
      && Sum(after.vendorLedger, AmountIn(company)) == Sum(b.vendorLedger, AmountIn(company)) + a.payables
  {
    var a := Allocate(items, pay.amount, total);
    PayEffect(b, company, total, pay, items, now, accepts);
    AppendSharesAdds(b.vendorLedger, company, a.shares, pay.id, company);
    var e := PaymentEntry(company, pay, now, a);
    forall acct ensures NetCredit(b.entries + [e], acct) == NetCredit(b.entries, acct) + PaymentCredit(company, pay.amount, a, acct) {
      NetCreditSnoc(b.entries, e, acct);
      PaymentLinesByAccount(company, pay.amount, a, acct);
    }
  }

  /** A vendor's balance after the shares of one payment: plus its rounded share, once. */
  lemma {:induction false} AppendSharesBalance(ledger: seq<VendorEntry>, company: string, vendors: seq<string>,
                                               items: seq<Item>, amount: nat, total: int, paymentId: string, vendor: string)
    requires Distinct(vendors)
    ensures VendorBalance(AppendShares(ledger, company, SharesFor(vendors, items, amount, total), paymentId), company, vendor)
         == VendorBalance(ledger, company, vendor)
            + if vendor in vendors then Share(Due(items, vendor), amount, total) else 0
  {
    if vendors != [] {
      var n := |vendors| - 1;
      var shares := SharesFor(vendors, items, amount, total);
      assert shares[..n] == SharesFor(vendors[..n], items, amount, total);
      assert vendors == vendors[..n] + [vendors[n]];
      AppendSharesBalance(ledger, company, vendors[..n], items, amount, total, paymentId, vendor);
      var before := AppendShares(ledger, company, shares[..n], paymentId);
      var after := AppendShares(ledger, company, shares, paymentId);
      SumAtSnoc(before, after[|before|], VendorOf, AmountIn(company), vendor);
    }
  }

  /** The order has an item of this vendor. */
  ghost predicate SoldBy(items: seq<Item>, vendor: string) {
    exists i :: i in items && i.vendor == vendor
  }

  /** One posted payment gives each vendor of the order its rounded share, once. */
  lemma PaymentAddsShare(b: Books, company: string, total: int, pay: Payment, items: seq<Item>, now: int, accepts: bool, vendor: string)
    requires PostsNew(b, company, total, pay, items, now, accepts) && SoldBy(items, vendor)
    ensures pay.amount > 0
    ensures VendorBalance(PostPayment(b, company, total, pay, items, now, accepts).value.books.vendorLedger, company, vendor)
         == VendorBalance(b.vendorLedger, company, vendor) + Share(Due(items, vendor), pay.amount, total)
  {
    PayEffect(b, company, total, pay, items, now, accepts);
    VendorsOfCovers(items);
    AppendSharesBalance(b.vendorLedger, company, VendorsOf(items), items, pay.amount, total, pay.id, vendor);
  }

  // ----- what a vendor gained by given payments -----

  /** The vendor's rows that were written for one of these payments. */
  function PaidRows(company: string, vendor: string, ids: seq<string>): VendorEntry -> int {
    (e: VendorEntry) =>
      if e.company == company && e.vendor == vendor && e.sourceType == "payment" && e.sourceId in ids then e.amount else 0
  }

  function Gained(b: Books, company: string, vendor: string, ids: seq<string>): int {
    Sum(b.vendorLedger, PaidRows(company, vendor, ids))
  }

  /** Vendor rows of a payment exist only where the journal has its entry. */
  ghost predicate Sourced(b: Books) {
    forall e :: e in b.vendorLedger && e.sourceType == "payment" ==>
      FindSource(b.entries, e.company, "payment", e.sourceId).Some?
  }

  lemma {:induction false} AppendSharesSources(ledger: seq<VendorEntry>, company: string, shares: seq<VendorShare>, paymentId: string)
    ensures forall e :: e in AppendShares(ledger, company, shares, paymentId) ==>
      e in ledger || (e.company == company && e.sourceType == "payment" && e.sourceId == paymentId)
  {
    if shares != [] {
      AppendSharesSources(ledger, company, shares[..|shares| - 1], paymentId);
    }
  }

  /** A row added by a step is a settlement's, or belongs to a payment that the step posted. */
  lemma NewRowsAreSourced(b: Books, op: Op)
    ensures forall e :: e in Step(b, op).vendorLedger && e !in b.vendorLedger && e.sourceType == "payment" ==>
      FindSource(Step(b, op).entries, e.company, "payment", e.sourceId).Some?
  {
    assert "payment"[0] != "settlement"[0];
    if op.Pay? && PostsNew(b, op.company, op.total, op.pay, op.items, op.now, op.accepts) {
      PayEffect(b, op.company, op.total, op.pay, op.items, op.now, op.accepts);
      AppendSharesSources(b.vendorLedger, op.company, Allocate(op.items, op.pay.amount, op.total).shares, op.pay.id);
      LastIsFound(b.entries, Step(b, op).entries, op.company, "payment", op.pay.id);
    } else if op.Settle? && SettlesNew(b, op.id, op.now, op.accepts) {
      SettleEffect(b, op.id, op.now, op.accepts);
    }
  }

  lemma StepKeepsSourced(b: Books, op: Op)
    requires Sourced(b)
    ensures Sourced(Step(b, op))
  {
    var after := Step(b, op);
    StepExtends(b, op);
    NewRowsAreSourced(b, op);
    forall e | e in after.vendorLedger && e.sourceType == "payment"
      ensures FindSource(after.entries, e.company, "payment", e.sourceId).Some?
    {
      if e in b.vendorLedger {
        FindSourceStable(b.entries, after.entries, e.company, "payment", e.sourceId);
      }
    }
  }

  lemma {:induction false} RunKeepsSourced(ops: seq<Op>)
    ensures Sourced(Run(NO_BOOKS, ops))
  {
    if ops != [] {
      RunKeepsSourced(ops[..|ops| - 1]);
      StepKeepsSourced(Run(NO_BOOKS, ops[..|ops| - 1]), ops[|ops| - 1]);
    }
  }

  lemma {:induction false} NoRowsNoGain(ledger: seq<VendorEntry>, company: string, vendor: string, ids: seq<string>)
    requires forall e :: e in ledger && e.company == company && e.sourceType == "payment" ==> e.sourceId !in ids
    ensures Sum(ledger, PaidRows(company, vendor, ids)) == 0
  {
    if ledger != [] {
      assert ledger[|ledger| - 1] in ledger;
      NoRowsNoGain(ledger[..|ledger| - 1], company, vendor, ids);
    }
  }

  /** The shares of one payment add to the gains by that payment, and to no other's. */
  lemma {:induction false} AppendSharesGain(ledger: seq<VendorEntry>, company: string, vendors: seq<string>, items: seq<Item>,
                                            amount: nat, total: int, paymentId: string, other: string, vendor: string, id: string)
    requires Distinct(vendors)
    ensures Sum(AppendShares(ledger, company, SharesFor(vendors, items, amount, total), paymentId), PaidRows(other, vendor, [id]))
         == Sum(ledger, PaidRows(other, vendor, [id]))
            + if (other, id) == (company, paymentId) && vendor in vendors then Share(Due(items, vendor), amount, total) else 0
  {
    if vendors != [] {
      var n := |vendors| - 1;
      var shares := SharesFor(vendors, items, amount, total);
      assert shares[..n] == SharesFor(vendors[..n], items, amount, total);
      assert vendors == vendors[..n] + [vendors[n]];
      AppendSharesGain(ledger, company, vendors[..n], items, amount, total, paymentId, other, vendor, id);
      var before := AppendShares(ledger, company, shares[..n], paymentId);
      var after := AppendShares(ledger, company, shares, paymentId);
      SumSnoc(before, after[|before|], PaidRows(other, vendor, [id]));
    }
  }

  lemma PaymentGain(b: Books, company: string, total: int, pay: Payment, items: seq<Item>, now: int,
                    other: string, vendor: string, id: string)
    requires pay.amount >= 0 && Allocate(items, pay.amount, total).remainder >= 0
    ensures Gained(Posted(b, company, total, pay, items, now), other, vendor, [id])
         == Gained(b, other, vendor, [id])
            + if (other, id) == (company, pay.id) && vendor in VendorsOf(items) then Share(Due(items, vendor), pay.amount, total) else 0
  {
    VendorsOfCovers(items);
    AppendSharesGain(b.vendorLedger, company, VendorsOf(items), items, pay.amount, total, pay.id, other, vendor, id);
  }

  /** Once a payment is posted, no request of any kind changes what a vendor gained by it. */
  lemma StepKeepsGain(b: Books, op: Op, company: string, vendor: string, id: string)
    requires FindSource(b.entries, company, "payment", id).Some?
    ensures Gained(Step(b, op), company, vendor, [id]) == Gained(b, company, vendor, [id])
    ensures FindSource(Step(b, op).entries, company, "payment", id).Some?
  {
    StepExtends(b, op);
    FindSourceStable(b.entries, Step(b, op).entries, company, "payment", id);
    if op.Pay? && PostsNew(b, op.company, op.total, op.pay, op.items, op.now, op.accepts) {
      PayEffect(b, op.company, op.total, op.pay, op.items, op.now, op.accepts);
      PaymentGain(b, op.company, op.total, op.pay, op.items, op.now, company, vendor, id);
    } else if op.Settle? && SettlesNew(b, op.id, op.now, op.accepts) {
      assert "payment"[0] != "settlement"[0];
      SettleEffect(b, op.id, op.now, op.accepts);
      SumSnoc(b.vendorLedger, Step(b, op).vendorLedger[|b.vendorLedger|], PaidRows(company, vendor, [id]));
    }
  }

  // ----- partial payments in the course of a run -----

  /** The i-th request of the run posts this payment of the order as a new entry. */
  ghost predicate PaysAt(ops: seq<Op>, i: nat, company: string, total: int, items: seq<Item>, pay: Payment) {
    && i < |ops| && ops[i].Pay?
    && ops[i].company == company && ops[i].total == total && ops[i].items == items && ops[i].pay == pay
    && PostsNew(Run(NO_BOOKS, ops[..i]), company, total, pay, items, ops[i].now, ops[i].accepts)
  }

  /** The payments of one order, its items and total unchanged, post one after another at these
      places of the run; anything else may happen before, between and after them. */
  ghost predicate PaysOff(ops: seq<Op>, places: seq<nat>, company: string, total: int, items: seq<Item>, pays: seq<Payment>) {
    && |places| == |pays|
    && (forall i, j :: 0 <= i < j < |places| ==> places[i] < places[j])
    && forall i :: 0 <= i < |pays| ==> PaysAt(ops, places[i], company, total, items, pays[i])
  }

  lemma EntryIsFound(b: Books, company: string, total: int, pay: Payment, items: seq<Item>, now: int)
    requires FindSource(b.entries, company, "payment", pay.id).None?
    requires pay.amount >= 0 && Allocate(items, pay.amount, total).remainder >= 0
    ensures FindSource(Posted(b, company, total, pay, items, now).entries, company, "payment", pay.id).Some?
  {
    var e := PaymentEntry(company, pay, now, Allocate(items, pay.amount, total));
    assert HasSource(e, company, "payment", pay.id);
    LastIsFound(b.entries, b.entries + [e], company, "payment", pay.id);
  }

  lemma NoGainYet(b: Books, company: string, id: string, vendor: string)
    requires Sourced(b) && FindSource(b.entries, company, "payment", id).None?
    ensures Gained(b, company, vendor, [id]) == 0
  {
    NoRowsNoGain(b.vendorLedger, company, vendor, [id]);
  }

  /** Posting a payment gives it an entry and the vendor exactly its rounded share. */
  lemma GainWhenPosted(b: Books, company: string, total: int, pay: Payment, items: seq<Item>, now: int, vendor: string)
    requires Sourced(b) && FindSource(b.entries, company, "payment", pay.id).None? && vendor in VendorsOf(items)
    requires pay.amount >= 0 && Allocate(items, pay.amount, total).remainder >= 0
    ensures Accounts(Posted(b, company, total, pay, items, now), company, vendor, pay.id, Share(Due(items, vendor), pay.amount, total))
  {
    NoGainYet(b, company, pay.id, vendor);
    PaymentGain(b, company, total, pay, items, now, company, vendor, pay.id);
    EntryIsFound(b, company, total, pay, items, now);
  }

  /** The payment has an entry and accounts for exactly this gain. */
  ghost predicate Accounts(b: Books, company: string, vendor: string, id: string, gain: int) {
    FindSource(b.entries, company, "payment", id).Some? && Gained(b, company, vendor, [id]) == gain
  }

  lemma RunOneMore(ops: seq<Op>, n: nat)
    requires n < |ops|
    ensures Run(NO_BOOKS, ops[..n + 1]) == Step(Run(NO_BOOKS, ops[..n]), ops[n])
  {
    assert ops[..n + 1][..n] == ops[..n];
  }

  lemma {:induction false} GainStays(ops: seq<Op>, m: nat, n: nat, company: string, vendor: string, id: string, gain: int)
    requires m <= n <= |ops| && Accounts(Run(NO_BOOKS, ops[..m]), company, vendor, id, gain)
    ensures Accounts(Run(NO_BOOKS, ops[..n]), company, vendor, id, gain)
  {
    if m < n {
      GainStays(ops, m, n - 1, company, vendor, id, gain);
      RunOneMore(ops, n - 1);
      StepKeepsGain(Run(NO_BOOKS, ops[..n - 1]), ops[n - 1], company, vendor, id);
    }
  }

  /** From its posting on, a payment has an entry and accounts for exactly its rounded share. */
  lemma GainFromPosting(ops: seq<Op>, i: nat, n: nat, company: string, total: int, items: seq<Item>, pay: Payment, vendor: string)
    requires PaysAt(ops, i, company, total, items, pay) && i < n <= |ops| && SoldBy(items, vendor)
    ensures Accounts(Run(NO_BOOKS, ops[..n]), company, vendor, pay.id, Share(Due(items, vendor), pay.amount, total))
  {
    VendorsOfCovers(items);
    var before := Run(NO_BOOKS, ops[..i]);
    RunOneMore(ops, i);
    RunKeepsSourced(ops[..i]);
    PayEffect(before, company, total, pay, items, ops[i].now, ops[i].accepts);
    GainWhenPosted(before, company, total, pay, items, ops[i].now, vendor);
    GainStays(ops, i + 1, n, company, vendor, pay.id, Share(Due(items, vendor), pay.amount, total));
  }

  function Ids(pays: seq<Payment>): (r: seq<string>)
    ensures |r| == |pays|
    ensures forall i :: 0 <= i < |r| ==> r[i] == pays[i].id
  {
    seq(|pays|, i requires 0 <= i < |pays| => pays[i].id)
  }

  function Amounts(pays: seq<Payment>): (r: seq<int>)
    ensures |r| == |pays|
    ensures forall i :: 0 <= i < |r| ==> r[i] == pays[i].amount
  {
    seq(|pays|, i requires 0 <= i < |pays| => pays[i].amount)
  }

  lemma PostedIdsDiffer(ops: seq<Op>, places: seq<nat>, company: string, total: int, items: seq<Item>, pays: seq<Payment>, vendor: string)
    requires PaysOff(ops, places, company, total, items, pays) && SoldBy(items, vendor)
    ensures Distinct(Ids(pays))
  {
    forall i, j | 0 <= i < j < |pays| ensures pays[i].id != pays[j].id {
      GainFromPosting(ops, places[i], places[j], company, total, items, pays[i], vendor);
      assert PaysAt(ops, places[j], company, total, items, pays[j]);
    }
  }

  lemma {:induction false} GainsAddUp(ledger: seq<VendorEntry>, company: string, vendor: string, ids: seq<string>, id: string)
    requires id !in ids
    ensures Sum(ledger, PaidRows(company, vendor, ids + [id]))
         == Sum(ledger, PaidRows(company, vendor, ids)) + Sum(ledger, PaidRows(company, vendor, [id]))
  {
    if ledger != [] {
      GainsAddUp(ledger[..|ledger| - 1], company, vendor, ids, id);
    }
  }

  /** The gains by the payments are their accumulated rounded shares. */
  lemma {:induction false} GainsAccumulate(b: Books, company: string, vendor: string, pays: seq<Payment>, due: int, total: int)
    requires Distinct(Ids(pays))
    requires forall i :: 0 <= i < |pays| ==> Gained(b, company, vendor, [pays[i].id]) == Share(due, pays[i].amount, total)
    ensures Gained(b, company, vendor, Ids(pays)) == Accumulated(due, Amounts(pays), total)
  {
    if pays == [] {
      NoRowsNoGain(b.vendorLedger, company, vendor, []);
    } else {
      var n := |pays| - 1;
      var init, last := pays[..n], pays[n];
      assert Ids(pays) == Ids(init) + [last.id] && Amounts(pays)[..n] == Amounts(init);
      forall i, j | 0 <= i < j < n ensures Ids(init)[i] != Ids(init)[j] {
        assert Ids(init)[i] == Ids(pays)[i] && Ids(init)[j] == Ids(pays)[j];
      }
      GainsAccumulate(b, company, vendor, init, due, total);
      assert last.id !in Ids(init) by {
        assert forall i :: 0 <= i < n ==> Ids(init)[i] == Ids(pays)[i];
      }
      GainsAddUp(b.vendorLedger, company, vendor, Ids(init), last.id);
    }
  }

  lemma PaysAtLonger(ops: seq<Op>, op: Op, i: nat, company: string, total: int, items: seq<Item>, pay: Payment)
    requires PaysAt(ops, i, company, total, items, pay)
    ensures PaysAt(ops + [op], i, company, total, items, pay)
  {
    assert (ops + [op])[..i] == ops[..i];
  }

  /** Such runs can always go on: a payment of the order that posts as a new entry after the run is
      one more of its payments. */
  lemma PaysOffOneMore(ops: seq<Op>, places: seq<nat>, company: string, total: int, items: seq<Item>, pays: seq<Payment>,
                       pay: Payment, now: int, accepts: bool)
    requires PaysOff(ops, places, company, total, items, pays)
    requires PostsNew(Run(NO_BOOKS, ops), company, total, pay, items, now, accepts)
    ensures PaysOff(ops + [Pay(company, total, pay, items, now, accepts)], places + [|ops|], company, total, items, pays + [pay])
  {
    var op := Pay(company, total, pay, items, now, accepts);
    forall i | 0 <= i < |pays| {
      PaysAtLonger(ops, op, places[i], company, total, items, pays[i]);
    }
    PaysAtEnd(ops, op);
    PlacesOneMore(ops + [op], places, |ops|, company, total, items, pays, pay);
  }

  lemma PaysAtEnd(ops: seq<Op>, op: Op)
    requires op.Pay? && PostsNew(Run(NO_BOOKS, ops), op.company, op.total, op.pay, op.items, op.now, op.accepts)
    ensures PaysAt(ops + [op], |ops|, op.company, op.total, op.items, op.pay)
  {
    assert (ops + [op])[..|ops|] == ops;
  }

  lemma PlacesOneMore(ops: seq<Op>, places: seq<nat>, place: nat, company: string, total: int, items: seq<Item>,
                      pays: seq<Payment>, pay: Payment)
    requires |places| == |pays| && (forall i :: 0 <= i < |places| ==> places[i] < place)
    requires forall i, j :: 0 <= i < j < |places| ==> places[i] < places[j]
    requires forall i :: 0 <= i < |pays| ==> PaysAt(ops, places[i], company, total, items, pays[i])
    requires PaysAt(ops, place, company, total, items, pay)
    ensures PaysOff(ops, places + [place], company, total, items, pays + [pay])
  {
  }

  /** k partial payments that add up to the order total, in the course of any run of payments,
      settlements, journals and period changes, leave the vendor's ledger rows written for them
      within k / 2 minor units of what the order owes that vendor. */
  lemma LedgerWithinHalfPerPayment(ops: seq<Op>, places: seq<nat>, company: string, total: int, pays: seq<Payment>,
                                   items: seq<Item>, vendor: string)
    requires PaysOff(ops, places, company, total, items, pays)
    requires SoldBy(items, vendor)
    requires total >= 1 && Total(Amounts(pays)) == total
    ensures -|pays| <= 2 * (Gained(Run(NO_BOOKS, ops), company, vendor, Ids(pays)) - Due(items, vendor)) <= |pays|
  {
    var after := Run(NO_BOOKS, ops);
    assert ops[..|ops|] == ops;
    forall i | 0 <= i < |pays|
      ensures pays[i].amount > 0
      ensures Gained(after, company, vendor, [pays[i].id]) == Share(Due(items, vendor), pays[i].amount, total)
    {
      assert PaysAt(ops, places[i], company, total, items, pays[i]);
      GainFromPosting(ops, places[i], |ops|, company, total, items, pays[i], vendor);
    }
    PostedIdsDiffer(ops, places, company, total, items, pays, vendor);
    GainsAccumulate(after, company, vendor, pays, Due(items, vendor), total);
    PartialPaymentsWithinHalfPerPayment(Due(items, vendor), Amounts(pays), total);
  }

  /** Unrounded, what an order owes its vendors. */
  function TotalDue(vendors: seq<string>, items: seq<Item>): int {
    if vendors == [] then 0
    else TotalDue(vendors[..|vendors| - 1], items) + Due(items, vendors[|vendors| - 1])
  }

  /** What the order owes in all: every vendor in full, and the commission. */
  function Owed(items: seq<Item>): int {
    TotalDue(VendorsOf(items), items) + CommissionDue(items)
  }

  lemma {:induction false} FullShares(vendors: seq<string>, items: seq<Item>, amount: nat, total: int)
    requires amount > 0 && amount >= total
    ensures ShareTotal(SharesFor(vendors, items, amount, total)) == TotalDue(vendors, items)
    ensures forall i :: 0 <= i < |vendors| ==>
      SharesFor(vendors, items, amount, total)[i] == VendorShare(vendors[i], Due(items, vendors[i]))
  {
    if vendors != [] {
      var n := |vendors| - 1;
      FullShares(vendors[..n], items, amount, total);
      var shares := SharesFor(vendors, items, amount, total);
      assert shares[..n] == SharesFor(vendors[..n], items, amount, total);
    }
  }

  /** A payment of the order total or more allocates every payable and the commission exactly. */
  lemma FullPaymentIsExact(items: seq<Item>, amount: nat, total: int)
    requires amount > 0 && amount >= total
    ensures var a := Allocate(items, amount, total);
      && |a.shares| == |VendorsOf(items)|
      && (forall i :: 0 <= i < |a.shares| ==>
            a.shares[i] == VendorShare(VendorsOf(items)[i], Due(items, VendorsOf(items)[i])))
      && a.commission == CommissionDue(items)
      && a.remainder == amount - Owed(items)
  {
    FullShares(VendorsOf(items), items, amount, total);
  }

  // ----- when an allocation cannot be balanced -----

  /** What rounding adds over all vendors, in units of 1 / total. */
  function VendorGains(vendors: seq<string>, items: seq<Item>, amount: nat, total: nat): int
    requires total > 0
  {
    if vendors == [] then 0
    else
      var n := |vendors| - 1;
      VendorGains(vendors[..n], items, amount, total) + Gain(Due(items, vendors[n]) * amount, total)
  }

  /** What rounding adds to all parts of the payment. */
  function Gains(items: seq<Item>, amount: nat, total: nat): int
    requires total > 0
  {
    VendorGains(VendorsOf(items), items, amount, total) + Gain(CommissionDue(items) * amount, total)
  }

  /** What the parts come to beyond the payment: a partial payment brings its share of the order's
      slack, which rounding may use up; any other payment has to cover all that is owed. */
  predicate Overdraws(items: seq<Item>, amount: nat, total: int) {
    if amount < total then amount * (total - Owed(items)) < Gains(items, amount, total) else Owed(items) > amount
  }

  lemma {:induction false} SharesWithGains(vendors: seq<string>, items: seq<Item>, amount: nat, total: nat)
    requires 0 < amount < total
    ensures total * ShareTotal(SharesFor(vendors, items, amount, total))
         == TotalDue(vendors, items) * amount + VendorGains(vendors, items, amount, total)
  {
    if vendors != [] {
      var n := |vendors| - 1;
      var shares, due := SharesFor(vendors, items, amount, total), Due(items, vendors[n]);
      assert shares[..n] == SharesFor(vendors[..n], items, amount, total);
      SharesWithGains(vendors[..n], items, amount, total);
      GainIsRoundingError(due * amount, total);
      Distribute(total, ShareTotal(shares[..n]), shares[n].amount);
      DistributeLeft(TotalDue(vendors[..n], items), due, amount);
    }
  }

  lemma DistributeLeft(x: int, y: int, z: int)
    ensures (x + y) * z == x * z + y * z
  {
  }

  /** The sign of what is left over, decided by residues and the slack. */
  lemma SignOfRemainder(amount: int, total: int, payables: int, commission: int, due: int, commissionDue: int, gains: int, gain: int)
    requires total > 0
    requires total * payables == due * amount + gains
    requires total * commission == commissionDue * amount + gain
    ensures amount - payables - commission < 0 <==> amount * (total - (due + commissionDue)) < gains + gain
  {
    var rest := amount - payables - commission;
    TakeAway(total, amount, payables, commission);
    TakeAway(amount, total, due, commissionDue);
    SameProduct(total, amount);
    SameProduct(due, amount);
    SameProduct(commissionDue, amount);
    assert total * rest == amount * (total - (due + commissionDue)) - gains - gain;
    SignOfFactor(rest, total);
  }

  lemma SignOfFactor(x: int, d: int)
    requires d > 0
    ensures d * x < 0 <==> x < 0
  {
    if x < 0 {
      ScaleMonotone(-1, x, d);
    } else {
      ScaleMonotone(x, 0, d);
    }
  }

  /** For every payment: nothing is left over, and more, exactly when the parts overdraw it. */
  lemma RemainderIsNegativeIffOverdrawn(items: seq<Item>, amount: nat, total: int)
    requires amount > 0
    ensures Allocate(items, amount, total).remainder < 0 <==> Overdraws(items, amount, total)
  {
    if amount < total {
      var vendors, a := VendorsOf(items), Allocate(items, amount, total);
      SharesWithGains(vendors, items, amount, total);
      GainIsRoundingError(CommissionDue(items) * amount, total);
      SignOfRemainder(amount, total, a.payables, a.commission, TotalDue(vendors, items), CommissionDue(items),
                      VendorGains(vendors, items, amount, total), Gain(CommissionDue(items) * amount, total));
    } else {
      FullPaymentIsExact(items, amount, total);
    }
  }

  /** The posting request is refused as unbalanced exactly for a new positive payment that its parts
      overdraw. */
  lemma PaymentRefusedIffOverdrawn(b: Books, company: string, total: int, pay: Payment, items: seq<Item>, now: int, accepts: bool)
    ensures PostPayment(b, company, total, pay, items, now, accepts) == Failure(AllocationUnbalanced)
       <==> pay.amount > 0 && FindSource(b.entries, company, "payment", pay.id).None? && Overdraws(items, pay.amount, total)
  {
    if pay.amount > 0 {
      RemainderIsNegativeIffOverdrawn(items, pay.amount, total);
    }
  }

  lemma CreditLineSums(company: string, code: string, amount: nat)
    ensures Sum(CreditLine(company, code, amount), DebitOf) == 0
    ensures Sum(CreditLine(company, code, amount), CreditOf) == amount
    ensures forall l :: l in CreditLine(company, code, amount) ==> !OnBothSides(l)
  {
    if amount > 0 {
      SumSnoc([], Line(Account(company, code), 0, amount), DebitOf);
      SumSnoc([], Line(Account(company, code), 0, amount), CreditOf);
      assert [] + [Line(Account(company, code), 0, amount)] == CreditLine(company, code, amount);
    }
  }

  lemma PaymentLinesPass(company: string, amount: nat, a: Allocation)
    requires a.remainder >= 0 && a.payables + a.commission + a.remainder == amount
    ensures CheckedLines(PaymentLines(company, amount, a)).Success?
  {
    var clearing := Line(Account(company, PAYMENT_CLEARING), amount, 0);
    var payable := CreditLine(company, VENDOR_PAYABLE, a.payables);
    var commission := CreditLine(company, COMMISSION_REVENUE, a.commission);
    var sales := CreditLine(company, SALES_REVENUE, a.remainder);
    CreditLineSums(company, VENDOR_PAYABLE, a.payables);
    CreditLineSums(company, COMMISSION_REVENUE, a.commission);
    CreditLineSums(company, SALES_REVENUE, a.remainder);
    ConcatSums([clearing] + payable + commission, sales);
    ConcatSums([clearing] + payable, commission);
    ConcatSums([clearing], payable);
    assert Sum([clearing], DebitOf) == amount && Sum([clearing], CreditOf) == 0 by {
      assert [clearing][..0] == [];
    }
  }

  lemma ConcatSums(a: seq<Line>, b: seq<Line>)
    ensures Sum(a + b, DebitOf) == Sum(a, DebitOf) + Sum(b, DebitOf)
    ensures Sum(a + b, CreditOf) == Sum(a, CreditOf) + Sum(b, CreditOf)
  {
    SumConcat(a, b, DebitOf);
    SumConcat(a, b, CreditOf);
  }

  /** A payment posts as a new entry if and only if it is new and positive, its parts do not overdraw
      it, the authoritative ledger accepts it, and the fetched period is open: its own lines are
      never the reason for a refusal. */
  lemma PaymentPostsIff(b: Books, company: string, total: int, pay: Payment, items: seq<Item>, now: int, accepts: bool)
    ensures PostsNew(b, company, total, pay, items, now, accepts)
       <==> && pay.amount > 0 && FindSource(b.entries, company, "payment", pay.id).None?
            && !Overdraws(items, pay.amount, total) && accepts
            && PeriodOpen(b.periods, company, if pay.paidAt.Some? then pay.paidAt.value else now)
  {
    if pay.amount > 0 {
      var a := Allocate(items, pay.amount, total);
      RemainderIsNegativeIffOverdrawn(items, pay.amount, total);
      if a.remainder >= 0 {
        PaymentLinesPass(company, pay.amount, a);
      }
    }
  }

  /** A new payment of exactly the order total is refused as unbalanced if and only if the order
      owes more than its total. */
  lemma FullPaymentRefusedIffOwedMore(b: Books, company: string, pay: Payment, items: seq<Item>, now: int, accepts: bool)
    requires pay.amount > 0 && FindSource(b.entries, company, "payment", pay.id).None?
    ensures PostPayment(b, company, pay.amount, pay, items, now, accepts) == Failure(AllocationUnbalanced)
       <==> Owed(items) > pay.amount
  {
    PaymentRefusedIffOverdrawn(b, company, pay.amount, pay, items, now, accepts);
  }

  // ----- a margin that is always enough -----

  lemma {:induction false} VendorGainsAreSmall(vendors: seq<string>, items: seq<Item>, amount: nat, total: nat)
    requires total > 0
    ensures 2 * VendorGains(vendors, items, amount, total) <= |vendors| * total
  {
    if vendors != [] {
      VendorGainsAreSmall(vendors[..|vendors| - 1], items, amount, total);
      Successor(|vendors| - 1, total);
    }
  }

  /** The share of the slack between the order total and what is owed that a payment brings is at
      least half a unit per rounded part: n vendors and the commission. */
  ghost predicate HasMargin(amount: int, total: int, owed: int, n: int) {
    2 * (amount * (total - owed)) >= (n + 1) * total
  }

  /** With that margin a partial payment is not refused as unbalanced, whatever the residues. */
  lemma PartialPaymentFitsWithMargin(b: Books, company: string, total: int, pay: Payment, items: seq<Item>, now: int, accepts: bool)
    requires 0 < pay.amount < total
    requires HasMargin(pay.amount, total, Owed(items), |VendorsOf(items)|)
    ensures PostPayment(b, company, total, pay, items, now, accepts) != Failure(AllocationUnbalanced)
  {
    VendorGainsAreSmall(VendorsOf(items), items, pay.amount, total);
    Successor(|VendorsOf(items)|, total);
    PaymentRefusedIffOverdrawn(b, company, total, pay, items, now, accepts);
  }

  lemma TakeAway(x: int, a: int, b: int, c: int)
    ensures x * (a - b - c) == x * a - x * b - x * c
    ensures x * (a - (b + c)) == x * a - x * b - x * c
  {
    Distribute(x, a - b, -c);
    Distribute(x, a, -b);
    assert a - (b + c) == a - b - c;
  }

  lemma HalfProduct(due: int, half: int, odd: bool)
    ensures due * (2 * half + if odd then 1 else 0) == half * (2 * due) + if odd then due else 0
  {
  }

  /** Rounding half of an amount: an odd one is a tie, which goes to the even neighbour. */
  lemma RoundHalf(n: int, d: int, half: nat, odd: bool, product: int)
    requires d > 0 && product == half * d && 2 * (n - product) == if odd then d else 0
    ensures RoundHalfEven(n, d) == if odd && half % 2 == 1 then half + 1 else half
  {
    Successor(half, d);
    RoundHalfEvenUnique(n, d, if odd && half % 2 == 1 then half + 1 else half);
  }

  lemma PartialShare(due: int, amount: int, total: int)
    requires 0 < amount < total
    ensures Share(due, amount, total) == RoundHalfEven(due * amount, total)
  {
  }

  lemma HalvedProduct(due: nat, amount: nat, half: nat, odd: bool, n: int, d: int, product: int)
    requires half == amount / 2 && odd == (amount % 2 == 1)
    requires n == due * amount && d == 2 * due && product == half * d
    ensures 2 * (n - product) == if odd then d else 0
  {
    assert amount == 2 * half + if odd then 1 else 0;
    HalfProduct(due, half, odd);
  }

  /** The share of a partial payment when the total is twice what is due. */
  lemma HalfShare(due: nat, amount: nat, total: nat)
    requires 0 < amount < total && total == 2 * due
    ensures Share(due, amount, total) == if amount % 4 == 3 then amount / 2 + 1 else amount / 2
  {
    var half, odd, n := amount / 2, amount % 2 == 1, due * amount;
    HalvedProduct(due, amount, half, odd, n, total, half * total);
    RoundHalf(n, total, half, odd, half * total);
    PartialShare(due, amount, total);
    ThreeModFour(amount);
  }

  lemma ThreeModFour(amount: nat)
    ensures amount % 4 == 3 <==> amount % 2 == 1 && (amount / 2) % 2 == 1
  {
  }

  lemma OneVendorOrder(item: Item)
    ensures VendorsOf([item]) == [item.vendor] && CommissionDue([item]) == item.commission
    ensures Due([item], item.vendor) == item.payable
    ensures Owed([item]) == item.payable + item.commission
  {
    GroupingStep([], item);
    assert [] + [item] == [item];
    assert VendorsOf([]) == [] && CommissionDue([]) == 0 && Due([], item.vendor) == 0;
    assert [item.vendor][..0] == [];
    assert TotalDue([], [item]) == 0 && TotalDue([item.vendor], [item]) == item.payable;
  }

  lemma OneVendorAllocation(item: Item, amount: nat, total: int)
    ensures Allocate([item], amount, total).remainder
         == amount - Share(item.payable, amount, total) - Share(item.commission, amount, total)
  {
    OneVendorOrder(item);
    var shares := SharesFor([item.vendor], [item], amount, total);
    assert shares == [VendorShare(item.vendor, Share(item.payable, amount, total))] && shares[..0] == [];
    assert ShareTotal([]) == 0;
  }

  /** Partial payments are refused although the order owes exactly its total: where a vendor and the
      commission are owed the same, every partial payment of 3, 7, 11, ... is refused, because both
      halves round up, and no other is. For instance 3 out of 4, of which each is owed 2. */
  lemma PartialPaymentCanBeRefused(b: Books, company: string, pay: Payment, vendor: string, due: nat, now: int, accepts: bool)
    requires 0 < pay.amount < 2 * due && FindSource(b.entries, company, "payment", pay.id).None?
    ensures Owed([Item(vendor, due, due)]) == 2 * due
    ensures PostPayment(b, company, 2 * due, pay, [Item(vendor, due, due)], now, accepts) == Failure(AllocationUnbalanced)
       <==> pay.amount % 4 == 3
  {
    var item := Item(vendor, due, due);
    OneVendorOrder(item);
    OneVendorAllocation(item, pay.amount, 2 * due);
    HalfShare(due, pay.amount, 2 * due);
    PaymentRefusedIffOverdrawn(b, company, 2 * due, pay, [item], now, accepts);
    RemainderIsNegativeIffOverdrawn([item], pay.amount, 2 * due);
  }
}
