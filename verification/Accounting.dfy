/** The legacy books of accounting_services.py: double-entry journal entries, the vendor
    subsidiary ledger with its stored running balances, and vendor settlements.
    The functions say what one request does to the tables; class LegacyBooks performs it on
    the tables in place and is proved to do exactly that. */
module Accounting {
  import opened Wrappers
  import opened Sums
  import opened Rounding

  const PAYMENT_CLEARING := "1000"
  const BANK := "1010"
  const VENDOR_PAYABLE := "2000"
  const COMMISSION_REVENUE := "3000"
  const SALES_REVENUE := "4000"

  datatype Error =
    | PaymentNotPositive
    | AllocationUnbalanced
    | NoLines
    | BothSides
    | Unbalanced
    | PeriodLocked
    | AuthorityRefused
    | SettlementMissing
    | SettlementNotPositive

  // ----- rows -----

  /** An account row, identified by the pair its table keeps unique. */
  datatype Account = Account(company: string, code: string)

  datatype Line = Line(account: Account, debit: nat, credit: nat)

  datatype Entry = Entry(company: string, sourceType: Option<string>, sourceId: Option<string>,
                         postedAt: int, lines: seq<Line>)

  datatype VendorEntry = VendorEntry(company: string, vendor: string, amount: int, balance: int,
                                     sourceType: string, sourceId: string)

  datatype Settlement = Settlement(company: string, vendor: string, payable: int, status: string,
                                   paid: int, paidAt: Option<int>, entry: Option<nat>)

  datatype Period = Period(company: string, startsAt: int, endsAt: int, status: string)

  datatype Books = Books(entries: seq<Entry>, vendorLedger: seq<VendorEntry>,
                         settlements: map<string, Settlement>, periods: seq<Period>)

  /** A posting request that went through: the books after it and the index of its entry. */
  datatype Posting = Posting(books: Books, entry: nat)

  // ----- columns -----

  function DebitOf(l: Line): int { l.debit }

  function CreditOf(l: Line): int { l.credit }

  function NetDebitOf(l: Line): int { l.debit - l.credit }

  function AccountOf(l: Line): Account { l.account }

  function VendorOf(e: VendorEntry): string { e.vendor }

  function AmountIn(company: string): VendorEntry -> int {
    (e: VendorEntry) => if e.company == company then e.amount else 0
  }

  // ----- journal entries -----

  function AllLines(entries: seq<Entry>): seq<Line> {
    if entries == [] then []
    else AllLines(entries[..|entries| - 1]) + entries[|entries| - 1].lines
  }

  function NetCredit(entries: seq<Entry>, a: Account): int {
    -SumAt(AllLines(entries), AccountOf, NetDebitOf, a)
  }

  predicate HasSource(e: Entry, company: string, sourceType: string, sourceId: string) {
    e.company == company && e.sourceType == Some(sourceType) && e.sourceId == Some(sourceId)
  }

  /** The first journal entry of the company with this source pair. */
  function FindSource(entries: seq<Entry>, company: string, sourceType: string, sourceId: string)
    : (r: Option<nat>)
    ensures r.Some? ==> r.value < |entries| && HasSource(entries[r.value], company, sourceType, sourceId)
    ensures r.Some? ==> forall j :: 0 <= j < r.value ==> !HasSource(entries[j], company, sourceType, sourceId)
    ensures r.None? ==> forall e :: e in entries ==> !HasSource(e, company, sourceType, sourceId)
  {
    if entries == [] then None
    else
      var n := |entries| - 1;
      var earlier := FindSource(entries[..n], company, sourceType, sourceId);
      assert entries == entries[..n] + [entries[n]];
      if earlier.Some? then earlier
      else if HasSource(entries[n], company, sourceType, sourceId) then Some(n) else None
  }

  predicate OnBothSides(l: Line) {
    l.debit != 0 && l.credit != 0
  }

  /** What the line check promises: the totals, or the reason the lines are refused. */
  function CheckedLines(lines: seq<Line>): Result<(int, int), Error> {
    if exists l :: l in lines && OnBothSides(l) then Failure(BothSides)
    else if lines == [] then Failure(NoLines)
    else if Sum(lines, DebitOf) != Sum(lines, CreditOf) then Failure(Unbalanced)
    else Success((Sum(lines, DebitOf), Sum(lines, CreditOf)))
  }

  /** The one matching period that the query fetches. */
  function PeriodAt(periods: seq<Period>, company: string, at: int): Option<Period> {
    if periods == [] then None
    else if periods[0].company == company && periods[0].startsAt <= at <= periods[0].endsAt
    then Some(periods[0])
    else PeriodAt(periods[1..], company, at)
  }

  predicate PeriodOpen(periods: seq<Period>, company: string, at: int) {
    var p := PeriodAt(periods, company, at);
    p.Some? ==> p.value.status != "locked" && p.value.status != "closed"
  }

  datatype Payload = Payload(company: string, sourceType: Option<string>, sourceId: Option<string>,
                             postedAt: Option<int>, status: string, authoritative: bool,
                             lines: seq<Line>)

  function PostedAt(at: Option<int>, now: int): int {
    if at.Some? then at.value else now
  }

  function Existing(b: Books, p: Payload): Option<nat> {
    if Given(p.sourceType) && Given(p.sourceId)
    then FindSource(b.entries, p.company, p.sourceType.value, p.sourceId.value)
    else None
  }

  /** create_journal_entry. `accepts` is the verdict of the authoritative ledger, a service that
      does not touch these tables; it is only asked for posted, authoritative payloads. */
  function CreateEntry(b: Books, p: Payload, now: int, accepts: bool): Result<Posting, Error> {
    var at := PostedAt(p.postedAt, now);
    var checked := CheckedLines(p.lines);
    var existing := Existing(b, p);
    if checked.Failure? then Failure(checked.error)
    else if !PeriodOpen(b.periods, p.company, at) then Failure(PeriodLocked)
    else if existing.Some? then Success(Posting(b, existing.value))
    else if p.authoritative && p.status == "posted" && !accepts then Failure(AuthorityRefused)
    else
      Success(Posting(b.(entries := b.entries + [Entry(p.company, p.sourceType, p.sourceId, at, p.lines)]),
                      |b.entries|))
  }

  // ----- vendor ledger -----

  function VendorBalance(ledger: seq<VendorEntry>, company: string, vendor: string): int {
    SumAt(ledger, VendorOf, AmountIn(company), vendor)
  }

  function AppendVendor(ledger: seq<VendorEntry>, company: string, vendor: string, amount: int,
                        sourceType: string, sourceId: string): seq<VendorEntry> {
    ledger + [VendorEntry(company, vendor, amount, VendorBalance(ledger, company, vendor) + amount,
                          sourceType, sourceId)]
  }

  // ----- payments -----

  datatype Payment = Payment(id: string, amount: int, paidAt: Option<int>)

  /** One vendor_order_items row; its amounts are computed as non-negative. */
  datatype Item = Item(vendor: string, payable: nat, commission: nat)

  datatype VendorShare = VendorShare(vendor: string, amount: nat)

  function ItemVendor(i: Item): string { i.vendor }

  function ItemPayable(i: Item): int { i.payable }

  /** The vendors of an order, each once, in order of first appearance. */
  function VendorsOf(items: seq<Item>): seq<string> {
    if items == [] then []
    else
      var vs, last := VendorsOf(items[..|items| - 1]), items[|items| - 1].vendor;
      if last in vs then vs else vs + [last]
  }

  lemma {:induction false} VendorsOfCovers(items: seq<Item>)
    ensures Distinct(VendorsOf(items))
    ensures forall i :: i in items ==> i.vendor in VendorsOf(items)
    ensures forall v :: v in VendorsOf(items) ==> exists i :: i in items && i.vendor == v
  {
    if items != [] {
      var init, last := items[..|items| - 1], items[|items| - 1];
      assert items == init + [last];
      VendorsOfCovers(init);
    }
  }

  function Due(items: seq<Item>, vendor: string): (r: int)
    ensures r >= 0
  {
    SumAtNonNegative(items, ItemVendor, ItemPayable, vendor);
    SumAt(items, ItemVendor, ItemPayable, vendor)
  }

  function {:induction false} CommissionDue(items: seq<Item>): (r: int)
    ensures r >= 0
  {
    if items == [] then 0
    else CommissionDue(items[..|items| - 1]) + items[|items| - 1].commission
  }

  function SharesFor(vendors: seq<string>, items: seq<Item>, amount: nat, total: int): (r: seq<VendorShare>)
    ensures |r| == |vendors|
    ensures forall i :: 0 <= i < |r| ==> r[i] == VendorShare(vendors[i], Share(Due(items, vendors[i]), amount, total))
  {
    if vendors == [] then []
    else
      var n := |vendors| - 1;
      SharesFor(vendors[..n], items, amount, total)
      + [VendorShare(vendors[n], Share(Due(items, vendors[n]), amount, total))]
  }

  function ShareTotal(shares: seq<VendorShare>): (r: int)
    ensures r >= 0
  {
    if shares == [] then 0 else ShareTotal(shares[..|shares| - 1]) + shares[|shares| - 1].amount
  }

  datatype Allocation = Allocation(shares: seq<VendorShare>, payables: nat, commission: nat, remainder: int)

  /** How a payment is split: rounded vendor shares, rounded commission, and what is left. */
  function Allocate(items: seq<Item>, amount: nat, total: int): Allocation {
    var shares := SharesFor(VendorsOf(items), items, amount, total);
    var commission := Share(CommissionDue(items), amount, total);
    Allocation(shares, ShareTotal(shares), commission, amount - ShareTotal(shares) - commission)
  }

  function CreditLine(company: string, code: string, amount: nat): seq<Line> {
    if amount == 0 then [] else [Line(Account(company, code), 0, amount)]
  }

  function PaymentLines(company: string, amount: nat, a: Allocation): seq<Line>
    requires a.remainder >= 0
  {
    [Line(Account(company, PAYMENT_CLEARING), amount, 0)]
    + CreditLine(company, VENDOR_PAYABLE, a.payables)
    + CreditLine(company, COMMISSION_REVENUE, a.commission)
    + CreditLine(company, SALES_REVENUE, a.remainder)
  }

  function AppendShares(ledger: seq<VendorEntry>, company: string, shares: seq<VendorShare>, paymentId: string)
    : seq<VendorEntry>
  {
    if shares == [] then ledger
    else
      var n := |shares| - 1;
      AppendVendor(AppendShares(ledger, company, shares[..n], paymentId),
                   company, shares[n].vendor, shares[n].amount, "payment", paymentId)
  }

  function PaymentPayload(company: string, pay: Payment, now: int, lines: seq<Line>): Payload {
    Payload(company, Some("payment"), Some(pay.id), Some(PostedAt(pay.paidAt, now)), "posted", false, lines)
  }

  /** post_order_payment_entry. */
  function PostPayment(b: Books, company: string, total: int, pay: Payment, items: seq<Item>,
                       now: int, accepts: bool): Result<Posting, Error> {
    if pay.amount <= 0 then Failure(PaymentNotPositive)
    else
      var existing := FindSource(b.entries, company, "payment", pay.id);
      if existing.Some? then Success(Posting(b, existing.value))
      else
        var a := Allocate(items, pay.amount, total);
        if a.remainder < 0 then Failure(AllocationUnbalanced)
        else if !accepts then Failure(AuthorityRefused)
        else
          var p :- CreateEntry(b, PaymentPayload(company, pay, now, PaymentLines(company, pay.amount, a)), now, accepts);
          Success(p.(books := p.books.(vendorLedger :=
            AppendShares(p.books.vendorLedger, company, a.shares, pay.id))))
  }

  // ----- settlements -----

  function SettlementLines(s: Settlement): seq<Line>
    requires s.payable > 0
  {
    [Line(Account(s.company, VENDOR_PAYABLE), s.payable, 0), Line(Account(s.company, BANK), 0, s.payable)]
  }

  function SettlementPayload(id: string, s: Settlement, now: int): Payload
    requires s.payable > 0
  {
    Payload(s.company, Some("settlement"), Some(id), Some(PostedAt(s.paidAt, now)), "posted", false,
            SettlementLines(s))
  }

  function Paid(s: Settlement, entry: nat, now: int): Settlement {
    s.(status := "paid", paid := s.payable, paidAt := Some(PostedAt(s.paidAt, now)), entry := Some(entry))
  }

  /** post_vendor_settlement_entry for the settlement row `id`. */
  function PostSettlement(b: Books, id: string, now: int, accepts: bool): Result<Posting, Error> {
    if id !in b.settlements then Failure(SettlementMissing)
    else
      var s := b.settlements[id];
      var existing := FindSource(b.entries, s.company, "settlement", id);
      if existing.Some? then Success(Posting(b, existing.value))
      else if s.payable <= 0 then Failure(SettlementNotPositive)
      else if !accepts then Failure(AuthorityRefused)
      else
        var p :- CreateEntry(b, SettlementPayload(id, s, now), now, accepts);
        Success(p.(books := p.books.(
          vendorLedger := AppendVendor(p.books.vendorLedger, s.company, s.vendor, -s.payable, "settlement", id),
          settlements := p.books.settlements[id := Paid(s, p.entry, now)])))
  }

  /** What one more item does to the grouped totals. */
  lemma GroupingStep(items: seq<Item>, item: Item)
    ensures VendorsOf(items + [item])
         == if item.vendor in VendorsOf(items) then VendorsOf(items) else VendorsOf(items) + [item.vendor]
    ensures CommissionDue(items + [item]) == CommissionDue(items) + item.commission
    ensures forall v :: Due(items + [item], v) == Due(items, v) + if v == item.vendor then item.payable else 0
    ensures item.vendor !in VendorsOf(items) ==> Due(items, item.vendor) == 0
  {
    assert (items + [item])[..|items|] == items;
    forall v {
      SumAtSnoc(items, item, ItemVendor, ItemPayable, v);
    }
    VendorsOfCovers(items);
    if item.vendor !in VendorsOf(items) {
      SumAtAbsent(items, ItemVendor, ItemPayable, item.vendor);
    }
  }

  // ----- the tables -----

  class LegacyBooks {
    var entries: seq<Entry>
    var vendorLedger: seq<VendorEntry>
    var settlements: map<string, Settlement>
    var periods: seq<Period>

    function Contents(): Books
      reads this
    {
      Books(entries, vendorLedger, settlements, periods)
    }

    /** A request that ends in `outcome`: a raise leaves every table as it was. */
    ghost predicate Commits(before: Books, outcome: Result<Posting, Error>, r: Result<nat, Error>)
      reads this
    {
      match outcome
      case Success(p) => Contents() == p.books && r == Success(p.entry)
      case Failure(e) => Contents() == before && r == Failure(e)
    }

    /** The running totals of the line check. */
    static method ValidateJournalLines(lines: seq<Line>) returns (r: Result<(int, int), Error>)
      ensures r == CheckedLines(lines)
    {
      var debitTotal, creditTotal := 0, 0;
      var hasLines := false;
      for i := 0 to |lines|
        invariant debitTotal == Sum(lines[..i], DebitOf) && creditTotal == Sum(lines[..i], CreditOf)
        invariant hasLines == (i > 0)
        invariant forall j :: 0 <= j < i ==> !OnBothSides(lines[j])
      {
        hasLines := true;
        if lines[i].debit != 0 && lines[i].credit != 0 {
          assert OnBothSides(lines[i]) && lines[i] in lines;
          return Failure(BothSides);
        }
        assert lines[..i + 1] == lines[..i] + [lines[i]];
        SumSnoc(lines[..i], lines[i], DebitOf);
        SumSnoc(lines[..i], lines[i], CreditOf);
        debitTotal := debitTotal + lines[i].debit;
        creditTotal := creditTotal + lines[i].credit;
      }
      assert lines[..|lines|] == lines;
      if !hasLines {
        return Failure(NoLines);
      }
      if debitTotal != creditTotal {
        return Failure(Unbalanced);
      }
      return Success((debitTotal, creditTotal));
    }

    method CreateJournalEntry(p: Payload, now: int, accepts: bool) returns (r: Result<nat, Error>)
      modifies this
      ensures Commits(old(Contents()), CreateEntry(old(Contents()), p, now, accepts), r)
    {
      var checked := ValidateJournalLines(p.lines);
      if checked.Failure? {
        return Failure(checked.error);
      }
      var postedAt := PostedAt(p.postedAt, now);
      if !PeriodOpen(periods, p.company, postedAt) {
        return Failure(PeriodLocked);
      }
      if Given(p.sourceType) && Given(p.sourceId) {
        var existing := FindSource(entries, p.company, p.sourceType.value, p.sourceId.value);
        if existing.Some? {
          return Success(existing.value);
        }
      }
      if p.authoritative && p.status == "posted" && !accepts {
        return Failure(AuthorityRefused);
      }
      r := Success(|entries|);
      entries := entries + [Entry(p.company, p.sourceType, p.sourceId, postedAt, p.lines)];
    }

    /** Sums the vendor's rows of the company in one pass. */
    method VendorBalanceMinor(company: string, vendor: string) returns (balance: int)
      ensures balance == VendorBalance(vendorLedger, company, vendor)
    {
      balance := 0;
      for i := 0 to |vendorLedger|
        invariant balance == VendorBalance(vendorLedger[..i], company, vendor)
      {
        assert vendorLedger[..i + 1] == vendorLedger[..i] + [vendorLedger[i]];
        SumAtSnoc(vendorLedger[..i], vendorLedger[i], VendorOf, AmountIn(company), vendor);
        if vendorLedger[i].company == company && vendorLedger[i].vendor == vendor {
          balance := balance + vendorLedger[i].amount;
        }
      }
      assert vendorLedger[..|vendorLedger|] == vendorLedger;
    }

    method AppendVendorLedgerEntry(company: string, vendor: string, amount: int, sourceType: string, sourceId: string)
      modifies this`vendorLedger
      ensures vendorLedger == AppendVendor(old(vendorLedger), company, vendor, amount, sourceType, sourceId)
    {
      var balance := VendorBalanceMinor(company, vendor);
      vendorLedger := vendorLedger + [VendorEntry(company, vendor, amount, balance + amount, sourceType, sourceId)];
    }

    /** Groups the items by vendor in one pass; the vendors keep their order of appearance. */
    static method GroupByVendor(items: seq<Item>)
      returns (vendors: seq<string>, payables: map<string, int>, commissionTotal: int)
      ensures vendors == VendorsOf(items)
      ensures forall v :: v in payables <==> v in vendors
      ensures forall v :: v in payables ==> payables[v] == Due(items, v)
      ensures commissionTotal == CommissionDue(items)
    {
      vendors, payables, commissionTotal := [], map[], 0;
      for i := 0 to |items|
        invariant vendors == VendorsOf(items[..i])
        invariant forall v :: v in payables <==> v in vendors
        invariant forall v :: v in payables ==> payables[v] == Due(items[..i], v)
        invariant commissionTotal == CommissionDue(items[..i])
      {
        var item := items[i];
        assert items[..i + 1] == items[..i] + [item];
        GroupingStep(items[..i], item);
        if item.vendor !in payables {
          vendors := vendors + [item.vendor];
          payables := payables[item.vendor := 0];
        }
        payables := payables[item.vendor := payables[item.vendor] + item.payable];
        commissionTotal := commissionTotal + item.commission;
      }
      assert items[..|items|] == items;
    }

    /** Scales and rounds each vendor's total. */
    static method RoundShares(vendors: seq<string>, payables: map<string, int>, items: seq<Item>, amount: nat, total: int)
      returns (shares: seq<VendorShare>, payableTotal: int)
      requires forall v :: v in vendors ==> v in payables && payables[v] == Due(items, v)
      ensures shares == SharesFor(vendors, items, amount, total)
      ensures payableTotal == ShareTotal(shares)
    {
      shares, payableTotal := [], 0;
      for j := 0 to |vendors|
        invariant shares == SharesFor(vendors[..j], items, amount, total)
        invariant payableTotal == ShareTotal(shares)
      {
        var share := VendorShare(vendors[j], Share(payables[vendors[j]], amount, total));
        assert vendors[..j + 1][..j] == vendors[..j];
        assert (shares + [share])[..|shares|] == shares;
        shares := shares + [share];
        payableTotal := payableTotal + share.amount;
      }
      assert vendors[..|vendors|] == vendors;
    }

    static method AllocatePayment(items: seq<Item>, amount: nat, total: int) returns (a: Allocation)
      ensures a == Allocate(items, amount, total)
    {
      var vendors, payables, commissionTotal := GroupByVendor(items);
      var shares, payableTotal := RoundShares(vendors, payables, items, amount, total);
      commissionTotal := Share(commissionTotal, amount, total);
      a := Allocation(shares, payableTotal, commissionTotal, amount - payableTotal - commissionTotal);
    }

    static method BuildPaymentLines(company: string, amount: nat, a: Allocation) returns (lines: seq<Line>)
      requires a.remainder >= 0
      ensures lines == PaymentLines(company, amount, a)
    {
      lines := [Line(Account(company, PAYMENT_CLEARING), amount, 0)];
      if a.payables != 0 {
        lines := lines + [Line(Account(company, VENDOR_PAYABLE), 0, a.payables)];
      }
      if a.commission != 0 {
        lines := lines + [Line(Account(company, COMMISSION_REVENUE), 0, a.commission)];
      }
      if a.remainder != 0 {
        lines := lines + [Line(Account(company, SALES_REVENUE), 0, a.remainder)];
      }
    }

    method AppendVendorShares(company: string, shares: seq<VendorShare>, paymentId: string)
      modifies this`vendorLedger
      ensures vendorLedger == AppendShares(old(vendorLedger), company, shares, paymentId)
    {
      for j := 0 to |shares|
        invariant vendorLedger == AppendShares(old(vendorLedger), company, shares[..j], paymentId)
      {
        assert shares[..j + 1][..j] == shares[..j];
        AppendVendorLedgerEntry(company, shares[j].vendor, shares[j].amount, "payment", paymentId);
      }
      assert shares[..|shares|] == shares;
    }

    method PostOrderPaymentEntry(company: string, total: int, pay: Payment, items: seq<Item>, now: int, accepts: bool)
      returns (r: Result<nat, Error>)
      modifies this
      ensures Commits(old(Contents()), PostPayment(old(Contents()), company, total, pay, items, now, accepts), r)
    {
      if pay.amount <= 0 {
        return Failure(PaymentNotPositive);
      }
      var existing := FindSource(entries, company, "payment", pay.id);
      if existing.Some? {
        return Success(existing.value);
      }
      var a := AllocatePayment(items, pay.amount, total);
      if a.remainder < 0 {
        return Failure(AllocationUnbalanced);
      }
      if !accepts {
        return Failure(AuthorityRefused);
      }
      var lines := BuildPaymentLines(company, pay.amount, a);
      r := CreateJournalEntry(PaymentPayload(company, pay, now, lines), now, accepts);
      if r.Success? {
        AppendVendorShares(company, a.shares, pay.id);
      }
    }

    method PostVendorSettlementEntry(id: string, now: int, accepts: bool) returns (r: Result<nat, Error>)
      modifies this
      ensures Commits(old(Contents()), PostSettlement(old(Contents()), id, now, accepts), r)
    {
      if id !in settlements {
        return Failure(SettlementMissing);
      }
      var s := settlements[id];
      var existing := FindSource(entries, s.company, "settlement", id);
      if existing.Some? {
        return Success(existing.value);
      }
      if s.payable <= 0 {
        return Failure(SettlementNotPositive);
      }
      if !accepts {
        return Failure(AuthorityRefused);
      }
      r := CreateJournalEntry(SettlementPayload(id, s, now), now, accepts);
      if r.Failure? {
        return;
      }
      AppendVendorLedgerEntry(s.company, s.vendor, -s.payable, "settlement", id);
      settlements := settlements[id := Paid(s, r.value, now)];
    }
  }
}
