/** What each posting request answers, in every case: when it goes through, why it is refused, and
    the rows it leaves, written out column by column. */
module AccountingOutcomes {
  import opened Wrappers
  import opened Sums
  import opened Accounting
  import opened AccountingRuns

  ghost predicate LinesAccepted(lines: seq<Line>) {
    && lines != []
    && (forall l :: l in lines ==> l.debit == 0 || l.credit == 0)
    && Sum(lines, DebitOf) == Sum(lines, CreditOf)
  }

  /** An entry of the company already carries the payload's non-empty source pair. */
  ghost predicate Repeated(b: Books, p: Payload) {
    && p.sourceType.Some? && p.sourceType.value != "" && p.sourceId.Some? && p.sourceId.value != ""
    && exists e :: e in b.entries && HasSource(e, p.company, p.sourceType.value, p.sourceId.value)
  }

  /** The first entry with this source pair. */
  ghost predicate FirstWith(entries: seq<Entry>, i: nat, company: string, sourceType: string, sourceId: string) {
    && i < |entries| && HasSource(entries[i], company, sourceType, sourceId)
    && forall j :: 0 <= j < i ==> !HasSource(entries[j], company, sourceType, sourceId)
  }

  /** Every answer of a journal request: a posted payload appends exactly its own entry under its own
      date, or today's; a repeated one hands back the first entry with its source pair. */
  lemma JournalOutcome(b: Books, p: Payload, now: int, accepts: bool)
    ensures var r := CreateEntry(b, p, now, accepts);
      var at := if p.postedAt.Some? then p.postedAt.value else now;
      var withheld := p.authoritative && p.status == "posted" && !accepts;
      && (r.Success? <==> LinesAccepted(p.lines) && PeriodOpen(b.periods, p.company, at) && (Repeated(b, p) || !withheld))
      && (r == Failure(BothSides) <==> exists l :: l in p.lines && l.debit != 0 && l.credit != 0)
      && (r == Failure(NoLines) <==> p.lines == [])
      && (r == Failure(PeriodLocked) <==> LinesAccepted(p.lines) && !PeriodOpen(b.periods, p.company, at))
      && (r == Failure(AuthorityRefused) <==>
            LinesAccepted(p.lines) && PeriodOpen(b.periods, p.company, at) && !Repeated(b, p) && withheld)
      && (r.Success? && !Repeated(b, p) ==>
            r.value == Posting(b.(entries := b.entries + [Entry(p.company, p.sourceType, p.sourceId, at, p.lines)]), |b.entries|))
      && (r.Success? && Repeated(b, p) ==>
            r.value.books == b && FirstWith(b.entries, r.value.entry, p.company, p.sourceType.value, p.sourceId.value))
  {
    assert LinesAccepted(p.lines) <==> CheckedLines(p.lines).Success?;
    assert Repeated(b, p) <==> Existing(b, p).Some?;
  }

  /** No entry of the company carries the payment's source pair. */
  ghost predicate NewPayment(b: Books, company: string, pay: Payment) {
    forall e :: e in b.entries ==> !HasSource(e, company, "payment", pay.id)
  }

  lemma NewIsNotFound(b: Books, company: string, pay: Payment)
    ensures NewPayment(b, company, pay) <==> FindSource(b.entries, company, "payment", pay.id).None?
  {
  }

  /** Every answer of a payment request. */
  lemma PaymentOutcome(b: Books, company: string, total: int, pay: Payment, items: seq<Item>, now: int, accepts: bool)
    ensures var r := PostPayment(b, company, total, pay, items, now, accepts);
      var isOpen := PeriodOpen(b.periods, company, if pay.paidAt.Some? then pay.paidAt.value else now);
      var isNew := pay.amount > 0 && NewPayment(b, company, pay);
      var overdraws := pay.amount > 0 && Overdraws(items, pay.amount, total);
      && (r == Failure(PaymentNotPositive) <==> pay.amount <= 0)
      && (r == Failure(AllocationUnbalanced) <==> isNew && overdraws)
      && (r == Failure(AuthorityRefused) <==> isNew && !overdraws && !accepts)
      && (r == Failure(PeriodLocked) <==> isNew && !overdraws && accepts && !isOpen)
      && (r.Success? <==> (pay.amount > 0 && !isNew) || (isNew && !overdraws && accepts && isOpen))
      && (pay.amount > 0 && !isNew ==>
            r.Success? && r.value.books == b && FirstWith(b.entries, r.value.entry, company, "payment", pay.id))
  {
    NewIsNotFound(b, company, pay);
    if pay.amount > 0 && NewPayment(b, company, pay) {
      var a := Allocate(items, pay.amount, total);
      RemainderIsNegativeIffOverdrawn(items, pay.amount, total);
      if a.remainder >= 0 {
        PaymentLinesPass(company, pay.amount, a);
      }
    }
  }

  /** A new payment's entry goes last, under the date of the payment or today's; settlements and
      periods stay as they are. */
  lemma PaymentEntryIsDated(b: Books, company: string, total: int, pay: Payment, items: seq<Item>, now: int, accepts: bool)
    requires PostsNew(b, company, total, pay, items, now, accepts)
    ensures var p := PostPayment(b, company, total, pay, items, now, accepts).value;
      && p.entry == |b.entries| && |p.books.entries| == |b.entries| + 1 && p.books.entries[..|b.entries|] == b.entries
      && p.books.entries[|b.entries|].postedAt == (if pay.paidAt.Some? then pay.paidAt.value else now)
      && HasSource(p.books.entries[|b.entries|], company, "payment", pay.id)
      && p.books.settlements == b.settlements && p.books.periods == b.periods
  {
    PayEffect(b, company, total, pay, items, now, accepts);
  }

  lemma SettlementLinesPass(s: Settlement)
    requires s.payable > 0
    ensures CheckedLines(SettlementLines(s)).Success?
  {
    var lines := SettlementLines(s);
    assert lines == [lines[0]] + [lines[1]] && [lines[0]] == [] + [lines[0]];
    SumSnoc([lines[0]], lines[1], DebitOf);
    SumSnoc([lines[0]], lines[1], CreditOf);
    SumSnoc([], lines[0], DebitOf);
    SumSnoc([], lines[0], CreditOf);
  }

  /** A settlement posts as a new entry if and only if it exists with a positive payable, is not
      posted yet, the authoritative ledger accepts it, and the fetched period is open. */
  lemma SettlementPostsIff(b: Books, id: string, now: int, accepts: bool)
    ensures SettlesNew(b, id, now, accepts)
       <==> && id in b.settlements
            && var s := b.settlements[id];
               && s.payable > 0 && accepts
               && FindSource(b.entries, s.company, "settlement", id).None?
               && PeriodOpen(b.periods, s.company, if s.paidAt.Some? then s.paidAt.value else now)
  {
    if id in b.settlements && b.settlements[id].payable > 0 {
      SettlementLinesPass(b.settlements[id]);
    }
  }

  /** Every answer of a settlement request, and the rows of a new one. */
  lemma SettlementOutcome(b: Books, id: string, now: int, accepts: bool)
    ensures PostSettlement(b, id, now, accepts) == Failure(SettlementMissing) <==> id !in b.settlements
    ensures id in b.settlements ==>
      var s, r := b.settlements[id], PostSettlement(b, id, now, accepts);
      var at := if s.paidAt.Some? then s.paidAt.value else now;
      var isNew := forall e :: e in b.entries ==> !HasSource(e, s.company, "settlement", id);
      && (r == Failure(SettlementNotPositive) <==> isNew && s.payable <= 0)
      && (r == Failure(AuthorityRefused) <==> isNew && s.payable > 0 && !accepts)
      && (r == Failure(PeriodLocked) <==> isNew && s.payable > 0 && accepts && !PeriodOpen(b.periods, s.company, at))
      && (!isNew ==> r.Success? && r.value.books == b && FirstWith(b.entries, r.value.entry, s.company, "settlement", id))
      && (r.Success? && isNew ==> SettledRows(b, r.value.books, id, at) && r.value.entry == |b.entries|)
  {
    SettlementPostsIff(b, id, now, accepts);
    if id in b.settlements && b.settlements[id].payable > 0 {
      SettlementLinesPass(b.settlements[id]);
    }
    if SettlesNew(b, id, now, accepts) {
      SettleEffect(b, id, now, accepts);
    }
  }

  /** The entry under its date, the vendor's row and the settlement's row. */
  ghost predicate SettledRows(b: Books, after: Books, id: string, at: int)
    requires id in b.settlements
  {
    var s := b.settlements[id];
    && |after.entries| == |b.entries| + 1 && after.entries[..|b.entries|] == b.entries
    && after.entries[|b.entries|].postedAt == at
    && HasSource(after.entries[|b.entries|], s.company, "settlement", id)
    && after.vendorLedger == b.vendorLedger
         + [VendorEntry(s.company, s.vendor, 0 - s.payable, VendorBalance(b.vendorLedger, s.company, s.vendor) - s.payable,
                        "settlement", id)]
    && after.settlements == b.settlements[id :=
         Settlement(s.company, s.vendor, s.payable, "paid", s.payable, Some(at), Some(|b.entries|))]
    && after.periods == b.periods
  }

  /** A step of a run is its request where that succeeds, and nothing where it fails; a draft settlement
      is added once, periods change freely. */
  lemma StepIsItsRequest(b: Books, op: Op)
    ensures op.Pay? ==> Outcome(b, op) == PostPayment(b, op.company, op.total, op.pay, op.items, op.now, op.accepts)
    ensures op.Settle? ==> Outcome(b, op) == PostSettlement(b, op.id, op.now, op.accepts)
    ensures op.Journal? ==> Outcome(b, op) == CreateEntry(b, op.payload, op.now, op.accepts)
    ensures op.Pay? || op.Settle? || op.Journal? ==> Step(b, op) == if Outcome(b, op).Success? then Outcome(b, op).value.books else b
    ensures op.DraftSettlement? ==>
      Step(b, op) == Books(b.entries, b.vendorLedger, if op.id in b.settlements then b.settlements else b.settlements[op.id := op.row], b.periods)
    ensures op.ChangePeriods? ==> Step(b, op) == Books(b.entries, b.vendorLedger, b.settlements, op.periods)
  {
  }
}
