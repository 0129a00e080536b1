/** The delivery lifecycle of delivery_services.py: one assignment per order, moved forward by its
    rider, with a history row for every step. */
module Delivery {
  import opened Text
  import opened Wrappers

  type Id = nat

  datatype Error =
    | OrderMissing
    | OrderNotReady
    | AlreadyAssigned
    | NotARider
    | CustomerUnavailable
    | AssignmentMissing
    | NotReassignable
    | IllegalTransition
    | ReasonRequired

  datatype Status = Assigned | PickedUp | OutForDelivery | Delivered | Failed | Cancelled

  /** DELIVERY_TRANSITIONS. */
  function Transitions(s: Status): set<Status> {
    match s
    case Assigned => {PickedUp, Failed, Cancelled}
    case PickedUp => {OutForDelivery, Failed}
    case OutForDelivery => {Delivered, Failed}
    case Delivered => {}
    case Failed => {}
    case Cancelled => {}
  }

  predicate Terminal(s: Status) {
    Transitions(s) == {}
  }

  /** How many more steps a delivery can take. */
  function Rank(s: Status): nat {
    match s
    case Assigned => 3
    case PickedUp => 2
    case OutForDelivery => 1
    case _ => 0
  }

  datatype Assignment = Assignment(company: string, order: Id, rider: Id, assignedBy: Id, status: Status,
                                   pickedUpAt: Option<int>, outForDeliveryAt: Option<int>, deliveredAt: Option<int>,
                                   failedAt: Option<int>, failureReason: Option<string>)

  datatype History = History(assignment: Id, from: Option<Status>, to: Status, changedBy: Id)

  datatype Order = Order(company: string, ready: bool)

  /** An assignment's id is its index; history rows are in order of creation. `riders` are the active
      riders of each company. */
  datatype Desk = Desk(assignments: seq<Assignment>, history: seq<History>, orders: map<Id, Order>, riders: set<(string, Id)>)

  function FindByOrder(assignments: seq<Assignment>, company: string, order: Id): (r: Option<Id>)
    ensures r.Some? ==> r.value < |assignments| && assignments[r.value].company == company && assignments[r.value].order == order
    ensures r.None? ==> forall a :: a in assignments ==> a.company != company || a.order != order
  {
    if assignments == [] then None
    else
      var n := |assignments| - 1;
      var earlier := FindByOrder(assignments[..n], company, order);
      assert assignments == assignments[..n] + [assignments[n]];
      if earlier.Some? then earlier
      else if assignments[n].company == company && assignments[n].order == order then Some(n) else None
  }

  /** create_assignment. `hasAddress`: the order's customer and a delivery address are available. */
  function Create(d: Desk, company: string, admin: Id, order: Id, rider: Id, hasAddress: bool): Result<(Desk, Id), Error> {
    if order !in d.orders || d.orders[order].company != company then Failure(OrderMissing)
    else if !d.orders[order].ready then Failure(OrderNotReady)
    else if FindByOrder(d.assignments, company, order).Some? then Failure(AlreadyAssigned)
    else if (company, rider) !in d.riders then Failure(NotARider)
    else if !hasAddress then Failure(CustomerUnavailable)
    else
      var id := |d.assignments|;
      Success((d.(assignments := d.assignments + [Assignment(company, order, rider, admin, Assigned, None, None, None, None, None)],
                  history := d.history + [History(id, None, Assigned, admin)]), id))
  }

  function Reassign(d: Desk, company: string, admin: Id, id: Id, rider: Id): Result<Desk, Error> {
    if id >= |d.assignments| || d.assignments[id].company != company then Failure(AssignmentMissing)
    else if d.assignments[id].status.Delivered? || d.assignments[id].status.Cancelled? then Failure(NotReassignable)
    else if (company, rider) !in d.riders then Failure(NotARider)
    else Success(d.(assignments := d.assignments[id := d.assignments[id].(rider := rider, assignedBy := admin)]))
  }

  predicate Blank(reason: Option<string>) {
    reason.None? || forall i :: 0 <= i < |reason.value| ==> IsSpace(reason.value[i])
  }

  function Stamped(a: Assignment, status: Status, now: int, reason: Option<string>): Assignment {
    match status
    case Assigned => a.(status := status)
    case PickedUp => a.(status := status, pickedUpAt := Some(now))
    case OutForDelivery => a.(status := status, outForDeliveryAt := Some(now))
    case Delivered => a.(status := status, deliveredAt := Some(now))
    case Failed => a.(status := status, failedAt := Some(now), failureReason := reason)
    case Cancelled => a.(status := status, failureReason := reason)
  }

  /** change_assignment_status, by the assignment's own rider. */
  function Change(d: Desk, company: string, rider: Id, id: Id, status: Status, now: int, reason: Option<string>): Result<Desk, Error> {
    if id >= |d.assignments| || d.assignments[id].company != company || d.assignments[id].rider != rider then Failure(AssignmentMissing)
    else if status !in Transitions(d.assignments[id].status) then Failure(IllegalTransition)
    else if (status.Failed? || status.Cancelled?) && Blank(reason) then Failure(ReasonRequired)
    else Success(d.(assignments := d.assignments[id := Stamped(d.assignments[id], status, now, reason)],
                    history := d.history + [History(id, Some(d.assignments[id].status), status, rider)]))
  }

  // ----- the tables -----

  class DeliveryDesk {
    var assignments: seq<Assignment>
    var history: seq<History>
    var orders: map<Id, Order>
    var riders: set<(string, Id)>

    function Contents(): Desk
      reads this
    {
      Desk(assignments, history, orders, riders)
    }

    method CreateAssignment(company: string, admin: Id, order: Id, rider: Id, hasAddress: bool) returns (r: Result<Id, Error>)
      modifies this`assignments, this`history
      ensures match Create(old(Contents()), company, admin, order, rider, hasAddress)
              case Success((after, id)) => Contents() == after && r == Success(id)
              case Failure(e) => Contents() == old(Contents()) && r == Failure(e)
    {
      if order !in orders || orders[order].company != company {
        return Failure(OrderMissing);
      }
      if !orders[order].ready {
        return Failure(OrderNotReady);
      }
      if FindByOrder(assignments, company, order).Some? {
        return Failure(AlreadyAssigned);
      }
      if (company, rider) !in riders {
        return Failure(NotARider);
      }
      if !hasAddress {
        return Failure(CustomerUnavailable);
      }
      var id := |assignments|;
      assignments := assignments + [Assignment(company, order, rider, admin, Assigned, None, None, None, None, None)];
      history := history + [History(id, None, Assigned, admin)];
      r := Success(id);
    }

    method ReassignAssignment(company: string, admin: Id, id: Id, rider: Id) returns (r: Result<(), Error>)
      modifies this`assignments
      ensures match Reassign(old(Contents()), company, admin, id, rider)
              case Success(after) => Contents() == after && r == Success(())
              case Failure(e) => Contents() == old(Contents()) && r == Failure(e)
    {
      if id >= |assignments| || assignments[id].company != company {
        return Failure(AssignmentMissing);
      }
      if assignments[id].status.Delivered? || assignments[id].status.Cancelled? {
        return Failure(NotReassignable);
      }
      if (company, rider) !in riders {
        return Failure(NotARider);
      }
      assignments := assignments[id := assignments[id].(rider := rider, assignedBy := admin)];
      r := Success(());
    }

    method ChangeAssignmentStatus(company: string, rider: Id, id: Id, status: Status, now: int, reason: Option<string>)
      returns (r: Result<(), Error>)
      modifies this`assignments, this`history
      ensures match Change(old(Contents()), company, rider, id, status, now, reason)
              case Success(after) => Contents() == after && r == Success(())
              case Failure(e) => Contents() == old(Contents()) && r == Failure(e)
    {
      if id >= |assignments| || assignments[id].company != company || assignments[id].rider != rider {
        return Failure(AssignmentMissing);
      }
      if status !in Transitions(assignments[id].status) {
        return Failure(IllegalTransition);
      }
      if (status.Failed? || status.Cancelled?) && Blank(reason) {
        return Failure(ReasonRequired);
      }
      var previous, row := assignments[id].status, assignments[id].(status := status);
      if status.PickedUp? {
        row := row.(pickedUpAt := Some(now));
      } else if status.OutForDelivery? {
        row := row.(outForDeliveryAt := Some(now));
      } else if status.Delivered? {
        row := row.(deliveredAt := Some(now));
      } else if status.Failed? {
        row := row.(failedAt := Some(now), failureReason := reason);
      } else if status.Cancelled? {
        row := row.(failureReason := reason);
      }
      assignments := assignments[id := row];
      history := history + [History(id, Some(previous), status, rider)];
      r := Success(());
    }
  }

  // ----- what each request answers -----

  /** Any delivery that is not over can fail; only an assigned one can be cancelled; otherwise it moves
      one stage forward: assigned, picked up, out for delivery, delivered. */
  lemma TransitionsIff(s: Status, t: Status)
    ensures t in Transitions(s)
       <==> || (t == Failed && s != Delivered && s != Failed && s != Cancelled)
            || (t == Cancelled && s == Assigned)
            || (s, t) == (Assigned, PickedUp) || (s, t) == (PickedUp, OutForDelivery) || (s, t) == (OutForDelivery, Delivered)
    ensures t in Transitions(s) ==> Rank(t) < Rank(s)
    ensures Terminal(s) <==> s == Delivered || s == Failed || s == Cancelled
  {
    assert Failed in Transitions(Assigned) && Failed in Transitions(PickedUp) && Failed in Transitions(OutForDelivery);
  }

  /** An order is assigned if and only if it is the company's, ready and not assigned yet, the rider is
      one of the company's and there is an address; the assignment starts fresh, with one history row. */
  lemma CreateOutcome(d: Desk, company: string, admin: Id, order: Id, rider: Id, hasAddress: bool)
    ensures var r := Create(d, company, admin, order, rider, hasAddress);
      && (r.Success? <==>
            && order in d.orders && d.orders[order] == Order(company, true)
            && (forall a :: a in d.assignments ==> a.company != company || a.order != order)
            && (company, rider) in d.riders && hasAddress)
      && (r.Success? ==>
            r.value == (d.(assignments := d.assignments
                             + [Assignment(company, order, rider, admin, Assigned, None, None, None, None, None)],
                           history := d.history + [History(|d.assignments|, None, Assigned, admin)]), |d.assignments|))
  {
    var found := FindByOrder(d.assignments, company, order);
    if found.Some? {
      assert d.assignments[found.value] in d.assignments;
    }
  }

  /** An assignment is handed over if and only if it is the company's, neither delivered nor cancelled,
      and the rider is the company's; it then has the new rider, who the admin assigned, and is
      otherwise as before. A failed delivery can be handed over, too. */
  lemma ReassignOutcome(d: Desk, company: string, admin: Id, id: Id, rider: Id)
    ensures var r := Reassign(d, company, admin, id, rider);
      && (r.Success? <==>
            && id < |d.assignments| && d.assignments[id].company == company && (company, rider) in d.riders
            && d.assignments[id].status != Delivered && d.assignments[id].status != Cancelled)
      && (r.Success? ==>
            && r.value.assignments == d.assignments[id := d.assignments[id].(rider := rider, assignedBy := admin)]
            && r.value.history == d.history && r.value.orders == d.orders && r.value.riders == d.riders)
  {
  }

  /** A status changes if and only if the assignment is this rider's, the transition is allowed, and a
      failure or cancellation has a reason; the new stage is stamped, the reason kept, and a history
      row from the old status to the new one added. */
  lemma ChangeOutcome(d: Desk, company: string, rider: Id, id: Id, status: Status, now: int, reason: Option<string>)
    ensures var r := Change(d, company, rider, id, status, now, reason);
      && (r.Success? <==>
            && id < |d.assignments| && d.assignments[id].company == company && d.assignments[id].rider == rider
            && status in Transitions(d.assignments[id].status)
            && (status == Failed || status == Cancelled ==>
                  reason.Some? && exists i :: 0 <= i < |reason.value| && !IsSpace(reason.value[i])))
      && (r.Success? ==>
            && r.value.history == d.history + [History(id, Some(d.assignments[id].status), status, rider)]
            && |r.value.assignments| == |d.assignments|
            && (forall i :: 0 <= i < |d.assignments| && i != id ==> r.value.assignments[i] == d.assignments[i])
            && Moved(d.assignments[id], r.value.assignments[id], status, now, reason))
  {
  }

  ghost predicate Moved(was: Assignment, a: Assignment, status: Status, now: int, reason: Option<string>) {
    && a.company == was.company && a.order == was.order && a.rider == was.rider && a.assignedBy == was.assignedBy
    && a.status == status
    && a.pickedUpAt == (if status == PickedUp then Some(now) else was.pickedUpAt)
    && a.outForDeliveryAt == (if status == OutForDelivery then Some(now) else was.outForDeliveryAt)
    && a.deliveredAt == (if status == Delivered then Some(now) else was.deliveredAt)
    && a.failedAt == (if status == Failed then Some(now) else was.failedAt)
    && a.failureReason == (if status == Failed || status == Cancelled then reason else was.failureReason)
  }

  // ----- one assignment's history -----

  /** The history rows of one assignment, in order. */
  function HistoryOf(history: seq<History>, id: Id): seq<History> {
    if history == [] then []
    else
      var last := history[|history| - 1];
      HistoryOf(history[..|history| - 1], id) + if last.assignment == id then [last] else []
  }

  lemma HistorySnoc(history: seq<History>, h: History, id: Id)
    ensures HistoryOf(history + [h], id) == HistoryOf(history, id) + if h.assignment == id then [h] else []
  {
    assert (history + [h])[..|history|] == history;
  }

  /** The rows start at `assigned`, each next row continues from where the last one ended through an
      allowed transition, and the last one ends at `current`. */
  ghost predicate Chain(rows: seq<History>, current: Status) {
    && rows != []
    && rows[0].from == None && rows[0].to == Assigned
    && (forall i :: 1 <= i < |rows| ==> rows[i].from == Some(rows[i - 1].to) && rows[i].to in Transitions(rows[i - 1].to))
    && rows[|rows| - 1].to == current
  }

  /** The stamps agree with the status. */
  ghost predicate Stamps(a: Assignment) {
    && (a.status == Assigned ==> a.pickedUpAt.None? && a.outForDeliveryAt.None?)
    && (a.status in {PickedUp, OutForDelivery, Delivered} ==> a.pickedUpAt.Some?)
    && (a.status in {OutForDelivery, Delivered} ==> a.outForDeliveryAt.Some?)
    && (a.status == Delivered <==> a.deliveredAt.Some?)
    && (a.status == Failed <==> a.failedAt.Some?)
    && (a.status in {Failed, Cancelled} <==> a.failureReason.Some?)
    && (a.failureReason.Some? ==> !Blank(a.failureReason))
  }

  ghost predicate Inv(d: Desk) {
    && (forall i, j :: 0 <= i < j < |d.assignments| ==>
          d.assignments[i].company != d.assignments[j].company || d.assignments[i].order != d.assignments[j].order)
    && (forall h :: h in d.history ==> h.assignment < |d.assignments|)
    && (forall i :: 0 <= i < |d.assignments| ==>
          Chain(HistoryOf(d.history, i), d.assignments[i].status) && Stamps(d.assignments[i]))
  }

  lemma {:induction false} NoHistoryYet(history: seq<History>, id: Id)
    requires forall h :: h in history ==> h.assignment != id
    ensures HistoryOf(history, id) == []
  {
    if history != [] {
      assert history[|history| - 1] in history;
      NoHistoryYet(history[..|history| - 1], id);
    }
  }

  lemma CreateKeeps(d: Desk, company: string, admin: Id, order: Id, rider: Id, hasAddress: bool)
    requires Inv(d) && Create(d, company, admin, order, rider, hasAddress).Success?
    ensures Inv(Create(d, company, admin, order, rider, hasAddress).value.0)
  {
    var id := |d.assignments|;
    var after := Create(d, company, admin, order, rider, hasAddress).value.0;
    NoHistoryYet(d.history, id);
    forall i | 0 <= i < |after.assignments|
      ensures Chain(HistoryOf(after.history, i), after.assignments[i].status) && Stamps(after.assignments[i])
    {
      HistorySnoc(d.history, History(id, None, Assigned, admin), i);
    }
    forall h | h in after.history ensures h.assignment < |after.assignments| {
      assert h in d.history || h == History(id, None, Assigned, admin);
    }
  }

  lemma ChangeKeeps(d: Desk, company: string, rider: Id, id: Id, status: Status, now: int, reason: Option<string>)
    requires Inv(d) && Change(d, company, rider, id, status, now, reason).Success?
    ensures Inv(Change(d, company, rider, id, status, now, reason).value)
  {
    var after := Change(d, company, rider, id, status, now, reason).value;
    var h := History(id, Some(d.assignments[id].status), status, rider);
    forall i | 0 <= i < |after.assignments|
      ensures Chain(HistoryOf(after.history, i), after.assignments[i].status) && Stamps(after.assignments[i])
    {
      HistorySnoc(d.history, h, i);
      assert Chain(HistoryOf(d.history, i), d.assignments[i].status) && Stamps(d.assignments[i]);
    }
    forall x | x in after.history ensures x.assignment < |after.assignments| {
      assert x in d.history || x == h;
    }
  }

  lemma ReassignKeeps(d: Desk, company: string, admin: Id, id: Id, rider: Id)
    requires Inv(d) && Reassign(d, company, admin, id, rider).Success?
    ensures Inv(Reassign(d, company, admin, id, rider).value)
  {
    var after := Reassign(d, company, admin, id, rider).value;
    forall i | 0 <= i < |after.assignments|
      ensures Chain(HistoryOf(after.history, i), after.assignments[i].status) && Stamps(after.assignments[i])
    {
      assert Chain(HistoryOf(d.history, i), d.assignments[i].status) && Stamps(d.assignments[i]);
    }
  }

  // ----- runs -----

  datatype Op =
    | Assign(company: string, admin: Id, order: Id, rider: Id, hasAddress: bool)
    | Hand(company: string, admin: Id, id: Id, rider: Id)
    | Move(company: string, rider: Id, id: Id, status: Status, now: int, reason: Option<string>)
    | Edit(orders: map<Id, Order>, riders: set<(string, Id)>)

  /** One request; a refusal rolls back. Orders and riders change freely in between. */
  function Step(d: Desk, op: Op): Desk {
    match op
    case Assign(c, admin, order, rider, hasAddress) =>
      var r := Create(d, c, admin, order, rider, hasAddress);
      if r.Success? then r.value.0 else d
    case Hand(c, admin, id, rider) =>
      var r := Reassign(d, c, admin, id, rider);
      if r.Success? then r.value else d
    case Move(c, rider, id, status, now, reason) =>
      var r := Change(d, c, rider, id, status, now, reason);
      if r.Success? then r.value else d
    case Edit(orders, riders) => d.(orders := orders, riders := riders)
  }

  function Run(d: Desk, ops: seq<Op>): Desk {
    if ops == [] then d else Step(Run(d, ops[..|ops| - 1]), ops[|ops| - 1])
  }

  /** A step is its request where that succeeds, and nothing where it fails. */
  lemma StepIsItsRequest(d: Desk, op: Op)
    ensures op.Assign? ==>
      var r := Create(d, op.company, op.admin, op.order, op.rider, op.hasAddress);
      Step(d, op) == if r.Success? then r.value.0 else d
    ensures op.Hand? ==>
      var r := Reassign(d, op.company, op.admin, op.id, op.rider);
      Step(d, op) == if r.Success? then r.value else d
    ensures op.Move? ==>
      var r := Change(d, op.company, op.rider, op.id, op.status, op.now, op.reason);
      Step(d, op) == if r.Success? then r.value else d
    ensures op.Edit? ==> Step(d, op) == Desk(d.assignments, d.history, op.orders, op.riders)
  {
  }

  const EMPTY_DESK := Desk([], [], map[], {})

  lemma StepKeeps(d: Desk, op: Op)
    requires Inv(d)
    ensures Inv(Step(d, op))
  {
    match op
    case Assign(c, admin, order, rider, hasAddress) =>
      if Create(d, c, admin, order, rider, hasAddress).Success? {
        CreateKeeps(d, c, admin, order, rider, hasAddress);
      }
    case Hand(c, admin, id, rider) =>
      if Reassign(d, c, admin, id, rider).Success? {
        ReassignKeeps(d, c, admin, id, rider);
      }
    case Move(c, rider, id, status, now, reason) =>
      if Change(d, c, rider, id, status, now, reason).Success? {
        ChangeKeeps(d, c, rider, id, status, now, reason);
      }
    case Edit(_, _) =>
  }

  /** In every run each order has at most one assignment, and each assignment's history is a chain of
      allowed transitions from assigned to its current status, with matching time stamps. */
  lemma {:induction false} RunKeeps(ops: seq<Op>)
    ensures Inv(Run(EMPTY_DESK, ops))
  {
    if ops != [] {
      RunKeeps(ops[..|ops| - 1]);
      StepKeeps(Run(EMPTY_DESK, ops[..|ops| - 1]), ops[|ops| - 1]);
    }
  }

  // ----- what a chain says -----

  /** Every step lowers the rank, so a history has at most four rows. */
  lemma {:induction false} ChainIsShort(rows: seq<History>, current: Status)
    requires Chain(rows, current)
    ensures |rows| + Rank(current) <= 4
  {
    if |rows| > 1 {
      var init := rows[..|rows| - 1];
      assert Chain(init, init[|init| - 1].to);
      ChainIsShort(init, init[|init| - 1].to);
    }
  }

  /** A delivered assignment was assigned, picked up and out for delivery, one after the other. */
  lemma DeliveredChain(rows: seq<History>)
    requires Chain(rows, Delivered)
    ensures |rows| == 4
    ensures rows[0].to == Assigned && rows[1].to == PickedUp && rows[2].to == OutForDelivery && rows[3].to == Delivered
  {
    ChainIsShort(rows, Delivered);
    var n := |rows| - 1;
    assert n >= 1 && rows[n].to in Transitions(rows[n - 1].to);
    assert rows[n - 1].to == OutForDelivery;
    assert n >= 2 && rows[n - 1].to in Transitions(rows[n - 2].to);
    assert rows[n - 2].to == PickedUp;
    assert n >= 3 && rows[n - 2].to in Transitions(rows[n - 3].to);
  }

  /** In every run: histories have at most four rows, and delivered means the full path was taken. */
  lemma ReachableHistories(ops: seq<Op>, id: Id)
    requires id < |Run(EMPTY_DESK, ops).assignments|
    ensures var d := Run(EMPTY_DESK, ops);
      var rows := HistoryOf(d.history, id);
      && 1 <= |rows| <= 4 - Rank(d.assignments[id].status)
      && (d.assignments[id].status == Delivered ==>
            |rows| == 4 && rows[1].to == PickedUp && rows[2].to == OutForDelivery
            && d.assignments[id].pickedUpAt.Some? && d.assignments[id].outForDeliveryAt.Some?)
  {
    RunKeeps(ops);
    var d := Run(EMPTY_DESK, ops);
    ChainIsShort(HistoryOf(d.history, id), d.assignments[id].status);
    if d.assignments[id].status == Delivered {
      DeliveredChain(HistoryOf(d.history, id));
    }
  }

  /** A terminal status never changes again, not even under reassignment; neither does the order an
      assignment is for. */
  lemma {:induction false} TerminalIsFinal(d: Desk, ops: seq<Op>, id: Id)
    requires id < |d.assignments|
    ensures var later := Run(d, ops);
      && id < |later.assignments|
      && later.assignments[id].order == d.assignments[id].order && later.assignments[id].company == d.assignments[id].company
      && Rank(later.assignments[id].status) <= Rank(d.assignments[id].status)
      && (Terminal(d.assignments[id].status) ==> later.assignments[id].status == d.assignments[id].status)
  {
    if ops != [] {
      TerminalIsFinal(d, ops[..|ops| - 1], id);
      StepMovesForward(Run(d, ops[..|ops| - 1]), ops[|ops| - 1], id);
    }
  }

  /** One step leaves an assignment's status alone or moves it along an allowed transition, which
      lowers its rank; it never changes the order it is for. */
  lemma StepMovesForward(d: Desk, op: Op, id: Id)
    requires id < |d.assignments|
    ensures var after := Step(d, op);
      && id < |after.assignments|
      && after.assignments[id].order == d.assignments[id].order && after.assignments[id].company == d.assignments[id].company
      && (after.assignments[id].status == d.assignments[id].status
          || (after.assignments[id].status in Transitions(d.assignments[id].status)
              && Rank(after.assignments[id].status) < Rank(d.assignments[id].status)))
  {
  }
}
