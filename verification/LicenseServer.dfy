/** The license server of license_server/main.py: activations of one key race as separate
    transactions (look up, insert, look up again after a unique-key violation) with each other and
    with revokes and renews. */
module LicenseServer {
  import opened Wrappers

  datatype Status = Active | Revoked

  /** The columns that are handed out and signed. Times are in seconds. */
  datatype Terms = Terms(id: string, keyHash: string, device: string, status: Status, plan: string,
                         activatedAt: int, expiresAt: int, graceExpiresAt: int)

  /** A row: its terms, and the terms its stored signed payload states. */
  datatype Record = Record(terms: Terms, signed: Terms)

  const DAY := 86400

  /** The license id is the first 24 characters of the key hash. */
  function IdOf(keyHash: string): string {
    if |keyHash| <= 24 then keyHash else keyHash[..24]
  }

  function NewRecord(keyHash: string, device: string, plan: string, now: int): Record {
    var terms := Terms(IdOf(keyHash), keyHash, device, Active, plan, now, now + 365 * DAY, now + (365 + 14) * DAY);
    Record(terms, terms)
  }

  function RevokedRecord(r: Record): Record {
    var terms := r.terms.(status := Revoked);
    Record(terms, terms)
  }

  function RenewedRecord(r: Record, now: int, days: nat): Record {
    var terms := r.terms.(status := Active, expiresAt := now + days * DAY, graceExpiresAt := now + (days + 14) * DAY);
    Record(terms, terms)
  }

  /** How a row is named: by the key's hash when one is given, otherwise by license id. */
  datatype Name = Name(id: Option<string>, keyHash: Option<string>)

  predicate Names(n: Name, r: Record) {
    if Given(n.keyHash) then r.terms.keyHash == n.keyHash.value
    else Given(n.id) && r.terms.id == n.id.value
  }

  /** find_record: the first row with that name. */
  function Find(records: seq<Record>, n: Name): (r: Option<nat>)
    ensures r.Some? ==> r.value < |records| && Names(n, records[r.value])
    ensures r.None? ==> forall x :: x in records ==> !Names(n, x)
  {
    if records == [] then None
    else
      var last := |records| - 1;
      var earlier := Find(records[..last], n);
      assert records == records[..last] + [records[last]];
      if earlier.Some? then earlier else if Names(n, records[last]) then Some(last) else None
  }

  function ByHash(keyHash: string): Name {
    Name(None, Some(keyHash))
  }

  // ----- requests in flight -----

  datatype Activation = Activation(keyHash: string, device: string, plan: string)

  /** Where an activation stands between its transactions. */
  datatype Phase =
    | Inserting(activation: Activation)   // its lookup found no row
    | Committed(activation: Activation)   // its row is in; the reply re-reads it
    | Conflicted(activation: Activation)  // its insert hit a unique constraint

  datatype Answer = Granted(terms: Terms) | BoundToAnotherDevice | ServerFault

  datatype Reply = Reply(activation: Activation, answer: Answer)

  datatype Server = Server(records: seq<Record>, inFlight: map<nat, Phase>, replies: seq<Reply>)

  datatype Event =
    | LookUp(request: nat, activation: Activation)
    | Insert(request: nat, now: int)
    | LookUpAgain(request: nat)
    | Reread(request: nat)
    | Revoke(name: Name)
    | Renew(name: Name, now: int, days: nat)

  /** The first transaction's answer, when it finds a row: a revoked license is handed back as it
      is, any other only to its own device. */
  function FirstAnswer(r: Record, a: Activation): Answer {
    if r.terms.status == Revoked then Granted(r.terms)
    else if r.terms.device != a.device then BoundToAnotherDevice
    else Granted(r.terms)
  }

  /** The answer after a unique-key violation. */
  function SecondAnswer(records: seq<Record>, a: Activation): Answer {
    var found := Find(records, ByHash(a.keyHash));
    if found.None? then ServerFault
    else if records[found.value].terms.device != a.device then BoundToAnotherDevice
    else Granted(records[found.value].terms)
  }

  /** The unique constraints of the table: the key hash, and the license id as primary key. */
  predicate Violates(records: seq<Record>, r: Record) {
    exists x :: x in records && (x.terms.keyHash == r.terms.keyHash || x.terms.id == r.terms.id)
  }

  function Finish(s: Server, request: nat, a: Activation, answer: Answer): Server {
    s.(inFlight := s.inFlight - {request}, replies := s.replies + [Reply(a, answer)])
  }

  /** One transaction of one request. An event that does not apply does nothing. */
  function Step(s: Server, e: Event): Server {
    match e
    case LookUp(request, a) =>
      if request in s.inFlight then s
      else
        var found := Find(s.records, ByHash(a.keyHash));
        if found.Some? then Finish(s, request, a, FirstAnswer(s.records[found.value], a))
        else s.(inFlight := s.inFlight[request := Inserting(a)])
    case Insert(request, now) =>
      if request !in s.inFlight || !s.inFlight[request].Inserting? then s
      else
        var a := s.inFlight[request].activation;
        var r := NewRecord(a.keyHash, a.device, a.plan, now);
        if Violates(s.records, r) then s.(inFlight := s.inFlight[request := Conflicted(a)])
        else s.(records := s.records + [r], inFlight := s.inFlight[request := Committed(a)])
    case LookUpAgain(request) =>
      if request !in s.inFlight || !s.inFlight[request].Conflicted? then s
      else
        var a := s.inFlight[request].activation;
        Finish(s, request, a, SecondAnswer(s.records, a))
    case Reread(request) =>
      if request !in s.inFlight || !s.inFlight[request].Committed? then s
      else
        var a := s.inFlight[request].activation;
        var found := Find(s.records, Name(Some(IdOf(a.keyHash)), None));
        Finish(s, request, a, if found.None? then ServerFault else Granted(s.records[found.value].terms))
    case Revoke(name) =>
      var found := Find(s.records, name);
      if found.None? then s else s.(records := s.records[found.value := RevokedRecord(s.records[found.value])])
    case Renew(name, now, days) =>
      var found := Find(s.records, name);
      if found.None? then s else s.(records := s.records[found.value := RenewedRecord(s.records[found.value], now, days)])
  }

  function Run(s: Server, events: seq<Event>): Server {
    if events == [] then s else Step(Run(s, events[..|events| - 1]), events[|events| - 1])
  }

  // ----- the table -----

  class LicenseTable {
    var records: seq<Record>

    method FindRecord(n: Name) returns (found: Option<nat>)
      ensures found == Find(records, n)
    {
      found := None;
      for i := 0 to |records|
        invariant found == Find(records[..i], n)
      {
        assert records[..i + 1][..i] == records[..i];
        if found.None? && Names(n, records[i]) {
          found := Some(i);
        }
      }
      assert records[..|records|] == records;
    }

    /** Adds the row unless a unique constraint refuses it. */
    method InsertRecord(a: Activation, now: int) returns (inserted: bool)
      modifies this
      ensures inserted == !Violates(old(records), NewRecord(a.keyHash, a.device, a.plan, now))
      ensures records == if inserted then old(records) + [NewRecord(a.keyHash, a.device, a.plan, now)] else old(records)
    {
      var r := NewRecord(a.keyHash, a.device, a.plan, now);
      inserted := !Violates(records, r);
      if inserted {
        records := records + [r];
      }
    }

    method RevokeRecord(n: Name) returns (answer: Option<Terms>)
      modifies this
      ensures records == Step(Server(old(records), map[], []), Revoke(n)).records && |records| == |old(records)|
      ensures answer == if Find(old(records), n).Some? then Some(records[Find(old(records), n).value].terms) else None
      ensures answer.Some? ==> answer.value == old(records)[Find(old(records), n).value].terms.(status := Revoked)
    {
      var found := FindRecord(n);
      if found.None? {
        return None;
      }
      records := records[found.value := RevokedRecord(records[found.value])];
      answer := Some(records[found.value].terms);
    }

    method RenewRecord(n: Name, now: int, days: nat) returns (answer: Option<Terms>)
      modifies this
      ensures records == Step(Server(old(records), map[], []), Renew(n, now, days)).records && |records| == |old(records)|
      ensures answer == if Find(old(records), n).Some? then Some(records[Find(old(records), n).value].terms) else None
      ensures answer.Some? ==>
        answer.value == old(records)[Find(old(records), n).value].terms.(
          status := Active, expiresAt := now + days * 86400, graceExpiresAt := now + (days + 14) * 86400)
    {
      var found := FindRecord(n);
      if found.None? {
        return None;
      }
      records := records[found.value := RenewedRecord(records[found.value], now, days)];
      answer := Some(records[found.value].terms);
    }
  }

  // ----- invariants -----

  /** One row per key and per license id; every stored signature states the row's own terms, and the
      grace period ends 14 days after the license expires. */
  ghost predicate TableInv(records: seq<Record>) {
    && (forall i, j :: 0 <= i < j < |records| ==>
          records[i].terms.keyHash != records[j].terms.keyHash && records[i].terms.id != records[j].terms.id)
    && (forall i :: 0 <= i < |records| ==>
          && records[i].signed == records[i].terms && records[i].terms.id == IdOf(records[i].terms.keyHash)
          && records[i].terms.graceExpiresAt == records[i].terms.expiresAt + 14 * DAY)
  }

  ghost predicate HasRow(records: seq<Record>, keyHash: string, device: string) {
    exists i :: 0 <= i < |records| && records[i].terms.keyHash == keyHash && records[i].terms.device == device
  }

  /** A granted reply names the key's own row; a usable one also carries the requester's device. */
  ghost predicate HonestReply(records: seq<Record>, r: Reply) {
    r.answer.Granted? ==>
      var t := r.answer.terms;
      && t.keyHash == r.activation.keyHash && t.id == IdOf(t.keyHash)
      && HasRow(records, t.keyHash, t.device)
      && (t.status == Active ==> t.device == r.activation.device)
  }

  ghost predicate Inv(s: Server) {
    && TableInv(s.records)
    && (forall q :: q in s.inFlight && s.inFlight[q].Committed? ==>
          HasRow(s.records, s.inFlight[q].activation.keyHash, s.inFlight[q].activation.device))
    && (forall r :: r in s.replies ==> HonestReply(s.records, r))
  }

  /** Rows are only added; their key, id, device and plan never change. */
  ghost predicate Keeps(records: seq<Record>, later: seq<Record>) {
    && |records| <= |later|
    && forall i :: 0 <= i < |records| ==>
         later[i].terms == records[i].terms.(status := later[i].terms.status, expiresAt := later[i].terms.expiresAt,
                                             graceExpiresAt := later[i].terms.graceExpiresAt)
  }

  lemma StepKeepsRows(s: Server, e: Event)
    ensures Keeps(s.records, Step(s, e).records)
  {
  }

  lemma RowSurvives(records: seq<Record>, later: seq<Record>, keyHash: string, device: string)
    requires Keeps(records, later) && HasRow(records, keyHash, device)
    ensures HasRow(later, keyHash, device)
  {
    var i :| 0 <= i < |records| && records[i].terms.keyHash == keyHash && records[i].terms.device == device;
    assert later[i].terms.keyHash == keyHash && later[i].terms.device == device;
  }

  lemma StepKeepsTable(s: Server, e: Event)
    requires TableInv(s.records)
    ensures TableInv(Step(s, e).records)
  {
  }

  /** The reply an event produces is honest. */
  lemma NewReplyIsHonest(s: Server, e: Event)
    requires Inv(s) && Step(s, e).replies != s.replies
    ensures |Step(s, e).replies| == |s.replies| + 1 && Step(s, e).replies[..|s.replies|] == s.replies
    ensures HonestReply(Step(s, e).records, Step(s, e).replies[|s.replies|])
  {
    match e
    case LookUp(request, a) =>
      var found := Find(s.records, ByHash(a.keyHash)).value;
      assert a.keyHash != "" && HasRow(s.records, a.keyHash, s.records[found].terms.device);
    case LookUpAgain(request) =>
      var a := s.inFlight[request].activation;
      var found := Find(s.records, ByHash(a.keyHash));
      if found.Some? {
        assert HasRow(s.records, a.keyHash, s.records[found.value].terms.device);
      }
    case Reread(request) =>
      var a := s.inFlight[request].activation;
      var i :| 0 <= i < |s.records| && s.records[i].terms.keyHash == a.keyHash && s.records[i].terms.device == a.device;
      var found := Find(s.records, Name(Some(IdOf(a.keyHash)), None));
      if found.Some? {
        assert found.value == i;
      }
    case _ =>
  }

  lemma HonestReplySurvives(records: seq<Record>, later: seq<Record>, r: Reply)
    requires Keeps(records, later) && HonestReply(records, r)
    ensures HonestReply(later, r)
  {
    if r.answer.Granted? {
      RowSurvives(records, later, r.answer.terms.keyHash, r.answer.terms.device);
    }
  }

  lemma InFlightStays(s: Server, e: Event)
    requires Inv(s)
    ensures var t := Step(s, e);
      forall q :: q in t.inFlight && t.inFlight[q].Committed? ==>
        HasRow(t.records, t.inFlight[q].activation.keyHash, t.inFlight[q].activation.device)
  {
    var t := Step(s, e);
    StepKeepsRows(s, e);
    forall q | q in t.inFlight && t.inFlight[q].Committed?
      ensures HasRow(t.records, t.inFlight[q].activation.keyHash, t.inFlight[q].activation.device)
    {
      var a := t.inFlight[q].activation;
      if q in s.inFlight && s.inFlight[q] == t.inFlight[q] {
        RowSurvives(s.records, t.records, a.keyHash, a.device);
      } else {
        assert t.records[|s.records|].terms.keyHash == a.keyHash;
      }
    }
  }

  lemma StepKeepsInv(s: Server, e: Event)
    requires Inv(s)
    ensures Inv(Step(s, e))
  {
    var t := Step(s, e);
    StepKeepsTable(s, e);
    StepKeepsRows(s, e);
    InFlightStays(s, e);
    if t.replies != s.replies {
      NewReplyIsHonest(s, e);
    }
    forall r | r in t.replies ensures HonestReply(t.records, r) {
      if r in s.replies {
        HonestReplySurvives(s.records, t.records, r);
      } else {
        assert t.replies == t.replies[..|s.replies|] + [t.replies[|s.replies|]];
      }
    }
  }

  const FRESH_SERVER := Server([], map[], [])

  /** Over every interleaving: at most one record per key, honest signatures, honest replies. */
  lemma {:induction false} RunKeepsInv(events: seq<Event>)
    ensures Inv(Run(FRESH_SERVER, events))
  {
    if events != [] {
      RunKeepsInv(events[..|events| - 1]);
      StepKeepsInv(Run(FRESH_SERVER, events[..|events| - 1]), events[|events| - 1]);
    }
  }

  /** A record's key, license id and device never change, whatever happens later. */
  lemma {:induction false} RecordsNeverRebind(s: Server, events: seq<Event>)
    ensures Keeps(s.records, Run(s, events).records)
  {
    if events != [] {
      RecordsNeverRebind(s, events[..|events| - 1]);
      StepKeepsRows(Run(s, events[..|events| - 1]), events[|events| - 1]);
    }
  }

  /** However many activations of one key race, all granted replies name the same license, and the
      usable ones all carry the same device, each its own requester's. */
  lemma RacingActivationsAgree(events: seq<Event>, a: Reply, b: Reply)
    requires a in Run(FRESH_SERVER, events).replies && b in Run(FRESH_SERVER, events).replies
    requires a.answer.Granted? && b.answer.Granted? && a.activation.keyHash == b.activation.keyHash
    ensures a.answer.terms.id == b.answer.terms.id && a.answer.terms.device == b.answer.terms.device
    ensures a.answer.terms.status == Active ==> a.answer.terms.device == a.activation.device
    ensures a.answer.terms.status == Active && b.answer.terms.status == Active ==> a.activation.device == b.activation.device
  {
    RunKeepsInv(events);
    var s := Run(FRESH_SERVER, events);
    assert HonestReply(s.records, a) && HonestReply(s.records, b);
    var i :| 0 <= i < |s.records| && s.records[i].terms.keyHash == a.answer.terms.keyHash && s.records[i].terms.device == a.answer.terms.device;
    var j :| 0 <= j < |s.records| && s.records[j].terms.keyHash == b.answer.terms.keyHash && s.records[j].terms.device == b.answer.terms.device;
    assert i == j;
  }

  /** The event is a renew that names this row. */
  predicate Renews(e: Event, r: Record) {
    e.Renew? && Names(e.name, r)
  }

  /** A revoked license stays revoked through any run without a renew of it: no activation, however
      it races, brings it back. */
  lemma {:induction false} RevokedUntilRenewed(s: Server, events: seq<Event>, i: nat)
    requires i < |s.records| && s.records[i].terms.status == Revoked
    requires forall e :: e in events ==> !Renews(e, s.records[i])
    ensures i < |Run(s, events).records| && Run(s, events).records[i].terms.status == Revoked
  {
    if events != [] {
      var init, last := events[..|events| - 1], events[|events| - 1];
      assert forall e :: e in init ==> e in events;
      assert last in events;
      RevokedUntilRenewed(s, init, i);
      RecordsNeverRebind(s, init);
      var before := Run(s, init);
      assert before.records[i].terms.id == s.records[i].terms.id && before.records[i].terms.keyHash == s.records[i].terms.keyHash;
      RevokedStep(before, last, i);
    }
  }

  lemma RevokedStep(s: Server, e: Event, i: nat)
    requires i < |s.records| && s.records[i].terms.status == Revoked && !Renews(e, s.records[i])
    ensures i < |Step(s, e).records| && Step(s, e).records[i].terms.status == Revoked
  {
  }

  /** While it is revoked, every activation of the key that is answered from the table is handed the
      revoked terms or refused: never usable terms. */
  lemma RevokedKeyIsNotUsable(s: Server, e: Event, i: nat)
    requires Inv(s) && i < |s.records| && s.records[i].terms.status == Revoked
    requires Step(s, e).replies != s.replies
    ensures var r := Step(s, e).replies[|s.replies|];
      r.activation.keyHash == s.records[i].terms.keyHash && r.answer.Granted? ==> r.answer.terms.status == Revoked
  {
    NewReplyIsHonest(s, e);
    var r := Step(s, e).replies[|s.replies|];
    if r.activation.keyHash == s.records[i].terms.keyHash && r.answer.Granted? {
      assert exists j :: 0 <= j < |s.records| && s.records[j].terms == r.answer.terms && s.records[j].terms.keyHash == r.activation.keyHash;
    }
  }

  /** A renew makes exactly the row it names active, for the given days from now and 14 days of grace,
      and signs it anew; nothing else in that row changes, and no other row does. */
  lemma RenewReactivates(s: Server, name: Name, now: int, days: nat, i: nat)
    requires Inv(s) && i < |s.records| && Names(name, s.records[i])
    ensures var after := Step(s, Renew(name, now, days));
      var terms := s.records[i].terms.(status := Active, expiresAt := now + days * 86400, graceExpiresAt := now + (days + 14) * 86400);
      after == s.(records := s.records[i := Record(terms, terms)])
  {
    assert s.records[i] in s.records;
    assert Find(s.records, name) == Some(i);
  }

  /** A revoke revokes exactly the row it names and signs it anew; nothing else in that row changes,
      and no other row does. */
  lemma RevokeHitsItsRow(s: Server, name: Name, i: nat)
    requires Inv(s) && i < |s.records| && Names(name, s.records[i])
    ensures var after := Step(s, Revoke(name));
      var terms := s.records[i].terms.(status := Revoked);
      after == s.(records := s.records[i := Record(terms, terms)])
  {
    assert s.records[i] in s.records;
    assert Find(s.records, name) == Some(i);
  }

  /** A name that no row has revokes and renews nothing. */
  lemma UnknownNameChangesNothing(s: Server, name: Name, now: int, days: nat)
    requires forall r :: r in s.records ==> !Names(name, r)
    ensures Step(s, Revoke(name)) == s && Step(s, Renew(name, now, days)) == s
  {
  }

  // ----- what an activation is answered -----

  /** The key's row, if the key has one, decides the first answer: revoked terms for anybody, usable
      terms for their own device, a refusal for any other. */
  lemma FirstAnswerOfRow(s: Server, request: nat, a: Activation, i: nat)
    requires Inv(s) && request !in s.inFlight && i < |s.records|
    requires a.keyHash != "" && s.records[i].terms.keyHash == a.keyHash
    ensures var t := s.records[i].terms;
      Step(s, LookUp(request, a)) == s.(replies := s.replies +
        [Reply(a, if t.status == Active && t.device != a.device then BoundToAnotherDevice else Granted(t))])
  {
    assert s.records[i] in s.records;
    assert Find(s.records, ByHash(a.keyHash)) == Some(i);
    assert s.inFlight - {request} == s.inFlight;
  }

  /** A key without a row goes on to insert one, for its own device and 365 days, unless key or id
      turns out to be taken by then. */
  lemma NewKeyIsInserted(s: Server, request: nat, a: Activation, now: int)
    requires request !in s.inFlight && forall r :: r in s.records ==> !Names(ByHash(a.keyHash), r)
    ensures var asked := Step(s, LookUp(request, a));
      var id := if |a.keyHash| <= 24 then a.keyHash else a.keyHash[..24];
      var terms := Terms(id, a.keyHash, a.device, Active, a.plan, now, now + 365 * 86400, now + 379 * 86400);
      && asked == s.(inFlight := s.inFlight[request := Inserting(a)])
      && Step(asked, Insert(request, now))
         == if forall r :: r in s.records ==> r.terms.keyHash != a.keyHash && r.terms.id != id
            then s.(records := s.records + [Record(terms, terms)], inFlight := s.inFlight[request := Committed(a)])
            else s.(inFlight := s.inFlight[request := Conflicted(a)])
  {
  }

  /** An activation that lost the race is answered from the winner's row, by device alone. */
  lemma SecondAnswerOfRow(s: Server, request: nat, a: Activation, i: nat)
    requires Inv(s) && request in s.inFlight && s.inFlight[request] == Conflicted(a) && i < |s.records|
    requires a.keyHash != "" && s.records[i].terms.keyHash == a.keyHash
    ensures var t := s.records[i].terms;
      Step(s, LookUpAgain(request)) == s.(inFlight := s.inFlight - {request}, replies := s.replies +
        [Reply(a, if t.device != a.device then BoundToAnotherDevice else Granted(t))])
  {
    assert s.records[i] in s.records;
    assert Find(s.records, ByHash(a.keyHash)) == Some(i);
  }

  /** An activation that won the race is granted its own row, as it is by then. */
  lemma CommittedIsGranted(s: Server, request: nat, a: Activation, i: nat)
    requires Inv(s) && request in s.inFlight && s.inFlight[request] == Committed(a) && i < |s.records|
    requires a.keyHash != "" && s.records[i].terms.keyHash == a.keyHash
    ensures Step(s, Reread(request))
         == s.(inFlight := s.inFlight - {request}, replies := s.replies + [Reply(a, Granted(s.records[i].terms))])
    ensures s.records[i].terms.device == a.device
  {
    assert s.records[i] in s.records;
    assert Find(s.records, Name(Some(IdOf(a.keyHash)), None)) == Some(i);
  }
}
