/** The desktop client's session (api_client.py): access and refresh tokens under a session lock,
    and a refresh lock that lets one thread at a time exchange the refresh token. The protocol is a
    state machine over the atomic steps of its threads; the fields and one thread running alone are
    the class at the end. */
module DesktopSession {
  import opened Wrappers

  /** Tokens are opaque; the server never issues the same one twice. */
  type Token = nat

  /** The fields guarded by the session lock. */
  datatype Memory = Memory(access: Option<Token>, refresh: Option<Token>, remembered: bool, generation: nat)

  datatype Tokens = Tokens(access: Token, refresh: Option<Token>)

  /** The critical section that ends install_session. */
  function Installed(m: Memory, t: Tokens, remembered: bool): Memory {
    Memory(Some(t.access), t.refresh, remembered, m.generation + 1)
  }

  /** _clear_memory_session. */
  function Cleared(m: Memory): Memory {
    Memory(None, None, false, m.generation + 1)
  }

  /** What a thread is doing: answering a 401, refreshing on the timer, restoring the saved login,
      installing a new login, or discarding the session (a logout or an ineligible account). */
  datatype Purpose =
    | Unauthorized(failed: Token)
    | Timer
    | Restore(saved: Token)
    | Login
    | SignOff

  predicate Locking(p: Purpose) {
    p.Unauthorized? || p.Timer? || p.Restore?
  }

  /** Where a thread stands. `rounds` counts the discards still to do: a failed install discards
      once itself and once more in the caller's handler. */
  datatype Pc =
    | Waiting(purpose: Purpose)
    | Reading(purpose: Purpose)
    | Calling(purpose: Purpose, remembered: bool)
    | Storing(purpose: Purpose, tokens: Tokens, remembered: bool)
    | Writing(purpose: Purpose, tokens: Tokens, remembered: bool)
    | ClearingKeyring(purpose: Purpose, rounds: nat)
    | ClearingMemory(purpose: Purpose, rounds: nat)

  predicate HoldsLock(pc: Pc) {
    Locking(pc.purpose) && !pc.Waiting?
  }

  /** One presentation of a refresh token to the server. */
  datatype Call = Call(purpose: Purpose, token: Token)

  /** What a refresh attempt handed back to its caller. */
  datatype Return = Return(purpose: Purpose, token: Option<Token>)

  datatype State = State(memory: Memory, keyring: Option<Token>, lock: Option<nat>, threads: map<nat, Pc>,
                         calls: seq<Call>, results: seq<Return>, nextToken: Token)

  datatype Event =
    | StartUnauthorized(thread: nat, failed: Token)
    | StartTimer(thread: nat)
    | StartRestore(thread: nat)
    | StartLogin(thread: nat, remembered: bool, withRefresh: bool)
    | StartSignOff(thread: nat)
    | Acquire(thread: nat)
    | Read(thread: nat)
    | Answer(thread: nat, accepted: bool, withRefresh: bool)
    | Store(thread: nat, works: bool)
    | Write(thread: nat)
    | ClearKeyring(thread: nat, works: bool)
    | ClearMemory(thread: nat)

  function Go(s: State, thread: nat, pc: Pc): State {
    s.(threads := s.threads[thread := pc])
  }

  /** The thread ends, releasing the refresh lock if it holds it. */
  function End(s: State, thread: nat, purpose: Purpose, token: Option<Token>): State {
    s.(threads := s.threads - {thread},
       lock := if Locking(purpose) then None else s.lock,
       results := if Locking(purpose) then s.results + [Return(purpose, token)] else s.results)
  }

  /** The server issues a fresh pair. */
  function Issue(s: State, withRefresh: bool): (State, Tokens) {
    (s.(nextToken := s.nextToken + 2), Tokens(s.nextToken, if withRefresh then Some(s.nextToken + 1) else None))
  }

  function Present(s: State, thread: nat, purpose: Purpose, token: Token, remembered: bool): State {
    Go(s, thread, Calling(purpose, remembered)).(calls := s.calls + [Call(purpose, token)])
  }

  /** The decision a lock holder takes on the credentials it reads. */
  function ReadStep(s: State, thread: nat, purpose: Purpose): State {
    match purpose
    case Unauthorized(failed) =>
      if s.memory.access.Some? && s.memory.access.value != failed then End(s, thread, purpose, s.memory.access)
      else if s.memory.refresh.None? then
        if s.memory.access == Some(failed) then Go(s, thread, ClearingKeyring(purpose, 1)) else End(s, thread, purpose, None)
      else Present(s, thread, purpose, s.memory.refresh.value, s.memory.remembered)
    case Timer =>
      if s.memory.refresh.None? then End(s, thread, purpose, None)
      else Present(s, thread, purpose, s.memory.refresh.value, s.memory.remembered)
    case Restore(saved) => Present(s, thread, purpose, saved, true)
    case Login => s
    case SignOff => s
  }

  /** The keyring step of install_session. */
  function StoreStep(s: State, thread: nat, pc: Pc, works: bool): State
    requires pc.Storing?
  {
    if works && (pc.remembered ==> pc.tokens.refresh.Some?) then
      Go(s, thread, Writing(pc.purpose, pc.tokens, pc.remembered)).(keyring := if pc.remembered then pc.tokens.refresh else None)
    else Go(s, thread, ClearingKeyring(pc.purpose, if Locking(pc.purpose) then 2 else 1))
  }

  /** One atomic step of one thread. An event that does not apply does nothing. */
  function Step(s: State, e: Event): State {
    match e
    case StartUnauthorized(t, failed) =>
      if t in s.threads || failed >= s.nextToken then s else Go(s, t, Waiting(Unauthorized(failed)))
    case StartTimer(t) =>
      if t in s.threads then s else Go(s, t, Waiting(Timer))
    case StartRestore(t) =>
      if t in s.threads || s.keyring.None? then s else Go(s, t, Waiting(Restore(s.keyring.value)))
    case StartLogin(t, remembered, withRefresh) =>
      if t in s.threads then s
      else
        var (issued, tokens) := Issue(s, withRefresh);
        Go(issued, t, Storing(Login, tokens, remembered))
    case StartSignOff(t) =>
      if t in s.threads then s else Go(s, t, ClearingKeyring(SignOff, 1))
    case Acquire(t) =>
      if t !in s.threads || !s.threads[t].Waiting? || s.lock.Some? then s
      else Go(s, t, Reading(s.threads[t].purpose)).(lock := Some(t))
    case Read(t) =>
      if t !in s.threads || !s.threads[t].Reading? then s else ReadStep(s, t, s.threads[t].purpose)
    case Answer(t, accepted, withRefresh) =>
      if t !in s.threads || !s.threads[t].Calling? then s
      else if accepted then
        var (issued, tokens) := Issue(s, withRefresh);
        Go(issued, t, Storing(s.threads[t].purpose, tokens, s.threads[t].remembered))
      else Go(s, t, ClearingKeyring(s.threads[t].purpose, 1))
    case Store(t, works) =>
      if t !in s.threads || !s.threads[t].Storing? then s else StoreStep(s, t, s.threads[t], works)
    case Write(t) =>
      if t !in s.threads || !s.threads[t].Writing? then s
      else
        var pc := s.threads[t];
        End(s.(memory := Installed(s.memory, pc.tokens, pc.remembered)), t, pc.purpose, Some(pc.tokens.access))
    case ClearKeyring(t, works) =>
      if t !in s.threads || !s.threads[t].ClearingKeyring? then s
      else
        Go(s, t, ClearingMemory(s.threads[t].purpose, s.threads[t].rounds)).(keyring := if works then None else s.keyring)
    case ClearMemory(t) =>
      if t !in s.threads || !s.threads[t].ClearingMemory? then s
      else
        var pc, cleared := s.threads[t], s.(memory := Cleared(s.memory));
        if pc.rounds > 1 then Go(cleared, t, ClearingKeyring(pc.purpose, pc.rounds - 1))
        else End(cleared, t, pc.purpose, None)
  }

  function Run(s: State, events: seq<Event>): State {
    if events == [] then s else Step(Run(s, events[..|events| - 1]), events[|events| - 1])
  }

  /** The client at launch: nothing in memory, perhaps a saved login from an earlier session. All
      tokens issued so far are below `nextToken`. */
  function Launched(saved: Option<Token>, nextToken: Token): State {
    State(Memory(None, None, false, 0), saved, None, map[], [], [], nextToken)
  }

  // ----- invariants -----

  predicate CarriesTokens(pc: Pc) {
    pc.Storing? || pc.Writing?
  }

  /** The lock holder has got past reading the credentials. */
  ghost predicate PastReading(s: State) {
    s.lock.Some? && s.lock.value in s.threads && !s.threads[s.lock.value].Reading?
  }

  ghost predicate Presented(calls: seq<Call>, token: Token) {
    exists c :: c in calls && c.token == token
  }

  ghost predicate CalledFor(calls: seq<Call>, failed: Token) {
    exists c :: c in calls && c.purpose == Unauthorized(failed)
  }

  /** Only lock users wait, read or call. */
  ghost predicate Proper(pc: Pc) {
    pc.Waiting? || pc.Reading? || pc.Calling? ==> Locking(pc.purpose)
  }

  ghost predicate LockInv(lock: Option<nat>, threads: map<nat, Pc>) {
    && (forall t :: t in threads ==> Proper(threads[t]) && (HoldsLock(threads[t]) <==> lock == Some(t)))
    && (lock.Some? ==> lock.value in threads)
  }

  ghost predicate Issued(token: Option<Token>, nextToken: Token) {
    token.Some? ==> token.value < nextToken
  }

  ghost predicate PcIssued(pc: Pc, nextToken: Token) {
    && (pc.purpose.Unauthorized? ==> pc.purpose.failed < nextToken)
    && (pc.purpose.Restore? ==> pc.purpose.saved < nextToken)
    && (CarriesTokens(pc) ==> pc.tokens.access < nextToken && Issued(pc.tokens.refresh, nextToken))
  }

  ghost predicate CallIssued(c: Call, nextToken: Token) {
    c.token < nextToken && (c.purpose.Unauthorized? ==> c.purpose.failed < nextToken)
  }

  /** Every token anywhere was issued. */
  ghost predicate BoundInv(s: State) {
    && Issued(s.memory.access, s.nextToken) && Issued(s.memory.refresh, s.nextToken) && Issued(s.keyring, s.nextToken)
    && (forall c :: c in s.calls ==> CallIssued(c, s.nextToken))
    && (forall t :: t in s.threads ==> PcIssued(s.threads[t], s.nextToken))
  }

  /** These tokens were never used and are not in memory yet. */
  ghost predicate Unused(memory: Memory, calls: seq<Call>, tokens: Tokens) {
    && !CalledFor(calls, tokens.access)
    && memory.access != Some(tokens.access)
    && (tokens.refresh.Some? ==> !Presented(calls, tokens.refresh.value) && memory.refresh != tokens.refresh)
  }

  ghost predicate Apart(a: Tokens, b: Tokens) {
    a.access != b.access && (a.refresh.Some? ==> a.refresh != b.refresh)
  }

  /** Tokens on their way into the session are unused, and no two threads carry the same. */
  ghost predicate FreshInv(memory: Memory, calls: seq<Call>, threads: map<nat, Pc>) {
    && (forall t :: t in threads && CarriesTokens(threads[t]) ==> Unused(memory, calls, threads[t].tokens))
    && (forall t, u :: t in threads && u in threads && t != u && CarriesTokens(threads[t]) && CarriesTokens(threads[u]) ==>
          Apart(threads[t].tokens, threads[u].tokens))
  }

  /** A refresh token still in memory after it was presented, or an access token after a refresh was
      made for it, means that the thread that did so still holds the lock. */
  ghost predicate UsedInv(s: State) {
    && (s.memory.refresh.Some? ==> s.memory.access.Some?)
    && (s.memory.refresh.Some? && Presented(s.calls, s.memory.refresh.value) ==> PastReading(s))
    && (s.memory.access.Some? && CalledFor(s.calls, s.memory.access.value) ==> PastReading(s))
  }

  /** No refresh token is presented twice, and no access token is refreshed for twice. */
  ghost predicate CallsInv(calls: seq<Call>) {
    && (forall i, j :: 0 <= i < j < |calls| ==> calls[i].token != calls[j].token)
    && (forall i, j :: 0 <= i < j < |calls| && calls[i].purpose.Unauthorized? ==> calls[i].purpose != calls[j].purpose)
  }

  /** A thread is about to put this refresh token into the session. */
  ghost predicate Carried(threads: map<nat, Pc>, token: Token) {
    exists t :: t in threads && CarriesTokens(threads[t]) && threads[t].tokens.refresh == Some(token)
  }

  /** If the event presents a saved login, its token was never presented before and nobody is
      about to install it. */
  ghost predicate RestoresUnused(s: State, e: Event) {
    e.Read? && e.thread in s.threads && s.threads[e.thread].Reading? && s.threads[e.thread].purpose.Restore? ==>
      var saved := s.threads[e.thread].purpose.saved;
      !Presented(s.calls, saved) && !Carried(s.threads, saved)
  }

  ghost predicate Inv(s: State) {
    LockInv(s.lock, s.threads) && BoundInv(s) && FreshInv(s.memory, s.calls, s.threads) && UsedInv(s) && CallsInv(s.calls)
  }

  // ----- what a step can do to the threads -----

  lemma GoKeepsLock(lock: Option<nat>, threads: map<nat, Pc>, t: nat, pc: Pc)
    requires LockInv(lock, threads) && Proper(pc) && (HoldsLock(pc) <==> lock == Some(t))
    ensures LockInv(lock, threads[t := pc])
  {
  }

  lemma EndKeepsLock(lock: Option<nat>, threads: map<nat, Pc>, t: nat)
    requires LockInv(lock, threads) && t in threads && !threads[t].Waiting?
    ensures LockInv(if Locking(threads[t].purpose) then None else lock, threads - {t})
  {
  }

  lemma AcquireKeepsLock(threads: map<nat, Pc>, t: nat)
    requires LockInv(None, threads) && t in threads && threads[t].Waiting?
    ensures LockInv(Some(t), threads[t := Reading(threads[t].purpose)])
  {
  }

  lemma GoKeepsFresh(memory: Memory, calls: seq<Call>, threads: map<nat, Pc>, t: nat, pc: Pc)
    requires FreshInv(memory, calls, threads)
    requires CarriesTokens(pc) ==> t in threads && CarriesTokens(threads[t]) && threads[t].tokens == pc.tokens
    ensures FreshInv(memory, calls, threads[t := pc])
  {
  }

  lemma EndKeepsFresh(memory: Memory, calls: seq<Call>, threads: map<nat, Pc>, t: nat)
    requires FreshInv(memory, calls, threads)
    ensures FreshInv(memory, calls, threads - {t})
  {
  }

  /** Newly issued tokens are newer than every token in use. */
  lemma IssueKeepsFresh(s: State, t: nat, pc: Pc)
    requires BoundInv(s) && FreshInv(s.memory, s.calls, s.threads) && CarriesTokens(pc)
    requires pc.tokens.access == s.nextToken && (pc.tokens.refresh.Some? ==> pc.tokens.refresh.value == s.nextToken + 1)
    ensures FreshInv(s.memory, s.calls, s.threads[t := pc])
  {
  }

  /** A call uses up tokens that are in memory, so none that are on their way. */
  lemma CallKeepsFresh(memory: Memory, calls: seq<Call>, threads: map<nat, Pc>, c: Call)
    requires FreshInv(memory, calls, threads) && !Carried(threads, c.token)
    requires c.purpose.Unauthorized? ==> memory.access == Some(c.purpose.failed)
    ensures FreshInv(memory, calls + [c], threads)
  {
    assert forall x :: x in calls + [c] <==> x in calls || x == c;
  }

  lemma WriteKeepsFresh(memory: Memory, calls: seq<Call>, threads: map<nat, Pc>, t: nat)
    requires FreshInv(memory, calls, threads) && t in threads && threads[t].Writing?
    ensures FreshInv(Installed(memory, threads[t].tokens, threads[t].remembered), calls, threads - {t})
  {
  }

  lemma ClearKeepsFresh(memory: Memory, calls: seq<Call>, threads: map<nat, Pc>)
    requires FreshInv(memory, calls, threads)
    ensures FreshInv(Cleared(memory), calls, threads)
  {
  }

  // ----- one step -----

  lemma StepKeepsLock(s: State, e: Event)
    requires LockInv(s.lock, s.threads)
    ensures LockInv(Step(s, e).lock, Step(s, e).threads)
  {
    var t := e.thread;
    if Step(s, e) != s {
      match e
      case Acquire(_) => AcquireKeepsLock(s.threads, t);
      case Write(_) => EndKeepsLock(s.lock, s.threads, t);
      case Read(_) =>
        if t in Step(s, e).threads {
          GoKeepsLock(s.lock, s.threads, t, Step(s, e).threads[t]);
        } else {
          EndKeepsLock(s.lock, s.threads, t);
        }
      case ClearMemory(_) =>
        if t in Step(s, e).threads {
          GoKeepsLock(s.lock, s.threads, t, Step(s, e).threads[t]);
        } else {
          EndKeepsLock(s.lock, s.threads, t);
        }
      case _ => GoKeepsLock(s.lock, s.threads, t, Step(s, e).threads[t]);
    }
  }

  lemma StepKeepsBound(s: State, e: Event)
    requires BoundInv(s)
    ensures BoundInv(Step(s, e))
  {
    var t, after := e.thread, Step(s, e);
    StepIssues(s, e);
    StepTouchesOneThread(s, e);
    forall c | c in after.calls ensures CallIssued(c, after.nextToken) {
      if c !in s.calls {
        assert after.calls == s.calls + [c];
      }
    }
    forall u | u in after.threads ensures PcIssued(after.threads[u], after.nextToken) {
      if u != t || after.threads == s.threads {
        assert u in s.threads && after.threads[u] == s.threads[u];
      } else {
        ThreadTokensIssued(s, e);
      }
    }
  }

  lemma StepIssues(s: State, e: Event)
    requires BoundInv(s)
    ensures var after := Step(s, e);
      && after.nextToken >= s.nextToken
      && Issued(after.memory.access, after.nextToken) && Issued(after.memory.refresh, after.nextToken)
      && Issued(after.keyring, after.nextToken)
  {
  }

  lemma StepTouchesOneThread(s: State, e: Event)
    ensures var after := Step(s, e);
      && (forall u :: u != e.thread ==> (u in after.threads <==> u in s.threads))
      && (forall u :: u in s.threads && u != e.thread ==> after.threads[u] == s.threads[u])
  {
  }

  lemma ThreadTokensIssued(s: State, e: Event)
    requires BoundInv(s) && e.thread in Step(s, e).threads
    ensures PcIssued(Step(s, e).threads[e.thread], Step(s, e).nextToken)
  {
  }

  lemma ReadKeepsFresh(s: State, t: nat)
    requires Inv(s) && t in s.threads && s.threads[t].Reading? && RestoresUnused(s, Read(t))
    ensures var after := Step(s, Read(t)); FreshInv(after.memory, after.calls, after.threads)
  {
    var after := Step(s, Read(t));
    if t !in after.threads {
      EndKeepsFresh(s.memory, s.calls, s.threads, t);
    } else {
      if after.threads[t].Calling? {
        CallKeepsFresh(s.memory, s.calls, s.threads, after.calls[|s.calls|]);
      }
      GoKeepsFresh(after.memory, after.calls, s.threads, t, after.threads[t]);
    }
  }

  lemma StepKeepsFresh(s: State, e: Event)
    requires Inv(s) && RestoresUnused(s, e)
    ensures var after := Step(s, e); FreshInv(after.memory, after.calls, after.threads)
  {
    var t, after := e.thread, Step(s, e);
    if after != s {
      match e
      case StartLogin(_, _, _) => IssueKeepsFresh(s, t, after.threads[t]);
      case Answer(_, accepted, _) =>
        if accepted {
          IssueKeepsFresh(s, t, after.threads[t]);
        } else {
          GoKeepsFresh(s.memory, s.calls, s.threads, t, after.threads[t]);
        }
      case Read(_) => ReadKeepsFresh(s, t);
      case Write(_) => WriteKeepsFresh(s.memory, s.calls, s.threads, t);
      case ClearMemory(_) =>
        ClearKeepsFresh(s.memory, s.calls, s.threads);
        if t in after.threads {
          GoKeepsFresh(after.memory, s.calls, s.threads, t, after.threads[t]);
        } else {
          EndKeepsFresh(after.memory, s.calls, s.threads, t);
        }
      case _ => GoKeepsFresh(s.memory, s.calls, s.threads, t, after.threads[t]);
    }
  }

  lemma StepKeepsUsed(s: State, e: Event)
    requires Inv(s) && RestoresUnused(s, e)
    ensures UsedInv(Step(s, e))
  {
  }

  lemma StepKeepsCalls(s: State, e: Event)
    requires Inv(s) && RestoresUnused(s, e)
    ensures CallsInv(Step(s, e).calls)
  {
  }

  // ----- runs -----

  lemma StepKeepsInv(s: State, e: Event)
    requires Inv(s) && RestoresUnused(s, e)
    ensures Inv(Step(s, e))
  {
    StepKeepsLock(s, e);
    StepKeepsBound(s, e);
    StepKeepsFresh(s, e);
    StepKeepsUsed(s, e);
    StepKeepsCalls(s, e);
  }

  /** Along the whole run, every restore presents an unused token. */
  ghost predicate RestoresStayUnused(s: State, events: seq<Event>) {
    events != [] ==>
      var init, last := events[..|events| - 1], events[|events| - 1];
      RestoresStayUnused(s, init) && RestoresUnused(Run(s, init), last)
  }

  lemma {:induction false} RunKeepsInv(s: State, events: seq<Event>)
    requires Inv(s) && RestoresStayUnused(s, events)
    ensures Inv(Run(s, events))
  {
    if events != [] {
      var init := events[..|events| - 1];
      RunKeepsInv(s, init);
      StepKeepsInv(Run(s, init), events[|events| - 1]);
    }
  }

  lemma LaunchedInv(saved: Option<Token>, nextToken: Token)
    requires Issued(saved, nextToken)
    ensures Inv(Launched(saved, nextToken))
  {
  }

  /** For any interleaving of 401s, timer refreshes, logins, logouts, discards and restores, from any
      saved login: while restores present unused tokens, no refresh token is presented twice and no
      access token is refreshed for more than once. */
  lemma NoTokenIsPresentedTwice(saved: Option<Token>, nextToken: Token, events: seq<Event>)
    requires Issued(saved, nextToken) && RestoresStayUnused(Launched(saved, nextToken), events)
    ensures CallsInv(Run(Launched(saved, nextToken), events).calls)
  {
    LaunchedInv(saved, nextToken);
    RunKeepsInv(Launched(saved, nextToken), events);
  }

  lemma {:induction false} RunKeepsLock(s: State, events: seq<Event>)
    requires LockInv(s.lock, s.threads)
    ensures LockInv(Run(s, events).lock, Run(s, events).threads)
  {
    if events != [] {
      RunKeepsLock(s, events[..|events| - 1]);
      StepKeepsLock(Run(s, events[..|events| - 1]), events[|events| - 1]);
    }
  }

  /** At most one refresh call is under way at a time, restores included. */
  lemma OneCallAtATime(saved: Option<Token>, nextToken: Token, events: seq<Event>, t: nat, u: nat)
    requires t in Run(Launched(saved, nextToken), events).threads && u in Run(Launched(saved, nextToken), events).threads
    requires Run(Launched(saved, nextToken), events).threads[t].Calling? && Run(Launched(saved, nextToken), events).threads[u].Calling?
    ensures t == u
  {
    RunKeepsLock(Launched(saved, nextToken), events);
  }

  /** A token that an attempt hands back was the session's access token while its thread held the
      refresh lock: either when it read the credentials or when it installed its own. */
  lemma ReturnedTokenIsCurrent(saved: Option<Token>, nextToken: Token, events: seq<Event>, e: Event)
    requires Step(Run(Launched(saved, nextToken), events), e).results != Run(Launched(saved, nextToken), events).results
    ensures var s, after := Run(Launched(saved, nextToken), events), Step(Run(Launched(saved, nextToken), events), e);
      && after.results[..|s.results|] == s.results && |after.results| == |s.results| + 1
      && s.lock == Some(e.thread)
      && var token := after.results[|s.results|].token;
         token.Some? ==> token == s.memory.access || token == after.memory.access
  {
    RunKeepsLock(Launched(saved, nextToken), events);
  }

  lemma {:induction false} GenerationGrows(s: State, events: seq<Event>)
    ensures Run(s, events).memory.generation >= s.memory.generation
    ensures Run(s, events).memory.generation == s.memory.generation ==> Run(s, events).memory == s.memory
  {
    if events != [] {
      GenerationGrows(s, events[..|events| - 1]);
      GenerationStep(Run(s, events[..|events| - 1]), events[|events| - 1]);
    }
  }

  /** Every change of the session raises the generation by one; nothing else moves it. With
      GenerationGrows: two moments of a run with equal generations have equal credentials. */
  lemma GenerationStep(s: State, e: Event)
    ensures var after := Step(s, e).memory;
      after == s.memory || after.generation == s.memory.generation + 1
  {
  }

  // ----- the fields, and one thread running alone -----

  /** What one answered or refused refresh call brings back. */
  datatype Reply = Accepted(tokens: Tokens) | Rejected

  class SessionFields {
    var accessToken: Option<Token>
    var refreshToken: Option<Token>
    var remembered: bool
    var generation: nat
    var keyring: Option<Token>

    function Contents(): Memory
      reads this
    {
      Memory(accessToken, refreshToken, remembered, generation)
    }

    method ClearMemorySession()
      modifies this
      ensures Contents() == Memory(None, None, false, old(generation) + 1) && keyring == old(keyring)
    {
      accessToken, refreshToken, remembered := None, None, false;
      generation := generation + 1;
    }

    /** `keyringWorks`: whether the keyring accepts the deletion; a failure is swallowed. */
    method DiscardLocalSession(keyringWorks: bool)
      modifies this
      ensures Contents() == Memory(None, None, false, old(generation) + 1)
      ensures keyring == if keyringWorks then None else old(keyring)
    {
      if keyringWorks {
        keyring := None;
      }
      ClearMemorySession();
    }

    /** `keyringWorks`: whether the keyring can save or delete the saved login. */
    method InstallSession(tokens: Tokens, remember: bool, keyringWorks: bool) returns (installed: bool)
      modifies this
      ensures installed <==> keyringWorks && (remember ==> tokens.refresh.Some?)
      ensures Contents() == if installed then Memory(Some(tokens.access), tokens.refresh, remember, old(generation) + 1)
                            else Memory(None, None, false, old(generation) + 1)
      ensures keyring == if installed then if remember then tokens.refresh else None
                         else if keyringWorks then None else old(keyring)
    {
      installed := keyringWorks && (remember ==> tokens.refresh.Some?);
      if !installed {
        DiscardLocalSession(keyringWorks);
        return;
      }
      keyring := if remember then tokens.refresh else None;
      accessToken, refreshToken, remembered := Some(tokens.access), tokens.refresh, remember;
      generation := generation + 1;
    }

    /** _refresh_after_unauthorized with the refresh lock held and nobody else about: at most one
        call, made only for the token that failed; the result is the current access token or none. */
    method RefreshAfterUnauthorized(failed: Token, reply: Reply, keyringWorks: bool) returns (token: Option<Token>, called: bool)
      requires refreshToken.Some? ==> accessToken.Some?
      modifies this
      ensures refreshToken.Some? ==> accessToken.Some?
      ensures token.Some? ==> token == accessToken
      ensures called <==> old(accessToken) == Some(failed) && old(refreshToken).Some?
      ensures old(accessToken) != Some(failed) ==> Contents() == old(Contents()) && token == old(accessToken)
      ensures old(accessToken) == Some(failed) && token.None? ==> accessToken.None? && refreshToken.None?
      ensures token.Some? && called ==>
        reply.Accepted? && Contents() == Memory(Some(reply.tokens.access), reply.tokens.refresh, old(remembered), old(generation) + 1)
      ensures called && reply.Accepted? && keyringWorks && (old(remembered) ==> reply.tokens.refresh.Some?) ==>
        token == Some(reply.tokens.access) && keyring == if old(remembered) then reply.tokens.refresh else None
      ensures old(accessToken) == Some(failed) ==> generation > old(generation)
    {
      called := false;
      if accessToken.Some? && accessToken.value != failed {
        return accessToken, false;
      }
      if refreshToken.None? {
        if accessToken == Some(failed) {
          DiscardLocalSession(keyringWorks);
        }
        return None, false;
      }
      called := true;
      if reply.Rejected? {
        DiscardLocalSession(keyringWorks);
        return None, true;
      }
      var installed := InstallSession(reply.tokens, remembered, keyringWorks);
      if !installed {
        DiscardLocalSession(keyringWorks);
        return None, true;
      }
      token := accessToken;
    }
  }
}
