/** How far the desktop session's promises go: exactly when a restore of a saved login is safe, and
    exactly when a signed-out client stays signed out. */
module DesktopSessionLimits {
  import opened Wrappers
  import opened DesktopSession

  // ----- building runs -----

  lemma Then(s: State, events: seq<Event>, e: Event) returns (more: seq<Event>)
    ensures more == events + [e] && Run(s, more) == Step(Run(s, events), e)
  {
    more := events + [e];
    assert more[..|events|] == events;
  }

  lemma ThenQuietly(s: State, events: seq<Event>, e: Event) returns (more: seq<Event>)
    requires NoNewLogin(events) && !e.StartRestore? && !e.StartLogin?
    ensures more == events + [e] && Run(s, more) == Step(Run(s, events), e) && NoNewLogin(more)
  {
    more := Then(s, events, e);
  }

  lemma ThenUnused(s: State, events: seq<Event>, e: Event) returns (more: seq<Event>)
    requires RestoresStayUnused(s, events) && RestoresUnused(Run(s, events), e)
    ensures more == events + [e] && Run(s, more) == Step(Run(s, events), e) && RestoresStayUnused(s, more)
  {
    more := Then(s, events, e);
    assert more[..|events|] == events;
  }

  lemma ThenAlone(s: State, events: seq<Event>, e: Event) returns (more: seq<Event>)
    requires AloneThroughout(s, events) && RestoresAlone(Step(Run(s, events), e))
    ensures more == events + [e] && Run(s, more) == Step(Run(s, events), e) && AloneThroughout(s, more)
  {
    more := Then(s, events, e);
    assert more[..|events|] == events;
  }

  /** A step of the only thread there is. */
  lemma ThenSingle(s: State, events: seq<Event>, e: Event) returns (more: seq<Event>)
    requires AloneThroughout(s, events) && Run(s, events).threads.Keys <= {e.thread}
    ensures more == events + [e] && Run(s, more) == Step(Run(s, events), e)
    ensures AloneThroughout(s, more) && Run(s, more).threads.Keys <= {e.thread}
  {
    SingleStaysSingle(Run(s, events), e);
    more := ThenAlone(s, events, e);
  }

  lemma SingleStaysSingle(s: State, e: Event)
    requires s.threads.Keys <= {e.thread}
    ensures Step(s, e).threads.Keys <= {e.thread} && RestoresAlone(Step(s, e))
  {
    StepTouchesOneThread(s, e);
  }

  lemma {:induction false} RunConcat(s: State, a: seq<Event>, b: seq<Event>)
    ensures Run(s, a + b) == Run(Run(s, a), b)
  {
    if b == [] {
      assert a + b == a;
    } else {
      var n := |b| - 1;
      assert (a + b)[..|a + b| - 1] == a + b[..n];
      RunConcat(s, a, b[..n]);
    }
  }

  // ----- signing off -----

  ghost predicate SignedOut(m: Memory) {
    m.access.None? && m.refresh.None?
  }

  /** The thread can still put a session into memory. */
  predicate CanInstall(pc: Pc) {
    || pc.Calling? || pc.Writing?
    || (pc.Storing? && (pc.remembered ==> pc.tokens.refresh.Some?))
    || ((pc.Waiting? || pc.Reading?) && pc.purpose.Restore?)
  }

  ghost predicate NobodyInstalls(s: State) {
    forall t :: t in s.threads ==> !CanInstall(s.threads[t])
  }

  ghost predicate NoNewLogin(events: seq<Event>) {
    forall e :: e in events ==> !e.StartRestore? && !e.StartLogin?
  }

  lemma QuietStep(s: State, e: Event)
    requires SignedOut(s.memory) && NobodyInstalls(s) && !e.StartRestore? && !e.StartLogin?
    ensures SignedOut(Step(s, e).memory) && NobodyInstalls(Step(s, e))
  {
  }

  /** Signed out with nobody who can install a session, the client stays signed out until someone
      logs in or restores a saved login. */
  lemma {:induction false} SignedOutStays(s: State, events: seq<Event>)
    requires SignedOut(s.memory) && NobodyInstalls(s) && NoNewLogin(events)
    ensures SignedOut(Run(s, events).memory) && NobodyInstalls(Run(s, events))
  {
    if events != [] {
      var init, last := events[..|events| - 1], events[|events| - 1];
      assert forall e :: e in init ==> e in events;
      assert last in events;
      SignedOutStays(s, init);
      QuietStep(Run(s, init), last);
    }
  }

  lemma InstallFromStoring(s: State, events: seq<Event>, t: nat) returns (more: seq<Event>)
    requires NoNewLogin(events) && t in Run(s, events).threads
    requires CanInstall(Run(s, events).threads[t]) && (Run(s, events).threads[t].Storing? || Run(s, events).threads[t].Writing?)
    ensures NoNewLogin(more) && Run(s, more).memory.access.Some?
  {
    more := events;
    if Run(s, events).threads[t].Storing? {
      more := ThenQuietly(s, more, Store(t, true));
    }
    more := ThenQuietly(s, more, Write(t));
  }

  /** A thread that needs no lock any more, or is the restore that holds it, can go on to install. */
  lemma InstallFrom(s: State, events: seq<Event>, t: nat) returns (more: seq<Event>)
    requires NoNewLogin(events) && t in Run(s, events).threads
    requires CanInstall(Run(s, events).threads[t]) && !Run(s, events).threads[t].Waiting?
    ensures NoNewLogin(more) && Run(s, more).memory.access.Some?
  {
    more := events;
    if Run(s, events).threads[t].Reading? {
      more := ThenQuietly(s, more, Read(t));
    }
    if Run(s, more).threads[t].Calling? {
      more := ThenQuietly(s, more, Answer(t, true, true));
    }
    more := InstallFromStoring(s, more, t);
  }

  /** Whoever holds the lock while signed out can go on to release it, unless it can install. */
  lemma {:induction false} Release(s: State, h: nat, waiting: nat) returns (more: seq<Event>)
    requires SignedOut(s.memory) && h in s.threads && HoldsLock(s.threads[h]) && !CanInstall(s.threads[h])
    requires Proper(s.threads[h]) && waiting in s.threads && waiting != h
    ensures NoNewLogin(more) && Run(s, more).lock.None?
    ensures waiting in Run(s, more).threads && Run(s, more).threads[waiting] == s.threads[waiting]
    decreases if s.threads[h].Storing? then 1 else 0,
              if s.threads[h].ClearingKeyring? then 2 * s.threads[h].rounds + 1
              else if s.threads[h].ClearingMemory? then 2 * s.threads[h].rounds else 0
  {
    var e := match s.threads[h]
      case Reading(_) => Read(h)
      case Storing(_, _, _) => Store(h, true)
      case ClearingKeyring(_, _) => ClearKeyring(h, true)
      case _ => ClearMemory(h);
    more := ThenQuietly(s, [], e);
    var after := Run(s, more);
    if h in after.threads {
      var rest := Release(after, h, waiting);
      RunConcat(s, more, rest);
      assert forall x :: x in more + rest ==> x in more || x in rest;
      more := more + rest;
    }
  }

  /** Any thread that can install a session does so in some continuation without a new login. */
  lemma SomeoneInstalls(s: State, t: nat) returns (more: seq<Event>)
    requires SignedOut(s.memory) && LockInv(s.lock, s.threads) && t in s.threads && CanInstall(s.threads[t])
    ensures NoNewLogin(more) && Run(s, more).memory.access.Some?
  {
    if !s.threads[t].Waiting? {
      more := InstallFrom(s, [], t);
    } else if s.lock.Some? && CanInstall(s.threads[s.lock.value]) {
      more := InstallFrom(s, [], s.lock.value);
    } else {
      more := [];
      if s.lock.Some? {
        more := Release(s, s.lock.value, t);
      }
      more := ThenQuietly(s, more, Acquire(t));
      more := InstallFrom(s, more, t);
    }
  }

  /** A signed-out client stays signed out, whatever happens short of a new login or restore, if and
      only if no thread can still install a session. */
  lemma SignedOutStaysIffNobodyInstalls(s: State)
    requires SignedOut(s.memory) && LockInv(s.lock, s.threads)
    ensures (forall events :: NoNewLogin(events) ==> SignedOut(Run(s, events).memory)) <==> NobodyInstalls(s)
  {
    if NobodyInstalls(s) {
      forall events | NoNewLogin(events) ensures SignedOut(Run(s, events).memory) {
        SignedOutStays(s, events);
      }
    } else {
      var t :| t in s.threads && CanInstall(s.threads[t]);
      var more := SomeoneInstalls(s, t);
      assert !SignedOut(Run(s, more).memory);
    }
  }

  // ----- restoring a saved login -----

  /** The thread's answer is refused and it gives up the lock. */
  lemma Refuse(s: State, events: seq<Event>, t: nat) returns (more: seq<Event>)
    requires t in Run(s, events).threads && Run(s, events).threads[t].Calling? && Locking(Run(s, events).threads[t].purpose)
    requires RestoresStayUnused(s, events)
    ensures RestoresStayUnused(s, more) && Run(s, more).calls == Run(s, events).calls
    ensures Run(s, more).threads == Run(s, events).threads - {t} && Run(s, more).lock.None?
  {
    more := ThenUnused(s, events, Answer(t, false, false));
    more := ThenUnused(s, more, ClearKeyring(t, true));
    more := ThenUnused(s, more, ClearMemory(t));
    assert Run(s, more).threads == Run(s, events).threads - {t};
  }

  /** A thread outside the lock installs the refresh token it carries. */
  lemma InstallCarried(s: State, events: seq<Event>, u: nat, token: Token) returns (more: seq<Event>)
    requires RestoresStayUnused(s, events) && Run(s, events).lock.None?
    requires u in Run(s, events).threads && CarriesTokens(Run(s, events).threads[u])
    requires Run(s, events).threads[u].tokens.refresh == Some(token) && !Locking(Run(s, events).threads[u].purpose)
    ensures RestoresStayUnused(s, more) && Run(s, more).calls == Run(s, events).calls
    ensures Run(s, more).lock.None? && Run(s, more).memory.refresh == Some(token)
    ensures Run(s, more).threads == Run(s, events).threads - {u}
  {
    more := events;
    if Run(s, more).threads[u].Storing? {
      more := ThenUnused(s, more, Store(u, true));
    }
    more := ThenUnused(s, more, Write(u));
    assert Run(s, more).threads == Run(s, events).threads - {u};
  }

  /** The timer presents the refresh token in memory. */
  lemma TimerPresents(s: State, events: seq<Event>, t: nat) returns (more: seq<Event>)
    requires RestoresStayUnused(s, events) && Run(s, events).lock.None?
    requires t !in Run(s, events).threads && Run(s, events).memory.refresh.Some?
    ensures RestoresStayUnused(s, more)
    ensures Run(s, more).calls == Run(s, events).calls + [Call(Timer, Run(s, events).memory.refresh.value)]
  {
    more := ThenUnused(s, events, StartTimer(t));
    more := ThenUnused(s, more, Acquire(t));
    more := ThenUnused(s, more, Read(t));
  }

  /** A restore that presents a used token, or one about to be installed, lets some continuation
      present a token twice without any other restore at fault. */
  lemma UsedRestoreRepeats(s: State, t: nat) returns (more: seq<Event>)
    requires Inv(s) && t in s.threads && s.threads[t].Reading? && s.threads[t].purpose.Restore?
    requires !RestoresUnused(s, Read(t))
    ensures RestoresStayUnused(Step(s, Read(t)), more) && !CallsInv(Run(Step(s, Read(t)), more).calls)
  {
    var after, saved := Step(s, Read(t)), s.threads[t].purpose.saved;
    more := [];
    assert after.calls[|s.calls|].token == saved;
    if Presented(s.calls, saved) {
      var i :| 0 <= i < |s.calls| && s.calls[i].token == saved;
      assert after.calls[i].token == saved;
    } else {
      var u :| u in s.threads && CarriesTokens(s.threads[u]) && s.threads[u].tokens.refresh == Some(saved);
      more := Refuse(after, more, t);
      more := InstallCarried(after, more, u, saved);
      more := TimerPresents(after, more, t);
      assert Run(after, more).calls[|s.calls| + 1].token == saved == Run(after, more).calls[|s.calls|].token;
    }
  }

  /** The condition of NoTokenIsPresentedTwice is exact: a restore presents an unused token if and
      only if no continuation, in which later restores do so too, presents any token twice. */
  lemma RestoreIsSafeIffUnused(s: State, t: nat)
    requires Inv(s) && t in s.threads && s.threads[t].Reading? && s.threads[t].purpose.Restore?
    ensures RestoresUnused(s, Read(t))
       <==> forall more :: RestoresStayUnused(Step(s, Read(t)), more) ==> CallsInv(Run(Step(s, Read(t)), more).calls)
  {
    if RestoresUnused(s, Read(t)) {
      StepKeepsInv(s, Read(t));
      forall more | RestoresStayUnused(Step(s, Read(t)), more) ensures CallsInv(Run(Step(s, Read(t)), more).calls) {
        RunKeepsInv(Step(s, Read(t)), more);
      }
    } else {
      var more := UsedRestoreRepeats(s, t);
    }
  }

  // ----- a restore that has the client to itself -----

  predicate IsRestoring(pc: Pc) {
    (pc.Waiting? || pc.Reading?) && pc.purpose.Restore?
  }

  /** While a restore waits for the lock or has not presented its token yet, no other thread is active. */
  ghost predicate RestoresAlone(s: State) {
    forall t :: t in s.threads && IsRestoring(s.threads[t]) ==> s.threads.Keys == {t}
  }

  ghost predicate AloneThroughout(s: State, events: seq<Event>) {
    && RestoresAlone(Run(s, events))
    && (events != [] ==> AloneThroughout(s, events[..|events| - 1]))
  }

  /** The keyring lets a refresh attempt delete the saved login. */
  ghost predicate DeletionWorks(s: State, e: Event) {
    e.ClearKeyring? && e.thread in s.threads && Locking(s.threads[e.thread].purpose) ==> e.works
  }

  ghost predicate DeletionsWork(s: State, events: seq<Event>) {
    events != [] ==>
      var init, last := events[..|events| - 1], events[|events| - 1];
      DeletionsWork(s, init) && DeletionWorks(Run(s, init), last)
  }

  /** A saved login that was presented is about to be replaced or deleted by the lock holder. */
  ghost predicate PresentedIsReplaced(s: State) {
    s.keyring.Some? && Presented(s.calls, s.keyring.value) ==>
      s.lock.Some? && s.lock.value in s.threads
      && var pc := s.threads[s.lock.value]; pc.Calling? || pc.Storing? || pc.ClearingKeyring?
  }

  /** A restoring thread still has what the keyring holds. */
  ghost predicate RestoringIsSaved(s: State) {
    forall t :: t in s.threads && IsRestoring(s.threads[t]) ==> s.keyring == Some(s.threads[t].purpose.saved)
  }

  ghost predicate KeyringInv(s: State) {
    PresentedIsReplaced(s) && RestoringIsSaved(s)
  }

  lemma AloneIsUnused(s: State, e: Event)
    requires Inv(s) && KeyringInv(s) && RestoresAlone(s)
    ensures RestoresUnused(s, e)
  {
  }

  lemma StepReplacesPresented(s: State, e: Event)
    requires Inv(s) && PresentedIsReplaced(s) && DeletionWorks(s, e)
    ensures PresentedIsReplaced(Step(s, e))
  {
  }

  lemma StepKeepsSaved(s: State, e: Event)
    requires RestoringIsSaved(s) && RestoresAlone(s) && RestoresAlone(Step(s, e))
    ensures RestoringIsSaved(Step(s, e))
  {
    StepTouchesOneThread(s, e);
  }

  lemma StepKeepsKeyring(s: State, e: Event)
    requires Inv(s) && KeyringInv(s) && RestoresAlone(s) && RestoresAlone(Step(s, e)) && DeletionWorks(s, e)
    ensures KeyringInv(Step(s, e))
  {
    StepReplacesPresented(s, e);
    StepKeepsSaved(s, e);
  }

  lemma {:induction false} AloneKeepsInv(s: State, events: seq<Event>)
    requires Inv(s) && KeyringInv(s) && AloneThroughout(s, events) && DeletionsWork(s, events)
    ensures Inv(Run(s, events)) && KeyringInv(Run(s, events)) && RestoresStayUnused(s, events)
  {
    if events != [] {
      var init, last := events[..|events| - 1], events[|events| - 1];
      AloneKeepsInv(s, init);
      AloneIsUnused(Run(s, init), last);
      StepKeepsInv(Run(s, init), last);
      StepKeepsKeyring(Run(s, init), last);
    }
  }

  /** What a caller can see to: where each restore has the client to itself until it presents its
      token, as at launch, and the keyring deletes when a refresh attempt asks it to, no refresh
      token is presented twice and no access token is refreshed for more than once. */
  lemma RestoringAloneIsSafe(saved: Option<Token>, nextToken: Token, events: seq<Event>)
    requires Issued(saved, nextToken)
    requires AloneThroughout(Launched(saved, nextToken), events) && DeletionsWork(Launched(saved, nextToken), events)
    ensures CallsInv(Run(Launched(saved, nextToken), events).calls)
  {
    LaunchedInv(saved, nextToken);
    AloneKeepsInv(Launched(saved, nextToken), events);
  }

  // ----- three runs from launch -----

  const FIRST_TOKENS := Tokens(0, Some(1))

  /** One remembered login has been installed: tokens 0 and 1. */
  lemma LogIn(start: State) returns (events: seq<Event>)
    requires start == Launched(None, 0)
    ensures Run(start, events) == State(Memory(Some(0), Some(1), true, 1), Some(1), None, map[], [], [], 2)
    ensures AloneThroughout(start, events) && NoDeletion(events)
  {
    events := ThenSingle(start, [], StartLogin(0, true, true));
    assert Run(start, events).threads[0] == Storing(Login, FIRST_TOKENS, true);
    events := ThenSingle(start, events, Store(0, true));
    events := ThenSingle(start, events, Write(0));
    assert Run(start, events).threads == map[];
  }

  /** No keyring deletion is attempted. */
  ghost predicate NoDeletion(events: seq<Event>) {
    forall e :: e in events ==> !e.ClearKeyring?
  }

  ghost predicate Called(before: State, after: State, t: nat) {
    before.memory.refresh.Some?
    && after == before.(lock := Some(t), threads := before.threads[t := Calling(Timer, before.memory.remembered)],
                        calls := before.calls + [Call(Timer, before.memory.refresh.value)])
  }

  /** A refresh by the timer, up to its call. */
  lemma CallRefresh(s: State, events: seq<Event>, t: nat) returns (more: seq<Event>)
    requires t !in Run(s, events).threads && Run(s, events).lock.None? && Run(s, events).memory.refresh.Some?
    ensures Called(Run(s, events), Run(s, more), t)
    ensures NoDeletion(events) ==> NoDeletion(more)
  {
    more := Then(s, events, StartTimer(t));
    more := Then(s, more, Acquire(t));
    more := Then(s, more, Read(t));
    assert Run(s, more).threads == Run(s, events).threads[t := Calling(Timer, Run(s, events).memory.remembered)];
  }

  /** The answer to a call, up to the end of its thread. */
  lemma AnswerRefresh(s: State, events: seq<Event>, t: nat) returns (more: seq<Event>)
    requires t in Run(s, events).threads && Run(s, events).threads[t].Calling?
    ensures Run(s, more).calls == Run(s, events).calls
    ensures Run(s, more).threads == Run(s, events).threads - {t}
    ensures Locking(Run(s, events).threads[t].purpose) ==> Run(s, more).lock.None?
    ensures NoDeletion(events) ==> NoDeletion(more)
  {
    more := Then(s, events, Answer(t, true, true));
    more := Then(s, more, Store(t, true));
    more := Then(s, more, Write(t));
  }

  ghost predicate PresentsTwice(calls: seq<Call>) {
    |calls| == 2 && calls[0].token == calls[1].token
  }

  /** Keyring deletion is not enough: a restore that read the keyring before another thread refreshed
      presents the same token again, although no deletion is even attempted. */
  lemma RestoreCanPresentTwice(start: State) returns (events: seq<Event>)
    requires start == Launched(None, 0)
    ensures PresentsTwice(Run(start, events).calls) && NoDeletion(events)
  {
    events := LogIn(start);
    events := Then(start, events, StartRestore(1));
    events := CallRefresh(start, events, 2);
    events := AnswerRefresh(start, events, 2);
    events := Then(start, events, Acquire(1));
    events := Then(start, events, Read(1));
  }

  lemma CalledAlone(s: State, events: seq<Event>, t: nat) returns (more: seq<Event>)
    requires AloneThroughout(s, events) && Run(s, events).threads == map[] && Run(s, events).lock.None?
    requires Run(s, events).memory.refresh.Some?
    ensures AloneThroughout(s, more) && Run(s, more).keyring == Run(s, events).keyring
    ensures Run(s, more).threads.Keys == {t} && Run(s, more).threads[t] == Calling(Timer, Run(s, events).memory.remembered)
    ensures Run(s, more).calls == Run(s, events).calls + [Call(Timer, Run(s, events).memory.refresh.value)]
  {
    more := ThenSingle(s, events, StartTimer(t));
    more := ThenSingle(s, more, Acquire(t));
    more := ThenSingle(s, more, Read(t));
  }

  lemma ForgottenAlone(s: State, events: seq<Event>, t: nat) returns (more: seq<Event>)
    requires AloneThroughout(s, events) && Run(s, events).threads.Keys == {t}
    requires Run(s, events).threads[t].Calling? && Run(s, events).threads[t].purpose.Timer?
    ensures AloneThroughout(s, more) && Run(s, more).threads == map[] && Run(s, more).lock.None?
    ensures Run(s, more).keyring == Run(s, events).keyring && Run(s, more).calls == Run(s, events).calls
  {
    more := ThenSingle(s, events, Answer(t, false, false));
    more := ThenSingle(s, more, ClearKeyring(t, false));
    more := ThenSingle(s, more, ClearMemory(t));
    assert t !in Run(s, more).threads;
  }

  /** With nobody else about, a refresh by the timer is refused and the keyring does not delete. */
  lemma RefusedAlone(s: State, events: seq<Event>, t: nat) returns (more: seq<Event>)
    requires AloneThroughout(s, events) && Run(s, events).threads == map[] && Run(s, events).lock.None?
    requires Run(s, events).memory.refresh.Some?
    ensures AloneThroughout(s, more) && Run(s, more).threads == map[] && Run(s, more).lock.None?
    ensures Run(s, more).keyring == Run(s, events).keyring
    ensures Run(s, more).calls == Run(s, events).calls + [Call(Timer, Run(s, events).memory.refresh.value)]
  {
    more := CalledAlone(s, events, t);
    more := ForgottenAlone(s, more, t);
  }

  /** With nobody else about, a restore presents what the keyring holds. */
  lemma RestoredAlone(s: State, events: seq<Event>, t: nat) returns (more: seq<Event>)
    requires AloneThroughout(s, events) && Run(s, events).threads == map[] && Run(s, events).lock.None?
    requires Run(s, events).keyring.Some?
    ensures AloneThroughout(s, more)
    ensures Run(s, more).calls == Run(s, events).calls + [Call(Restore(Run(s, events).keyring.value), Run(s, events).keyring.value)]
  {
    more := ThenSingle(s, events, StartRestore(t));
    more := ThenSingle(s, more, Acquire(t));
    more := ThenSingle(s, more, Read(t));
  }

  /** Neither is being alone: after a refused refresh whose keyring deletion failed, a later restore
      with no other thread about presents the same token again. */
  lemma LaterRestoreCanPresentTwice(start: State) returns (events: seq<Event>)
    requires start == Launched(None, 0)
    ensures PresentsTwice(Run(start, events).calls) && AloneThroughout(start, events)
  {
    events := LogIn(start);
    events := RefusedAlone(start, events, 2);
    events := RestoredAlone(start, events, 1);
  }

  /** A logout that runs to its end leaves other threads as they are. */
  lemma SignOffBeside(s: State, events: seq<Event>, t: nat) returns (more: seq<Event>)
    requires t !in Run(s, events).threads
    ensures SignedOut(Run(s, more).memory) && Run(s, more).threads == Run(s, events).threads
  {
    more := Then(s, events, StartSignOff(t));
    more := Then(s, more, ClearKeyring(t, true));
    more := Then(s, more, ClearMemory(t));
    assert Run(s, more).threads == Run(s, events).threads;
  }

  /** A logout that completes while a refresh call is under way is undone when the call is answered. */
  lemma LogoutCanBeUndone(start: State) returns (events: seq<Event>, more: seq<Event>)
    requires start == Launched(None, 0)
    ensures SignedOut(Run(start, events).memory)
    ensures NoNewLogin(more) && Run(Run(start, events), more).memory.access.Some?
  {
    events := LogIn(start);
    events := CallRefresh(start, events, 2);
    events := SignOffBeside(start, events, 3);
    RunKeepsLock(start, events);
    more := SomeoneInstalls(Run(start, events), 2);
  }
}
