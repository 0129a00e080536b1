/** What the threads of the desktop session do, step by step: when a refresh is attempted, with which
    token, and what an answered, refused or signed-off session looks like. The safety theorems would
    hold of a client that never refreshes; these say that this one does. */
module DesktopSessionAnswers {
  import opened Wrappers
  import opened DesktopSession

  ghost predicate At(s: State, t: nat, pc: Pc) {
    t in s.threads && s.threads[t] == pc
  }

  /** `after` is `s` with this call made by thread t, for this purpose. */
  ghost predicate CallsWith(s: State, after: State, t: nat, purpose: Purpose, token: Token, remembered: bool) {
    after == s.(threads := s.threads[t := Calling(purpose, remembered)], calls := s.calls + [Call(purpose, token)])
  }

  /** `after` is `s` with the attempt of thread t over and the lock released. */
  ghost predicate Returns(s: State, after: State, t: nat, purpose: Purpose, token: Option<Token>) {
    after == s.(threads := s.threads - {t}, lock := None, results := s.results + [Return(purpose, token)])
  }

  /** After a 401 the lock holder hands back a token newer than the one that failed; without one it
      calls the server with the session's refresh token; without that it gives up, and discards the
      session if the failed token is still the session's. */
  lemma UnauthorizedDecides(s: State, t: nat, failed: Token)
    requires At(s, t, Reading(Unauthorized(failed)))
    ensures var after, m := Step(s, Read(t)), s.memory;
      if m.access.Some? && m.access != Some(failed) then Returns(s, after, t, Unauthorized(failed), m.access)
      else if m.refresh.Some? then CallsWith(s, after, t, Unauthorized(failed), m.refresh.value, m.remembered)
      else if m.access.Some? then after == s.(threads := s.threads[t := ClearingKeyring(Unauthorized(failed), 1)])
      else Returns(s, after, t, Unauthorized(failed), None)
  {
  }

  /** The timer refreshes whenever there is a refresh token. */
  lemma TimerDecides(s: State, t: nat)
    requires At(s, t, Reading(Timer))
    ensures var after, m := Step(s, Read(t)), s.memory;
      if m.refresh.Some? then CallsWith(s, after, t, Timer, m.refresh.value, m.remembered) else Returns(s, after, t, Timer, None)
  {
  }

  /** A restore presents the token it loaded, and will remember the login. */
  lemma RestoreDecides(s: State, t: nat, saved: Token)
    requires At(s, t, Reading(Restore(saved)))
    ensures CallsWith(s, Step(s, Read(t)), t, Restore(saved), saved, true)
  {
    assert s.threads[t].purpose == Restore(saved);
  }

  function Three(s: State, a: Event, b: Event, c: Event): State {
    Step(Step(Step(s, a), b), c)
  }

  lemma ThreadGone(threads: map<nat, Pc>, t: nat, a: Pc, b: Pc)
    ensures threads[t := a][t := b] == threads[t := b]
    ensures threads[t := a] - {t} == threads - {t}
    ensures t !in threads ==> threads - {t} == threads
  {
  }

  /** An accepted call whose tokens the keyring can take ends with exactly the new tokens in the
      session, remembered as before, the saved login replaced or removed, and the new access token
      handed back. */
  lemma AcceptedIsInstalled(s: State, t: nat, purpose: Purpose, remembered: bool, withRefresh: bool)
    requires At(s, t, Calling(purpose, remembered)) && Locking(purpose) && (remembered ==> withRefresh)
    ensures var access, refresh := s.nextToken, if withRefresh then Some(s.nextToken + 1) else None;
      Three(s, Answer(t, true, withRefresh), Store(t, true), Write(t))
      == s.(memory := Memory(Some(access), refresh, remembered, s.memory.generation + 1),
            keyring := if remembered then refresh else None, lock := None, threads := s.threads - {t},
            results := s.results + [Return(purpose, Some(access))], nextToken := s.nextToken + 2)
  {
    var tokens := Tokens(s.nextToken, if withRefresh then Some(s.nextToken + 1) else None);
    var first := Step(s, Answer(t, true, withRefresh));
    ThreadGone(s.threads, t, Storing(purpose, tokens, remembered), Writing(purpose, tokens, remembered));
    ThreadGone(s.threads, t, Writing(purpose, tokens, remembered), Writing(purpose, tokens, remembered));
    assert first == s.(threads := s.threads[t := Storing(purpose, tokens, remembered)], nextToken := s.nextToken + 2);
    assert Step(first, Store(t, true))
        == first.(threads := s.threads[t := Writing(purpose, tokens, remembered)], keyring := if remembered then tokens.refresh else None);
  }

  /** A refused call ends with nothing in the session, the saved login deleted if the keyring works,
      and nothing handed back. */
  lemma RefusedIsDiscarded(s: State, t: nat, purpose: Purpose, remembered: bool, works: bool)
    requires At(s, t, Calling(purpose, remembered)) && Locking(purpose)
    ensures Three(s, Answer(t, false, false), ClearKeyring(t, works), ClearMemory(t))
      == s.(memory := Memory(None, None, false, s.memory.generation + 1), keyring := if works then None else s.keyring,
            lock := None, threads := s.threads - {t}, results := s.results + [Return(purpose, None)])
  {
    var first := Step(s, Answer(t, false, false));
    ThreadGone(s.threads, t, ClearingKeyring(purpose, 1), ClearingMemory(purpose, 1));
    ThreadGone(s.threads, t, ClearingMemory(purpose, 1), ClearingMemory(purpose, 1));
    assert first == s.(threads := s.threads[t := ClearingKeyring(purpose, 1)]);
    assert Step(first, ClearKeyring(t, works))
        == s.(threads := s.threads[t := ClearingMemory(purpose, 1)], keyring := if works then None else s.keyring);
  }

  /** A login ends with exactly its tokens in the session, remembered as asked. */
  lemma LoginIsInstalled(s: State, t: nat, remembered: bool, withRefresh: bool)
    requires t !in s.threads && (remembered ==> withRefresh)
    ensures var access, refresh := s.nextToken, if withRefresh then Some(s.nextToken + 1) else None;
      Three(s, StartLogin(t, remembered, withRefresh), Store(t, true), Write(t))
      == s.(memory := Memory(Some(access), refresh, remembered, s.memory.generation + 1),
            keyring := if remembered then refresh else None, nextToken := s.nextToken + 2)
  {
    var tokens := Tokens(s.nextToken, if withRefresh then Some(s.nextToken + 1) else None);
    var first := Step(s, StartLogin(t, remembered, withRefresh));
    ThreadGone(s.threads, t, Storing(Login, tokens, remembered), Writing(Login, tokens, remembered));
    ThreadGone(s.threads, t, Writing(Login, tokens, remembered), Writing(Login, tokens, remembered));
    assert first == s.(threads := s.threads[t := Storing(Login, tokens, remembered)], nextToken := s.nextToken + 2);
    assert Step(first, Store(t, true))
        == first.(threads := s.threads[t := Writing(Login, tokens, remembered)], keyring := if remembered then tokens.refresh else None);
  }

  /** A sign-off ends with nothing in the session, the saved login deleted if the keyring works. */
  lemma SignOffClears(s: State, t: nat, works: bool)
    requires t !in s.threads
    ensures Three(s, StartSignOff(t), ClearKeyring(t, works), ClearMemory(t))
      == s.(memory := Memory(None, None, false, s.memory.generation + 1), keyring := if works then None else s.keyring)
  {
    var first := Step(s, StartSignOff(t));
    ThreadGone(s.threads, t, ClearingKeyring(SignOff, 1), ClearingMemory(SignOff, 1));
    ThreadGone(s.threads, t, ClearingMemory(SignOff, 1), ClearingMemory(SignOff, 1));
    assert first == s.(threads := s.threads[t := ClearingKeyring(SignOff, 1)]);
    assert Step(first, ClearKeyring(t, works))
        == s.(threads := s.threads[t := ClearingMemory(SignOff, 1)], keyring := if works then None else s.keyring);
  }

  /** Tokens that cannot be stored, because the keyring refuses or a login to be remembered brought no
      refresh token, lead to a discard: once for a login, twice for a refresh or restore. */
  lemma UnstorableIsDiscarded(s: State, t: nat, purpose: Purpose, tokens: Tokens, remembered: bool, works: bool)
    requires At(s, t, Storing(purpose, tokens, remembered)) && (!works || (remembered && tokens.refresh.None?))
    ensures Step(s, Store(t, works)) == s.(threads := s.threads[t := ClearingKeyring(purpose, if Locking(purpose) then 2 else 1)])
  {
  }

  /** A free lock goes to whoever asks next. */
  lemma FreeLockIsGranted(s: State, t: nat, purpose: Purpose)
    requires At(s, t, Waiting(purpose))
    ensures Step(s, Acquire(t))
         == if s.lock.None? then s.(threads := s.threads[t := Reading(purpose)], lock := Some(t)) else s
  {
  }
}
