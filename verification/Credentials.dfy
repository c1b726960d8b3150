/**
  Signing in against password changes (`auth.rs`, `password_reset.rs`).

  A login and a password change each read and verify the hash first and commit later; anything may
  happen between. Every database transaction is one step. A new password hash is a fresh version.
*/
module Credentials {
  import opened Common

  datatype User = User(version: nat, active: bool)

  /** How a session was opened: with the password of a version, or without one (passkey, OAuth). */
  datatype Via = Password(version: nat) | WithoutPassword

  datatype Session = Session(user: nat, via: Via, revoked: bool, expired: bool)

  /** A verified login and a verified or failed change that have not committed yet. */
  datatype Login = Login(user: nat, version: nat)

  datatype Change = Change(user: nat, session: nat, seen: nat, valid: bool)

  /** A reset token; it expires some time after it was sent. */
  datatype Token = Token(user: nat, consumed: bool, expired: bool)

  /** A change that committed: the version it replaced and the one it set. */
  datatype Commit = Commit(user: nat, replaced: nat, version: nat)

  datatype State = State(
    users: seq<User>, sessions: seq<Session>, logins: seq<Login>, changes: seq<Change>,
    tokens: seq<Token>, commits: seq<Commit>, next: nat)

  const EMPTY := State([], [], [], [], [], [], 0)

  predicate Live(x: Session) { !x.revoked && !x.expired }

  /** Every session of the user is revoked. */
  function RevokeAll(sessions: seq<Session>, user: nat): (r: seq<Session>)
    ensures |r| == |sessions|
    ensures forall i :: 0 <= i < |r| ==>
              r[i] == if sessions[i].user == user then sessions[i].(revoked := true) else sessions[i]
  {
    if sessions == [] then []
    else
      var x := sessions[|sessions| - 1];
      RevokeAll(sessions[..|sessions| - 1], user) + [if x.user == user then x.(revoked := true) else x]
  }

  function CloseTokens(tokens: seq<Token>, user: nat): (r: seq<Token>)
    ensures |r| == |tokens|
    ensures forall i :: 0 <= i < |r| ==>
              r[i] == if tokens[i].user == user then tokens[i].(consumed := true) else tokens[i]
  {
    if tokens == [] then []
    else
      var x := tokens[|tokens| - 1];
      CloseTokens(tokens[..|tokens| - 1], user) + [if x.user == user then x.(consumed := true) else x]
  }

  /** A new hash for the user, and everything signed in with anything is signed out. */
  function NewPassword(s: State, user: nat): State
    requires user < |s.users|
  {
    s.(users := s.users[user := s.users[user].(version := s.next)],
       sessions := RevokeAll(s.sessions, user),
       commits := s.commits + [Commit(user, s.users[user].version, s.next)],
       next := s.next + 1)
  }

  datatype Step =
    | SignUp
    | BeginLogin(user: nat, valid: bool)
    | FinishLogin(login: nat)
    | OtherLogin(user: nat)
    | BeginChange(session: nat, valid: bool)
    | FinishChange(change: nat)
    | SendReset(user: nat)
    | CompleteReset(token: nat)
    | ExpireToken(token: nat)
    | Revoke(asker: nat, target: nat)
    | Logout(session: nat)
    | LogoutAll(asker: nat)
    | Expire(session: nat)
    | SetActive(user: nat, active: bool)

  /** `current_password`: the hash that matched is still the active user's. */
  predicate StillCurrent(s: State, user: nat, version: nat) {
    user < |s.users| && s.users[user].active && s.users[user].version == version
  }

  /** `lock_current_session`. */
  predicate Holds(s: State, session: nat, user: nat) {
    session < |s.sessions| && s.sessions[session].user == user && Live(s.sessions[session])
  }

  predicate ChangeCommits(s: State, c: Change) {
    Holds(s, c.session, c.user) && StillCurrent(s, c.user, c.seen) && c.valid
  }

  predicate ResetCommits(s: State, t: Token) {
    !t.consumed && !t.expired && t.user < |s.users| && s.users[t.user].active
  }

  function Next(s: State, e: Step): State {
    match e
    case SignUp => s.(users := s.users + [User(s.next, true)], next := s.next + 1)
    case BeginLogin(u, valid) =>
      if u < |s.users| && s.users[u].active && valid then s.(logins := s.logins + [Login(u, s.users[u].version)])
      else s
    case FinishLogin(k) =>
      if k < |s.logins| && StillCurrent(s, s.logins[k].user, s.logins[k].version) then
        s.(sessions := s.sessions + [Session(s.logins[k].user, Password(s.logins[k].version), false, false)])
      else s
    case OtherLogin(u) =>
      if u < |s.users| && s.users[u].active then
        s.(sessions := s.sessions + [Session(u, WithoutPassword, false, false)])
      else s
    case BeginChange(x, valid) =>
      if x < |s.sessions| && s.sessions[x].user < |s.users| && s.users[s.sessions[x].user].active then
        var u := s.sessions[x].user;
        s.(changes := s.changes + [Change(u, x, s.users[u].version, valid)])
      else s
    case FinishChange(k) =>
      if k < |s.changes| && ChangeCommits(s, s.changes[k]) then NewPassword(s, s.changes[k].user) else s
    case SendReset(u) => s.(tokens := s.tokens + [Token(u, false, false)])
    case CompleteReset(k) =>
      if k < |s.tokens| && ResetCommits(s, s.tokens[k]) then
        var u := s.tokens[k].user;
        NewPassword(s, u).(tokens := CloseTokens(s.tokens, u))
      else s
    case ExpireToken(k) =>
      if k < |s.tokens| then s.(tokens := s.tokens[k := s.tokens[k].(expired := true)]) else s
    case Revoke(asker, target) =>
      if asker < |s.sessions| && Live(s.sessions[asker]) && target < |s.sessions|
         && s.sessions[target].user == s.sessions[asker].user
      then s.(sessions := s.sessions[target := s.sessions[target].(revoked := true)])
      else s
    case Logout(x) =>
      if x < |s.sessions| then s.(sessions := s.sessions[x := s.sessions[x].(revoked := true)]) else s
    case LogoutAll(asker) =>
      if asker < |s.sessions| && Live(s.sessions[asker]) then
        s.(sessions := RevokeAll(s.sessions, s.sessions[asker].user))
      else s
    case Expire(x) =>
      if x < |s.sessions| then s.(sessions := s.sessions[x := s.sessions[x].(expired := true)]) else s
    case SetActive(u, b) =>
      if u < |s.users| then s.(users := s.users[u := s.users[u].(active := b)]) else s
  }

  function Run(es: seq<Step>): State
    decreases |es|
  {
    if es == [] then EMPTY else Next(Run(es[..|es| - 1]), es[|es| - 1])
  }

  // ---------------------------------------------------------------- what every interleaving keeps

  /** A live password session was opened with its user's current password. */
  predicate SessionsCurrent(s: State) {
    forall i :: 0 <= i < |s.sessions| && Live(s.sessions[i]) && s.sessions[i].via.Password? ==>
      s.sessions[i].user < |s.users| && s.sessions[i].via.version == s.users[s.sessions[i].user].version
  }

  /** Versions are handed out once; a replaced version is older than the user's current one. */
  predicate VersionsGrow(s: State) {
    && (forall u :: 0 <= u < |s.users| ==> s.users[u].version < s.next)
    && (forall k :: 0 <= k < |s.commits| ==>
          s.commits[k].user < |s.users|
          && s.commits[k].replaced < s.commits[k].version <= s.users[s.commits[k].user].version)
    && (forall j, k :: 0 <= j < k < |s.commits| && s.commits[j].user == s.commits[k].user ==>
          s.commits[j].version <= s.commits[k].replaced)
  }

  predicate Inv(s: State) { SessionsCurrent(s) && VersionsGrow(s) }

  /** The user whose password a step replaces. */
  function Replaces(s: State, e: Step): Option<nat> {
    if e.FinishChange? && e.change < |s.changes| && ChangeCommits(s, s.changes[e.change]) then
      Some(s.changes[e.change].user)
    else if e.CompleteReset? && e.token < |s.tokens| && ResetCommits(s, s.tokens[e.token]) then
      Some(s.tokens[e.token].user)
    else None
  }

  lemma {:induction false} StepKeeps(s: State, e: Step)
    requires Inv(s)
    ensures Inv(Next(s, e))
  {
    if Replaces(s, e).Some? {
      NewPasswordKeeps(s, Replaces(s, e).value);
    } else {
      OtherStepSessions(s, e);
      OtherStepVersions(s, e);
      hide Next;
    }
  }

  lemma {:induction false} OtherStepSessions(s: State, e: Step)
    requires Inv(s) && Replaces(s, e).None?
    ensures SessionsCurrent(Next(s, e))
  {
    hide VersionsGrow;
  }

  lemma {:induction false} OtherStepVersions(s: State, e: Step)
    requires Inv(s) && Replaces(s, e).None?
    ensures VersionsGrow(Next(s, e))
  {
    hide SessionsCurrent;
  }

  lemma {:induction false} NewPasswordKeeps(s: State, user: nat)
    requires Inv(s) && user < |s.users|
    ensures Inv(NewPassword(s, user))
  {
  }

  /** In every interleaving of logins, changes, resets, revocations and logouts. */
  lemma {:induction false} RunKeeps(es: seq<Step>)
    ensures Inv(Run(es))
    decreases |es|
  {
    hide Next;
    if es != [] {
      RunKeeps(es[..|es| - 1]);
      hide Inv;
      StepKeeps(Run(es[..|es| - 1]), es[|es| - 1]);
    }
  }

  /** Of the changes and resets that replaced one and the same password, at most one committed. */
  lemma {:induction false} OneCommitPerPassword(es: seq<Step>, j: nat, k: nat)
    requires j < k < |Run(es).commits| && Run(es).commits[j].user == Run(es).commits[k].user
    ensures Run(es).commits[j].replaced != Run(es).commits[k].replaced
  {
    hide Run;
    RunKeeps(es);
  }

  /** Two changes that verified the same old hash: once the first commits, the second never does,
      whatever happens in between. */
  lemma {:induction false} SecondChangeRefused(es: seq<Step>, more: seq<Step>, j: nat, k: nat)
    requires j < |Run(es).changes| && k < |Run(es).changes|
    requires Run(es).changes[j].user == Run(es).changes[k].user && Run(es).changes[j].seen == Run(es).changes[k].seen
    requires ChangeCommits(Run(es), Run(es).changes[j])
    ensures (var t := Run(es + [FinishChange(j)] + more);
             k < |t.changes| && t.changes[k] == Run(es).changes[k] && !ChangeCommits(t, t.changes[k]))
  {
    var s, c := Run(es), Run(es).changes[k];
    assert (es + [FinishChange(j)])[..|es|] == es;
    assert Run(es + [FinishChange(j)]) == NewPassword(s, s.changes[j].user);
    assert es + [FinishChange(j)] + [] == es + [FinishChange(j)];
    RunKeeps(es);
    Outdated(es + [FinishChange(j)], more, k, c);
  }

  lemma {:induction false} Outdated(es: seq<Step>, more: seq<Step>, k: nat, c: Change)
    requires k < |Run(es).changes| && Run(es).changes[k] == c
    requires c.user < |Run(es).users| && Run(es).users[c.user].version > c.seen
    ensures k < |Run(es + more).changes| && Run(es + more).changes[k] == c
    ensures c.user < |Run(es + more).users| && Run(es + more).users[c.user].version > c.seen
    decreases |more|
  {
    hide Next, Inv;
    if more == [] {
      assert es + more == es;
    } else {
      var q := more[..|more| - 1];
      Outdated(es, q, k, c);
      assert (es + more)[..|es + more| - 1] == es + q;
      RunKeeps(es + q);
      OutdatedStep(Run(es + q), more[|more| - 1], k, c);
    }
  }

  lemma {:induction false} OutdatedStep(s: State, e: Step, k: nat, c: Change)
    requires Inv(s) && k < |s.changes| && s.changes[k] == c
    requires c.user < |s.users| && s.users[c.user].version > c.seen
    ensures k < |Next(s, e).changes| && Next(s, e).changes[k] == c
    ensures c.user < |Next(s, e).users| && Next(s, e).users[c.user].version > c.seen
  {
  }

  predicate RevokedFor(s: State, i: nat, u: nat) {
    i < |s.sessions| && s.sessions[i].user == u && s.sessions[i].revoked
  }

  lemma {:induction false} RevokedStays(s: State, e: Step, i: nat, u: nat)
    requires RevokedFor(s, i, u)
    ensures RevokedFor(Next(s, e), i, u)
  {
  }

  lemma {:induction false} RevokedForever(es: seq<Step>, more: seq<Step>, i: nat, u: nat)
    requires RevokedFor(Run(es), i, u)
    ensures RevokedFor(Run(es + more), i, u)
    decreases |more|
  {
    hide Next, RevokedFor;
    if more == [] {
      assert es + more == es;
    } else {
      var q := more[..|more| - 1];
      RevokedForever(es, q, i, u);
      assert (es + more)[..|es + more| - 1] == es + q;
      RevokedStays(Run(es + q), more[|more| - 1], i, u);
    }
  }

  /** A committed change or reset ends every session the user had, the one that asked for it included,
      for good: none is live again in any run that follows. */
  lemma {:induction false} NothingSurvivesANewPassword(es: seq<Step>, e: Step, more: seq<Step>, u: nat, i: nat)
    requires Replaces(Run(es), e) == Some(u)
    requires i < |Run(es).sessions| && Run(es).sessions[i].user == u
    ensures (var t := Run(es + [e] + more);
             i < |t.sessions| && t.sessions[i].user == u && !Live(t.sessions[i]))
  {
    assert (es + [e])[..|es|] == es;
    assert RevokedFor(Run(es + [e]), i, u) by {
      assert Run(es + [e]) == Next(Run(es), e);
    }
    RevokedForever(es + [e], more, i, u);
  }

  // ---------------------------------------------------------------- the transactions

  class Accounts {
    var users: seq<User>
    var sessions: seq<Session>
    var logins: seq<Login>
    var changes: seq<Change>
    var tokens: seq<Token>
    var commits: seq<Commit>
    var next: nat

    function Now(): State reads this { State(users, sessions, logins, changes, tokens, commits, next) }

    /** What `RunKeeps` proves of every interleaving. */
    ghost predicate Valid() reads this { Inv(Now()) }

    constructor ()
      ensures Valid() && Now() == EMPTY
    {
      users, sessions, logins, changes, tokens, commits, next := [], [], [], [], [], [], 0;
    }

    /** The transaction that ends a password login. */
    method CommitLogin(k: nat) returns (ok: bool)
      requires Valid() && k < |logins|
      modifies this
      ensures Valid()
      ensures Now() == Next(old(Now()), FinishLogin(k))
      ensures ok <==> StillCurrent(old(Now()), logins[k].user, logins[k].version)
    {
      hide Inv;
      StepKeeps(Now(), FinishLogin(k));
      var l := logins[k];
      if l.user >= |users| || !users[l.user].active || users[l.user].version != l.version {
        return false;
      }
      sessions := sessions + [Session(l.user, Password(l.version), false, false)];
      return true;
    }

    /** Sign the user out everywhere. */
    method RevokeEverySession(user: nat)
      modifies this`sessions
      ensures sessions == RevokeAll(old(sessions), user)
    {
      var i := 0;
      while i < |sessions|
        invariant 0 <= i <= |sessions| == |old(sessions)|
        invariant forall j :: 0 <= j < i ==>
                    sessions[j] == if old(sessions)[j].user == user then old(sessions)[j].(revoked := true)
                                   else old(sessions)[j]
        invariant forall j :: i <= j < |sessions| ==> sessions[j] == old(sessions)[j]
      {
        if sessions[i].user == user {
          sessions := sessions[i := sessions[i].(revoked := true)];
        }
        i := i + 1;
      }
    }

    method ReplacePassword(user: nat)
      requires Valid() && user < |users|
      modifies this
      ensures Valid()
      ensures Now() == NewPassword(old(Now()), user)
    {
      hide Inv;
      NewPasswordKeeps(Now(), user);
      commits := commits + [Commit(user, users[user].version, next)];
      users := users[user := users[user].(version := next)];
      next := next + 1;
      RevokeEverySession(user);
    }

    /** The transaction that ends a password change. */
    method CommitChange(k: nat) returns (ok: bool)
      requires Valid() && k < |changes|
      modifies this
      ensures Valid()
      ensures Now() == Next(old(Now()), FinishChange(k))
      ensures ok <==> ChangeCommits(old(Now()), changes[k])
    {
      hide Inv;
      StepKeeps(Now(), FinishChange(k));
      var c := changes[k];
      if !(c.session < |sessions| && sessions[c.session].user == c.user && Live(sessions[c.session])) {
        return false;
      }
      if c.user >= |users| || !users[c.user].active || users[c.user].version != c.seen {
        return false;
      }
      if !c.valid {
        return false;
      }
      ReplacePassword(c.user);
      return true;
    }

    /** The transaction that ends a reset by token. */
    method CommitReset(k: nat) returns (ok: bool)
      requires Valid() && k < |tokens|
      modifies this
      ensures Valid()
      ensures Now() == Next(old(Now()), CompleteReset(k))
      ensures ok <==> ResetCommits(old(Now()), old(tokens)[k])
    {
      hide Inv;
      StepKeeps(Now(), CompleteReset(k));
      var t := tokens[k];
      if t.consumed || t.expired || t.user >= |users| || !users[t.user].active {
        return false;
      }
      ReplacePassword(t.user);
      tokens := CloseTokens(tokens, t.user);
      return true;
    }

    method RevokeSession(asker: nat, target: nat) returns (ok: bool)
      requires Valid()
      modifies this
      ensures Valid()
      ensures Now() == Next(old(Now()), Revoke(asker, target))
    {
      hide Inv;
      StepKeeps(Now(), Revoke(asker, target));
      if asker >= |sessions| || !Live(sessions[asker]) {
        return false;
      }
      if target >= |sessions| || sessions[target].user != sessions[asker].user {
        return false;
      }
      sessions := sessions[target := sessions[target].(revoked := true)];
      return true;
    }

    method SignOutEverywhere(asker: nat) returns (ok: bool)
      requires Valid()
      modifies this
      ensures Valid()
      ensures Now() == Next(old(Now()), LogoutAll(asker))
    {
      hide Inv;
      StepKeeps(Now(), LogoutAll(asker));
      if asker >= |sessions| || !Live(sessions[asker]) {
        return false;
      }
      RevokeEverySession(sessions[asker].user);
      return true;
    }
  }
}
