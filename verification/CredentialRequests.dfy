/**
  When each request about passwords and sessions goes through and what the rows are then, and what an
  accepted one rules out over every following run.
*/
module CredentialRequests {
  import opened Common
  import opened Credentials

  predicate ActiveUser(s: State, u: nat) { u < |s.users| && s.users[u].active }

  predicate LiveRow(s: State, i: nat) { i < |s.sessions| && !s.sessions[i].revoked && !s.sessions[i].expired }

  // ---------------------------------------------------------------- one request

  /** A login ends in a live session exactly when its user is still active and the hash it verified is
      still the user's. */
  lemma {:induction false} LoginOutcome(s: State, k: nat)
    requires k < |s.logins|
    ensures (var l, t := s.logins[k], Next(s, FinishLogin(k));
             if ActiveUser(s, l.user) && s.users[l.user].version == l.version then
               t == s.(sessions := s.sessions + [Session(l.user, Password(l.version), false, false)])
             else t == s)
  {
  }

  /** Only a verified password of an active user starts a login, at the hash of the moment. */
  lemma {:induction false} BeginLoginOutcome(s: State, u: nat, valid: bool)
    ensures (var t := Next(s, BeginLogin(u, valid));
             if ActiveUser(s, u) && valid then t == s.(logins := s.logins + [Login(u, s.users[u].version)]) else t == s)
  {
  }

  /** The user has a hash nobody had; every session of the user is revoked and no other is touched. */
  predicate Renewed(s: State, t: State, u: nat) {
    && u < |s.users| && |t.users| == |s.users|
    && t.users[u] == User(s.next, s.users[u].active) && s.next < t.next
    && (forall v :: 0 <= v < |s.users| && v != u ==> t.users[v] == s.users[v])
    && AllRevoked(s, t, u)
    && t.commits == s.commits + [Commit(u, s.users[u].version, s.next)]
    && t.logins == s.logins && t.changes == s.changes
  }

  predicate AllRevoked(s: State, t: State, u: nat) {
    && |t.sessions| == |s.sessions|
    && forall i :: 0 <= i < |s.sessions| ==>
         if s.sessions[i].user == u then t.sessions[i] == s.sessions[i].(revoked := true)
         else t.sessions[i] == s.sessions[i]
  }

  /** A change goes through exactly when the session that asked is still live, its user active, the hash
      it saw current, and the old password was right. */
  lemma {:induction false} ChangeOutcome(s: State, k: nat)
    requires k < |s.changes|
    ensures (var c, t := s.changes[k], Next(s, FinishChange(k));
             if && LiveRow(s, c.session) && s.sessions[c.session].user == c.user
                && ActiveUser(s, c.user) && s.users[c.user].version == c.seen && c.valid
             then Renewed(s, t, c.user) && t.tokens == s.tokens
             else t == s)
  {
  }

  /** A reset goes through exactly when its token is unused and in time and its user active; it uses up
      every token of the user. */
  lemma {:induction false} ResetOutcome(s: State, k: nat)
    requires k < |s.tokens|
    ensures (var x, t := s.tokens[k], Next(s, CompleteReset(k));
             if !x.consumed && !x.expired && ActiveUser(s, x.user) then
               && Renewed(s, t, x.user) && |t.tokens| == |s.tokens|
               && (forall i :: 0 <= i < |s.tokens| ==>
                     if s.tokens[i].user == x.user then t.tokens[i] == s.tokens[i].(consumed := true)
                     else t.tokens[i] == s.tokens[i])
             else t == s)
  {
  }

  /** Whoever is signed in revokes sessions of their own, one or all, and no one else's. */
  lemma {:induction false} RevokeOutcomes(s: State, asker: nat, target: nat)
    ensures (var t := Next(s, Revoke(asker, target));
             if LiveRow(s, asker) && target < |s.sessions| && s.sessions[target].user == s.sessions[asker].user then
               t == s.(sessions := s.sessions[target := s.sessions[target].(revoked := true)])
             else t == s)
    ensures (var t := Next(s, LogoutAll(asker));
             if LiveRow(s, asker) then t == s.(sessions := t.sessions) && AllRevoked(s, t, s.sessions[asker].user)
             else t == s)
    ensures (var t := Next(s, Logout(target));
             if target < |s.sessions| then
               t == s.(sessions := s.sessions[target := s.sessions[target].(revoked := true)])
             else t == s)
  {
  }

  /** A change starts from a session of an active user, with the hash of the moment and whether the old
      password was right. */
  lemma {:induction false} BeginChangeOutcome(s: State, x: nat, valid: bool)
    ensures (var t := Next(s, BeginChange(x, valid));
             if x < |s.sessions| && ActiveUser(s, s.sessions[x].user) then
               var u := s.sessions[x].user;
               t == s.(changes := s.changes + [Change(u, x, s.users[u].version, valid)])
             else t == s)
  {
  }

  /** What else happens to the rows. */
  lemma {:induction false} OtherOutcomes(s: State, k: nat, b: bool)
    ensures Next(s, SignUp) == s.(users := s.users + [User(s.next, true)], next := s.next + 1)
    ensures Next(s, SendReset(k)) == s.(tokens := s.tokens + [Token(k, false, false)])
    ensures Next(s, OtherLogin(k))
         == if ActiveUser(s, k) then s.(sessions := s.sessions + [Session(k, WithoutPassword, false, false)]) else s
    ensures k < |s.tokens| ==>
              Next(s, ExpireToken(k)) == s.(tokens := s.tokens[k := s.tokens[k].(expired := true)])
    ensures k < |s.sessions| ==>
              Next(s, Expire(k)) == s.(sessions := s.sessions[k := s.sessions[k].(expired := true)])
    ensures k < |s.users| ==> Next(s, SetActive(k, b)) == s.(users := s.users[k := User(s.users[k].version, b)])
  {
  }

  // ---------------------------------------------------------------- over every following run

  lemma {:induction false} RunMore(es: seq<Step>, e: Step)
    ensures Run(es + [e]) == Next(Run(es), e)
  {
    assert (es + [e])[..|es + [e]| - 1] == es;
  }

  lemma {:induction false} RunOn(es: seq<Step>, more: seq<Step>)
    requires more != []
    ensures Run(es + more) == Next(Run(es + more[..|more| - 1]), more[|more| - 1])
  {
    assert (es + more)[..|es + more| - 1] == es + more[..|more| - 1];
  }

  predicate UsedUp(s: State, j: nat, u: nat) {
    j < |s.tokens| && s.tokens[j].user == u && s.tokens[j].consumed
  }

  lemma {:induction false} UsedUpForever(es: seq<Step>, more: seq<Step>, j: nat, u: nat)
    requires UsedUp(Run(es), j, u)
    ensures UsedUp(Run(es + more), j, u)
    decreases |more|
  {
    hide Run, Next;
    if more == [] {
      assert es + more == es;
    } else {
      UsedUpForever(es, more[..|more| - 1], j, u);
      RunOn(es, more);
      UsedUpStays(Run(es + more[..|more| - 1]), more[|more| - 1], j, u);
    }
  }

  lemma {:induction false} UsedUpStays(s: State, e: Step, j: nat, u: nat)
    requires UsedUp(s, j, u)
    ensures UsedUp(Next(s, e), j, u)
  {
  }

  /** After a reset no token sent to the user before it ever resets again, whatever follows. */
  lemma {:induction false} TokensWorkOnce(es: seq<Step>, k: nat, more: seq<Step>, j: nat)
    requires k < |Run(es).tokens| && !Run(es).tokens[k].consumed && !Run(es).tokens[k].expired
    requires ActiveUser(Run(es), Run(es).tokens[k].user)
    requires j < |Run(es).tokens| && Run(es).tokens[j].user == Run(es).tokens[k].user
    ensures (var t := Run(es + [CompleteReset(k)] + more); Next(t, CompleteReset(j)) == t)
  {
    hide Run, Next;
    var u := Run(es).tokens[k].user;
    ResetOutcome(Run(es), k);
    RunMore(es, CompleteReset(k));
    UsedUpForever(es + [CompleteReset(k)], more, j, u);
    ResetOutcome(Run(es + [CompleteReset(k)] + more), j);
  }

  predicate LoginStale(s: State, k: nat, l: Login) {
    k < |s.logins| && s.logins[k] == l && l.user < |s.users| && s.users[l.user].version > l.version
  }

  lemma {:induction false} StaleStays(s: State, e: Step, k: nat, l: Login)
    requires Inv(s) && LoginStale(s, k, l)
    ensures LoginStale(Next(s, e), k, l)
  {
  }

  lemma {:induction false} StaleForever(es: seq<Step>, more: seq<Step>, k: nat, l: Login)
    requires LoginStale(Run(es), k, l)
    ensures LoginStale(Run(es + more), k, l)
    decreases |more|
  {
    hide Run, Next, Inv;
    if more == [] {
      assert es + more == es;
    } else {
      StaleForever(es, more[..|more| - 1], k, l);
      RunOn(es, more);
      RunKeeps(es + more[..|more| - 1]);
      StaleStays(Run(es + more[..|more| - 1]), more[|more| - 1], k, l);
    }
  }

  /** Logins under way belong to users and to hashes those users have or had. */
  predicate LoginsKnown(s: State) {
    forall k :: 0 <= k < |s.logins| ==>
      s.logins[k].user < |s.users| && s.logins[k].version <= s.users[s.logins[k].user].version
  }

  lemma {:induction false} LoginsKnownStep(s: State, e: Step)
    requires LoginsKnown(s) && Inv(s)
    ensures LoginsKnown(Next(s, e))
  {
  }

  lemma {:induction false} LoginsKnownRun(es: seq<Step>)
    ensures LoginsKnown(Run(es))
    decreases |es|
  {
    hide Next, Inv;
    if es != [] {
      LoginsKnownRun(es[..|es| - 1]);
      RunKeeps(es[..|es| - 1]);
      LoginsKnownStep(Run(es[..|es| - 1]), es[|es| - 1]);
    }
  }

  /** A login whose password was verified before a change or reset never gets in after it. */
  lemma {:induction false} LateLoginRefused(es: seq<Step>, e: Step, more: seq<Step>, k: nat)
    requires k < |Run(es).logins| && Replaces(Run(es), e) == Some(Run(es).logins[k].user)
    ensures (var t := Run(es + [e] + more); Next(t, FinishLogin(k)) == t)
  {
    hide Run, Next, Inv;
    var s, l := Run(es), Run(es).logins[k];
    RunKeeps(es);
    LoginsKnownRun(es);
    RunMore(es, e);
    NewIsLater(s, e, k);
    StaleForever(es + [e], more, k, l);
    LoginOutcome(Run(es + [e] + more), k);
  }

  lemma {:induction false} NewIsLater(s: State, e: Step, k: nat)
    requires Inv(s) && k < |s.logins| && s.logins[k].user < |s.users|
    requires Replaces(s, e) == Some(s.logins[k].user)
    requires s.logins[k].version <= s.users[s.logins[k].user].version
    ensures LoginStale(Next(s, e), k, s.logins[k])
  {
  }

  /** The new password opens the door: after a reset, signing in with it gives a live session of the
      user, and it is the user's only live one. */
  lemma {:induction false} NewPasswordSignsIn(es: seq<Step>, k: nat)
    requires k < |Run(es).tokens| && !Run(es).tokens[k].consumed && !Run(es).tokens[k].expired
    requires ActiveUser(Run(es), Run(es).tokens[k].user)
    ensures (var u, n := Run(es).tokens[k].user, |Run(es).sessions|;
             var t := Run(es + [CompleteReset(k)] + [BeginLogin(u, true)] + [FinishLogin(|Run(es).logins|)]);
             && |t.sessions| == n + 1 && LiveRow(t, n) && t.sessions[n].user == u
             && forall i :: 0 <= i < n && t.sessions[i].user == u ==> !LiveRow(t, i))
  {
    hide Run, Next;
    var u, l := Run(es).tokens[k].user, |Run(es).logins|;
    ResetOutcome(Run(es), k);
    RunMore(es, CompleteReset(k));
    BeginLoginOutcome(Run(es + [CompleteReset(k)]), u, true);
    RunMore(es + [CompleteReset(k)], BeginLogin(u, true));
    LoginOutcome(Run(es + [CompleteReset(k)] + [BeginLogin(u, true)]), l);
    RunMore(es + [CompleteReset(k)] + [BeginLogin(u, true)], FinishLogin(l));
  }

  /** Signing out everywhere ends all the sessions there are, for good. */
  lemma {:induction false} SignedOutForGood(es: seq<Step>, asker: nat, more: seq<Step>, i: nat)
    requires LiveRow(Run(es), asker) && i < |Run(es).sessions|
    requires Run(es).sessions[i].user == Run(es).sessions[asker].user
    ensures !LiveRow(Run(es + [LogoutAll(asker)] + more), i)
  {
    hide Run, Next;
    RevokeOutcomes(Run(es), asker, i);
    RunMore(es, LogoutAll(asker));
    RevokedForever(es + [LogoutAll(asker)], more, i, Run(es).sessions[i].user);
  }

  predicate WrongChange(s: State, k: nat) { k < |s.changes| && !s.changes[k].valid }

  lemma {:induction false} WrongStays(es: seq<Step>, more: seq<Step>, k: nat)
    requires WrongChange(Run(es), k)
    ensures WrongChange(Run(es + more), k)
    decreases |more|
  {
    hide Run, Next;
    if more == [] {
      assert es + more == es;
    } else {
      WrongStays(es, more[..|more| - 1], k);
      RunOn(es, more);
      WrongStep(Run(es + more[..|more| - 1]), more[|more| - 1], k);
    }
  }

  lemma {:induction false} WrongStep(s: State, e: Step, k: nat)
    requires WrongChange(s, k)
    ensures WrongChange(Next(s, e), k)
  {
  }

  /** A change asked for with a wrong old password never goes through, in any run. */
  lemma {:induction false} WrongPasswordChangesNothing(es: seq<Step>, x: nat, more: seq<Step>)
    requires x < |Run(es).sessions| && ActiveUser(Run(es), Run(es).sessions[x].user)
    ensures (var t := Run(es + [BeginChange(x, false)] + more); Next(t, FinishChange(|Run(es).changes|)) == t)
  {
    hide Run, Next;
    var k := |Run(es).changes|;
    BeginChangeOutcome(Run(es), x, false);
    RunMore(es, BeginChange(x, false));
    WrongStays(es + [BeginChange(x, false)], more, k);
    ChangeOutcome(Run(es + [BeginChange(x, false)] + more), k);
  }
}
