/** What holds over every run of the credential operations. */
module CredentialRuns {
  import opened Wrappers
  import opened Credentials
  import Seqs = Sequences
  import Text

  lemma {:induction false} RunAppend(w: World, before: seq<Event>, after: seq<Event>)
    ensures Run(w, before + after) == Run(Run(w, before), after)
    decreases |before|
  {
    if before == [] {
      assert before + after == after;
    } else {
      RunAppend(Next(w, before[0]), before[1..], after);
      assert (before + after)[1..] == before[1..] + after;
    }
  }

  // ---------- sessions die with credentials ----------

  /** Issued claims never run ahead of their user's version. */
  predicate ClaimsInv(w: World) {
    forall c :: c in w.claims ==> c.user < |w.accounts.users| && c.version <= w.accounts.users[c.user].version
  }

  /** How one event changes a user: the version counts replacements, activation stays. */
  lemma {:induction false} StepVersion(w: World, e: Event, user: nat)
    requires user < |w.accounts.users|
    ensures var us, us' := w.accounts.users, Next(w, e).accounts.users;
            && |us| <= |us'|
            && us'[user].version == us[user].version + (if Replaces(w, e) == Some(user) then 1 else 0)
            && (us[user].activated ==> us'[user].activated)
            && w.now <= Next(w, e).now && w.claims <= Next(w, e).claims
  {
  }

  lemma {:induction false} StepKeepsClaims(w: World, e: Event)
    requires ClaimsInv(w)
    ensures ClaimsInv(Next(w, e))
  {
    var w' := Next(w, e);
    forall c | c in w'.claims
      ensures c.user < |w'.accounts.users| && c.version <= w'.accounts.users[c.user].version
    {
      if c in w.claims {
        StepVersion(w, e, c.user);
      }
    }
  }

  /** How often a run replaces the user's credential. */
  function Replacements(w: World, events: seq<Event>, user: nat): nat
    decreases |events|
  {
    if events == [] then 0
    else (if Replaces(w, events[0]) == Some(user) then 1 else 0) + Replacements(Next(w, events[0]), events[1..], user)
  }

  /** No run lowers a version: it grows by exactly the replacements. */
  lemma {:induction false} VersionCountsReplacements(w: World, events: seq<Event>, user: nat)
    requires user < |w.accounts.users|
    ensures var us, us' := w.accounts.users, Run(w, events).accounts.users;
            && |us| <= |us'| && us'[user].version == us[user].version + Replacements(w, events, user)
            && (us[user].activated ==> us'[user].activated)
            && w.now <= Run(w, events).now
    decreases |events|
  {
    if events != [] {
      StepVersion(w, events[0], user);
      VersionCountsReplacements(Next(w, events[0]), events[1..], user);
    }
  }

  /** Once a user's credential is replaced, every token issued before is refused forever. */
  lemma {:induction false} SessionsDieWithCredentials(w: World, e: Event, events: seq<Event>, c: Claim)
    requires ClaimsInv(w) && c in w.claims && Replaces(w, e) == Some(c.user)
    ensures var later := Run(Next(w, e), events); !Accepts(later.accounts, c, later.now)
  {
    StepVersion(w, e, c.user);
    VersionCountsReplacements(Next(w, e), events, c.user);
  }

  /** A fresh token is accepted exactly until it expires, its credential is replaced, or
      while its user is deactivated. */
  lemma {:induction false} SessionLivesIff(w: World, user: nat, password: Password, lifetime: int, events: seq<Event>)
    requires SignIn(w.accounts, user, password, w.now, lifetime).Ok?
    ensures var c := SignIn(w.accounts, user, password, w.now, lifetime).value;
            var later := Run(Next(w, DoSignIn(user, password, lifetime)), events);
            && user < |later.accounts.users|
            && (Accepts(later.accounts, c, later.now) <==>
                && later.now < w.now + lifetime
                && Replacements(Next(w, DoSignIn(user, password, lifetime)), events, user) == 0
                && later.accounts.users[user].active)
  {
    VersionCountsReplacements(Next(w, DoSignIn(user, password, lifetime)), events, user);
  }

  // ---------- reset links ----------

  predicate OutstandingFor(l: Link, user: nat) {
    l.user == user && Outstanding(l)
  }

  /** One outstanding reset link per user at most, none that is both used and withdrawn, and
      none for an account that is not activated. */
  predicate ResetInv(a: Accounts) {
    && (forall i, j | 0 <= i < j < |a.resets| && OutstandingFor(a.resets[i], a.resets[j].user) :: !Outstanding(a.resets[j]))
    && (forall i | 0 <= i < |a.resets| :: !(a.resets[i].consumed && a.resets[i].invalidated))
    && (forall i | 0 <= i < |a.resets| :: a.resets[i].user < |a.users| && a.users[a.resets[i].user].activated)
  }

  predicate NoneOutstanding(links: seq<Link>, user: nat) {
    forall i | 0 <= i < |links| :: !OutstandingFor(links[i], user)
  }

  lemma {:induction false} ReplacementKeepsResetInv(a: Accounts, user: nat, password: Password)
    requires ResetInv(a) && user < |a.users|
    ensures ResetInv(ReplaceCredential(a, user, password))
    ensures NoneOutstanding(ReplaceCredential(a, user, password).resets, user)
  {
  }

  lemma {:induction false} UsingKeepsResetInv(a: Accounts, link: nat)
    requires ResetInv(a) && link < |a.resets| && Outstanding(a.resets[link])
    ensures ResetInv(a.(resets := a.resets[link := a.resets[link].(consumed := true)]))
  {
  }

  lemma {:induction false} RequestKeepsResetInv(a: Accounts, user: nat, now: int, s: Settings, delivered: bool)
    requires ResetInv(a)
    ensures ResetInv(RequestReset(a, user, now, s, delivered))
  {
    var retired := a.(resets := RetireAll(a.resets, user));
    assert ResetInv(retired) && NoneOutstanding(retired.resets, user);
  }

  lemma {:induction false} StepKeepsResetInv(w: World, e: Event)
    requires ResetInv(w.accounts)
    ensures ResetInv(Next(w, e).accounts)
  {
    hide Latest;
    hide IsAdminRole;
    var a := w.accounts;
    if Outcome(w, e).Ok? {
      match e {
        case DoRequestReset(user, s, delivered) => RequestKeepsResetInv(a, user, w.now, s, delivered);
        case DoCompleteReset(link, password, _) =>
          var used := a.(resets := a.resets[link.value := a.resets[link.value].(consumed := true)]);
          UsingKeepsResetInv(a, link.value);
          ReplacementKeepsResetInv(used, a.resets[link.value].user, password);
        case DoChangePassword(user, _, password) => ReplacementKeepsResetInv(a, user, password);
        case DoAdminReset(user, password) => ReplacementKeepsResetInv(a, user, password);
        case _ =>
      }
    }
  }

  lemma {:induction false} RunKeepsResetInv(w: World, events: seq<Event>)
    requires ResetInv(w.accounts)
    ensures ResetInv(Run(w, events).accounts)
    decreases |events|
  {
    if events != [] {
      StepKeepsResetInv(w, events[0]);
      RunKeepsResetInv(Next(w, events[0]), events[1..]);
    }
  }

  /** After any replacement of a credential no reset link of that user is outstanding. */
  lemma {:induction false} ReplacementLeavesNoResetLink(w: World, e: Event)
    requires ResetInv(w.accounts) && Replaces(w, e).Some?
    ensures NoneOutstanding(Next(w, e).accounts.resets, Replaces(w, e).value)
  {
  }

  lemma {:induction false} RunKeepsClaims(w: World, events: seq<Event>)
    requires ClaimsInv(w)
    ensures ClaimsInv(Run(w, events))
    decreases |events|
  {
    if events != [] {
      StepKeepsClaims(w, events[0]);
      RunKeepsClaims(Next(w, events[0]), events[1..]);
    }
  }

  /** Every state that is reached from some users without links and sessions: at most one reset
      link of a user is outstanding, and none is both used and withdrawn. */
  lemma {:induction false} ReachableStatesAreSound(users: seq<User>, now: int, events: seq<Event>)
    ensures var w := Run(World(now, Accounts(users, [], []), {}), events);
            && ClaimsInv(w)
            && (forall i, j | 0 <= i < j < |w.accounts.resets| && w.accounts.resets[i].user == w.accounts.resets[j].user ::
                  !(Outstanding(w.accounts.resets[i]) && Outstanding(w.accounts.resets[j])))
            && (forall l :: l in w.accounts.resets ==> !(l.consumed && l.invalidated))
  {
    var start := World(now, Accounts(users, [], []), {});
    RunKeepsClaims(start, events);
    RunKeepsResetInv(start, events);
    var resets := Run(start, events).accounts.resets;
    forall i, j | 0 <= i < j < |resets| && resets[i].user == resets[j].user
      ensures !(Outstanding(resets[i]) && Outstanding(resets[j]))
    {
      assert Outstanding(resets[i]) ==> OutstandingFor(resets[i], resets[j].user);
    }
  }

  // ---------- every link works once ----------

  /** Whether an event resets a password with this link. */
  predicate UsesReset(w: World, e: Event, link: nat) {
    e.DoCompleteReset? && e.link == Some(link) && Outcome(w, e).Ok?
  }

  function ResetUses(w: World, events: seq<Event>, link: nat): nat
    decreases |events|
  {
    if events == [] then 0
    else (if UsesReset(w, events[0], link) then 1 else 0) + ResetUses(Next(w, events[0]), events[1..], link)
  }

  /** A link no longer works once it was used, withdrawn or has expired. */
  predicate Dead(links: seq<Link>, link: nat, now: int) {
    link < |links| && (!Outstanding(links[link]) || links[link].expires <= now)
  }

  lemma {:induction false} StepKeepsDead(w: World, e: Event, link: nat)
    requires Dead(w.accounts.resets, link, w.now)
    ensures Dead(Next(w, e).accounts.resets, link, Next(w, e).now) && !UsesReset(w, e, link)
  {
  }

  lemma {:induction false} DeadLinkStaysDead(w: World, events: seq<Event>, link: nat)
    requires Dead(w.accounts.resets, link, w.now)
    ensures ResetUses(w, events, link) == 0
    decreases |events|
  {
    if events != [] {
      StepKeepsDead(w, events[0], link);
      DeadLinkStaysDead(Next(w, events[0]), events[1..], link);
    }
  }

  /** Over any run a reset link resets a password at most once. */
  lemma {:induction false} ResetLinkWorksOnce(w: World, events: seq<Event>, link: nat)
    ensures ResetUses(w, events, link) <= 1
    decreases |events|
  {
    if events != [] {
      var w' := Next(w, events[0]);
      if UsesReset(w, events[0], link) {
        assert Dead(w'.accounts.resets, link, w'.now);
        DeadLinkStaysDead(w', events[1..], link);
      } else {
        ResetLinkWorksOnce(w', events[1..], link);
      }
    }
  }

  /** Whether an event withdraws the user's reset links: a new link or a new credential;
      activation leaves them alone, since there are none before it. */
  predicate Withdraws(w: World, e: Event, user: nat) {
    || (Replaces(w, e) == Some(user) && !e.DoActivate?)
    || (e.DoRequestReset? && e.user == user && Next(w, e).accounts != w.accounts)
  }

  function Withdrawals(w: World, events: seq<Event>, user: nat): nat
    decreases |events|
  {
    if events == [] then 0
    else (if Withdraws(w, events[0], user) then 1 else 0) + Withdrawals(Next(w, events[0]), events[1..], user)
  }

  lemma {:induction false} StepOnLink(w: World, e: Event, link: nat)
    requires link < |w.accounts.resets|
    ensures var l := w.accounts.resets[link];
            var ls' := Next(w, e).accounts.resets;
            && link < |ls'| && ls'[link].user == l.user && ls'[link].expires == l.expires
            && (Outstanding(l) ==> (Outstanding(ls'[link]) <==> !Withdraws(w, e, l.user)))
            && (!Outstanding(l) ==> !Outstanding(ls'[link]))
  {
    var a, a' := w.accounts, Next(w, e).accounts;
    if e.DoRequestReset? && a' != a {
      assert a'.resets[link] == Retire(a.resets[link], e.user);
    } else if e.DoCompleteReset? && Outcome(w, e).Ok? {
      assert a.resets[e.link.value].user == Replaces(w, e).value;
      assert link != e.link.value ==> a'.resets[link] == Retire(a.resets[link], Replaces(w, e).value);
    } else if Replaces(w, e).Some? && !e.DoActivate? {
      assert a'.resets[link] == Retire(a.resets[link], Replaces(w, e).value);
    }
  }

  lemma {:induction false} LostLinkStaysLost(w: World, events: seq<Event>, link: nat)
    requires link < |w.accounts.resets| && !Outstanding(w.accounts.resets[link])
    ensures link < |Run(w, events).accounts.resets| && !Outstanding(Run(w, events).accounts.resets[link])
    ensures Run(w, events).accounts.resets[link].user == w.accounts.resets[link].user
    ensures Run(w, events).accounts.resets[link].expires == w.accounts.resets[link].expires
    decreases |events|
  {
    if events != [] {
      StepOnLink(w, events[0], link);
      LostLinkStaysLost(Next(w, events[0]), events[1..], link);
    }
  }

  /** An outstanding link stays outstanding exactly as long as nothing withdraws it. */
  lemma {:induction false} LinkStaysOutstandingIff(w: World, events: seq<Event>, link: nat)
    requires link < |w.accounts.resets| && Outstanding(w.accounts.resets[link])
    ensures var l := w.accounts.resets[link];
            var ls' := Run(w, events).accounts.resets;
            && link < |ls'| && ls'[link].user == l.user && ls'[link].expires == l.expires
            && (Outstanding(ls'[link]) <==> Withdrawals(w, events, l.user) == 0)
    decreases |events|
  {
    if events != [] {
      StepOnLink(w, events[0], link);
      if Withdraws(w, events[0], w.accounts.resets[link].user) {
        LostLinkStaysLost(Next(w, events[0]), events[1..], link);
      } else {
        LinkStaysOutstandingIff(Next(w, events[0]), events[1..], link);
      }
    }
  }

  /** When a link issued earlier can still set an acceptable new password. */
  lemma {:induction false} LinkCompletesIff(w: World, events: seq<Event>, link: nat, password: Password)
    requires link < |w.accounts.resets| && Outstanding(w.accounts.resets[link])
    requires 0 < |password| <= MAX_PASSWORD_BYTES
    ensures var later, l := Run(w, events), w.accounts.resets[link];
            CompleteReset(later.accounts, Some(link), password, password, later.now).Ok? <==>
            && Withdrawals(w, events, l.user) == 0
            && later.now < l.expires
            && Eligible(later.accounts.users, l.user)
            && later.accounts.users[l.user].hash != Some(password)
  {
    LinkStaysOutstandingIff(w, events, link);
  }

  /** How often a run activates the account. */
  function Activations(w: World, events: seq<Event>, user: nat): nat
    decreases |events|
  {
    if events == [] then 0
    else (if events[0].DoActivate? && Replaces(w, events[0]) == Some(user) then 1 else 0)
         + Activations(Next(w, events[0]), events[1..], user)
  }

  lemma {:induction false} ActivatedStaysActivated(w: World, events: seq<Event>, user: nat)
    requires user < |w.accounts.users| && w.accounts.users[user].activated
    ensures Activations(w, events, user) == 0
    decreases |events|
  {
    if events != [] {
      StepVersion(w, events[0], user);
      ActivatedStaysActivated(Next(w, events[0]), events[1..], user);
    }
  }

  /** Over any run an account is activated at most once, whichever invitations it was sent. */
  lemma {:induction false} ActivatedOnce(w: World, events: seq<Event>, user: nat)
    ensures Activations(w, events, user) <= 1
    decreases |events|
  {
    if events != [] {
      var w' := Next(w, events[0]);
      if events[0].DoActivate? && Replaces(w, events[0]) == Some(user) {
        ActivatedStaysActivated(w', events[1..], user);
      } else {
        ActivatedOnce(w', events[1..], user);
      }
    }
  }

  // ---------- the last administrator ----------

  lemma {:induction false} AdminsAfterUpdate(users: seq<User>, i: nat, u: User)
    requires i < |users|
    ensures ActiveAdmins(users[i := u]) == ActiveAdmins(users)
              - (if IsActiveAdmin(users[i]) then 1 else 0) + (if IsActiveAdmin(u) then 1 else 0)
  {
    var n := |users| - 1;
    var after := users[i := u];
    if i == n {
      assert after[..n] == users[..n];
    } else {
      AdminsAfterUpdate(users[..n], i, u);
      assert after[..n] == users[..n][i := u];
    }
  }

  lemma {:induction false} AdminCounted(users: seq<User>, i: nat)
    requires i < |users| && IsActiveAdmin(users[i])
    ensures ActiveAdmins(users) >= 1
  {
    AdminsAfterUpdate(users, i, users[i].(active := false));
  }

  lemma {:induction false} AdminIsAdmin()
    ensures IsAdminRole("admin")
  {
    assert Text.Strip("admin") == "admin";
  }

  lemma {:induction false} StepKeepsAnAdmin(w: World, e: Event)
    requires ActiveAdmins(w.accounts.users) >= 1
    ensures ActiveAdmins(Next(w, e).accounts.users) >= 1
  {
    hide IsAdminRole;
    hide Latest;
    hide RetireAll;
    hide Text.Strip;
    var us, us' := w.accounts.users, Next(w, e).accounts.users;
    if e.DoInvite? {
      assert us'[..|us|] == us;
    } else if e.DoUpdateUser? && Outcome(w, e).Ok? {
      AdminIsAdmin();
      AdminsAfterUpdate(us, e.target, us'[e.target]);
    } else if Replaces(w, e).Some? {
      var user := Replaces(w, e).value;
      AdminsAfterUpdate(us, user, us'[user]);
    }
  }

  /** An active administrator is left after every run. */
  lemma {:induction false} AnAdministratorRemains(w: World, events: seq<Event>)
    requires ActiveAdmins(w.accounts.users) >= 1
    ensures ActiveAdmins(Run(w, events).accounts.users) >= 1
    decreases |events|
  {
    if events != [] {
      StepKeepsAnAdmin(w, events[0]);
      AnAdministratorRemains(Next(w, events[0]), events[1..]);
    }
  }

  // ---------- what the last-administrator rule refuses ----------

  /** The accounts an update would leave if no rule refused it. */
  function Updated(a: Accounts, target: nat, role: Option<string>, active: Option<bool>): seq<User>
    requires target < |a.users|
  {
    var u := a.users[target];
    a.users[target := u.(role := if role.Some? then role.value else u.role, active := if active.Some? then active.value else u.active)]
  }

  /** The rule is needed exactly when the target itself counts as an active administrator and
      would stop counting (or none counts at all); for an account that is still pending it
      refuses a harmless change. */
  lemma {:induction false} FinalAdminRuleIsNeededIff(a: Accounts, actor: nat, target: nat,
      role: Option<string>, active: Option<bool>)
    requires UpdateUser(a, actor, target, role, active) == Err(FinalAdmin)
    ensures ActiveAdmins(Updated(a, target, role, active)) == 0 <==>
            || ActiveAdmins(a.users) == 0
            || (IsActiveAdmin(a.users[target]) && !IsActiveAdmin(Updated(a, target, role, active)[target]))
  {
    AdminsAfterUpdate(a.users, target, Updated(a, target, role, active)[target]);
    if IsActiveAdmin(a.users[target]) {
      AdminCounted(a.users, target);
    }
  }

  lemma {:induction false} TwoAdminsCounted(users: seq<User>, i: nat, j: nat)
    requires i < |users| && j < |users| && i != j && IsActiveAdmin(users[i]) && IsActiveAdmin(users[j])
    ensures ActiveAdmins(users) >= 2
  {
    var without := users[i := users[i].(active := false)];
    AdminsAfterUpdate(users, i, users[i].(active := false));
    AdminCounted(without, j);
  }

  /** An acting administrator meets the rule only for an account that is still pending: for
      others the rules about the own account already leave the actor in office. */
  lemma {:induction false} AdminMeetsRuleOnlyOnPending(a: Accounts, actor: nat, target: nat,
      role: Option<string>, active: Option<bool>)
    requires actor < |a.users| && IsActiveAdmin(a.users[actor])
    requires UpdateUser(a, actor, target, role, active) == Err(FinalAdmin)
    ensures target != actor && !a.users[target].activated
  {
    if target != actor && IsActiveAdmin(a.users[target]) {
      TwoAdminsCounted(a.users, actor, target);
    }
  }

  /** Updating the own account succeeds exactly when it neither deactivates an active account
      nor leaves an administrator with a role that is not spelled "admin": the rule about the
      final administrator never decides it, and an administrator whose stored role is spelled
      differently can change nothing else without also changing the role. */
  lemma {:induction false} OwnUpdateSucceedsIff(a: Accounts, user: nat, role: Option<string>, active: Option<bool>)
    requires user < |a.users|
    ensures var u := a.users[user];
            && (UpdateUser(a, user, user, role, active).Ok? <==>
                && (u.active ==> active != Some(false))
                && (IsAdminRole(u.role) ==> role == Some("admin") || (role.None? && u.role == "admin")))
            && UpdateUser(a, user, user, role, active) != Err(FinalAdmin)
  {
  }
}
