/** What a successful credential operation leaves behind: who can sign in with what, which link
    works, and what an update changes. */
module CredentialEffects {
  import opened Wrappers
  import opened Credentials
  import opened CredentialRuns
  import Text

  // ---------- passwords ----------

  /** The password an event would set. */
  function NewPassword(e: Event): Option<Password> {
    match e
    case DoCompleteReset(_, password, _) => Some(password)
    case DoChangePassword(_, _, password) => Some(password)
    case DoAdminReset(_, password) => Some(password)
    case DoActivate(_, password) => Some(password)
    case _ => None
  }

  /** A replacement sets its user's password, leaves role and active flag alone, and touches no
      other account. */
  lemma {:induction false} ReplacementSetsPassword(w: World, e: Event)
    requires Replaces(w, e).Some?
    ensures var us, us', user := w.accounts.users, Next(w, e).accounts.users, Replaces(w, e).value;
            && user < |us| == |us'|
            && us'[user].hash == NewPassword(e) && NewPassword(e).Some? && |NewPassword(e).value| <= MAX_PASSWORD_BYTES
            && us'[user].role == us[user].role && us'[user].active == us[user].active
            && (us'[user].activated <==> us[user].activated || e.DoActivate?)
            && (forall i | 0 <= i < |us| && i != user :: us'[i] == us[i])
  {
    hide Latest;
    hide IsAdminRole;
  }

  /** Everything else leaves every password as it is, and new accounts have none. */
  lemma {:induction false} OthersKeepPasswords(w: World, e: Event)
    requires Replaces(w, e).None?
    ensures var us, us' := w.accounts.users, Next(w, e).accounts.users;
            && |us| <= |us'|
            && (forall i | 0 <= i < |us| :: us'[i].hash == us[i].hash)
            && (forall i | |us| <= i < |us'| :: us'[i].hash == None)
  {
    hide Latest;
    hide IsAdminRole;
  }

  /** The password of the last replacement in a run, the one held before if there is none. */
  function LastPassword(w: World, events: seq<Event>, user: nat, held: Option<Password>): Option<Password>
    decreases |events|
  {
    if events == [] then held
    else LastPassword(Next(w, events[0]), events[1..], user,
                      if Replaces(w, events[0]) == Some(user) then NewPassword(events[0]) else held)
  }

  lemma {:induction false} StepPassword(w: World, e: Event, user: nat)
    requires user < |w.accounts.users|
    ensures var us, us' := w.accounts.users, Next(w, e).accounts.users;
            && user < |us'|
            && us'[user].hash == if Replaces(w, e) == Some(user) then NewPassword(e) else us[user].hash
  {
    hide Next;
    if Replaces(w, e).Some? {
      ReplacementSetsPassword(w, e);
    } else {
      OthersKeepPasswords(w, e);
    }
  }

  lemma {:induction false} RunSetsLastPassword(w: World, events: seq<Event>, user: nat)
    requires user < |w.accounts.users|
    ensures var us' := Run(w, events).accounts.users;
            user < |us'| && us'[user].hash == LastPassword(w, events, user, w.accounts.users[user].hash)
    decreases |events|
  {
    hide Next;
    hide Replaces;
    if events != [] {
      StepPassword(w, events[0], user);
      RunSetsLastPassword(Next(w, events[0]), events[1..], user);
    }
  }

  /** Who can sign in: after any run, with the password last set in it, or held before it, and with
      no other, as long as the account is active and activated. */
  lemma {:induction false} SignsInIff(w: World, events: seq<Event>, user: nat, password: Password, lifetime: int)
    requires user < |w.accounts.users|
    ensures var later := Run(w, events);
            && user < |later.accounts.users|
            && (SignIn(later.accounts, user, password, later.now, lifetime).Ok? <==>
                && later.accounts.users[user].active && later.accounts.users[user].activated
                && LastPassword(w, events, user, w.accounts.users[user].hash) == Some(password)
                && |password| <= MAX_PASSWORD_BYTES)
  {
    RunSetsLastPassword(w, events, user);
  }

  lemma {:induction false} NothingReplaced(w: World, events: seq<Event>, user: nat, held: Option<Password>)
    requires Replacements(w, events, user) == 0
    ensures LastPassword(w, events, user, held) == held
    decreases |events|
  {
    hide Next;
    hide Replaces;
    if events != [] {
      NothingReplaced(Next(w, events[0]), events[1..], user, held);
    }
  }

  /** So after a reset, a change, an administrator's reset or an activation, and until the next one,
      the user signs in with the new password and with no other. */
  lemma {:induction false} NewPasswordSignsIn(w: World, e: Event, events: seq<Event>, user: nat,
      password: Password, lifetime: int)
    requires Replaces(w, e) == Some(user) && Replacements(Next(w, e), events, user) == 0
    ensures var later := Run(Next(w, e), events);
            && user < |later.accounts.users|
            && (SignIn(later.accounts, user, password, later.now, lifetime).Ok? <==>
                && NewPassword(e) == Some(password)
                && later.accounts.users[user].active && later.accounts.users[user].activated)
  {
    ReplacementSetsPassword(w, e);
    NothingReplaced(Next(w, e), events, user, NewPassword(e));
    hide Next;
    hide Replaces;
    SignsInIff(Next(w, e), events, user, password, lifetime);
  }

  // ---------- which replacements succeed ----------

  /** Whether a password may replace what an account holds. */
  predicate Fresh(u: User, password: Password) {
    |password| <= MAX_PASSWORD_BYTES && u.hash != Some(password)
  }

  /** When each of the four events replaces the credential of a user. */
  ghost predicate MayReplace(w: World, e: Event, user: nat) {
    && user < |w.accounts.users|
    && var u := w.accounts.users[user];
       match e
       case DoCompleteReset(Some(link), password, confirmation) =>
         && link < |w.accounts.resets| && OutstandingFor(w.accounts.resets[link], user)
         && w.now < w.accounts.resets[link].expires
         && u.active && u.activated && u.hash.Some?
         && confirmation == password != [] && Fresh(u, password)
       case DoChangePassword(id, current, password) =>
         && id == user && u.active && u.activated
         && u.hash == Some(current) && |current| <= MAX_PASSWORD_BYTES && Fresh(u, password)
       case DoAdminReset(id, password) => id == user && |password| <= MAX_PASSWORD_BYTES
       case DoActivate(Some(invite), password) =>
         && invite < |w.accounts.invites| && OutstandingFor(w.accounts.invites[invite], user)
         && w.now < w.accounts.invites[invite].expires
         && !u.activated && |password| <= MAX_PASSWORD_BYTES
       case _ => false
  }

  lemma {:induction false} ReplacesIff(w: World, e: Event, user: nat)
    ensures Replaces(w, e) == Some(user) <==> MayReplace(w, e, user)
  {
    hide Latest;
    hide IsAdminRole;
    hide RetireAll;
    hide ActiveAdmins;
  }

  /** And why a change or a reset is refused. */
  lemma {:induction false} ChangeRefusals(a: Accounts, user: nat, current: Password, password: Password)
    ensures var r, known := ChangePassword(a, user, current, password), Eligible(a.users, user);
            && (r == Err(NotAuthenticated) <==> !known)
            && (r == Err(WrongPassword) <==>
                  known && |current| <= MAX_PASSWORD_BYTES && a.users[user].hash != Some(current))
            && (r == Err(PasswordTooLong) <==>
                  known && (|current| > MAX_PASSWORD_BYTES
                            || (a.users[user].hash == Some(current) && |password| > MAX_PASSWORD_BYTES)))
            && (r == Err(PasswordReused) <==>
                  known && a.users[user].hash == Some(current) && password == current && |current| <= MAX_PASSWORD_BYTES)
  {
    hide RetireAll;
  }

  lemma {:induction false} ResetRefusals(a: Accounts, link: nat, password: Password, confirmation: Password, now: int)
    requires link < |a.resets|
    ensures var r, l := CompleteReset(a, Some(link), password, confirmation, now), a.resets[link];
            var works := Outstanding(l) && now < l.expires && Eligible(a.users, l.user);
            && (r == Err(ConsumedLink) <==> l.consumed && !l.invalidated)
            && (r == Err(ExpiredLink) <==> Outstanding(l) && l.expires <= now)
            && (r == Err(InvalidLink) <==> l.invalidated || (Outstanding(l) && now < l.expires && !works))
            && (r == Err(Mismatch) <==> works && password != confirmation)
            && (r == Err(EmptyPassword) <==> works && password == confirmation == [])
            && (r == Err(PasswordTooLong) <==> works && password == confirmation && |password| > MAX_PASSWORD_BYTES)
            && (r == Err(PasswordReused) <==>
                  works && password == confirmation && 0 < |password| <= MAX_PASSWORD_BYTES
                  && a.users[l.user].hash == Some(password))
  {
    hide RetireAll;
  }

  // ---------- links ----------

  predicate Asked(l: Link, user: nat, onlyOutstanding: bool) {
    l.user == user && (onlyOutstanding ==> Outstanding(l))
  }

  /** The link found is the newest of those asked for, the later row of equally new ones. */
  lemma {:induction false} LatestIsNewest(links: seq<Link>, user: nat, onlyOutstanding: bool)
    ensures match Latest(links, user, onlyOutstanding)
            case None => forall i | 0 <= i < |links| :: !Asked(links[i], user, onlyOutstanding)
            case Some(n) =>
              && Asked(links[n], user, onlyOutstanding)
              && (forall i | 0 <= i < |links| && Asked(links[i], user, onlyOutstanding) :: links[i].created <= links[n].created)
              && (forall i | n < i < |links| && Asked(links[i], user, onlyOutstanding) :: links[i].created < links[n].created)
  {
    if links != [] {
      var n := |links| - 1;
      LatestIsNewest(links[..n], user, onlyOutstanding);
      assert forall i | 0 <= i < n :: links[..n][i] == links[i];
    }
  }

  /** A link of the user among these, younger than the cooldown. */
  ghost predicate Recent(links: seq<Link>, user: nat, onlyOutstanding: bool, now: int, cooldown: int) {
    exists i | 0 <= i < |links| :: Asked(links[i], user, onlyOutstanding) && now - links[i].created < cooldown
  }

  lemma {:induction false} RecentIsLatest(links: seq<Link>, user: nat, onlyOutstanding: bool, now: int, cooldown: int)
    ensures Recent(links, user, onlyOutstanding, now, cooldown) <==>
              var latest := Latest(links, user, onlyOutstanding);
              latest.Some? && now - links[latest.value].created < cooldown
  {
    hide Latest;
    hide Asked;
    LatestIsNewest(links, user, onlyOutstanding);
  }

  /** The link at the end works, and is the user's only one that is outstanding. */
  ghost predicate OnlyLast(links: seq<Link>, user: nat) {
    && links != [] && OutstandingFor(links[|links| - 1], user)
    && NoneOutstanding(links[..|links| - 1], user)
  }

  /** A request for a reset link issues one if and only if the account can sign in and has no recent
      outstanding link.  If it is delivered it is the user's only outstanding one; if not, the
      user has none.  Otherwise, and for everybody else, nothing changes. */
  lemma {:induction false} RequestIssuesIff(a: Accounts, user: nat, now: int, s: Settings, delivered: bool)
    ensures var a', n := RequestReset(a, user, now, s, delivered), |a.resets|;
            && a'.users == a.users && a'.invites == a.invites
            && if Eligible(a.users, user) && !Recent(a.resets, user, true, now, s.cooldown) then
                 && |a'.resets| == n + 1
                 && a'.resets[n].user == user && a'.resets[n].created == now && a'.resets[n].expires == now + s.lifetime
                 && (if delivered then OnlyLast(a'.resets, user) else NoneOutstanding(a'.resets, user))
                 && (forall i | 0 <= i < n && a.resets[i].user != user :: a'.resets[i] == a.resets[i])
               else a' == a
  {
    hide Recent;
    RecentIsLatest(a.resets, user, true, now, s.cooldown);
    hide Latest;
    var issued := RequestReset(a, user, now, s, delivered);
    assert issued != a ==> forall i | 0 <= i < |a.resets| :: issued.resets[i] == Retire(a.resets[i], user);
  }

  lemma {:induction false} UsedLinkStaysUsed(w: World, events: seq<Event>, link: nat)
    requires link < |w.accounts.resets| && w.accounts.resets[link].consumed && !w.accounts.resets[link].invalidated
    ensures ResetLinkError(Run(w, events).accounts.resets, Some(link), Run(w, events).now) == Some(ConsumedLink)
    decreases |events|
  {
    if events != [] {
      UsedLinkStep(w, events[0], link);
      hide Next;
      UsedLinkStaysUsed(Next(w, events[0]), events[1..], link);
    }
  }

  lemma {:induction false} UsedLinkStep(w: World, e: Event, link: nat)
    requires link < |w.accounts.resets| && w.accounts.resets[link].consumed && !w.accounts.resets[link].invalidated
    ensures var ls := Next(w, e).accounts.resets; link < |ls| && ls[link].consumed && !ls[link].invalidated
  {
    hide Latest;
    hide IsAdminRole;
  }

  /** A link that has set a password is refused as used from then on. */
  lemma {:induction false} SecondUseIsRefused(w: World, e: Event, events: seq<Event>, link: nat,
      password: Password, confirmation: Password)
    requires UsesReset(w, e, link)
    ensures var later := Run(Next(w, e), events);
            CompleteReset(later.accounts, Some(link), password, confirmation, later.now) == Err(ConsumedLink)
  {
    assert var ls := Next(w, e).accounts.resets; link < |ls| && ls[link].consumed && !ls[link].invalidated;
    UsedLinkStaysUsed(Next(w, e), events, link);
  }

  // ---------- invitations ----------

  lemma {:induction false} InviteStaysUsed(w: World, events: seq<Event>, link: nat)
    requires link < |w.accounts.invites| && w.accounts.invites[link].consumed
    ensures var invites := Run(w, events).accounts.invites; link < |invites| && invites[link].consumed
    decreases |events|
  {
    hide Latest;
    hide IsAdminRole;
    if events != [] {
      InviteStaysUsed(Next(w, events[0]), events[1..], link);
    }
  }

  /** An activation uses its invitation, and no other link; in every later state that one is refused as used. */
  lemma {:induction false} SecondActivationIsRefused(w: World, link: nat, password: Password, events: seq<Event>,
      again: Password)
    requires Outcome(w, DoActivate(Some(link), password)).Ok?
    ensures var activated := Next(w, DoActivate(Some(link), password)); var later := Run(activated, events);
            && Activate(later.accounts, Some(link), again, later.now) == Err(ConsumedLink)
            && activated.accounts.resets == w.accounts.resets
            && |activated.accounts.invites| == |w.accounts.invites|
            && forall i | 0 <= i < |w.accounts.invites| && i != link :: activated.accounts.invites[i] == w.accounts.invites[i]
  {
    InviteStaysUsed(Next(w, DoActivate(Some(link), password)), events, link);
    hide Run;
  }

  /** An invitation adds one account, pending and without a password, and one outstanding link for it. */
  lemma {:induction false} InvitePends(a: Accounts, role: string, now: int, s: Settings)
    ensures var a', user := Invite(a, role, now, s), |a.users|;
            && |a'.users| == user + 1 && a'.users[..user] == a.users
            && a'.users[user].role == role && a'.users[user].active && !a'.users[user].activated && a'.users[user].hash == None
            && |a'.invites| == |a.invites| + 1 && a'.invites[..|a.invites|] == a.invites
            && OutstandingFor(a'.invites[|a.invites|], user) && a'.invites[|a.invites|].expires == now + s.lifetime
            && a'.resets == a.resets
  {
  }

  /** Whoever is invited cannot sign in until the link sets a password, and then with that one only. */
  lemma {:induction false} InvitedCanSignIn(w: World, role: string, s: Settings, password: Password, other: Password,
      lifetime: int)
    requires s.lifetime > 0 && |password| <= MAX_PASSWORD_BYTES
    ensures var user, link := |w.accounts.users|, |w.accounts.invites|;
            var invited := Next(w, DoInvite(role, s));
            var active := Next(invited, DoActivate(Some(link), password));
            && SignIn(invited.accounts, user, other, w.now, lifetime).Err?
            && (SignIn(active.accounts, user, other, w.now, lifetime).Ok? <==> other == password)
  {
  }

  /** Sending an invitation again succeeds if and only if the account is pending and, where there is a
      cooldown, none of its invitations is recent; the new link is then its only outstanding one. */
  lemma {:induction false} ResendIssuesIff(a: Accounts, user: nat, now: int, s: Settings)
    ensures Resend(a, user, now, s).Ok? <==>
              && user < |a.users| && !a.users[user].activated
              && (s.cooldown != 0 ==> !Recent(a.invites, user, false, now, s.cooldown))
    ensures Resend(a, user, now, s).Ok? ==>
              var a', n := Resend(a, user, now, s).value, |a.invites|;
              && a'.users == a.users && a'.resets == a.resets
              && |a'.invites| == n + 1 && OnlyLast(a'.invites, user) && a'.invites[n].expires == now + s.lifetime
              && (forall i | 0 <= i < n && a.invites[i].user != user :: a'.invites[i] == a.invites[i])
  {
    hide Recent;
    RecentIsLatest(a.invites, user, false, now, s.cooldown);
    hide Latest;
    if Resend(a, user, now, s).Ok? {
      var issued := Resend(a, user, now, s).value;
      assert forall i | 0 <= i < |a.invites| :: issued.invites[i] == Retire(a.invites[i], user);
    }
  }

  /** An invitation that could not be delivered does not work, unless it already has. */
  lemma {:induction false} UndeliveredIsWithdrawn(w: World, link: nat, password: Password)
    requires link < |w.accounts.invites|
    ensures var w' := Next(w, DoDeliveryFailed(link));
            && !Outstanding(w'.accounts.invites[link]) && w'.accounts.invites[link].consumed == w.accounts.invites[link].consumed
            && Activate(w'.accounts, Some(link), password, w'.now).Err?
            && w'.accounts.users == w.accounts.users
            && (forall i | 0 <= i < |w.accounts.invites| && i != link :: w'.accounts.invites[i] == w.accounts.invites[i])
  {
  }

  // ---------- updates ----------

  /** An update succeeds if and only if it exists, does not take the own account's activity or its role of
      administrator, and does not take away the only active administrator's place.  It then sets
      what was given, and nothing else of anybody. */
  lemma {:induction false} UpdateSucceedsIff(a: Accounts, actor: nat, target: nat, role: Option<string>, active: Option<bool>)
    ensures UpdateUser(a, actor, target, role, active).Ok? <==>
              && target < |a.users|
              && var u, u' := a.users[target], Updated(a, target, role, active)[target];
                 var resigns := IsAdminRole(u.role) && u'.role != "admin";
                 && (target == actor ==> (u.active ==> u'.active) && !resigns)
                 && (u.active && IsAdminRole(u.role) && (resigns || !u'.active) ==> ActiveAdmins(a.users) >= 2)
    ensures UpdateUser(a, actor, target, role, active).Ok? ==>
              var a', u := UpdateUser(a, actor, target, role, active).value, a.users[target];
              && |a'.users| == |a.users| && a'.resets == a.resets && a'.invites == a.invites
              && a'.users[target].role == (if role.Some? then role.value else u.role)
              && a'.users[target].active == (if active.Some? then active.value else u.active)
              && a'.users[target].hash == u.hash && a'.users[target].version == u.version
              && a'.users[target].activated == u.activated
              && (forall i | 0 <= i < |a.users| && i != target :: a'.users[i] == a.users[i])
  {
    hide IsAdminRole;
    hide ActiveAdmins;
  }

  /** The positions of the active administrators. */
  ghost function AdminPositions(users: seq<User>): set<nat> {
    set i: nat | i < |users| && users[i].active && users[i].activated && Text.Lower(Text.Strip(users[i].role)) == "admin"
  }

  /** The accounts that count as active administrators are the active and activated ones whose role, trimmed
      and in lower case, is "admin". */
  lemma {:induction false} AdminsAreCounted(users: seq<User>)
    ensures ActiveAdmins(users) == |AdminPositions(users)|
  {
    hide Text.Lower;
    hide Text.Strip;
    if users == [] {
      assert AdminPositions(users) == {};
    } else {
      var n := |users| - 1;
      AdminsAreCounted(users[..n]);
      assert AdminPositions(users) == AdminPositions(users[..n]) + if IsActiveAdmin(users[n]) then {n} else {};
    }
  }
}
