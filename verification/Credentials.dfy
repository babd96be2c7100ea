/** Accounts, password-reset links and invitations: the operations that replace a credential,
    each one transaction that either commits or leaves everything as it was. */
module Credentials {
  import opened Wrappers
  import Text

  /** A password as UTF-8 bytes; hashing is modelled by keeping the password itself. */
  type Password = seq<bv8>

  const MAX_PASSWORD_BYTES := 1024

  datatype User = User(active: bool, activated: bool, hash: Option<Password>, version: nat, role: string)

  /** A reset link or an invitation; its number in the list stands for the random token. */
  datatype Link = Link(user: nat, created: int, expires: int, consumed: bool, invalidated: bool)

  datatype Accounts = Accounts(users: seq<User>, resets: seq<Link>, invites: seq<Link>)

  datatype Settings = Settings(cooldown: int, lifetime: int)

  datatype Claim = Claim(user: nat, version: nat, expires: int)

  datatype Error =
    | NotAuthenticated | WrongPassword | PasswordReused | PasswordTooLong
    | InvalidLink | ConsumedLink | ExpiredLink | Mismatch | EmptyPassword
    | NotFound | AlreadyActivated | Throttled
    | SelfDeactivation | SelfDemotion | FinalAdmin

  // ---------- links ----------

  predicate Outstanding(l: Link) {
    !l.consumed && !l.invalidated
  }

  function Retire(l: Link, user: nat): Link {
    if l.user == user && Outstanding(l) then l.(invalidated := true) else l
  }

  /** `invalidate_outstanding_password_reset_tokens`, and the same loop over invitations */
  function RetireAll(links: seq<Link>, user: nat): (r: seq<Link>)
    ensures |r| == |links| && forall i | 0 <= i < |links| :: r[i] == Retire(links[i], user)
  {
    seq(|links|, i requires 0 <= i < |links| => Retire(links[i], user))
  }

  /** The newest of the user's links, only the outstanding ones if asked; ties go to the later. */
  function Latest(links: seq<Link>, user: nat, onlyOutstanding: bool): (r: Option<nat>)
    ensures r.Some? ==> r.value < |links|
  {
    if links == [] then None
    else
      var n := |links| - 1;
      var before := Latest(links[..n], user, onlyOutstanding);
      if links[n].user != user || (onlyOutstanding && !Outstanding(links[n])) then before
      else if before.Some? && links[before.value].created > links[n].created then before
      else Some(n)
  }

  /** Why a reset link is refused. */
  function ResetLinkError(links: seq<Link>, link: Option<nat>, now: int): Option<Error> {
    if link.None? || link.value >= |links| then Some(InvalidLink)
    else if links[link.value].invalidated then Some(InvalidLink)
    else if links[link.value].consumed then Some(ConsumedLink)
    else if links[link.value].expires <= now then Some(ExpiredLink)
    else None
  }

  /** Why an invitation is refused: the same checks in another order. */
  function InviteError(links: seq<Link>, link: Option<nat>, now: int): Option<Error> {
    if link.None? || link.value >= |links| then Some(InvalidLink)
    else if links[link.value].consumed then Some(ConsumedLink)
    else if links[link.value].invalidated then Some(InvalidLink)
    else if links[link.value].expires <= now then Some(ExpiredLink)
    else None
  }

  // ---------- credentials ----------

  predicate TooLong(p: Password) {
    |p| > MAX_PASSWORD_BYTES
  }

  predicate Eligible(users: seq<User>, user: nat) {
    user < |users| && users[user].active && users[user].activated && users[user].hash.Some?
  }

  function WithPassword(u: User, password: Password): User {
    u.(hash := Some(password), version := u.version + 1)
  }

  /** Sets the password, ends every session and withdraws every outstanding reset link. */
  function ReplaceCredential(a: Accounts, user: nat, password: Password): Accounts
    requires user < |a.users|
  {
    a.(users := a.users[user := WithPassword(a.users[user], password)], resets := RetireAll(a.resets, user))
  }

  /** `request_password_reset`; a request that is suppressed or not eligible changes nothing. */
  function RequestReset(a: Accounts, user: nat, now: int, s: Settings, delivered: bool): Accounts {
    if !Eligible(a.users, user) then a
    else
      var latest := Latest(a.resets, user, true);
      if latest.Some? && now - a.resets[latest.value].created < s.cooldown then a
      else a.(resets := RetireAll(a.resets, user) + [Link(user, now, now + s.lifetime, false, !delivered)])
  }

  /** `complete_password_reset` */
  function CompleteReset(a: Accounts, link: Option<nat>, password: Password, confirmation: Password, now: int)
    : Result<Accounts, Error>
  {
    var error := ResetLinkError(a.resets, link, now);
    if error.Some? then Err(error.value)
    else
      var user := a.resets[link.value].user;
      if !Eligible(a.users, user) then Err(InvalidLink)
      else if password != confirmation then Err(Mismatch)
      else if password == [] then Err(EmptyPassword)
      else if TooLong(password) then Err(PasswordTooLong)
      else if a.users[user].hash == Some(password) then Err(PasswordReused)
      else
        var used := a.(resets := a.resets[link.value := a.resets[link.value].(consumed := true)]);
        Ok(ReplaceCredential(used, user, password))
  }

  /** `change_own_password` */
  function ChangePassword(a: Accounts, user: nat, current: Password, password: Password): Result<Accounts, Error> {
    if !Eligible(a.users, user) then Err(NotAuthenticated)
    else if TooLong(current) then Err(PasswordTooLong)
    else if a.users[user].hash != Some(current) then Err(WrongPassword)
    else if TooLong(password) then Err(PasswordTooLong)
    else if a.users[user].hash == Some(password) then Err(PasswordReused)
    else Ok(ReplaceCredential(a, user, password))
  }

  /** `reset_password` by an administrator; the account need not be activated. */
  function AdminReset(a: Accounts, user: nat, password: Password): Result<Accounts, Error> {
    if user >= |a.users| then Err(NotFound)
    else if TooLong(password) then Err(PasswordTooLong)
    else Ok(ReplaceCredential(a, user, password))
  }

  // ---------- invitations ----------

  /** `create_invited_user`, up to its first commit. */
  function Invite(a: Accounts, role: string, now: int, s: Settings): Accounts {
    a.(users := a.users + [User(true, false, None, 0, role)],
       invites := a.invites + [Link(|a.users|, now, now + s.lifetime, false, false)])
  }

  /** `resend_invitation`, up to its commit. */
  function Resend(a: Accounts, user: nat, now: int, s: Settings): Result<Accounts, Error> {
    if user >= |a.users| then Err(NotFound)
    else if a.users[user].activated then Err(AlreadyActivated)
    else
      var latest := Latest(a.invites, user, false);
      if latest.Some? && s.cooldown != 0 && now - a.invites[latest.value].created < s.cooldown then Err(Throttled)
      else Ok(a.(invites := RetireAll(a.invites, user) + [Link(user, now, now + s.lifetime, false, false)]))
  }

  /** The second transaction of an invitation whose delivery failed. */
  function DeliveryFailed(a: Accounts, link: nat): Accounts {
    if link < |a.invites| && !a.invites[link].consumed
    then a.(invites := a.invites[link := a.invites[link].(invalidated := true)])
    else a
  }

  /** `complete_activation` */
  function Activate(a: Accounts, link: Option<nat>, password: Password, now: int): Result<Accounts, Error> {
    var error := InviteError(a.invites, link, now);
    if error.Some? then Err(error.value)
    else
      var user := a.invites[link.value].user;
      if user >= |a.users| || a.users[user].activated then Err(InvalidLink)
      else if TooLong(password) then Err(PasswordTooLong)
      else
        Ok(a.(users := a.users[user := WithPassword(a.users[user], password).(activated := true)],
              invites := a.invites[link.value := a.invites[link.value].(consumed := true)]))
  }

  // ---------- administrators ----------

  predicate IsAdminRole(role: string) {
    Text.Lower(Text.Strip(role)) == "admin"
  }

  predicate IsActiveAdmin(u: User) {
    u.active && u.activated && IsAdminRole(u.role)
  }

  function ActiveAdmins(users: seq<User>): (n: nat)
    ensures n <= |users|
  {
    if users == [] then 0 else ActiveAdmins(users[..|users| - 1]) + if IsActiveAdmin(users[|users| - 1]) then 1 else 0
  }

  /** `update_user`, for the role and the active flag; a field left out keeps its value. */
  function UpdateUser(a: Accounts, actor: nat, target: nat, role: Option<string>, active: Option<bool>)
    : Result<Accounts, Error>
  {
    if target >= |a.users| then Err(NotFound)
    else
      var u := a.users[target];
      var nextRole := if role.Some? then role.value else u.role;
      var nextActive := if active.Some? then active.value else u.active;
      if target == actor && u.active && !nextActive then Err(SelfDeactivation)
      else if target == actor && IsAdminRole(u.role) && nextRole != "admin" then Err(SelfDemotion)
      else if u.active && IsAdminRole(u.role) && (!nextActive || nextRole != "admin") && ActiveAdmins(a.users) <= 1 then Err(FinalAdmin)
      else Ok(a.(users := a.users[target := u.(role := nextRole, active := nextActive)]))
  }

  // ---------- sessions ----------

  /** `authenticate_user` and the access token that signing in issues. */
  function SignIn(a: Accounts, user: nat, password: Password, now: int, lifetime: int): Result<Claim, Error> {
    if !Eligible(a.users, user) || TooLong(password) || a.users[user].hash != Some(password) then Err(NotAuthenticated)
    else Ok(Claim(user, a.users[user].version, now + lifetime))
  }

  /** `get_current_user` */
  predicate Accepts(a: Accounts, c: Claim, now: int) {
    && now < c.expires
    && c.user < |a.users|
    && c.version == a.users[c.user].version
    && a.users[c.user].active && a.users[c.user].activated
  }

  // ---------- runs ----------

  datatype World = World(now: int, accounts: Accounts, claims: set<Claim>)

  datatype Event =
    | Wait(seconds: nat)
    | DoSignIn(user: nat, password: Password, lifetime: int)
    | DoRequestReset(user: nat, settings: Settings, delivered: bool)
    | DoCompleteReset(link: Option<nat>, password: Password, confirmation: Password)
    | DoChangePassword(user: nat, current: Password, password: Password)
    | DoAdminReset(user: nat, password: Password)
    | DoInvite(role: string, settings: Settings)
    | DoResend(user: nat, settings: Settings)
    | DoDeliveryFailed(invite: nat)
    | DoActivate(link: Option<nat>, password: Password)
    | DoUpdateUser(actor: nat, target: nat, newRole: Option<string>, newActive: Option<bool>)

  /** What an event makes of the accounts, or its error. */
  function Outcome(w: World, e: Event): Result<Accounts, Error> {
    var a := w.accounts;
    match e
    case Wait(_) => Ok(a)
    case DoSignIn(_, _, _) => Ok(a)
    case DoRequestReset(user, s, delivered) => Ok(RequestReset(a, user, w.now, s, delivered))
    case DoCompleteReset(link, password, confirmation) => CompleteReset(a, link, password, confirmation, w.now)
    case DoChangePassword(user, current, password) => ChangePassword(a, user, current, password)
    case DoAdminReset(user, password) => AdminReset(a, user, password)
    case DoInvite(role, s) => Ok(Invite(a, role, w.now, s))
    case DoResend(user, s) => Resend(a, user, w.now, s)
    case DoDeliveryFailed(invite) => Ok(DeliveryFailed(a, invite))
    case DoActivate(link, password) => Activate(a, link, password, w.now)
    case DoUpdateUser(actor, target, role, active) => UpdateUser(a, actor, target, role, active)
  }

  /** A failing transaction is rolled back. */
  function Next(w: World, e: Event): World {
    var r := Outcome(w, e);
    var accounts := if r.Ok? then r.value else w.accounts;
    match e
    case Wait(seconds) => w.(now := w.now + seconds)
    case DoSignIn(user, password, lifetime) =>
      var claim := SignIn(w.accounts, user, password, w.now, lifetime);
      if claim.Ok? then w.(claims := w.claims + {claim.value}) else w
    case _ => w.(accounts := accounts)
  }

  function Run(w: World, events: seq<Event>): World
    decreases |events|
  {
    if events == [] then w else Run(Next(w, events[0]), events[1..])
  }

  /** The user whose credential an event replaces. */
  function Replaces(w: World, e: Event): Option<nat> {
    if Outcome(w, e).Err? then None
    else
      match e
      case DoCompleteReset(link, _, _) => Some(w.accounts.resets[link.value].user)
      case DoChangePassword(user, _, _) => Some(user)
      case DoAdminReset(user, _) => Some(user)
      case DoActivate(link, _) => Some(w.accounts.invites[link.value].user)
      case _ => None
  }
}
