/** The account tables and the transactions over them, as the services perform them: rows are
    read, checked and assigned one field at a time. */
module CredentialService {
  import opened Wrappers
  import opened Credentials

  class AccountTables {
    var users: seq<User>
    var resets: seq<Link>
    var invites: seq<Link>

    ghost function Value(): Accounts
      reads this
    {
      Accounts(users, resets, invites)
    }

    constructor ()
      ensures Value() == Accounts([], [], [])
    {
      users, resets, invites := [], [], [];
    }

    method InvalidateOutstandingResets(user: nat)
      modifies `resets
      ensures resets == RetireAll(old(resets), user)
    {
      for i := 0 to |resets|
        invariant |resets| == |old(resets)|
        invariant forall j | 0 <= j < i :: resets[j] == Retire(old(resets)[j], user)
        invariant forall j | i <= j < |resets| :: resets[j] == old(resets)[j]
      {
        if resets[i].user == user && !resets[i].consumed && !resets[i].invalidated {
          resets := resets[i := resets[i].(invalidated := true)];
        }
      }
    }

    method InvalidateOutstandingInvites(user: nat)
      modifies `invites
      ensures invites == RetireAll(old(invites), user)
    {
      for i := 0 to |invites|
        invariant |invites| == |old(invites)|
        invariant forall j | 0 <= j < i :: invites[j] == Retire(old(invites)[j], user)
        invariant forall j | i <= j < |invites| :: invites[j] == old(invites)[j]
      {
        if invites[i].user == user && !invites[i].consumed && !invites[i].invalidated {
          invites := invites[i := invites[i].(invalidated := true)];
        }
      }
    }

    /** `_latest_usable_token`, and the same query over all invitations. */
    method FindLatest(links: seq<Link>, user: nat, onlyOutstanding: bool) returns (latest: Option<nat>)
      ensures latest == Latest(links, user, onlyOutstanding)
    {
      latest := None;
      for i := 0 to |links|
        invariant latest == Latest(links[..i], user, onlyOutstanding)
      {
        assert links[..i + 1][..i] == links[..i];
        if links[i].user == user && (!onlyOutstanding || Outstanding(links[i])) {
          if latest.None? || links[latest.value].created <= links[i].created {
            latest := Some(i);
          }
        }
      }
      assert links[..|links|] == links;
    }

    method RequestPasswordReset(user: nat, now: int, s: Settings, delivered: bool)
      modifies this
      ensures Value() == RequestReset(old(Value()), user, now, s, delivered)
    {
      if !Eligible(users, user) {
        return;
      }
      var latest := FindLatest(resets, user, true);
      if latest.Some? && now - resets[latest.value].created < s.cooldown {
        return;
      }
      InvalidateOutstandingResets(user);
      var token := Link(user, now, now + s.lifetime, false, false);
      if !delivered {
        token := token.(invalidated := true);
      }
      resets := resets + [token];
    }

    method CompletePasswordReset(link: Option<nat>, password: Password, confirmation: Password, now: int)
      returns (error: Option<Error>)
      modifies this
      ensures match CompleteReset(old(Value()), link, password, confirmation, now)
              case Ok(a) => error == None && Value() == a
              case Err(e) => error == Some(e) && Value() == old(Value())
    {
      error := ResetLinkError(resets, link, now);
      if error.Some? {
        return;
      }
      var user := resets[link.value].user;
      if !Eligible(users, user) {
        return Some(InvalidLink);
      }
      if password != confirmation {
        return Some(Mismatch);
      }
      if password == [] {
        return Some(EmptyPassword);
      }
      if TooLong(password) {
        return Some(PasswordTooLong);
      }
      if users[user].hash == Some(password) {
        return Some(PasswordReused);
      }
      users := users[user := users[user].(hash := Some(password))];
      users := users[user := users[user].(version := users[user].version + 1)];
      resets := resets[link.value := resets[link.value].(consumed := true)];
      InvalidateOutstandingResets(user);
    }

    method ChangeOwnPassword(user: nat, current: Password, password: Password) returns (error: Option<Error>)
      modifies this
      ensures match ChangePassword(old(Value()), user, current, password)
              case Ok(a) => error == None && Value() == a
              case Err(e) => error == Some(e) && Value() == old(Value())
    {
      if !Eligible(users, user) {
        return Some(NotAuthenticated);
      }
      if TooLong(current) {
        return Some(PasswordTooLong);
      }
      if users[user].hash != Some(current) {
        return Some(WrongPassword);
      }
      if TooLong(password) {
        return Some(PasswordTooLong);
      }
      if users[user].hash == Some(password) {
        return Some(PasswordReused);
      }
      users := users[user := users[user].(hash := Some(password))];
      users := users[user := users[user].(version := users[user].version + 1)];
      InvalidateOutstandingResets(user);
      return None;
    }

    method ResetPassword(user: nat, password: Password) returns (error: Option<Error>)
      modifies this
      ensures match AdminReset(old(Value()), user, password)
              case Ok(a) => error == None && Value() == a
              case Err(e) => error == Some(e) && Value() == old(Value())
    {
      if user >= |users| {
        return Some(NotFound);
      }
      if TooLong(password) {
        return Some(PasswordTooLong);
      }
      users := users[user := users[user].(hash := Some(password))];
      users := users[user := users[user].(version := users[user].version + 1)];
      InvalidateOutstandingResets(user);
      return None;
    }

    method ResendInvitation(user: nat, now: int, s: Settings) returns (error: Option<Error>)
      modifies this
      ensures match Resend(old(Value()), user, now, s)
              case Ok(a) => error == None && Value() == a
              case Err(e) => error == Some(e) && Value() == old(Value())
    {
      if user >= |users| {
        return Some(NotFound);
      }
      if users[user].activated {
        return Some(AlreadyActivated);
      }
      var latest := FindLatest(invites, user, false);
      if latest.Some? && s.cooldown != 0 && now - invites[latest.value].created < s.cooldown {
        return Some(Throttled);
      }
      InvalidateOutstandingInvites(user);
      invites := invites + [Link(user, now, now + s.lifetime, false, false)];
      return None;
    }

    method CompleteActivation(link: Option<nat>, password: Password, now: int) returns (error: Option<Error>)
      modifies this
      ensures match Activate(old(Value()), link, password, now)
              case Ok(a) => error == None && Value() == a
              case Err(e) => error == Some(e) && Value() == old(Value())
    {
      error := InviteError(invites, link, now);
      if error.Some? {
        return;
      }
      var user := invites[link.value].user;
      if user >= |users| || users[user].activated {
        return Some(InvalidLink);
      }
      if TooLong(password) {
        return Some(PasswordTooLong);
      }
      users := users[user := users[user].(hash := Some(password))];
      users := users[user := users[user].(activated := true)];
      users := users[user := users[user].(version := users[user].version + 1)];
      invites := invites[link.value := invites[link.value].(consumed := true)];
    }

    /** `_lock_active_admin_ids` */
    method CountActiveAdmins() returns (count: nat)
      ensures count == ActiveAdmins(users)
    {
      count := 0;
      for i := 0 to |users|
        invariant count == ActiveAdmins(users[..i])
      {
        assert users[..i + 1][..i] == users[..i];
        if IsActiveAdmin(users[i]) {
          count := count + 1;
        }
      }
      assert users[..|users|] == users;
    }

    method UpdateAccount(actor: nat, target: nat, role: Option<string>,
      active: Option<bool>) returns (error: Option<Error>)
      modifies this
      ensures match UpdateUser(old(Value()), actor, target, role, active)
              case Ok(a) => error == None && Value() == a
              case Err(e) => error == Some(e) && Value() == old(Value())
    {
      hide IsAdminRole;
      hide ActiveAdmins;
      if target >= |users| {
        return Some(NotFound);
      }
      var user := users[target];
      var nextRole := if role.Some? then role.value else user.role;
      var nextActive := if active.Some? then active.value else user.active;
      if target == actor && user.active && !nextActive {
        return Some(SelfDeactivation);
      }
      if target == actor && IsAdminRole(user.role) && nextRole != "admin" {
        return Some(SelfDemotion);
      }
      if user.active && IsAdminRole(user.role) && (!nextActive || nextRole != "admin") {
        var admins := CountActiveAdmins();
        if admins <= 1 {
          return Some(FinalAdmin);
        }
      }
      if role.Some? {
        users := users[target := users[target].(role := role.value)];
      }
      if active.Some? {
        users := users[target := users[target].(active := active.value)];
      }
      return None;
    }
  }
}
