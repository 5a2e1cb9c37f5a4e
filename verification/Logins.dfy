/**
 The login a replication streams as, over the life of the replication: its own
 or a provided one, swapped for one another, and what is removed of the last.
 */
module Logins {
  import opened Wrappers

  datatype Credential = Generated | Provided(login: string)

  datatype Membership = Membership(member: string, group: string)

  /** What the status records of the login. */
  datatype Status = Status(login: string, createdLogin: bool, createdSecret: bool, granted: set<string>)

  /** `marked` says whether the comment on the operator's own role names this replication. */
  datatype State = State(
    roles: set<string>, marked: bool, memberships: set<Membership>, secrets: set<string>, status: Status)

  /** The names the operator gives, and the groups a login has to be in. */
  datatype Config = Config(login: string, secret: string, streamGroup: Option<string>, readGroup: string)

  function Needed(c: Config, credential: Credential): set<string> {
    {c.readGroup} + (if credential.Generated? && c.streamGroup.Some? then {c.streamGroup.value} else {})
  }

  /** The recorded name of the operator's own login, once there is one. */
  function OwnName(c: Config, s: Status): string {
    if s.createdLogin && s.login != "" then s.login else c.login
  }

  function LoginFor(c: Config, s: Status, credential: Credential): string {
    if credential.Generated? then OwnName(c, s) else credential.login
  }

  /** The name of the operator's own login belongs to somebody, or seems to: refused before anything is made. */
  predicate NameTaken(c: Config, s: State, credential: Credential) {
    credential.Generated? && !s.status.createdLogin && c.login in s.roles && !s.marked
  }

  /** A provided login has to exist. */
  predicate Usable(s: State, credential: Credential) {
    credential.Provided? ==> credential.login in s.roles && credential.login != ""
  }

  predicate Acceptable(c: Config, s: State, credential: Credential) {
    !NameTaken(c, s, credential) && Usable(s, credential)
  }

  function Held(memberships: set<Membership>, login: string): set<string> {
    set m <- memberships | m.member == login :: m.group
  }

  function Members(login: string, groups: set<string>): set<Membership> {
    set g <- groups :: Membership(login, g)
  }

  /** The server and the Secret once the login is there and in its groups. */
  function Ensured(c: Config, s: State, credential: Credential): State {
    var login := LoginFor(c, s.status, credential);
    var missing := Needed(c, credential) - Held(s.memberships, login);
    State(
      s.roles + {login},
      s.marked || (credential.Generated? && login !in s.roles),
      s.memberships + Members(login, missing),
      if credential.Generated? then s.secrets + {c.secret} else s.secrets,
      Status(login, credential.Generated?, credential.Generated?,
        missing + (if login == s.status.login then s.status.granted else {})))
  }

  predicate WorthRecording(before: Status, after: Status) {
    before.createdLogin != after.createdLogin || before.createdSecret != after.createdSecret
    || before.granted != after.granted
  }

  /** The old login removed: altogether if it was the operator's, or else what it was granted. */
  function Removed(c: Config, was: Status, t: State): State {
    if was.login == "" || was.login == t.status.login then t
    else
      var cleared :=
        if was.login !in t.roles then t
        else if was.createdLogin then
          t.(roles := t.roles - {was.login}, memberships := set m <- t.memberships | m.member != was.login)
        else t.(memberships := t.memberships - Members(was.login, was.granted));
      if was.createdSecret && !t.status.createdSecret then cleared.(secrets := cleared.secrets - {c.secret}) else cleared
  }

  /** A pass that completes. */
  function Completed(c: Config, s: State, credential: Credential): State {
    Removed(c, s.status, Ensured(c, s, credential))
  }

  // --------------------------------------------------------- passes that fail

  /** Of the operator's own login: CREATE ROLE, its comment, the right to stream, the Secret, the right to read. */
  const OWN_CALLS := 5

  /** Of a provided one, the right to read alone. */
  const PROVIDED_CALLS := 1

  function Calls(credential: Credential): nat {
    if credential.Generated? then OWN_CALLS else PROVIDED_CALLS
  }

  /** The server and the Secret after so many of the calls that obtain the login. */
  function Begun(c: Config, s: State, credential: Credential, calls: nat): State {
    var login := LoginFor(c, s.status, credential);
    if credential.Provided? then
      if calls < PROVIDED_CALLS then s else s.(memberships := s.memberships + {Membership(login, c.readGroup)})
    else BegunAs(c, s, login, calls)
  }

  /** The operator's own, by this name. */
  function BegunAs(c: Config, s: State, login: string, calls: nat): State {
    State(
      if calls >= 1 then s.roles + {login} else s.roles,
      s.marked || (login !in s.roles && calls >= 2),
      s.memberships
        + (if calls >= 3 && c.streamGroup.Some? then {Membership(login, c.streamGroup.value)} else {})
        + (if calls >= OWN_CALLS then {Membership(login, c.readGroup)} else {}),
      if calls >= 4 then s.secrets + {c.secret} else s.secrets,
      s.status)
  }

  /**
   Where a pass stops: in obtaining the login, or at writing that down; between
   that and the removal of the old one; with some of the old one's memberships
   revoked; with the old one removed but not its Secret; with all done but the
   last record; or never. `recorded` says whether it had written down its login:
   because that differs from what is on record, or later, with another object.
   */
  datatype Stop =
    | AtLogin(calls: nat)
    | Between(recorded: bool)
    | Revoking(recorded: bool, groups: set<string>)
    | Deleting(recorded: bool)
    | Ending(recorded: bool)
    | Never

  /** A pass: `publishes` says whether it had to make the publication, whose record names no login. */
  datatype Attempt = Attempt(credential: Credential, publishes: bool, stop: Stop)

  /** Whether the pass wrote down its login. */
  predicate IsRecorded(stop: Stop) {
    stop.Never? || (!stop.AtLogin? && stop.recorded)
  }

  /** The passes that can happen: refused ones stop before the first call, and a login worth recording is recorded. */
  predicate Allowed(c: Config, s: State, a: Attempt) {
    && !NameTaken(c, s, a.credential)
    && (Usable(s, a.credential) || a.stop == AtLogin(0))
    && (WorthRecording(s.status, Ensured(c, s, a.credential).status) ==> a.stop.AtLogin? || IsRecorded(a.stop))
  }

  /** How much of the old login is removed. */
  function PartlyRemoved(c: Config, was: Status, t: State, stop: Stop): State {
    var whole := Removed(c, was, t);
    match stop
    case Between(_) => t
    case Revoking(_, groups) =>
      t.(memberships := set m <- t.memberships | m in whole.memberships || m.group !in groups)
    case Deleting(_) => whole.(secrets := t.secrets)
    case _ => whole
  }

  /** What is on record once the publication is. */
  function Unnamed(s: Status, publishes: bool): Status {
    if publishes then s.(login := "") else s
  }

  function AfterAttempt(c: Config, s: State, a: Attempt): State {
    if a.stop.AtLogin? then
      Begun(c, s, a.credential, a.stop.calls).(status := Unnamed(s.status, a.publishes))
    else
      var t := Ensured(c, s, a.credential);
      PartlyRemoved(c, s.status, t, a.stop).(
        status := if IsRecorded(a.stop) then t.status else Unnamed(s.status, a.publishes))
  }

  /** The calls that obtain a login obtain all of it. */
  lemma AllCallsObtain(c: Config, s: State, credential: Credential)
    requires Usable(s, credential)
    ensures Begun(c, s, credential, Calls(credential)).(status := Ensured(c, s, credential).status)
         == Ensured(c, s, credential)
  {
    var login := LoginFor(c, s.status, credential);
    forall g ensures g in Held(s.memberships, login) <==> Membership(login, g) in s.memberships {
    }
    assert Begun(c, s, credential, Calls(credential)).memberships == Ensured(c, s, credential).memberships;
  }

  // ----------------------------------------------------------------- the pass

  class SourceLogins {
    const c: Config
    var roles: set<string>
    var marked: bool
    var memberships: set<Membership>
    var secrets: set<string>
    var status: Status          // as persisted

    ghost function View(): State reads this {
      State(roles, marked, memberships, secrets, status)
    }

    constructor (c: Config, s: State)
      ensures this.c == c && View() == s
    {
      this.c := c;
      roles, marked, memberships, secrets, status := s.roles, s.marked, s.memberships, s.secrets, s.status;
    }

    method Grant(group: string, login: string, granted: set<string>) returns (now: set<string>)
      modifies this`memberships
      ensures memberships == old(memberships) + {Membership(login, group)}
      ensures now == granted + ({group} - Held(old(memberships), login))
    {
      now := granted;
      if Membership(login, group) !in memberships {
        assert group !in Held(memberships, login);
        memberships := memberships + {Membership(login, group)};
        now := granted + {group};
      } else {
        assert group in Held(memberships, login);
      }
    }

    /** Makes or takes the login, and returns the record to be written, if it gets that far. */
    method EnsureLogin(was: Status, credential: Credential, calls: nat) returns (result: Option<Status>)
      requires Usable(View(), credential)
      modifies this`roles, this`marked, this`memberships, this`secrets
      ensures result.None? <==> calls < Calls(credential)
      ensures View().(status := was) == Begun(c, old(View()).(status := was), credential, calls)
      ensures result.Some? ==>
        View().(status := result.value) == Ensured(c, old(View()).(status := was), credential)
    {
      ghost var first := View();
      var login := LoginFor(c, was, credential);
      var granted := {};
      if credential.Generated? {
        granted := EnsureOwn(login, calls);
      }
      if calls < Calls(credential) { return None; }
      ghost var midway := memberships;
      ghost var streaming := granted;
      granted := Grant(c.readGroup, login, granted);
      Granted(first.memberships, midway, memberships, login, streaming, granted, c, credential);
      if login == was.login {
        granted := granted + was.granted;
      }
      result := Some(Status(login, credential.Generated?, credential.Generated?, granted));
    }

    /** The operator's own login up to the right to read, and what was granted it. */
    method EnsureOwn(login: string, calls: nat) returns (granted: set<string>)
      modifies this`roles, this`marked, this`memberships, this`secrets
      ensures View() == BegunAs(c, old(View()), login, if calls < OWN_CALLS then calls else OWN_CALLS - 1)
      ensures calls >= 3 ==>
        granted == (if c.streamGroup.Some? then {c.streamGroup.value} - Held(old(memberships), login) else {})
    {
      granted := {};
      if calls < 1 { return; }
      var absent := login !in roles;
      roles := roles + {login};
      if calls < 2 { return; }
      if absent {
        marked := true;
      }
      if calls < 3 { return; }
      if c.streamGroup.Some? {
        granted := Grant(c.streamGroup.value, login, granted);
      }
      if calls < 4 { return; }
      secrets := secrets + {c.secret};
    }

    /** Removes the login that was used before, as far as it gets. */
    method RemoveSuperseded(was: Status, result: Status, stop: Stop)
      modifies this`roles, this`memberships, this`secrets
      ensures View().(status := result) == PartlyRemoved(c, was, old(View()).(status := result), stop)
    {
      if stop.Between? || was.login == "" || was.login == result.login {
        return;
      }
      if was.login in roles {
        RemoveOld(was, stop);
      }
      if stop.Revoking? || stop.Deleting? {
        return;
      }
      if was.createdSecret && !result.createdSecret {
        secrets := secrets - {c.secret};
      }
    }

    /** The operator's own goes altogether, a provided one loses what it was granted; either may stop at some of it. */
    method RemoveOld(was: Status, stop: Stop)
      requires was.login in roles && !stop.Between?
      modifies this`roles, this`memberships
      ensures roles == if was.createdLogin && !stop.Revoking? then old(roles) - {was.login} else old(roles)
      ensures memberships == set m <- old(memberships) |
        !(m.member == was.login && (was.createdLogin || m.group in was.granted)
          && (stop.Revoking? ==> m.group in stop.groups))
    {
      if was.createdLogin {
        memberships := set m <- memberships | m.member != was.login || (stop.Revoking? && m.group !in stop.groups);
        if !stop.Revoking? {
          roles := roles - {was.login};
        }
        return;
      }
      var rest := if stop.Revoking? then was.granted * stop.groups else was.granted;
      ghost var going := rest;
      while rest != {}
        invariant rest <= going && roles == old(roles)
        invariant memberships == set m <- old(memberships) | !(m.member == was.login && m.group in going - rest)
        decreases rest
      {
        var group :| group in rest;
        if Membership(was.login, group) in memberships {
          memberships := memberships - {Membership(was.login, group)};
        }
        rest := rest - {group};
      }
    }

    /** One pass, which stops where it is told, unless it is refused; and what came of it. */
    method Pass(credential: Credential, publishes: bool, stop: Stop) returns (happened: Option<Attempt>)
      modifies this
      ensures happened == Happens(c, old(View()), Attempt(credential, publishes, stop))
      ensures happened.None? ==> View() == old(View())
      ensures happened.None? <==>
        credential.Generated? && c.login in old(roles) && !old(marked) && !old(status).createdLogin
      ensures happened.Some? && credential.Provided? && credential.login !in old(roles) ==>
        roles == old(roles) && memberships == old(memberships) && secrets == old(secrets)
      ensures happened.Some? ==>
        Allowed(c, old(View()), happened.value) && View() == AfterAttempt(c, old(View()), happened.value)
    {
      HappensIsAllowed(c, View(), Attempt(credential, publishes, stop));
      var was := status;
      if credential.Generated? && !status.createdLogin && c.login in roles && !marked {
        return None;
      }
      if publishes {
        status := status.(login := "");
      }
      if credential.Provided? && !(credential.login in roles && credential.login != "") {
        return Some(Attempt(credential, publishes, AtLogin(0)));
      }
      var past := Proceed(was, credential, stop);
      happened := Some(Attempt(credential, publishes, past));
    }

    /** A pass with a login that can be had. */
    method Proceed(was: Status, credential: Credential, stop: Stop) returns (past: Stop)
      requires Usable(View(), credential)
      modifies this
      ensures var first := old(View()).(status := was);
        && past == Recording(was, Ensured(c, first, credential).status, stop)
        && (past.AtLogin? ==> View() == Begun(c, first, credential, past.calls).(status := old(status)))
        && (!past.AtLogin? ==>
              var t := Ensured(c, first, credential);
              View() == PartlyRemoved(c, was, t, past).(status := if IsRecorded(past) then t.status else old(status)))
    {
      var result := EnsureLogin(was, credential, if stop.AtLogin? then stop.calls else Calls(credential));
      past := stop;
      if !stop.AtLogin? {
        past := PastLogin(was, result.value, stop);
      }
    }

    /** The pass from there on: the record of the login, whatever else is recorded, the removal, and the end. */
    method PastLogin(was: Status, result: Status, stop: Stop) returns (past: Stop)
      requires !stop.AtLogin?
      modifies this`roles, this`memberships, this`secrets, this`status
      ensures past == Recording(was, result, stop)
      ensures View() == PartlyRemoved(c, was, old(View()).(status := result), past).(
        status := if IsRecorded(past) then result else old(status))
    {
      past := stop;
      if WorthRecording(was, result) {
        status := result;
      }
      if !stop.Never? {
        past := stop.(recorded := stop.recorded || WorthRecording(was, result));
        if stop.recorded {
          status := result;
        }
      }
      RemoveSuperseded(was, result, stop);
      if stop.Never? {
        status := result;
      }
    }
  }

  /** What is worth recording is recorded. */
  function Recording(was: Status, result: Status, stop: Stop): Stop {
    if stop.AtLogin? || stop.Never? then stop else stop.(recorded := stop.recorded || WorthRecording(was, result))
  }

  /** What comes of a pass: nothing if a name is taken, nothing past the publication for want of the provided login. */
  function Happens(c: Config, s: State, a: Attempt): Option<Attempt> {
    if NameTaken(c, s, a.credential) then None
    else if !Usable(s, a.credential) then Some(a.(stop := AtLogin(0)))
    else Some(a.(stop := Recording(s.status, Ensured(c, s, a.credential).status, a.stop)))
  }

  lemma HappensIsAllowed(c: Config, s: State, a: Attempt)
    ensures var b := Happens(c, s, a); b.Some? ==> Allowed(c, s, b.value)
  {
  }

  /** A pass that completes leaves its login able to stream and to read, and a record of it and of nothing older. */
  lemma CompletedIsReady(c: Config, s: State, credential: Credential)
    requires Usable(s, credential)
    ensures var t := Completed(c, s, credential);
      var login := t.status.login;
      && login in t.roles && Membership(login, c.readGroup) in t.memberships
      && (credential.Provided? ==> login == credential.login)
      && (credential.Generated? ==>
            login == if s.status.createdLogin && s.status.login != "" then s.status.login else c.login)
      && (credential.Generated? && c.streamGroup.Some? ==> Membership(login, c.streamGroup.value) in t.memberships)
      && (credential.Generated? ==> c.secret in t.secrets)
      && t.status.createdLogin == t.status.createdSecret == credential.Generated?
  {
    var login := LoginFor(c, s.status, credential);
    var missing := Needed(c, credential) - Held(s.memberships, login);
    forall g | g in Needed(c, credential) ensures Membership(login, g) in Ensured(c, s, credential).memberships {
      if g in missing {
        assert Membership(login, g) in Members(login, missing);
      }
    }
    assert c.readGroup in Needed(c, credential);
  }

  /**
   Wherever a pass stops past its login, the record says truly whether the
   login is the operator's and what it was granted; only the name may be old.
   */
  lemma PastLoginIsOnRecord(c: Config, s: State, a: Attempt)
    requires Allowed(c, s, a) && !a.stop.AtLogin?
    ensures var r := AfterAttempt(c, s, a).status;
      && r.createdLogin == r.createdSecret == a.credential.Generated?
      && r.granted == Ensured(c, s, a.credential).status.granted
      && (a.stop.Never? ==> r.login == LoginFor(c, s.status, a.credential))
  {
  }

  /** Granting one group after another is granting the ones that were missing. */
  lemma Granted(
    first: set<Membership>, midway: set<Membership>, last: set<Membership>, login: string,
    streaming: set<string>, granted: set<string>, c: Config, credential: Credential)
    requires if credential.Generated? && c.streamGroup.Some?
             then midway == first + {Membership(login, c.streamGroup.value)}
                  && streaming == {c.streamGroup.value} - Held(first, login)
             else midway == first && streaming == {}
    requires last == midway + {Membership(login, c.readGroup)}
    requires granted == streaming + ({c.readGroup} - Held(midway, login))
    ensures var missing := Needed(c, credential) - Held(first, login);
      granted == missing && last == first + Members(login, missing)
  {
    var missing := Needed(c, credential) - Held(first, login);
    forall g ensures g in Held(first, login) <==> Membership(login, g) in first {
    }
    forall g ensures g in Held(midway, login) <==> Membership(login, g) in midway {
    }
  }
}
