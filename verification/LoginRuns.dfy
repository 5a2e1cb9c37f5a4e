/**
 Swapping logins over whole histories: the server is as it was, and the one
 current login with what it was granted.
 */
module LoginRuns {
  import opened Wrappers
  import opened Logins

  /** The server before the replication was: its roles, who was in which group, and the Secrets. */
  datatype Base = Base(roles: set<string>, memberships: set<Membership>, secrets: set<string>)

  ghost predicate Proper(c: Config, base: Base) {
    && c.login != "" && c.login !in base.roles && "" !in base.roles && c.secret !in base.secrets
    && (forall m :: m in base.memberships ==> m.member in base.roles)
  }

  /**
   Nothing of the operator's is on the server but the current login, if it is
   the operator's own, and the memberships on the record; nothing that was
   there before is missing.
   */
  ghost predicate Conserved(c: Config, base: Base, s: State) {
    && s.roles == base.roles + (if s.status.createdLogin then {c.login} else {})
    && s.secrets == base.secrets + (if s.status.createdSecret then {c.secret} else {})
    && s.memberships == base.memberships + Members(s.status.login, s.status.granted)
    && Members(s.status.login, s.status.granted) !! base.memberships
  }

  /** What the status says of the login makes sense together. */
  ghost predicate Consistent(c: Config, base: Base, s: Status) {
    && s.createdLogin == s.createdSecret
    && (if s.createdLogin then s.login == c.login else s.login in base.roles || (s.login == "" && s.granted == {}))
  }

  function AtFirst(base: Base): State {
    State(base.roles, false, base.memberships, base.secrets, Status("", false, false, {}))
  }

  function Run(c: Config, base: Base, credentials: seq<Credential>): State {
    if credentials == [] then AtFirst(base)
    else Completed(c, Run(c, base, credentials[..|credentials| - 1]), credentials[|credentials| - 1])
  }

  /** Every pass of the run gets past its login. */
  ghost predicate Accepted(c: Config, base: Base, credentials: seq<Credential>) {
    forall k :: 0 <= k < |credentials| ==> Acceptable(c, Run(c, base, credentials[..k]), credentials[k])
  }

  predicate ProvidesOwn(c: Config, credential: Credential) {
    credential == Provided(c.login)
  }

  lemma HeldIs(memberships: set<Membership>, login: string, g: string)
    ensures g in Held(memberships, login) <==> Membership(login, g) in memberships
  {
  }

  lemma MembersIs(login: string, groups: set<string>, m: Membership)
    ensures m in Members(login, groups) <==> m.member == login && m.group in groups
  {
    if m.member == login && m.group in groups {
      assert m == Membership(login, m.group);
    }
  }

  /** One pass with the same login as before. */
  lemma KeepingConserves(c: Config, base: Base, s: State, credential: Credential)
    requires Proper(c, base) && Conserved(c, base, s) && Consistent(c, base, s.status)
    requires Acceptable(c, s, credential) && !ProvidesOwn(c, credential)
    requires LoginFor(c, s.status, credential) == s.status.login
    ensures Conserved(c, base, Completed(c, s, credential)) && Consistent(c, base, Completed(c, s, credential).status)
  {
    var t := Completed(c, s, credential);
    forall m ensures (m in t.memberships <==> m in base.memberships || m in Members(t.status.login, t.status.granted)) {
      MembershipsAt(c, base, s, credential, m);
    }
    forall m | m in base.memberships ensures m !in Members(t.status.login, t.status.granted) {
      MembershipsAt(c, base, s, credential, m);
    }
  }

  /** What a pass does to one membership before anything is removed. */
  lemma MembershipsAt(c: Config, base: Base, s: State, credential: Credential, m: Membership)
    ensures var t := Ensured(c, s, credential);
            var login := t.status.login;
            var missing := m.group in Needed(c, credential) && Membership(login, m.group) !in s.memberships;
      && (m in t.memberships <==> m in s.memberships || (m.member == login && missing))
      && (m in Members(login, t.status.granted) <==>
            m.member == login && (missing || (login == s.status.login && m.group in s.status.granted)))
      && (m in Members(s.status.login, s.status.granted) <==> m.member == s.status.login && m.group in s.status.granted)
  {
    var t := Ensured(c, s, credential);
    HeldIs(s.memberships, t.status.login, m.group);
    MembersIs(t.status.login, Needed(c, credential) - Held(s.memberships, t.status.login), m);
    MembersIs(t.status.login, t.status.granted, m);
    MembersIs(s.status.login, s.status.granted, m);
  }

  /** One pass that swaps the login for another. */
  lemma SwappingConserves(c: Config, base: Base, s: State, credential: Credential)
    requires Proper(c, base) && Conserved(c, base, s) && Consistent(c, base, s.status)
    requires Acceptable(c, s, credential) && !ProvidesOwn(c, credential)
    requires LoginFor(c, s.status, credential) != s.status.login
    ensures Conserved(c, base, Completed(c, s, credential)) && Consistent(c, base, Completed(c, s, credential).status)
  {
    var t := Completed(c, s, credential);
    forall m ensures (m in t.memberships <==> m in base.memberships || m in Members(t.status.login, t.status.granted))
    {
      MembershipsAt(c, base, s, credential, m);
    }
    forall m | m in base.memberships ensures m !in Members(t.status.login, t.status.granted) {
      MembershipsAt(c, base, s, credential, m);
    }
  }

  lemma {:induction false} RunConserves(c: Config, base: Base, credentials: seq<Credential>)
    requires Proper(c, base) && Accepted(c, base, credentials)
    requires forall k :: 0 <= k < |credentials| ==> !ProvidesOwn(c, credentials[k])
    ensures var s := Run(c, base, credentials); Conserved(c, base, s) && Consistent(c, base, s.status)
  {
    if credentials == [] {
      assert Members("", {}) == {};
    } else {
      var k := |credentials| - 1;
      PrefixAccepted(c, base, credentials, k);
      RunConserves(c, base, credentials[..k]);
      var s := Run(c, base, credentials[..k]);
      assert Acceptable(c, s, credentials[k]);
      if LoginFor(c, s.status, credentials[k]) == s.status.login {
        KeepingConserves(c, base, s, credentials[k]);
      } else {
        SwappingConserves(c, base, s, credentials[k]);
      }
    }
  }

  /**
   However logins are swapped, after every completed pass the server is as it
   was before the replication but for the current login, exactly when no
   credential ever provides the operator's own login by name.
   */
  lemma ConservedThroughoutIff(c: Config, base: Base, credentials: seq<Credential>)
    requires Proper(c, base) && Accepted(c, base, credentials)
    ensures (forall k :: 0 <= k <= |credentials| ==> Conserved(c, base, Run(c, base, credentials[..k])))
       <==> (forall k :: 0 <= k < |credentials| ==> !ProvidesOwn(c, credentials[k]))
  {
    if forall k :: 0 <= k < |credentials| ==> !ProvidesOwn(c, credentials[k]) {
      forall k | 0 <= k <= |credentials| ensures Conserved(c, base, Run(c, base, credentials[..k])) {
        PrefixAccepted(c, base, credentials, k);
        RunConserves(c, base, credentials[..k]);
      }
    } else {
      var k :| 0 <= k < |credentials| && ProvidesOwn(c, credentials[k]);
      NotConservedAfter(c, base, credentials, k);
    }
  }

  lemma PrefixAccepted(c: Config, base: Base, credentials: seq<Credential>, k: nat)
    requires Accepted(c, base, credentials) && k <= |credentials|
    ensures Accepted(c, base, credentials[..k])
  {
    forall j | 0 <= j < k ensures Acceptable(c, Run(c, base, credentials[..k][..j]), credentials[..k][j]) {
      assert credentials[..k][..j] == credentials[..j];
    }
  }

  lemma NotConservedAfter(c: Config, base: Base, credentials: seq<Credential>, k: nat)
    requires Proper(c, base) && Accepted(c, base, credentials)
    requires k < |credentials| && ProvidesOwn(c, credentials[k])
    ensures !Conserved(c, base, Run(c, base, credentials[..k + 1]))
  {
    assert credentials[..k + 1][..k] == credentials[..k];
    var s := Run(c, base, credentials[..k]);
    assert Acceptable(c, s, credentials[k]);
    ProvidingOwnKeepsIt(c, base, s);
  }

  /** Provided under its own name, the operator's login is not taken for the operator's any more. */
  lemma ProvidingOwnKeepsIt(c: Config, base: Base, s: State)
    requires Proper(c, base) && c.login in s.roles
    ensures var t := Completed(c, s, Provided(c.login));
      !Conserved(c, base, t) && c.login in t.roles && !t.status.createdLogin
  {
  }

  // ---------------------------------------------- passes that complete or fail

  function Attempted(c: Config, base: Base, attempts: seq<Attempt>): State {
    if attempts == [] then AtFirst(base)
    else AfterAttempt(c, Attempted(c, base, attempts[..|attempts| - 1]), attempts[|attempts| - 1])
  }

  /** Every pass of the run can happen; those refused for a name do nothing and are left out. */
  ghost predicate AllAllowed(c: Config, base: Base, attempts: seq<Attempt>) {
    forall k :: 0 <= k < |attempts| ==> Allowed(c, Attempted(c, base, attempts[..k]), attempts[k])
  }

  lemma PrefixAllowed(c: Config, base: Base, attempts: seq<Attempt>, k: nat)
    requires AllAllowed(c, base, attempts) && k <= |attempts|
    ensures AllAllowed(c, base, attempts[..k])
    ensures k < |attempts| ==> Allowed(c, Attempted(c, base, attempts[..k]), attempts[k])
  {
    forall j | 0 <= j < k ensures Allowed(c, Attempted(c, base, attempts[..k][..j]), attempts[..k][j]) {
      assert attempts[..k][..j] == attempts[..j];
    }
  }

  /** What was there stands, and only the operator's own login has been added. */
  ghost predicate Unharmed(c: Config, base: Base, s: State) {
    && base.roles <= s.roles <= base.roles + {c.login}
    && base.memberships <= s.memberships
    && base.secrets <= s.secrets <= base.secrets + {c.secret}
    && (forall g :: g in s.status.granted ==> Membership(s.status.login, g) !in base.memberships)
    && (s.status.createdLogin ==> s.status.login == c.login || s.status.login == "")
    && s.status.createdLogin == s.status.createdSecret
  }

  lemma EnsuredIsUnharmed(c: Config, base: Base, s: State, credential: Credential)
    requires Proper(c, base) && Unharmed(c, base, s) && Usable(s, credential)
    ensures Unharmed(c, base, Ensured(c, s, credential))
  {
    var t := Ensured(c, s, credential);
    forall g | g in t.status.granted ensures Membership(t.status.login, g) !in base.memberships {
      HeldIs(s.memberships, t.status.login, g);
    }
  }

  lemma BegunIsUnharmed(c: Config, base: Base, s: State, a: Attempt)
    requires Proper(c, base) && Unharmed(c, base, s) && a.stop.AtLogin?
    ensures Unharmed(c, base, AfterAttempt(c, s, a))
  {
  }

  lemma RemovedIsUnharmed(c: Config, base: Base, was: Status, t: State, stop: Stop)
    requires Proper(c, base) && Unharmed(c, base, t)
    requires was.createdLogin ==> was.login == c.login || was.login == ""
    requires forall g :: g in was.granted ==> Membership(was.login, g) !in base.memberships
    ensures Unharmed(c, base, PartlyRemoved(c, was, t, stop))
  {
    assert Unharmed(c, base, Removed(c, was, t));
  }

  lemma AttemptIsUnharmed(c: Config, base: Base, s: State, a: Attempt)
    requires Proper(c, base) && Unharmed(c, base, s) && Allowed(c, s, a)
    ensures Unharmed(c, base, AfterAttempt(c, s, a))
  {
    if a.stop.AtLogin? {
      BegunIsUnharmed(c, base, s, a);
    } else {
      var t := Ensured(c, s, a.credential);
      EnsuredIsUnharmed(c, base, s, a.credential);
      RemovedIsUnharmed(c, base, s.status, t, a.stop);
      NewStatusIsUnharmed(c, base, s.status, PartlyRemoved(c, s.status, t, a.stop), a.publishes);
    }
  }

  lemma NewStatusIsUnharmed(c: Config, base: Base, was: Status, t: State, publishes: bool)
    requires Proper(c, base) && Unharmed(c, base, t)
    requires was.createdLogin ==> was.login == c.login || was.login == ""
    requires was.createdLogin == was.createdSecret
    requires forall g :: g in was.granted ==> Membership(was.login, g) !in base.memberships
    ensures Unharmed(c, base, t.(status := Unnamed(was, publishes)))
  {
  }

  /**
   A role that was there is never dropped and keeps every membership it had,
   whatever credentials are given and wherever passes stop; no other role than
   the operator's own login is ever added.
   */
  lemma {:induction false} ProvidedRolesStay(c: Config, base: Base, attempts: seq<Attempt>)
    requires Proper(c, base) && AllAllowed(c, base, attempts)
    ensures var s := Attempted(c, base, attempts);
      base.roles <= s.roles && base.memberships <= s.memberships && s.roles - base.roles <= {c.login}
    ensures Unharmed(c, base, Attempted(c, base, attempts))
  {
    if attempts != [] {
      var k := |attempts| - 1;
      PrefixAllowed(c, base, attempts, k);
      ProvidedRolesStay(c, base, attempts[..k]);
      AttemptIsUnharmed(c, base, Attempted(c, base, attempts[..k]), attempts[k]);
    }
  }

  // ------------------------------------------------- what is left of its own

  /** The operator's own. */
  datatype Piece = OwnRole | OwnSecret

  predicate Stands(c: Config, s: State, x: Piece) {
    match x
    case OwnRole => c.login in s.roles
    case OwnSecret => c.secret in s.secrets
  }

  /** The pass generates a login, and gets so far. */
  predicate Makes(a: Attempt, x: Piece) {
    a.credential.Generated? && (a.stop.AtLogin? ==> a.stop.calls >= if x.OwnRole? then 1 else 4)
  }

  /** The pass writes the record, be it with no login in it. */
  predicate Writes(a: Attempt) {
    a.publishes || IsRecorded(a.stop)
  }

  /** Of the first `k` passes, the last to write the record put the operator's own login there. */
  ghost predicate OwnOnRecord(attempts: seq<Attempt>, k: nat)
    requires k <= |attempts|
  {
    exists i: nat :: i < k && RecordedBy(attempts, k, i) && attempts[i].credential.Generated?
  }

  predicate RecordedBy(attempts: seq<Attempt>, k: nat, i: nat)
    requires i < k <= |attempts|
  {
    IsRecorded(attempts[i].stop) && forall j :: i < j < k ==> !Writes(attempts[j])
  }

  /** The removal gets so far. */
  predicate Reaches(stop: Stop, x: Piece) {
    stop.Never? || stop.Ending? || (x.OwnRole? && stop.Deleting?)
  }

  /** The pass is provided some other login, finds the operator's own on record, and removes it. */
  ghost predicate Removes(c: Config, attempts: seq<Attempt>, j: nat, x: Piece)
    requires j < |attempts|
  {
    && attempts[j].credential.Provided? && !ProvidesOwn(c, attempts[j].credential)
    && OwnOnRecord(attempts, j) && Reaches(attempts[j].stop, x)
  }

  ghost predicate RecordsOwn(c: Config, s: Status) {
    s.createdLogin && s.login == c.login
  }

  /** One pass: what it writes, and else what was on record. */
  lemma RecordAfter(c: Config, base: Base, s: State, a: Attempt)
    requires Proper(c, base) && Unharmed(c, base, s) && Allowed(c, s, a)
    ensures var r := AfterAttempt(c, s, a).status;
      RecordsOwn(c, r) <==>
        if IsRecorded(a.stop) then a.credential.Generated? else !a.publishes && RecordsOwn(c, s.status)
  {
  }

  lemma {:induction false} OwnOnRecordIff(c: Config, base: Base, attempts: seq<Attempt>)
    requires Proper(c, base) && AllAllowed(c, base, attempts)
    ensures RecordsOwn(c, Attempted(c, base, attempts).status) <==> OwnOnRecord(attempts, |attempts|)
  {
    if attempts != [] {
      var k := |attempts| - 1;
      PrefixAllowed(c, base, attempts, k);
      ProvidedRolesStay(c, base, attempts[..k]);
      OwnOnRecordIff(c, base, attempts[..k]);
      RecordAfter(c, base, Attempted(c, base, attempts[..k]), attempts[k]);
      OnRecordOfPrefix(attempts, k, k);
      OnRecordOfOneMore(attempts);
    }
  }

  /** Only the passes before count. */
  lemma OnRecordOfPrefix(attempts: seq<Attempt>, k: nat, j: nat)
    requires j <= k <= |attempts|
    ensures OwnOnRecord(attempts[..k], j) <==> OwnOnRecord(attempts, j)
  {
    forall i: nat | i < j ensures RecordedBy(attempts[..k], j, i) == RecordedBy(attempts, j, i) {
    }
  }

  lemma OnRecordOfOneMore(attempts: seq<Attempt>)
    requires attempts != []
    ensures var k := |attempts| - 1;
      OwnOnRecord(attempts, |attempts|) <==>
        if IsRecorded(attempts[k].stop) then attempts[k].credential.Generated?
        else !attempts[k].publishes && OwnOnRecord(attempts, k)
  {
    var k := |attempts| - 1;
    if IsRecorded(attempts[k].stop) {
      assert RecordedBy(attempts, |attempts|, k);
    }
    forall i: nat | i < k
      ensures RecordedBy(attempts, |attempts|, i) <==> RecordedBy(attempts, k, i) && !Writes(attempts[k])
    {
    }
  }

  /** One pass: the piece is there if the pass makes it, or found it and does not remove it. */
  lemma PieceAfter(c: Config, base: Base, s: State, a: Attempt, x: Piece)
    requires Proper(c, base) && Unharmed(c, base, s) && Allowed(c, s, a)
    ensures Stands(c, AfterAttempt(c, s, a), x) <==>
      || Makes(a, x)
      || (Stands(c, s, x) && !(a.credential.Provided? && !ProvidesOwn(c, a.credential)
                               && RecordsOwn(c, s.status) && Reaches(a.stop, x)))
  {
  }

  /** Made by a pass, and not removed by one since. */
  ghost predicate LeftBy(c: Config, attempts: seq<Attempt>, i: nat, x: Piece) {
    i < |attempts| && Makes(attempts[i], x) && forall j: nat :: i < j < |attempts| ==> !Removes(c, attempts, j, x)
  }

  /**
   Over any run of passes, wherever they stop and whatever is swapped for what
   and back: the operator's own login, and likewise its Secret, is left exactly
   when a pass made it and none since has removed it, which takes a record that
   the last pass to write one made for that login.
   */
  lemma {:induction false} OwnLoginLeftIff(c: Config, base: Base, attempts: seq<Attempt>, x: Piece)
    requires Proper(c, base) && AllAllowed(c, base, attempts)
    ensures Stands(c, Attempted(c, base, attempts), x) <==> exists i: nat :: LeftBy(c, attempts, i, x)
  {
    if attempts != [] {
      var k := |attempts| - 1;
      PrefixAllowed(c, base, attempts, k);
      ProvidedRolesStay(c, base, attempts[..k]);
      OwnLoginLeftIff(c, base, attempts[..k], x);
      OwnOnRecordIff(c, base, attempts[..k]);
      OnRecordOfPrefix(attempts, k, k);
      PieceAfter(c, base, Attempted(c, base, attempts[..k]), attempts[k], x);
      LeftOfPrefix(c, attempts, x);
    }
  }

  lemma LeftOfPrefix(c: Config, attempts: seq<Attempt>, x: Piece)
    requires attempts != []
    ensures var k := |attempts| - 1;
      (exists i: nat :: LeftBy(c, attempts, i, x)) <==>
        Makes(attempts[k], x) || ((exists i: nat :: LeftBy(c, attempts[..k], i, x)) && !Removes(c, attempts, k, x))
  {
    var k := |attempts| - 1;
    forall j: nat | j < k ensures Removes(c, attempts[..k], j, x) == Removes(c, attempts, j, x) {
      OnRecordOfPrefix(attempts, k, j);
    }
    if Makes(attempts[k], x) {
      assert LeftBy(c, attempts, k, x);
    }
    forall i: nat | i < k
      ensures LeftBy(c, attempts, i, x) <==> LeftBy(c, attempts[..k], i, x) && !Removes(c, attempts, k, x)
    {
    }
  }

  // ---------------------------------------------------- and of what it granted

  /** The pass is provided this role, and gets so far as to see that it can read. */
  predicate Lends(c: Config, a: Attempt, m: Membership) {
    a.credential == Provided(m.member) && m.group == c.readGroup && (a.stop.AtLogin? ==> a.stop.calls >= PROVIDED_CALLS)
  }

  /** The record goes on being about this role. */
  predicate Upholds(a: Attempt, role: string) {
    if IsRecorded(a.stop) then a.credential == Provided(role) else !a.publishes
  }

  /** The pass found the role without the membership and recorded it, and so it has been up to the `k`-th pass. */
  ghost predicate RecordedGrant(c: Config, base: Base, attempts: seq<Attempt>, k: nat, m: Membership, i: nat)
    requires i < k <= |attempts|
  {
    && Lends(c, attempts[i], m) && IsRecorded(attempts[i].stop)
    && m !in Attempted(c, base, attempts[..i]).memberships
    && forall j :: i < j < k ==> Upholds(attempts[j], m.member)
  }

  ghost predicate GrantOnRecord(c: Config, base: Base, attempts: seq<Attempt>, k: nat, m: Membership)
    requires k <= |attempts|
  {
    exists i: nat :: i < k && RecordedGrant(c, base, attempts, k, m, i)
  }

  /** The removal gets so far as this membership. */
  predicate ReachesGrant(stop: Stop, group: string) {
    stop.Never? || stop.Ending? || stop.Deleting? || (stop.Revoking? && group in stop.groups)
  }

  /** The pass uses another login, finds the grant on record, and takes it back. */
  ghost predicate TakesBack(c: Config, base: Base, attempts: seq<Attempt>, j: nat, m: Membership)
    requires j < |attempts|
  {
    && attempts[j].credential != Provided(m.member)
    && GrantOnRecord(c, base, attempts, j, m) && ReachesGrant(attempts[j].stop, m.group)
  }

  ghost predicate RecordsGrant(s: Status, m: Membership) {
    s.login == m.member && m.group in s.granted
  }

  /** One pass: what it records of the grant. */
  lemma GrantRecordAfter(c: Config, base: Base, s: State, a: Attempt, m: Membership)
    requires Proper(c, base) && Unharmed(c, base, s) && Allowed(c, s, a) && m.member in base.roles
    ensures RecordsGrant(AfterAttempt(c, s, a).status, m) <==>
      || (IsRecorded(a.stop) && Lends(c, a, m) && m !in s.memberships)
      || (RecordsGrant(s.status, m) && Upholds(a, m.member))
  {
    HeldIs(s.memberships, m.member, m.group);
  }

  /** And what it does to the membership. */
  lemma MembershipAfter(c: Config, base: Base, s: State, a: Attempt, m: Membership)
    requires Proper(c, base) && Unharmed(c, base, s) && Allowed(c, s, a) && m.member in base.roles
    ensures m in AfterAttempt(c, s, a).memberships <==>
      || Lends(c, a, m)
      || (m in s.memberships
          && !(a.credential != Provided(m.member) && RecordsGrant(s.status, m) && ReachesGrant(a.stop, m.group)))
  {
    if !a.stop.AtLogin? {
      MembershipsAt(c, base, s, a.credential, m);
      MembershipRemoved(c, s.status, Ensured(c, s, a.credential), a.stop, m);
    }
  }

  lemma MembershipRemoved(c: Config, was: Status, t: State, stop: Stop, m: Membership)
    requires !stop.AtLogin? && m.member in t.roles && m.member != ""
    requires was.createdLogin ==> was.login != m.member
    ensures m in PartlyRemoved(c, was, t, stop).memberships <==>
      m in t.memberships && !(RecordsGrant(was, m) && ReachesGrant(stop, m.group) && m.member != t.status.login)
  {
    MembersIs(was.login, was.granted, m);
  }

  lemma {:induction false} GrantOnRecordIff(c: Config, base: Base, attempts: seq<Attempt>, m: Membership)
    requires Proper(c, base) && AllAllowed(c, base, attempts) && m.member in base.roles
    ensures RecordsGrant(Attempted(c, base, attempts).status, m) <==> GrantOnRecord(c, base, attempts, |attempts|, m)
  {
    if attempts != [] {
      var k := |attempts| - 1;
      PrefixAllowed(c, base, attempts, k);
      ProvidedRolesStay(c, base, attempts[..k]);
      GrantOnRecordIff(c, base, attempts[..k], m);
      GrantRecordAfter(c, base, Attempted(c, base, attempts[..k]), attempts[k], m);
      GrantOfPrefix(c, base, attempts, k, k, m);
      GrantOfOneMore(c, base, attempts, m);
    }
  }

  lemma GrantOfPrefix(c: Config, base: Base, attempts: seq<Attempt>, k: nat, j: nat, m: Membership)
    requires j <= k <= |attempts|
    ensures GrantOnRecord(c, base, attempts[..k], j, m) <==> GrantOnRecord(c, base, attempts, j, m)
  {
    forall i: nat | i < j
      ensures RecordedGrant(c, base, attempts[..k], j, m, i) == RecordedGrant(c, base, attempts, j, m, i)
    {
      assert attempts[..k][..i] == attempts[..i];
    }
  }

  lemma GrantOfOneMore(c: Config, base: Base, attempts: seq<Attempt>, m: Membership)
    requires attempts != []
    ensures var k := |attempts| - 1;
      GrantOnRecord(c, base, attempts, |attempts|, m) <==>
        || RecordedGrant(c, base, attempts, |attempts|, m, k)
        || (GrantOnRecord(c, base, attempts, k, m) && Upholds(attempts[k], m.member))
  {
    var k := |attempts| - 1;
    forall i: nat | i < k
      ensures RecordedGrant(c, base, attempts, |attempts|, m, i)
         <==> RecordedGrant(c, base, attempts, k, m, i) && Upholds(attempts[k], m.member)
    {
    }
  }

  /** Lent by a pass, and not taken back by one since. */
  ghost predicate GrantLeftBy(c: Config, base: Base, attempts: seq<Attempt>, i: nat, m: Membership) {
    i < |attempts| && Lends(c, attempts[i], m)
    && forall j: nat :: i < j < |attempts| ==> !TakesBack(c, base, attempts, j, m)
  }

  /**
   And a role that was there is left a membership it did not have exactly when
   a pass lent it and none since has taken it back, which takes a pass that
   found the role without it and recorded it, and that record upheld.
   */
  lemma {:induction false} GrantLeftIff(c: Config, base: Base, attempts: seq<Attempt>, m: Membership)
    requires Proper(c, base) && AllAllowed(c, base, attempts)
    requires m.member in base.roles && m !in base.memberships
    ensures m in Attempted(c, base, attempts).memberships <==> exists i: nat :: GrantLeftBy(c, base, attempts, i, m)
  {
    if attempts != [] {
      var k := |attempts| - 1;
      PrefixAllowed(c, base, attempts, k);
      ProvidedRolesStay(c, base, attempts[..k]);
      GrantLeftIff(c, base, attempts[..k], m);
      GrantOnRecordIff(c, base, attempts[..k], m);
      GrantOfPrefix(c, base, attempts, k, k, m);
      MembershipAfter(c, base, Attempted(c, base, attempts[..k]), attempts[k], m);
      GrantLeftOfPrefix(c, base, attempts, m);
    }
  }

  lemma GrantLeftOfPrefix(c: Config, base: Base, attempts: seq<Attempt>, m: Membership)
    requires attempts != []
    ensures var k := |attempts| - 1;
      (exists i: nat :: GrantLeftBy(c, base, attempts, i, m)) <==>
        || Lends(c, attempts[k], m)
        || ((exists i: nat :: GrantLeftBy(c, base, attempts[..k], i, m)) && !TakesBack(c, base, attempts, k, m))
  {
    var k := |attempts| - 1;
    forall j: nat | j < k ensures TakesBack(c, base, attempts[..k], j, m) == TakesBack(c, base, attempts, j, m) {
      GrantOfPrefix(c, base, attempts, k, j, m);
    }
    if Lends(c, attempts[k], m) {
      assert GrantLeftBy(c, base, attempts, k, m);
    }
    forall i: nat | i < k
      ensures GrantLeftBy(c, base, attempts, i, m)
         <==> GrantLeftBy(c, base, attempts[..k], i, m) && !TakesBack(c, base, attempts, k, m)
    {
    }
  }

  // ------------------------------------------------- a swap that is interrupted

  /** A pass that fails with the new login in place, written down or not, and the old one not yet removed. */
  function Interrupted(c: Config, s: State, credential: Credential, recorded: bool): State {
    AfterAttempt(c, s, Attempt(credential, false, Between(recorded)))
  }

  /**
   Such a pass, followed by one that completes: all is as it should be exactly
   when the login stayed the same or the old one had nothing of the operator's.
   Otherwise it is forgotten, and stays.
   */
  lemma InterruptedSwapIff(c: Config, base: Base, s: State, credential: Credential, recorded: bool)
    requires Proper(c, base) && Conserved(c, base, s) && Consistent(c, base, s.status)
    requires Allowed(c, s, Attempt(credential, false, Between(recorded))) && !ProvidesOwn(c, credential)
    ensures Conserved(c, base, Completed(c, Interrupted(c, s, credential, recorded), credential))
       <==> LoginFor(c, s.status, credential) == s.status.login || (!s.status.createdLogin && s.status.granted == {})
  {
    if LoginFor(c, s.status, credential) == s.status.login {
      InterruptedKeeping(c, base, s, credential, recorded);
    } else if recorded {
      InterruptedRecorded(c, base, s, credential);
    } else {
      InterruptedUnrecorded(c, base, s, credential);
    }
  }

  lemma InterruptedKeeping(c: Config, base: Base, s: State, credential: Credential, recorded: bool)
    requires Proper(c, base) && Conserved(c, base, s) && Consistent(c, base, s.status)
    requires Acceptable(c, s, credential) && !ProvidesOwn(c, credential)
    requires WorthRecording(s.status, Ensured(c, s, credential).status) ==> recorded
    requires LoginFor(c, s.status, credential) == s.status.login
    ensures Conserved(c, base, Completed(c, Interrupted(c, s, credential, recorded), credential))
  {
    var t := Interrupted(c, s, credential, recorded);
    assert t == Completed(c, s, credential);
    KeepingConserves(c, base, s, credential);
    KeepingConserves(c, base, t, credential);
  }

  lemma InterruptedRecorded(c: Config, base: Base, s: State, credential: Credential)
    requires Proper(c, base) && Conserved(c, base, s) && Consistent(c, base, s.status)
    requires Acceptable(c, s, credential) && !ProvidesOwn(c, credential)
    requires LoginFor(c, s.status, credential) != s.status.login
    ensures Conserved(c, base, Completed(c, Interrupted(c, s, credential, true), credential))
       <==> !s.status.createdLogin && s.status.granted == {}
  {
    var t := Interrupted(c, s, credential, true);
    var u := Completed(c, t, credential);
    assert t == Ensured(c, s, credential) && u.status.login == t.status.login;
    if !s.status.createdLogin && s.status.granted == {} {
      assert t == Completed(c, s, credential) by {
        assert Members(s.status.login, {}) == {};
      }
      SwappingConserves(c, base, s, credential);
      KeepingConserves(c, base, t, credential);
    } else if s.status.createdLogin {
      assert c.login in u.roles && !u.status.createdLogin;
    } else {
      var g :| g in s.status.granted;
      GrantOfTheOldStays(c, base, s, credential, g);
    }
  }

  lemma GrantOfTheOldStays(c: Config, base: Base, s: State, credential: Credential, g: string)
    requires Conserved(c, base, s) && g in s.status.granted
    requires LoginFor(c, s.status, credential) != s.status.login
    ensures var t := Ensured(c, s, credential); !Conserved(c, base, Completed(c, t, credential))
  {
    var m := Membership(s.status.login, g);
    var t := Ensured(c, s, credential);
    var u := Completed(c, t, credential);
    MembersIs(s.status.login, s.status.granted, m);
    assert m in t.memberships && m in u.memberships && m !in base.memberships;
    MembersIs(u.status.login, u.status.granted, m);
  }

  lemma InterruptedUnrecorded(c: Config, base: Base, s: State, credential: Credential)
    requires Proper(c, base) && Conserved(c, base, s) && Consistent(c, base, s.status)
    requires Acceptable(c, s, credential) && !ProvidesOwn(c, credential)
    requires LoginFor(c, s.status, credential) != s.status.login
    requires !WorthRecording(s.status, Ensured(c, s, credential).status)
    ensures Conserved(c, base, Completed(c, Interrupted(c, s, credential, false), credential))
       <==> !s.status.createdLogin && s.status.granted == {}
  {
    var t := Interrupted(c, s, credential, false);
    var u := Completed(c, t, credential);
  }

  // ------------------------------------------------------ what is left behind

  const OWN: Config := Config("own", "secret", None, "readers")

  const THEIRS: Base := Base({"theirs"}, {Membership("theirs", "readers")}, {})

  const SWAP: Credential := Provided("theirs")

  lemma OneMore(c: Config, base: Base, attempts: seq<Attempt>, a: Attempt)
    ensures Attempted(c, base, attempts + [a]) == AfterAttempt(c, Attempted(c, base, attempts), a)
    ensures AllAllowed(c, base, attempts) && Allowed(c, Attempted(c, base, attempts), a) ==>
      AllAllowed(c, base, attempts + [a])
  {
    var more := attempts + [a];
    assert more[..|attempts|] == attempts;
    forall k | 0 <= k < |attempts| ensures more[..k] == attempts[..k] {
    }
  }

  /** A login that is recorded goes with the next swap that is completed, though one has failed before. */
  lemma RecordedLoginGoes() returns (attempts: seq<Attempt>)
    ensures attempts == [Attempt(Generated, true, Never), Attempt(SWAP, false, AtLogin(1)), Attempt(SWAP, false, Never)]
    ensures AllAllowed(OWN, THEIRS, attempts) && OWN.login !in Attempted(OWN, THEIRS, attempts).roles
  {
    attempts := ThreeAttempts(
      Attempt(Generated, true, Never), Attempt(SWAP, false, AtLogin(1)), Attempt(SWAP, false, Never));
  }

  /** But its Secret is left if the one before stopped with the role dropped and the Secret not yet deleted. */
  lemma SecretStays() returns (attempts: seq<Attempt>)
    ensures attempts
         == [Attempt(Generated, true, Never), Attempt(SWAP, false, Deleting(true)), Attempt(SWAP, false, Never)]
    ensures AllAllowed(OWN, THEIRS, attempts)
    ensures var s := Attempted(OWN, THEIRS, attempts);
      OWN.login !in s.roles && OWN.secret in s.secrets && !s.status.createdSecret
  {
    attempts := ThreeAttempts(
      Attempt(Generated, true, Never), Attempt(SWAP, false, Deleting(true)), Attempt(SWAP, false, Never));
  }

  lemma ThreeAttempts(a: Attempt, b: Attempt, d: Attempt) returns (attempts: seq<Attempt>)
    ensures attempts == [a, b, d]
    ensures var first := AfterAttempt(OWN, AtFirst(THEIRS), a);
            var second := AfterAttempt(OWN, first, b);
      && Attempted(OWN, THEIRS, attempts) == AfterAttempt(OWN, second, d)
      && (Allowed(OWN, AtFirst(THEIRS), a) && Allowed(OWN, first, b) && Allowed(OWN, second, d) ==>
            AllAllowed(OWN, THEIRS, attempts))
  {
    OneMore(OWN, THEIRS, [], a);
    OneMore(OWN, THEIRS, [a], b);
    OneMore(OWN, THEIRS, [a, b], d);
    attempts := [] + [a] + [b] + [d];
  }

  /**
   A generated login that a pass makes and does not get to record is left when
   the login is provided again: no record ever named it.
   */
  lemma UnrecordedLoginStays() returns (attempts: seq<Attempt>)
    ensures attempts == [Attempt(SWAP, true, Never), Attempt(Generated, false, AtLogin(2)), Attempt(SWAP, false, Never)]
    ensures AllAllowed(OWN, THEIRS, attempts)
    ensures var s := Attempted(OWN, THEIRS, attempts);
      OWN.login in s.roles && s.status == Status("theirs", false, false, {})
  {
    attempts := ThreeAttempts(
      Attempt(SWAP, true, Never), Attempt(Generated, false, AtLogin(2)), Attempt(SWAP, false, Never));
  }
}
