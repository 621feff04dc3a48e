/**
 The identity tables and what an external identity resolves to. The binding revision of an App is a
 version stamp of everything its identities resolve to.
 */
module Identity {
  import opened Common

  type App = string
  type UserId = string
  type Time = int

  datatype BindingKey = BindingKey(app: App, platform: string, space: string, externalUser: string)

  datatype MemberKey = MemberKey(app: App, user: UserId)

  datatype Role = Role(app: App, id: string)

  datatype User = User(active: bool, createdAt: Time, disabledAt: Option<Time>)

  datatype Membership = Membership(roles: seq<string>, createdAt: Time, updatedAt: Time)

  datatype Tables = Tables(users: map<UserId, User>, bindings: map<BindingKey, UserId>,
                           memberships: map<MemberKey, Membership>, roles: set<Role>, revisions: map<App, nat>)

  datatype Error = NotFound | UserDisabled | AlreadyBound | RoleNotFound | Conflict

  function Revision(revisions: map<App, nat>, app: App): nat {
    if app in revisions then revisions[app] else 0
  }

  function Bump(revisions: map<App, nat>, app: App): map<App, nat> {
    revisions[app := Revision(revisions, app) + 1]
  }

  /** At most the one App's revision has moved, and by one. */
  ghost predicate Bumped(before: map<App, nat>, after: map<App, nat>, app: App, moved: bool) {
    forall other :: Revision(after, other) == Revision(before, other) + if other == app && moved then 1 else 0
  }

  // ---- resolving an identity ----

  datatype IdentityContext = IdentityContext(app: App, user: UserId, revision: nat, membership: Option<Membership>)

  ghost function Resolve(t: Tables, key: BindingKey): Result<IdentityContext, Error> {
    if key !in t.bindings then Err(NotFound)
    else
      var user := t.bindings[key];
      if user !in t.users then Err(NotFound)
      else if !t.users[user].active then Err(UserDisabled)
      else
        var member := MemberKey(key.app, user);
        Ok(IdentityContext(key.app, user, Revision(t.revisions, key.app),
                           if member in t.memberships then Some(t.memberships[member]) else None))
  }

  // ---- the mutations ----

  /** The Apps that can see a user: through a membership or through a binding. */
  ghost predicate Sees(t: Tables, app: App, user: UserId) {
    || MemberKey(app, user) in t.memberships
    || exists key :: key in t.bindings && key.app == app && t.bindings[key] == user
  }

  ghost function CreateUser(t: Tables, user: UserId, now: Time): Result<Tables, Error> {
    if user in t.users then Err(Conflict) else Ok(t.(users := t.users[user := User(true, now, None)]))
  }

  /** Relates the tables before and after a status change; the revisions of exactly the seeing Apps go up by one. */
  ghost predicate StatusSet(t: Tables, t': Tables, user: UserId, active: bool, now: Time)
    requires user in t.users
  {
    if t.users[user].active == active then t' == t
    else
      && t' == t.(users := t.users[user := User(active, t.users[user].createdAt, if active then None else Some(now))],
                  revisions := t'.revisions)
      && forall app :: Revision(t'.revisions, app) == Revision(t.revisions, app) + if Sees(t, app, user) then 1 else 0
  }

  ghost function Bind(t: Tables, key: BindingKey, user: UserId): Result<Tables, Error> {
    if user !in t.users then Err(NotFound)
    else if !t.users[user].active then Err(UserDisabled)
    else if key in t.bindings then
      if t.bindings[key] == user then Ok(t) else Err(AlreadyBound)
    else Ok(t.(bindings := t.bindings[key := user], revisions := Bump(t.revisions, key.app)))
  }

  ghost function Unbind(t: Tables, key: BindingKey): Result<Tables, Error> {
    if key !in t.bindings then Err(NotFound)
    else Ok(t.(bindings := t.bindings - {key}, revisions := Bump(t.revisions, key.app)))
  }

  ghost predicate RolesExist(t: Tables, app: App, roles: seq<string>) {
    forall i :: 0 <= i < |roles| ==> Role(app, roles[i]) in t.roles
  }

  ghost function SetMembership(t: Tables, member: MemberKey, roles: seq<string>, now: Time): Result<Tables, Error> {
    if member.user !in t.users then Err(NotFound)
    else if !RolesExist(t, member.app, roles) then Err(RoleNotFound)
    else if member in t.memberships && t.memberships[member].roles == roles then Ok(t)
    else
      var created := if member in t.memberships then t.memberships[member].createdAt else now;
      Ok(t.(memberships := t.memberships[member := Membership(roles, created, now)],
            revisions := Bump(t.revisions, member.app)))
  }

  // ---- the store as an object ----

  class IdentityStore {
    var users: map<UserId, User>
    var bindings: map<BindingKey, UserId>
    var memberships: map<MemberKey, Membership>
    var roles: set<Role>
    var revisions: map<App, nat>

    function View(): Tables
      reads this
    {
      Tables(users, bindings, memberships, roles, revisions)
    }

    method BumpRevision(app: App)
      modifies this`revisions
      ensures revisions == Bump(old(revisions), app)
    {
      if app in revisions {
        revisions := revisions[app := revisions[app] + 1];
      } else {
        revisions := revisions[app := 1];
      }
    }

    /** ResolveIdentity: an active user behind a binding, with the App's revision and the membership it has there. */
    method ResolveIdentity(key: BindingKey) returns (r: Result<IdentityContext, Error>)
      ensures r == Resolve(View(), key)
      ensures r.Ok? <==> key in bindings && bindings[key] in users && users[bindings[key]].active
      ensures r == Err(UserDisabled) <==> key in bindings && bindings[key] in users && !users[bindings[key]].active
      ensures r.Ok? ==> r.value.app == key.app && r.value.user == bindings[key]
      ensures r.Ok? ==> r.value.revision == if key.app in revisions then revisions[key.app] else 0
      ensures r.Ok? ==>
                var member := MemberKey(key.app, bindings[key]);
                if member in memberships then r.value.membership == Some(memberships[member])
                else r.value.membership.None?
    {
      if key !in bindings {
        return Err(NotFound);
      }
      var user := bindings[key];
      if user !in users {
        return Err(NotFound);
      }
      if !users[user].active {
        return Err(UserDisabled);
      }
      var member := MemberKey(key.app, user);
      var membership := None;
      if member in memberships {
        membership := Some(memberships[member]);
      }
      r := Ok(IdentityContext(key.app, user, Revision(revisions, key.app), membership));
    }

    method Create(user: UserId, now: Time) returns (error: Option<Error>)
      modifies this
      ensures error.None? <==> CreateUser(old(View()), user, now).Ok?
      ensures error.Some? ==> CreateUser(old(View()), user, now) == Err(error.value) && View() == old(View())
      ensures error.None? ==> CreateUser(old(View()), user, now) == Ok(View())
      ensures error == if user in old(users) then Some(Conflict) else None
      ensures error.None? ==> users == old(users)[user := User(true, now, None)] && revisions == old(revisions)
    {
      if user in users {
        return Some(Conflict);
      }
      users := users[user := User(true, now, None)];
      error := None;
    }

    /** The Apps to invalidate: memberships and bindings together, each App once. */
    method AppsOf(user: UserId) returns (apps: set<App>)
      ensures forall app :: app in apps <==> Sees(View(), app, user)
    {
      apps := (set m | m in memberships && m.user == user :: m.app)
            + (set k | k in bindings && bindings[k] == user :: k.app);
      assert forall app :: MemberKey(app, user) in memberships ==> MemberKey(app, user).app in apps;
    }

    method SetUserStatus(user: UserId, active: bool, now: Time) returns (error: Option<Error>)
      modifies this
      ensures error.Some? <==> user !in old(users)
      ensures error.Some? ==> error.value == NotFound && View() == old(View())
      ensures error.None? ==> user in old(users) && StatusSet(old(View()), View(), user, active, now)
    {
      if user !in users {
        return Some(NotFound);
      }
      error := None;
      if users[user].active == active {
        return;
      }
      var apps := AppsOf(user);
      users := users[user := User(active, users[user].createdAt, if active then None else Some(now))];
      var left := apps;
      while left != {}
        invariant left <= apps
        invariant View() == old(View()).(users := users, revisions := revisions)
        invariant users ==
                    old(users)[user := User(active, old(users)[user].createdAt, if active then None else Some(now))]
        invariant forall app :: Revision(revisions, app) ==
                                Revision(old(revisions), app) + if app in apps - left then 1 else 0
      {
        var app :| app in left;
        BumpRevision(app);
        left := left - {app};
      }
    }

    method BindExternalIdentity(key: BindingKey, user: UserId) returns (error: Option<Error>)
      modifies this
      ensures match error case None => Bind(old(View()), key, user) == Ok(View())
                          case Some(e) => Bind(old(View()), key, user) == Err(e) && View() == old(View())
      ensures error == if user !in old(users) then Some(NotFound)
                       else if !old(users)[user].active then Some(UserDisabled)
                       else if key in old(bindings) && old(bindings)[key] != user then Some(AlreadyBound)
                       else None
      ensures error.None? ==> bindings == old(bindings)[key := user]
      ensures error.None? ==> Bumped(old(revisions), revisions, key.app, key !in old(bindings))
    {
      if user !in users {
        return Some(NotFound);
      }
      if !users[user].active {
        return Some(UserDisabled);
      }
      if key in bindings {
        if bindings[key] == user {
          return None;
        }
        return Some(AlreadyBound);
      }
      bindings := bindings[key := user];
      BumpRevision(key.app);
      error := None;
    }

    method UnbindExternalIdentity(key: BindingKey) returns (error: Option<Error>)
      modifies this
      ensures match error case None => Unbind(old(View()), key) == Ok(View())
                          case Some(e) => Unbind(old(View()), key) == Err(e) && View() == old(View())
      ensures error == if key in old(bindings) then None else Some(NotFound)
      ensures error.None? ==> key !in bindings && forall k :: k != key ==>
                (k in bindings <==> k in old(bindings)) && (k in bindings ==> bindings[k] == old(bindings)[k])
      ensures error.None? ==> Bumped(old(revisions), revisions, key.app, true)
    {
      if key !in bindings {
        return Some(NotFound);
      }
      bindings := bindings - {key};
      BumpRevision(key.app);
      error := None;
    }

    method PutMembership(member: MemberKey, wanted: seq<string>, now: Time) returns (error: Option<Error>)
      modifies this
      ensures match error case None => SetMembership(old(View()), member, wanted, now) == Ok(View())
                          case Some(e) =>
                            SetMembership(old(View()), member, wanted, now) == Err(e) && View() == old(View())
      ensures error == if member.user !in old(users) then Some(NotFound)
                       else if exists role :: role in wanted && Role(member.app, role) !in old(roles) then
                         Some(RoleNotFound)
                       else None
      ensures error.None? ==> member in memberships && memberships[member].roles == wanted
      ensures error.None? ==>
                var same := member in old(memberships) && old(memberships)[member].roles == wanted;
                && Bumped(old(revisions), revisions, member.app, !same)
                && if same then memberships == old(memberships)
                   else && memberships[member].updatedAt == now
                        && memberships[member].createdAt ==
                           if member in old(memberships) then old(memberships)[member].createdAt else now
    {
      if member.user !in users {
        return Some(NotFound);
      }
      var n := 0;
      while n < |wanted|
        invariant n <= |wanted| && forall i :: 0 <= i < n ==> Role(member.app, wanted[i]) in roles
      {
        if Role(member.app, wanted[n]) !in roles {
          return Some(RoleNotFound);
        }
        n := n + 1;
      }
      error := None;
      if member in memberships && memberships[member].roles == wanted {
        return;
      }
      var created := if member in memberships then memberships[member].createdAt else now;
      memberships := memberships[member := Membership(wanted, created, now)];
      BumpRevision(member.app);
    }
  }

  // ---- histories ----

  datatype Mutation =
    | DoCreate(user: UserId, now: Time)
    | DoSetStatus(user: UserId, active: bool, now: Time)
    | DoBind(key: BindingKey, user: UserId)
    | DoUnbind(key: BindingKey)
    | DoSetMembership(member: MemberKey, roles: seq<string>, now: Time)
    | DoChangeRoles(known: set<Role>)

  const EMPTY := Tables(map[], map[], map[], {}, map[])

  /** The tables after a mutation that may have failed. */
  function Either(t: Tables, r: Result<Tables, Error>): Tables {
    match r case Ok(t') => t' case Err(_) => t
  }

  ghost predicate Step(t: Tables, m: Mutation, t': Tables) {
    match m
    case DoCreate(user, now) => t' == Either(t, CreateUser(t, user, now))
    case DoSetStatus(user, active, now) => if user in t.users then StatusSet(t, t', user, active, now) else t' == t
    case DoBind(key, user) => t' == Either(t, Bind(t, key, user))
    case DoUnbind(key) => t' == Either(t, Unbind(t, key))
    case DoSetMembership(member, roles, now) => t' == Either(t, SetMembership(t, member, roles, now))
    case DoChangeRoles(known) => t' == t.(roles := known)
  }

  ghost predicate History(states: seq<Tables>, ms: seq<Mutation>) {
    && |states| == |ms| + 1 && states[0] == EMPTY
    && forall i {:trigger Step(states[i], ms[i], states[i + 1])} ::
       0 <= i < |ms| ==> Step(states[i], ms[i], states[i + 1])
  }

  lemma StepAt(states: seq<Tables>, ms: seq<Mutation>, i: nat)
    requires History(states, ms) && i < |ms|
    ensures Step(states[i], ms[i], states[i + 1])
  {
  }

  /** Bindings refer to existing users. */
  ghost predicate Inv(t: Tables) {
    forall key :: key in t.bindings ==> t.bindings[key] in t.users
  }

  lemma StepKeeps(t: Tables, m: Mutation, t': Tables)
    requires Inv(t) && Step(t, m, t')
    ensures Inv(t')
  {
  }

  lemma {:induction false} InvAlong(states: seq<Tables>, ms: seq<Mutation>, k: nat)
    requires History(states, ms) && k < |states|
    ensures Inv(states[k])
  {
    hide Step;
    if k > 0 {
      InvAlong(states, ms, k - 1);
      StepAt(states, ms, k - 1);
      StepKeeps(states[k - 1], ms[k - 1], states[k]);
    }
  }

  /** One mutation either moves an App's revision up or leaves what every identity of it resolves to. */
  lemma StepStamps(t: Tables, m: Mutation, t': Tables, app: App)
    requires Inv(t) && Step(t, m, t')
    ensures Revision(t.revisions, app) <= Revision(t'.revisions, app)
    ensures Revision(t.revisions, app) == Revision(t'.revisions, app) ==>
              forall key: BindingKey :: key.app == app ==> Resolve(t', key) == Resolve(t, key)
  {
    hide Resolve;
    if Revision(t.revisions, app) == Revision(t'.revisions, app) {
      forall key: BindingKey | key.app == app ensures Resolve(t', key) == Resolve(t, key) {
        SameResolution(t, m, t', key);
      }
    }
  }

  lemma SameResolution(t: Tables, m: Mutation, t': Tables, key: BindingKey)
    requires Inv(t) && Step(t, m, t') && Revision(t.revisions, key.app) == Revision(t'.revisions, key.app)
    ensures Resolve(t', key) == Resolve(t, key)
  {
    if m.DoSetStatus? && key in t.bindings && t.bindings[key] == m.user {
      assert Sees(t, key.app, m.user);
    }
  }

  /**
   The binding revision as a version stamp. Along any history it never decreases, and whenever it is the
   same at two points, every external identity of the App resolves to the same outcome at both.
   */
  lemma {:induction false} RevisionIsAVersionStamp(states: seq<Tables>, ms: seq<Mutation>, i: nat, j: nat, app: App)
    requires History(states, ms) && i <= j < |states|
    ensures Revision(states[i].revisions, app) <= Revision(states[j].revisions, app)
    ensures Revision(states[i].revisions, app) == Revision(states[j].revisions, app) ==>
              forall key: BindingKey :: key.app == app ==> Resolve(states[j], key) == Resolve(states[i], key)
    decreases j
  {
    hide Step, Resolve, Revision;
    if i < j {
      RevisionIsAVersionStamp(states, ms, i, j - 1, app);
      InvAlong(states, ms, j - 1);
      StepAt(states, ms, j - 1);
      StepStamps(states[j - 1], ms[j - 1], states[j], app);
    }
  }

  /** Disabling a user takes effect at once for every identity bound to it, and in every App that can see it. */
  lemma DisableTakesEffect(t: Tables, t': Tables, user: UserId, now: Time, key: BindingKey)
    requires Inv(t) && user in t.users && StatusSet(t, t', user, false, now)
    requires key in t.bindings && t.bindings[key] == user
    ensures Resolve(t', key) == Err(UserDisabled)
    ensures t.users[user].active ==> Revision(t'.revisions, key.app) == Revision(t.revisions, key.app) + 1
  {
    assert Sees(t, key.app, user);
  }
}
