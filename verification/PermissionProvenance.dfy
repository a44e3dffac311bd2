/** Where a user's permissions come from, over every interleaving of creations and updates. */
module PermissionProvenance {
  import opened Wrappers
  import opened Tokens
  import opened UserAdmin
  import opened AdminInvariant

  /** A call that wrote the user's row. */
  datatype Change = Creation(account: CreateUser) | Update(dto: UpdateUser) {
    function Named(): Option<seq<Permission>> {
      match this
      case Creation(account) => account.permissions
      case Update(dto) => dto.permissions
    }

    /** It names a role and no list. At creation no role means staff. */
    function Seeds(): Option<Role> {
      match this
      case Creation(account) =>
        if account.permissions.Some? then None
        else if account.role.Some? then account.role
        else Some(Staff)
      case Update(dto) => if dto.permissions.Some? then None else dto.role
    }

    predicate Names(p: Permission) {
      Named().Some? && p in Named().value
    }
  }

  /** The change the event makes to the user's row, if it makes one. */
  function ChangeOf(s: State, e: Event, u: Uuid): Option<Change> {
    if !Enabled(s, e) then None
    else if e.Create? && e.id == u then Some(Creation(e.account))
    else if e.Write? && s.calls[e.call].id == u && u in s.users then Some(Update(s.calls[e.call].dto))
    else None
  }

  function Extended(past: seq<Change>, change: Option<Change>): seq<Change> {
    if change.Some? then past + [change.value] else past
  }

  /** The changes of the run, after those of the past, in the order they were written. */
  function Changes(s: State, events: seq<Event>, u: Uuid, past: seq<Change>): seq<Change>
    decreases |events|
  {
    if events == [] then past
    else Changes(Step(s, events[0]), events[1..], u, Extended(past, ChangeOf(s, events[0], u)))
  }

  /** After the change at k nothing named a list or a role. */
  predicate Latest(changes: seq<Change>, k: nat) {
    k < |changes| && forall i | k < i < |changes| :: changes[i].Named().None? && changes[i].Seeds().None?
  }

  /** The permissions are the last list named, or the defaults of a role named later without a list. */
  ghost predicate Explained(user: User, changes: seq<Change>) {
    exists k: nat :: Latest(changes, k) && SetBy(user, changes[k])
  }

  predicate SetBy(user: User, change: Change) {
    if change.Named().Some? then user.permissions == change.Named().value
    else change.Seeds() == Some(user.role) && user.permissions == RoleDefaults(user.role)
  }

  /** The permission was named in a list, and since then nothing named a list or a role. */
  ghost predicate NamedLast(changes: seq<Change>, p: Permission) {
    exists k: nat :: Latest(changes, k) && changes[k].Names(p)
  }

  ghost predicate Accounted(users: Users, u: Uuid, changes: seq<Change>) {
    if u in users then Explained(users[u], changes) else changes == []
  }

  lemma AccountedStep(s: State, e: Event, u: Uuid, past: seq<Change>)
    requires Accounted(s.users, u, past)
    ensures Accounted(Step(s, e).users, u, Extended(past, ChangeOf(s, e, u)))
  {
    var change := ChangeOf(s, e, u);
    if change.None? {
      assert u in Step(s, e).users <==> u in s.users;
    } else {
      var now := past + [change.value];
      if change.value.Named().Some? || change.value.Seeds().Some? {
        assert Latest(now, |past|);
      } else {
        var k: nat :| Latest(past, k) && SetBy(s.users[u], past[k]);
        assert Latest(now, k);
      }
    }
  }

  lemma {:induction false} AccountedRun(s: State, events: seq<Event>, u: Uuid, past: seq<Change>)
    requires Accounted(s.users, u, past)
    ensures Accounted(Run(s, events).users, u, Changes(s, events, u, past))
    decreases |events|
  {
    if events == [] {
    } else {
      AccountedStep(s, events[0], u, past);
      AccountedRun(Step(s, events[0]), events[1..], u, Extended(past, ChangeOf(s, events[0], u)));
    }
  }

  /**
   * A permission a user holds beyond the defaults of the current role was named in an explicit list,
   * and since then no call named a list or a role for that user. Otherwise the permissions are the
   * last list named, or the defaults of the current role.
   */
  lemma PermissionsAreAccountedFor(s: State, events: seq<Event>, u: Uuid)
    requires u !in s.users && u in Run(s, events).users
    ensures Explained(Run(s, events).users[u], Changes(s, events, u, []))
    ensures
      var user, changes := Run(s, events).users[u], Changes(s, events, u, []);
      forall p :: p in user.permissions && p !in RoleDefaults(user.role) ==> NamedLast(changes, p)
  {
    AccountedRun(s, events, u, []);
    var user, changes := Run(s, events).users[u], Changes(s, events, u, []);
    var k: nat :| Latest(changes, k) && SetBy(user, changes[k]);
    forall p | p in user.permissions && p !in RoleDefaults(user.role) ensures NamedLast(changes, p) {
      assert changes[k].Names(p);
    }
  }
}
