/**
 * The last active admin when updates interleave: each one loads its target, counts the admins and
 * writes in separate transactions.
 */
module AdminInvariant {
  import opened Wrappers
  import opened Tokens
  import opened UserAdmin

  datatype Phase =
    | Loaded(id: Uuid, dto: UpdateUser, actor: Uuid, target: User)   // past assertNotSelfLockout
    | Approved(id: Uuid, dto: UpdateUser, actor: Uuid, target: User) // past assertAnAdminRemains
    | Over
  {
    /** An update that can take an admin away, between its first read and its write. */
    predicate MayDemote() {
      !Over? && dto.Demotes()
    }
  }

  type CallId = nat

  datatype State = State(users: Users, calls: map<CallId, Phase>)

  datatype Event =
    | Create(id: Uuid, account: CreateUser)
    | Load(call: CallId, id: Uuid, dto: UpdateUser, actor: Uuid)
    | Approve(call: CallId)
    | Write(call: CallId)

  predicate Enabled(s: State, e: Event) {
    match e
    case Create(id, _) => id !in s.users
    case Load(c, _, _, _) => c !in s.calls
    case Approve(c) => c in s.calls && s.calls[c].Loaded?
    case Write(c) => c in s.calls && s.calls[c].Approved?
  }

  function Step(s: State, e: Event): State {
    if !Enabled(s, e) then s else
    match e
    case Create(id, dto) => s.(users := s.users[id := Created(dto)])
    case Load(c, id, dto, actor) =>
      var refused := id !in s.users || SelfLockout(id, actor, dto, s.users[id]).Some?;
      s.(calls := s.calls[c := if refused then Over else Loaded(id, dto, actor, s.users[id])])
    case Approve(c) =>
      var Loaded(id, dto, actor, target) := s.calls[c];
      var refused := DropsThisAdmin(dto, target) && |ActiveAdmins(s.users)| <= 1;
      s.(calls := s.calls[c := if refused then Over else Approved(id, dto, actor, target)])
    case Write(c) =>
      var Approved(id, dto, _, _) := s.calls[c];
      var users := if id in s.users then s.users[id := Updated(s.users[id], dto)] else s.users;
      State(users, s.calls[c := Over])
  }

  function Run(s: State, events: seq<Event>): State
    decreases |events|
  {
    if events == [] then s else Run(Step(s, events[0]), events[1..])
  }

  lemma RunStep(s: State, events: seq<Event>)
    requires events != []
    ensures Run(s, events) == Run(Step(s, events[0]), events[1..])
  {
  }

  /** An update whose three transactions run with nothing in between is the update taken whole. */
  lemma SoloUpdateIsTheCall(s: State, c: CallId, id: Uuid, dto: UpdateUser, actor: Uuid)
    requires c !in s.calls
    ensures
      var end := Run(s, [Load(c, id, dto, actor), Approve(c), Write(c)]);
      end.users == match Outcome(s.users, id, dto, actor)
        case Ok(users) => users
        case Err(_) => s.users
  {
    var events := [Load(c, id, dto, actor), Approve(c), Write(c)];
    var s1 := Step(s, events[0]);
    var s2 := Step(s1, events[1]);
    var s3 := Step(s2, events[2]);
    RunStep(s, events);
    RunStep(s1, events[1..]);
    RunStep(s2, events[2..]);
    assert events[2..][1..] == [] && Run(s, events) == Run(s3, []);
  }

  // ----- the invariant, one demotion at a time -----

  /** At most one update that can take an admin away is between its first read and its write. */
  ghost predicate OneDemotion(s: State) {
    forall c, d | c in s.calls && d in s.calls && s.calls[c].MayDemote() && s.calls[d].MayDemote() :: c == d
  }

  ghost predicate OneDemotionThroughout(s: State, events: seq<Event>)
    decreases |events|
  {
    OneDemotion(s) && (events != [] ==> OneDemotionThroughout(Step(s, events[0]), events[1..]))
  }

  /** The demotion under way has an active admin beside its target, unless its target is still to be counted. */
  ghost predicate Guarded(s: State) {
    && (exists admin :: admin in s.users && s.users[admin].ActiveAdmin())
    && (forall c | c in s.calls && s.calls[c].MayDemote() ::
          (s.calls[c].Loaded? && s.calls[c].target.ActiveAdmin()) || AdminBeside(s.users, s.calls[c].id))
  }

  lemma AdminsKept(s: State, e: Event, admin: Uuid)
    requires admin in s.users && s.users[admin].ActiveAdmin()
    requires e.Write? && Enabled(s, e) ==> s.calls[e.call].id != admin || !s.calls[e.call].dto.Demotes()
    ensures admin in Step(s, e).users && Step(s, e).users[admin].ActiveAdmin()
  {
  }

  lemma GuardedStep(s: State, e: Event)
    requires OneDemotion(s) && Guarded(s)
    ensures Guarded(Step(s, e))
  {
    var s' := Step(s, e);
    AdminRemains(s, e);
    forall c | c in s'.calls && s'.calls[c].MayDemote()
      ensures (s'.calls[c].Loaded? && s'.calls[c].target.ActiveAdmin()) || AdminBeside(s'.users, s'.calls[c].id)
    {
      if c in s.calls && s.calls[c] == s'.calls[c] {
        if !(s.calls[c].Loaded? && s.calls[c].target.ActiveAdmin()) {
          var admin :| admin in s.users && admin != s.calls[c].id && s.users[admin].ActiveAdmin();
          AdminsKept(s, e, admin);
        }
      } else if e.Approve? && s.calls[c].target.ActiveAdmin() {
        AnotherAdmin(s.users, s.calls[c].id);
      }
    }
  }

  lemma AdminRemains(s: State, e: Event)
    requires OneDemotion(s) && Guarded(s)
    ensures exists admin :: admin in Step(s, e).users && Step(s, e).users[admin].ActiveAdmin()
  {
    var admin :| admin in s.users && s.users[admin].ActiveAdmin();
    if e.Write? && Enabled(s, e) && s.calls[e.call].dto.Demotes() {
      assert AdminBeside(s.users, s.calls[e.call].id);
      admin :| admin in s.users && admin != s.calls[e.call].id && s.users[admin].ActiveAdmin();
    }
    AdminsKept(s, e, admin);
  }

  lemma {:induction false} GuardedRun(s: State, events: seq<Event>)
    requires Guarded(s) && OneDemotionThroughout(s, events)
    ensures Guarded(Run(s, events))
    decreases |events|
  {
    if events == [] {
    } else {
      GuardedStep(s, events[0]);
      GuardedRun(Step(s, events[0]), events[1..]);
    }
  }

  /**
   * A tenant that starts with an active admin always has one, in every run in which at most one
   * demoting or deactivating update at a time is between its first read and its write.
   */
  lemma AnAdminAlwaysRemains(users: Users, events: seq<Event>)
    requires ActiveAdmins(users) != {} && OneDemotionThroughout(State(users, map[]), events)
    ensures ActiveAdmins(Run(State(users, map[]), events).users) != {}
  {
    var admin :| admin in ActiveAdmins(users);
    var s := State(users, map[]);
    assert admin in s.users && s.users[admin].ActiveAdmin();
    GuardedRun(s, events);
    var left :| left in Run(s, events).users && Run(s, events).users[left].ActiveAdmin();
    assert left in ActiveAdmins(Run(s, events).users);
  }

  // ----- exactly when the pending writes can take the last admin -----

  predicate OnlyWrites(events: seq<Event>) {
    forall e :: e in events ==> e.Write?
  }

  /** The admin is the target of an approved demotion. */
  ghost predicate Targeted(s: State, admin: Uuid) {
    exists c :: c in s.calls && s.calls[c].Approved? && s.calls[c].id == admin && s.calls[c].dto.Demotes()
  }

  lemma {:induction false} UntargetedSurvives(s: State, events: seq<Event>, admin: Uuid)
    requires OnlyWrites(events)
    requires admin in ActiveAdmins(s.users) && !Targeted(s, admin)
    ensures admin in ActiveAdmins(Run(s, events).users)
    decreases |events|
  {
    if events == [] {
    } else {
      var e := events[0];
      assert e in events;
      AdminsKept(s, e, admin);
      var s' := Step(s, e);
      assert forall c :: c in s'.calls && s'.calls[c].Approved? ==> s'.calls[c] == s.calls[c];
      assert OnlyWrites(events[1..]) by {
        assert forall w :: w in events[1..] ==> w in events;
      }
      UntargetedSurvives(s', events[1..], admin);
    }
  }

  lemma {:induction false} AllTargetedCanGo(s: State) returns (events: seq<Event>)
    requires forall admin :: admin in ActiveAdmins(s.users) ==> Targeted(s, admin)
    ensures OnlyWrites(events) && ActiveAdmins(Run(s, events).users) == {}
    decreases |ActiveAdmins(s.users)|
  {
    if ActiveAdmins(s.users) == {} {
      events := [];
    } else {
      var admin :| admin in ActiveAdmins(s.users);
      var c :| c in s.calls && s.calls[c].Approved? && s.calls[c].id == admin && s.calls[c].dto.Demotes();
      var s' := Step(s, Write(c));
      assert ActiveAdmins(s'.users) == ActiveAdmins(s.users) - {admin};
      forall other | other in ActiveAdmins(s'.users) ensures Targeted(s', other) {
        var d :| d in s.calls && s.calls[d].Approved? && s.calls[d].id == other && s.calls[d].dto.Demotes();
        assert d != c && s'.calls[d] == s.calls[d];
      }
      var rest := AllTargetedCanGo(s');
      events := [Write(c)] + rest;
      assert events[1..] == rest;
    }
  }

  /** Some order of the pending writes leaves no active admin, if and only if each one is targeted by a demotion. */
  lemma LastAdminCanGoIff(s: State)
    ensures (exists events :: OnlyWrites(events) && ActiveAdmins(Run(s, events).users) == {}) <==>
        (forall admin :: admin in ActiveAdmins(s.users) ==> Targeted(s, admin))
  {
    if forall admin :: admin in ActiveAdmins(s.users) ==> Targeted(s, admin) {
      var events := AllTargetedCanGo(s);
    } else {
      var admin :| admin in ActiveAdmins(s.users) && !Targeted(s, admin);
      forall events | OnlyWrites(events) ensures ActiveAdmins(Run(s, events).users) != {} {
        UntargetedSurvives(s, events, admin);
      }
    }
  }

  // ----- one's own account -----

  /** What the self-lockout check has let through, of calls on the actor's own account. */
  ghost predicate SelfChecked(s: State) {
    forall c | c in s.calls && !s.calls[c].Over? && s.calls[c].id == s.calls[c].actor ::
      var dto := s.calls[c].dto;
      dto.isActive != Some(false) && (dto.role.Some? ==> dto.role.value == s.calls[c].target.role)
  }

  lemma SelfCheckedStep(s: State, e: Event)
    requires SelfChecked(s)
    ensures SelfChecked(Step(s, e))
  {
  }

  lemma {:induction false} SelfCheckedRun(s: State, events: seq<Event>)
    requires SelfChecked(s)
    ensures SelfChecked(Run(s, events))
    decreases |events|
  {
    if events == [] {
    } else {
      SelfCheckedStep(s, events[0]);
      SelfCheckedRun(Step(s, events[0]), events[1..]);
    }
  }

  /**
   * In every interleaved run, a call on the actor's own account that writes leaves that account active
   * if it was. It changes the actor's role if and only if it names a role and the role stored is no
   * longer the one it read: it then writes back the role it read.
   */
  lemma NobodySwitchesThemselvesOff(users: Users, events: seq<Event>, c: CallId)
    requires Enabled(Run(State(users, map[]), events), Write(c))
    requires
      var call := Run(State(users, map[]), events).calls[c];
      call.id == call.actor && call.id in Run(State(users, map[]), events).users
    ensures
      var s := Run(State(users, map[]), events);
      var call := s.calls[c];
      var before, after := s.users[call.id], Step(s, Write(c)).users[call.id];
      && (before.isActive ==> after.isActive)
      && (after.role != before.role <==> call.dto.role.Some? && call.target.role != before.role)
      && (after.role != before.role ==> after.role == call.target.role)
  {
    SelfCheckedRun(State(users, map[]), events);
  }

  // ----- the hypothesis is needed -----

  const DEACTIVATE: UpdateUser := UpdateUser(None, None, Some(false))
  const PROMOTE: UpdateUser := UpdateUser(Some(Admin), None, None)
  const ADMIN: User := User(Admin, [], true)
  const STAFF: User := User(Staff, [], true)

  /** Two admins deactivate each other: both counts see two admins, and the writes leave none. */
  lemma TwoDemotionsCanTakeTheLast()
    ensures
      var start := State(map[1 := ADMIN, 2 := ADMIN], map[]);
      var counted := Run(start, [Load(0, 1, DEACTIVATE, 2), Load(1, 2, DEACTIVATE, 1), Approve(0), Approve(1)]);
      exists writes :: OnlyWrites(writes) && ActiveAdmins(Run(counted, writes).users) == {}
  {
    var users := map[1 := ADMIN, 2 := ADMIN];
    assert ActiveAdmins(users) == {1, 2};
    var s1 := Step(State(users, map[]), Load(0, 1, DEACTIVATE, 2));
    var s2 := Step(s1, Load(1, 2, DEACTIVATE, 1));
    var s3 := Step(s2, Approve(0));
    var s4 := Step(s3, Approve(1));
    var events := [Load(0, 1, DEACTIVATE, 2), Load(1, 2, DEACTIVATE, 1), Approve(0), Approve(1)];
    RunStep(State(users, map[]), events);
    RunStep(s1, events[1..]);
    RunStep(s2, events[2..]);
    RunStep(s3, events[3..]);
    assert Targeted(s4, 1) by { assert s4.calls[0] == Approved(1, DEACTIVATE, 2, ADMIN); }
    assert Targeted(s4, 2) by { assert s4.calls[1] == Approved(2, DEACTIVATE, 1, ADMIN); }
    LastAdminCanGoIff(s4);
  }

  /**
   * One count at a time is not enough. A member of staff is to be deactivated, which counts nobody;
   * before that is written the same user is made an admin, and the only other admin is deactivated
   * by an update whose count of two is correct.
   */
  lemma StaleTargetCanTakeTheLast()
    ensures
      var start := State(map[1 := ADMIN, 2 := STAFF], map[]);
      var promoted := Run(start, [Load(0, 2, DEACTIVATE, 1), Approve(0), Load(1, 2, PROMOTE, 1), Approve(1), Write(1)]);
      var counted := Run(promoted, [Load(2, 1, DEACTIVATE, 2), Approve(2)]);
      && !DropsThisAdmin(DEACTIVATE, start.users[2])
      && exists writes :: OnlyWrites(writes) && ActiveAdmins(Run(counted, writes).users) == {}
  {
    var s1 := Step(State(map[1 := ADMIN, 2 := STAFF], map[]), Load(0, 2, DEACTIVATE, 1));
    var s2 := Step(s1, Approve(0));
    var s3 := Step(s2, Load(1, 2, PROMOTE, 1));
    var s4 := Step(s3, Approve(1));
    var s5 := Step(s4, Write(1));
    var first := [Load(0, 2, DEACTIVATE, 1), Approve(0), Load(1, 2, PROMOTE, 1), Approve(1), Write(1)];
    RunStep(State(map[1 := ADMIN, 2 := STAFF], map[]), first);
    RunStep(s1, first[1..]);
    RunStep(s2, first[2..]);
    RunStep(s3, first[3..]);
    RunStep(s4, first[4..]);
    BothTargeted(s5);
  }

  lemma BothTargeted(promoted: State)
    requires promoted.users == map[1 := ADMIN, 2 := Updated(STAFF, PROMOTE)]
    requires 0 in promoted.calls && promoted.calls[0] == Approved(2, DEACTIVATE, 1, STAFF) && 2 !in promoted.calls
    ensures
      var counted := Run(promoted, [Load(2, 1, DEACTIVATE, 2), Approve(2)]);
      exists writes :: OnlyWrites(writes) && ActiveAdmins(Run(counted, writes).users) == {}
  {
    assert ActiveAdmins(promoted.users) == {1, 2};
    var s1 := Step(promoted, Load(2, 1, DEACTIVATE, 2));
    var s2 := Step(s1, Approve(2));
    var events := [Load(2, 1, DEACTIVATE, 2), Approve(2)];
    RunStep(promoted, events);
    RunStep(s1, events[1..]);
    assert Targeted(s2, 1) by { assert s2.calls[2] == Approved(1, DEACTIVATE, 2, ADMIN); }
    assert Targeted(s2, 2) by { assert s2.calls[0] == Approved(2, DEACTIVATE, 1, STAFF); }
    LastAdminCanGoIff(s2);
  }

  const DEMOTE: UpdateUser := UpdateUser(Some(Staff), None, None)

  /**
   * One's own role can change that way. An admin's update naming the role they have waits to be
   * written while another admin makes them staff; written then, it makes them an admin again.
   */
  lemma StaleSelfUpdateRestoresRole()
    ensures
      var start := State(map[1 := ADMIN, 2 := ADMIN], map[]);
      var s := Run(start, [Load(0, 1, PROMOTE, 1), Approve(0), Load(1, 1, DEMOTE, 2), Approve(1), Write(1)]);
      && Enabled(s, Write(0)) && s.calls[0].id == s.calls[0].actor == 1
      && 1 in s.users && s.users[1].role == Staff && Step(s, Write(0)).users[1].role == Admin
  {
    var users := map[1 := ADMIN, 2 := ADMIN];
    assert ActiveAdmins(users) == {1, 2};
    var events := [Load(0, 1, PROMOTE, 1), Approve(0), Load(1, 1, DEMOTE, 2), Approve(1), Write(1)];
    var s1 := Step(State(users, map[]), events[0]);
    var s2 := Step(s1, events[1]);
    var s3 := Step(s2, events[2]);
    var s4 := Step(s3, events[3]);
    var s5 := Step(s4, events[4]);
    RunStep(State(users, map[]), events);
    RunStep(s1, events[1..]);
    RunStep(s2, events[2..]);
    RunStep(s3, events[3..]);
    RunStep(s4, events[4..]);
    assert s4.calls[0] == Approved(1, PROMOTE, 1, ADMIN) && s4.calls[1] == Approved(1, DEMOTE, 2, ADMIN);
  }
}
