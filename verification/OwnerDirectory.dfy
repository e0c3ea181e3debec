/** The owner table in motion: registration, invites, guarded updates, deletion, the type migration. */
module OwnerDirectory {
  import opened Options
  import opened Accounts
  import opened Lists
  import Text

  class OwnerTable {
    var owners: Directory
    var nextId: int
    var qrs: map<string, Qr>

    /** The next primary key is unused. */
    ghost predicate Valid()
      reads this
    {
      forall id :: id in owners ==> id < nextId
    }

    constructor ()
      ensures Valid() && owners == map[] && qrs == map[]
    {
      owners, nextId, qrs := map[], 1, map[];
    }

    /** What an attempt to add `made` did to the table. */
    ghost predicate Added(before: Directory, id: int, made: Result<Owner>, r: Result<int>)
      reads this
    {
      match made
      case Error(e) => r == Error(e) && owners == before && nextId == id
      case Ok(o) => r == Ok(id) && owners == before[id := o] && nextId == id + 1
    }

    /** Inserts the row; once its id is known, a row without a link is linked to itself. */
    method CreateOwner(o: Owner) returns (id: int)
      requires Valid()
      modifies this`owners, this`nextId
      ensures Valid() && id == old(nextId) && nextId == id + 1
      ensures owners == old(owners)[id := if o.link == None then o.(link := Some(id)) else o]
    {
      id := nextId;
      nextId := nextId + 1;
      owners := owners[id := o];
      if owners[id].link == None {
        owners := owners[id := owners[id].(link := Some(id))];
      }
    }

    method RegisterOwner(s: Signup, code: CodeCheck) returns (r: Result<int>)
      requires Valid()
      modifies this
      ensures Valid() && qrs == old(qrs)
      ensures Added(old(owners), old(nextId), Registered(old(owners), old(nextId), s, code), r)
      ensures old(Sound(owners)) ==> Sound(owners)
    {
      SignupsFit(owners, nextId);
      if old(Sound(owners)) && Registered(owners, nextId, s, code).Ok? {
        FittingRowKeepsSound(owners, nextId, Registered(owners, nextId, s, code).value);
      }
      if EmailKnown(owners, s.email) {
        return Error(EmailTaken);
      }
      if s.accountType == PRIVATE {
        return Error(PrivateNotPublic);
      }
      var role := CoercedRole(s.accountType, s.role);
      var link := ResolveAccountOwnerId(owners, role, s);
      if link.Error? {
        return Error(link.error);
      }
      var t, level := s.accountType, s.tierLevel;
      if role == USER && link.value.Some? && link.value.value in owners {
        t := InvitedMemberType(owners[link.value.value]);
      }
      if role == ADMINISTRATOR {
        if code.Rejected? {
          return Error(BadRegistrationCode);
        }
        level := None;
        if t == ENHANCED_PLUS {
          var resolved := SignupLevel(code.level, s.tierLevel);
          if resolved.Error? {
            return Error(resolved.error);
          }
          level := Some(resolved.value);
        }
      }
      if role == USER && link.value == None && !s.communalOk {
        return Error(CommunalIdRefused);
      }
      var id := CreateOwner(Owner(s.email, s.zoneId, role, t, link.value, CreatedTier(t, level), true));
      return Ok(id);
    }

    method RegisterUser(s: Signup, code: CodeCheck) returns (r: Result<int>)
      requires Valid()
      modifies this
      ensures Valid() && qrs == old(qrs)
      ensures Added(old(owners), old(nextId), ContractRegistered(old(owners), old(nextId), s, code), r)
      ensures old(Sound(owners)) ==> Sound(owners)
    {
      SignupsFit(owners, nextId);
      if old(Sound(owners)) && ContractRegistered(owners, nextId, s, code).Ok? {
        FittingRowKeepsSound(owners, nextId, ContractRegistered(owners, nextId, s, code).value);
      }
      if exists x | x in owners :: owners[x].email == s.email {
        return Error(EmailTaken);
      }
      if s.accountType == PRIVATE {
        return Error(PrivateNotPublic);
      }
      var role := CoercedRole(s.accountType, s.role);
      if role == ADMINISTRATOR && code.Rejected? {
        return Error(BadRegistrationCode);
      }
      var link := ResolveAccountOwnerId(owners, role, s);
      if link.Error? {
        return Error(link.error);
      }
      if role == USER && link.value == None && !s.communalOk {
        return Error(CommunalIdRefused);
      }
      var t, level := SignupType(owners, role, s.accountType, link.value), None;
      if t == ENHANCED_PLUS {
        level := Some(1);
        if role == ADMINISTRATOR {
          var resolved := SignupLevel(code.level, s.tierLevel);
          if resolved.Error? {
            return Error(resolved.error);
          }
          level := Some(resolved.value);
        }
      }
      var id := CreateOwner(Owner(s.email, s.zoneId, role, t, link.value, level, true));
      return Ok(id);
    }

    method JoinWithQr(token: string, request: JoinRequest, now: int) returns (r: Result<int>)
      requires Valid()
      modifies this
      ensures Valid()
      ensures token !in old(qrs) ==> r == Error(BadQrToken) && owners == old(owners) && qrs == old(qrs) && nextId == old(nextId)
      ensures token in old(qrs) ==>
                Added(old(owners), old(nextId), Joined(old(owners), old(nextId), old(qrs)[token], request, now), r)
                && qrs == if r.Ok? then old(qrs)[token := old(qrs)[token].(used := true)] else old(qrs)
      ensures old(Sound(owners)) ==> Sound(owners)
    {
      if token !in qrs {
        return Error(BadQrToken);
      }
      var qr := qrs[token];
      SignupsFit(owners, nextId);
      if old(Sound(owners)) && Joined(owners, nextId, qr, request, now).Ok? {
        FittingRowKeepsSound(owners, nextId, Joined(owners, nextId, qr, request, now).value);
      }
      var made := Joined(owners, nextId, qr, request, now);
      if made.Error? {
        return Error(made.error);
      }
      var id := CreateOwner(made.value);
      qrs := qrs[token := qr.(used := true)];
      return Ok(id);
    }

    /** The loop both the cascade and the migration run over the members a query returned. */
    method SetAccountTypes(members: set<int>, t: AccountType) returns (changed: nat)
      requires members <= owners.Keys
      modifies this`owners
      ensures owners == Aligned(old(owners), members, t) && changed == |members|
    {
      ghost var before := owners;
      var rest := members;
      changed := 0;
      AlignNone(before, members - rest, t);
      while |rest| > 0
        invariant rest <= members && members <= before.Keys
        invariant owners == Aligned(before, members - rest, t) && changed == |members| - |rest|
      {
        HasMember(rest);
        var member :| member in rest;
        AlignOneMore(before, members - rest, member, t);
        assert members - (rest - {member}) == (members - rest) + {member};
        owners := owners[member := owners[member].(accountType := t)];
        rest := rest - {member};
        changed := changed + 1;
      }
      assert members - rest == members;
    }

    /** `cascade_account_type_from_administrator` */
    method CascadeAccountType(admin: int)
      requires admin in owners
      modifies this`owners
      ensures owners == Cascaded(old(owners), admin)
    {
      if owners[admin].role != ADMINISTRATOR {
        return;
      }
      var memberType := InvitedMemberType(owners[admin]);
      var root := AccountRootId(owners, admin);
      var members := set x | x in owners && owners[x].link == Some(root) && x != admin;
      var changed := SetAccountTypes(members, memberType);
    }

    /** Keeps the capacity level in step with the account type. */
    method SyncTierLevel(id: int, u: OwnerUpdate)
      requires id in owners
      modifies this`owners
      ensures owners == old(owners)[id := WithTier(old(owners)[id], u)]
    {
      if owners[id].accountType == ENHANCED_PLUS {
        if u.tierLevel.Some? {
          owners := owners[id := owners[id].(tierLevel := u.tierLevel)];
        } else if owners[id].tierLevel == None {
          owners := owners[id := owners[id].(tierLevel := Some(1))];
        }
      } else if u.accountType.Some? || u.tierLevel.Some? {
        owners := owners[id := owners[id].(tierLevel := None)];
      }
    }

    /** `update_owner` without its guards. */
    method ApplyUpdate(id: int, u: OwnerUpdate)
      requires id in owners
      modifies this`owners
      ensures owners == Updated(old(owners), id, u)
    {
      var o := owners[id];
      if u.active.Some? {
        o := o.(active := u.active.value);
      }
      if u.role.Some? {
        o := o.(role := u.role.value);
        if o.role == ADMINISTRATOR && o.link == None {
          o := o.(link := Some(id));
        }
      }
      if u.accountType.Some? {
        o := o.(accountType := u.accountType.value);
      }
      owners := owners[id := o];
      if u.accountType.Some? {
        CascadeAccountType(id);
      }
      SyncTierLevel(id, u);
    }

    /** `PATCH /owners/{id}` */
    method UpdateOwner(caller: int, target: int, u: OwnerUpdate) returns (error: Option<AccountError>)
      requires Valid()
      modifies this`owners
      ensures Valid()
      ensures match GuardedUpdate(old(owners), caller, target, u)
              case Error(e) => error == Some(e) && owners == old(owners)
              case Ok(d) => error == None && owners == d
    {
      if caller !in owners {
        return Some(OwnerNotFound);
      }
      var isAdmin := owners[caller].role == ADMINISTRATOR;
      if !isAdmin && caller != target {
        return Some(Forbidden);
      }
      if u.active.Some? && !isAdmin {
        return Some(Forbidden);
      }
      if u.role.Some? && !IsSystemAdministrator(owners[caller]) {
        return Some(Forbidden);
      }
      if target !in owners {
        return Some(if u.role.Some? || u.accountType.Some? then OwnerNotFound else Forbidden);
      }
      var effective := if u.accountType.Some? then u.accountType.value else owners[target].accountType;
      var roleError := RoleChangeError(owners, caller, effective, u.role);
      if roleError.Some? {
        return roleError;
      }
      if u.accountType.Some? {
        var typeError := TypeChangeError(owners, caller, target, u.accountType.value);
        if typeError.Some? {
          return typeError;
        }
      }
      if isAdmin && caller != target && target !in VisibleOwnerIds(owners, caller, true) {
        return Some(Forbidden);
      }
      var checked := u.(role := ForcedRole(owners[target], u));
      UpdateRows(owners, target, checked);
      ApplyUpdate(target, checked);
      return None;
    }

    /** Only the owner may delete the own row. */
    method DeleteOwner(caller: int, id: int) returns (error: Option<AccountError>)
      requires Valid()
      modifies this`owners
      ensures Valid()
      ensures error == if caller != id then Some(Forbidden) else if id !in old(owners) then Some(OwnerNotFound) else None
      ensures owners == if error == None then Deleted(old(owners), id) else old(owners)
      ensures old(Sound(owners)) ==> Sound(owners)
    {
      if caller != id {
        return Some(Forbidden);
      }
      if id !in owners {
        return Some(OwnerNotFound);
      }
      if old(Sound(owners)) {
        DeleteKeepsSound(owners, id);
      }
      owners := map x | x in owners && x != id ::
        if owners[x].link == Some(id) then owners[x].(link := None) else owners[x];
      return None;
    }

    /** Aligns the members of active Family and Organization accounts with their administrator. */
    method MigrateInvitedMemberAccountTypes() returns (updated: nat)
      requires AdminsAreRoots(owners)
      modifies this`owners
      ensures owners == Migrated(old(owners), FamilyAdmins(old(owners)))
      ensures updated == |Misaligned(old(owners), FamilyAdmins(old(owners)))|
    {
      ghost var before := owners;
      ghost var done: set<int> := {};
      var admins := FamilyAdmins(owners);
      updated := 0;
      assert Migrated(before, done) == before;
      while admins != {}
        invariant done !! admins && done + admins == FamilyAdmins(before)
        invariant owners == Migrated(before, done) && updated == |Misaligned(before, done)|
        decreases |admins|
      {
        var admin :| admin in admins;
        admins := admins - {admin};
        var changed := SetAccountTypes(MisalignedMembers(owners, admin), InvitedMemberType(owners[admin]));
        MigrateOneMore(before, done, admin);
        updated := updated + changed;
        done := done + {admin};
      }
      assert done == FamilyAdmins(before);
    }
  }

  // ----- the migration --------------------------------------------------------------------

  function FamilyAdmins(d: Directory): set<int> {
    set x | x in d && d[x].role == ADMINISTRATOR && d[x].accountType in {PRIVATE_PLUS, ENHANCED_PLUS} && d[x].active
  }

  /** The administrator among `admins` whose account x is linked to. */
  predicate GovernedBy(d: Directory, x: int, admins: set<int>) {
    x in d && d[x].link.Some? && d[x].link.value in admins && d[x].link.value != x && d[x].link.value in d
  }

  /** Every member linked to one of the administrators has that administrator's type; nobody else changes. */
  function Migrated(d: Directory, admins: set<int>): Directory {
    map x | x in d :: if GovernedBy(d, x, admins) then d[x].(accountType := d[d[x].link.value].accountType) else d[x]
  }

  function Misaligned(d: Directory, admins: set<int>): set<int> {
    set x | x in d && GovernedBy(d, x, admins) && d[x].accountType != d[d[x].link.value].accountType
  }

  function Aligned(d: Directory, members: set<int>, t: AccountType): Directory {
    map x | x in d :: if x in members then d[x].(accountType := t) else d[x]
  }

  lemma AlignNone(d: Directory, members: set<int>, t: AccountType)
    requires members == {}
    ensures Aligned(d, members, t) == d
  {
  }

  lemma AlignOneMore(d: Directory, done: set<int>, member: int, t: AccountType)
    requires member in d && member !in done
    ensures var now := Aligned(d, done, t);
            Aligned(d, done + {member}, t) == now[member := now[member].(accountType := t)]
  {
  }

  /** The query of the migration for one administrator. */
  function MisalignedMembers(d: Directory, admin: int): set<int>
    requires admin in d
  {
    set x | x in d && d[x].link == Some(AccountRootId(d, admin)) && x != admin
            && d[x].accountType != InvitedMemberType(d[admin])
  }

  /** Handling one more administrator changes exactly the misaligned members of that account. */
  lemma MigrateOneMore(d: Directory, done: set<int>, admin: int)
    requires AdminsAreRoots(d) && done <= FamilyAdmins(d) && admin in FamilyAdmins(d) && admin !in done
    ensures var now := Migrated(d, done);
            var members := MisalignedMembers(now, admin);
            members == OwnMembers(d, admin) && InvitedMemberType(now[admin]) == d[admin].accountType
            && Aligned(now, members, d[admin].accountType) == Migrated(d, done + {admin})
            && |Misaligned(d, done + {admin})| == |Misaligned(d, done)| + |members|
  {
    var now := Migrated(d, done);
    assert IsRoot(d, admin) && now[admin] == d[admin];
    assert MisalignedMembers(now, admin) == OwnMembers(d, admin);
    AlignOwnMembers(d, done, admin);
    assert Misaligned(d, done + {admin}) == Misaligned(d, done) + OwnMembers(d, admin);
    assert Misaligned(d, done) !! OwnMembers(d, admin);
  }

  function OwnMembers(d: Directory, admin: int): set<int>
    requires admin in d
  {
    set x | x in d && d[x].link == Some(admin) && x != admin && d[x].accountType != d[admin].accountType
  }

  lemma AlignOwnMembers(d: Directory, done: set<int>, admin: int)
    requires admin in d && admin !in done
    ensures Aligned(Migrated(d, done), OwnMembers(d, admin), d[admin].accountType) == Migrated(d, done + {admin})
  {
    var a, m := Aligned(Migrated(d, done), OwnMembers(d, admin), d[admin].accountType), Migrated(d, done + {admin});
    assert a.Keys == d.Keys == m.Keys;
    assert forall x :: x in d ==> a[x] == m[x];
  }

  /** A second run finds nothing to change, and administrators are still roots. */
  lemma MigratingTwice(d: Directory)
    requires AdminsAreRoots(d)
    ensures var d' := Migrated(d, FamilyAdmins(d));
            AdminsAreRoots(d') && FamilyAdmins(d') == FamilyAdmins(d)
            && Misaligned(d', FamilyAdmins(d')) == {} && Migrated(d', FamilyAdmins(d')) == d'
  {
    var d' := Migrated(d, FamilyAdmins(d));
    forall x | x in d && d[x].role == ADMINISTRATOR
      ensures d'[x] == d[x] && IsRoot(d', x)
    {
      assert IsRoot(d, x);
    }
  }

  /** Who changes: the members linked to an active Family or Organization administrator, and only
      their type, which becomes the administrator's. */
  lemma MigrationReaches(d: Directory, x: int)
    requires AdminsAreRoots(d) && x in d
    ensures var d' := Migrated(d, FamilyAdmins(d));
            && d'.Keys == d.Keys && (d'[x] != d[x] ==> d[x].role == USER)
            && d'[x] == if d[x].link.Some? && d[x].link.value in d && MovesMembers(d[d[x].link.value])
                        then d[x].(accountType := d[d[x].link.value].accountType) else d[x]
  {
    if d[x].role == ADMINISTRATOR {
      assert IsRoot(d, x);
    }
  }

  predicate MovesMembers(o: Owner) {
    o.active && o.role == ADMINISTRATOR && (o.accountType == PRIVATE_PLUS || o.accountType == ENHANCED_PLUS)
  }

  // ----- the forest over whole runs -------------------------------------------------------

  /** The makers of directories; a join carries the invite row that was looked up. */
  datatype Operation =
    | Register(signup: Signup, code: CodeCheck)
    | RegisterByContract(signup: Signup, code: CodeCheck)
    | Join(qr: Qr, request: JoinRequest, now: int)
    | Update(caller: int, target: int, update: OwnerUpdate)
    | Delete(id: int)

  datatype State = State(owners: Directory, nextId: int)

  function WithOwner(s: State, made: Result<Owner>): State {
    match made
    case Ok(o) => State(s.owners[s.nextId := o], s.nextId + 1)
    case Error(_) => s
  }

  /** A refused operation leaves the state alone. */
  function After(s: State, op: Operation): State {
    match op
    case Register(signup, code) => WithOwner(s, Registered(s.owners, s.nextId, signup, code))
    case RegisterByContract(signup, code) => WithOwner(s, ContractRegistered(s.owners, s.nextId, signup, code))
    case Join(qr, request, now) => WithOwner(s, Joined(s.owners, s.nextId, qr, request, now))
    case Update(caller, target, u) =>
      (match GuardedUpdate(s.owners, caller, target, u)
       case Ok(d) => s.(owners := d)
       case Error(_) => s)
    case Delete(id) => s.(owners := Deleted(s.owners, id))
  }

  function AfterAll(s: State, ops: seq<Operation>): State {
    if ops == [] then s else After(AfterAll(s, ops[..|ops| - 1]), ops[|ops| - 1])
  }

  /** The one step left unguarded: an update that makes an administrator of a linked owner. */
  predicate Promotes(s: State, op: Operation) {
    op.Update? && op.target in s.owners && !IsRoot(s.owners, op.target)
    && ForcedRole(s.owners[op.target], op.update) == Some(ADMINISTRATOR)
    && GuardedUpdate(s.owners, op.caller, op.target, op.update).Ok?
  }

  ghost predicate NeverPromotes(s: State, ops: seq<Operation>) {
    ops != [] ==>
      var front, last := ops[..|ops| - 1], ops[|ops| - 1];
      NeverPromotes(s, front) && !Promotes(AfterAll(s, front), last)
  }

  ghost predicate Healthy(s: State) {
    Sound(s.owners) && forall id :: id in s.owners ==> id < s.nextId
  }

  /** One operation keeps every administrator at the root of a depth-one forest unless it is such a promotion. */
  lemma OperationKeepsHealthyIff(s: State, op: Operation)
    requires Healthy(s)
    ensures Healthy(After(s, op)) <==> !Promotes(s, op)
  {
    match op
    case Register(signup, code) =>
      SignupsFit(s.owners, s.nextId);
      var made := Registered(s.owners, s.nextId, signup, code);
      if made.Ok? {
        FittingRowKeepsSound(s.owners, s.nextId, made.value);
      }
    case RegisterByContract(signup, code) =>
      SignupsFit(s.owners, s.nextId);
      var made := ContractRegistered(s.owners, s.nextId, signup, code);
      if made.Ok? {
        FittingRowKeepsSound(s.owners, s.nextId, made.value);
      }
    case Join(qr, request, now) =>
      SignupsFit(s.owners, s.nextId);
      var made := Joined(s.owners, s.nextId, qr, request, now);
      if made.Ok? {
        FittingRowKeepsSound(s.owners, s.nextId, made.value);
      }
    case Update(caller, target, u) =>
      if GuardedUpdate(s.owners, caller, target, u).Ok? {
        var checked := u.(role := ForcedRole(s.owners[target], u));
        UpdateKeepsSoundIff(s.owners, target, checked);
        UpdateRows(s.owners, target, checked);
      }
    case Delete(id) =>
      DeleteKeepsSound(s.owners, id);
  }

  /** From any healthy table, registration, invites, guarded updates and deletion in any order keep
      the account graph a depth-one forest with all administrators at its roots, as long as no
      linked owner is promoted. */
  lemma {:induction false} RunsKeepTheForest(s: State, ops: seq<Operation>)
    requires Healthy(s) && NeverPromotes(s, ops)
    ensures Healthy(AfterAll(s, ops))
  {
    if ops != [] {
      RunsKeepTheForest(s, ops[..|ops| - 1]);
      OperationKeepsHealthyIff(AfterAll(s, ops[..|ops| - 1]), ops[|ops| - 1]);
    }
  }

  // ----- runs from the seeded table -------------------------------------------------------

  /** The built-in system administrator, a root on the Private tier. */
  const SEED_OWNER := Owner("admin@test.com", "DISTRICT-11", ADMINISTRATOR, PRIVATE, Some(1), None, true)

  const SEED := State(map[1 := SEED_OWNER], 2)

  /** Every run of the service starts from the seeded table. */
  lemma SeededRunsKeepTheForest(ops: seq<Operation>)
    requires NeverPromotes(SEED, ops)
    ensures Healthy(AfterAll(SEED, ops))
  {
    assert IsRoot(SEED.owners, 1);
    RunsKeepTheForest(SEED, ops);
  }

  lemma AfterTwo(s: State, a: Operation, b: Operation)
    ensures AfterAll(s, [a, b]) == After(After(s, a), b) && AfterAll(s, [a]) == After(s, a)
    ensures NeverPromotes(s, [a, b]) <==> !Promotes(s, a) && !Promotes(After(s, a), b)
  {
    assert [a, b][..1] == [a] && [a][..0] == [];
    assert AfterAll(s, []) == s && NeverPromotes(s, []);
  }

  const NEWCOMER := "member@test.com"

  /** A Family administrator signs up and is then made a user by the system administrator. */
  const FAMILY := Register(Signup(NEWCOMER, "HOME", ADMINISTRATOR, PRIVATE_PLUS, None, "", None, false), Accepted(None))

  const DEMOTION := Update(1, 2, OwnerUpdate(Some(USER), None, None, None))

  lemma NewcomerIsUnknown()
    ensures !EmailKnown(SEED.owners, NEWCOMER)
  {
    Text.StripFixesTrimmed(NEWCOMER);
    assert |Text.Lower(SEED_OWNER.email)| == 14 && |Text.Lower(NEWCOMER)| == 15;
  }

  /** Role changes of account roots do happen in these runs, and the forest stands. */
  lemma RootsChangeRoles()
    ensures NeverPromotes(SEED, [FAMILY, DEMOTION])
    ensures var d0, d1 := After(SEED, FAMILY).owners, AfterAll(SEED, [FAMILY, DEMOTION]).owners;
            2 in d0 && IsRoot(d0, 2) && d0[2].role == ADMINISTRATOR
            && 2 in d1 && IsRoot(d1, 2) && d1[2].role == USER && Healthy(AfterAll(SEED, [FAMILY, DEMOTION]))
  {
    NewcomerIsUnknown();
    var s1 := After(SEED, FAMILY);
    assert s1.owners == SEED.owners[2 := Owner(NEWCOMER, "HOME", ADMINISTRATOR, PRIVATE_PLUS, Some(2), None, true)];
    AfterTwo(SEED, FAMILY, DEMOTION);
    SeededRunsKeepTheForest([FAMILY, DEMOTION]);
  }

  /** An Individual signs up under the system administrator, who then gives that member the
      Individual Pro type. */
  const MEMBER := Register(Signup(NEWCOMER, "HOME", USER, EXCLUSIVE, Some(1), "", None, false), Rejected)

  const PROMOTION := Update(1, 2, OwnerUpdate(None, Some(ENHANCED), None, None))

  lemma SeedGainsMember()
    ensures After(SEED, MEMBER) == State(SEED.owners[2 := Owner(NEWCOMER, "HOME", USER, EXCLUSIVE, Some(1), None, true)], 3)
    ensures Healthy(After(SEED, MEMBER)) && !Promotes(SEED, MEMBER)
  {
    NewcomerIsUnknown();
    assert After(SEED, MEMBER).owners == SEED.owners[2 := Owner(NEWCOMER, "HOME", USER, EXCLUSIVE, Some(1), None, true)];
    assert IsRoot(After(SEED, MEMBER).owners, 1);
  }

  lemma PromotionBreaks(s: State)
    requires s == State(SEED.owners[2 := Owner(NEWCOMER, "HOME", USER, EXCLUSIVE, Some(1), None, true)], 3) && Healthy(s)
    ensures Promotes(s, PROMOTION) && !Healthy(After(s, PROMOTION))
    ensures var d := After(s, PROMOTION).owners;
            2 in d && d[2].role == ADMINISTRATOR && d[2].link == Some(1) && CountSystemAdministrators(d) == 0
  {
    SeedMember(s.owners);
    OperationKeepsHealthyIff(s, PROMOTION);
  }

  /** So the excluded step is reachable from the seed, and it breaks the forest's shape. */
  lemma SeedReachesPromotion()
    ensures !NeverPromotes(SEED, [MEMBER, PROMOTION]) && Healthy(After(SEED, MEMBER))
    ensures var d := AfterAll(SEED, [MEMBER, PROMOTION]).owners;
            2 in d && d[2].role == ADMINISTRATOR && d[2].link == Some(1)
            && !Healthy(AfterAll(SEED, [MEMBER, PROMOTION])) && CountSystemAdministrators(d) == 0
  {
    SeedGainsMember();
    AfterTwo(SEED, MEMBER, PROMOTION);
    PromotionBreaks(After(SEED, MEMBER));
  }

  lemma SeedMember(d: Directory)
    requires d == SEED.owners[2 := Owner(NEWCOMER, "HOME", USER, EXCLUSIVE, Some(1), None, true)]
    ensures var r := GuardedUpdate(d, 1, 2, PROMOTION.update);
            r.Ok? && r.value[2].role == ADMINISTRATOR && r.value[2].link == Some(1) && CountSystemAdministrators(r.value) == 0
  {
    assert SystemAdministrators(d) == {1};
    assert AdminsAreRoots(d);
    LastSystemAdministratorLostIff(d, 1, 2, ENHANCED, None);
  }

  // ----- the last system administrator ----------------------------------------------------

  /** A guarded change of account type alone; the role may still be forced by the type. */
  function TypeChange(t: AccountType, tierLevel: Option<int>): OwnerUpdate {
    OwnerUpdate(None, Some(t), tierLevel, None)
  }

  /** The change makes an administrator of an owner linked to somebody else. */
  predicate PromotesLinked(d: Directory, target: int, t: AccountType) {
    t == ENHANCED && target in d && !IsRoot(d, target)
  }

  /** The cascade of such a promotion reaches the account root; that root is the last one. */
  predicate HitsLastSystemAdministrator(d: Directory, target: int, t: AccountType) {
    PromotesLinked(d, target, t) && d[target].link.Some?
    && var root := d[target].link.value;
       root in d && d[root].link == Some(root) && SystemAdministrators(d) == {root}
  }

  lemma RootChangeKeepsOthers(d: Directory, caller: int, target: int, t: AccountType, tierLevel: Option<int>)
    requires AdminsAreRoots(d) && GuardedUpdate(d, caller, target, TypeChange(t, tierLevel)).Ok?
    requires target in d && IsRoot(d, target)
    ensures var d' := GuardedUpdate(d, caller, target, TypeChange(t, tierLevel)).value;
            SystemAdministrators(d) - {target} <= SystemAdministrators(d')
            && (target in SystemAdministrators(d) && t == PRIVATE ==> target in SystemAdministrators(d'))
  {
    var u := TypeChange(t, tierLevel);
    UpdateRows(d, target, u.(role := ForcedRole(d[target], u)));
    forall x | x in SystemAdministrators(d) && x != target
      ensures d[x].link != Some(target)
    {
      assert IsRoot(d, x);
    }
  }

  lemma OthersRemain(s: set<int>, x: int)
    requires x in s && |s| >= 2
    ensures s - {x} != {}
  {
    assert s == {x} + (s - {x});
  }

  lemma LinkedChange(d: Directory, caller: int, target: int, t: AccountType, tierLevel: Option<int>)
    requires AdminsAreRoots(d) && GuardedUpdate(d, caller, target, TypeChange(t, tierLevel)).Ok?
    requires target in d && !IsRoot(d, target)
    ensures var d' := GuardedUpdate(d, caller, target, TypeChange(t, tierLevel)).value;
            var root := d[target].link.value;
            SystemAdministrators(d')
            == if t == ENHANCED && root in d && d[root].link == Some(root) then SystemAdministrators(d) - {root}
               else SystemAdministrators(d)
  {
    var u := TypeChange(t, tierLevel);
    var d' := GuardedUpdate(d, caller, target, u).value;
    var root := d[target].link.value;
    UpdateRows(d, target, u.(role := ForcedRole(d[target], u)));
    forall x | x in d && x != target
      ensures x in SystemAdministrators(d') <==>
              x in SystemAdministrators(d) && !(t == ENHANCED && x == root && d[root].link == Some(root))
    {
      if d[x].role == ADMINISTRATOR {
        assert IsRoot(d, x);
      }
    }
  }

  /** Exactly when an accepted change of account type leaves no active system administrator: it
      promotes a member linked to the only one. */
  lemma LastSystemAdministratorLostIff(d: Directory, caller: int, target: int, t: AccountType, tierLevel: Option<int>)
    requires AdminsAreRoots(d) && CountSystemAdministrators(d) >= 1
    requires GuardedUpdate(d, caller, target, TypeChange(t, tierLevel)).Ok?
    ensures CountSystemAdministrators(GuardedUpdate(d, caller, target, TypeChange(t, tierLevel)).value) == 0
            <==> HitsLastSystemAdministrator(d, target, t)
  {
    var d' := GuardedUpdate(d, caller, target, TypeChange(t, tierLevel)).value;
    if IsRoot(d, target) {
      RootChangeKeepsOthers(d, caller, target, t, tierLevel);
      if target in SystemAdministrators(d) && t != PRIVATE {
        OthersRemain(SystemAdministrators(d), target);
        assert SystemAdministrators(d) - {target} != {} && SystemAdministrators(d') != {};
      } else {
        assert SystemAdministrators(d) <= SystemAdministrators(d') && SystemAdministrators(d) != {};
      }
    } else {
      LinkedChange(d, caller, target, t, tierLevel);
    }
  }

  datatype Change = Change(caller: int, target: int, accountType: AccountType, tierLevel: Option<int>)

  /** A refused change leaves the directory alone. */
  function AfterChange(d: Directory, c: Change): Directory {
    match GuardedUpdate(d, c.caller, c.target, TypeChange(c.accountType, c.tierLevel))
    case Ok(d') => d'
    case Error(_) => d
  }

  function AfterChanges(d: Directory, changes: seq<Change>): Directory {
    if changes == [] then d else AfterChange(AfterChanges(d, changes[..|changes| - 1]), changes[|changes| - 1])
  }

  /** No change of the run promotes an owner linked to somebody else. */
  ghost predicate NeverPromotesLinked(d: Directory, changes: seq<Change>) {
    changes != [] ==>
      var front, last := changes[..|changes| - 1], changes[|changes| - 1];
      NeverPromotesLinked(d, front) && !PromotesLinked(AfterChanges(d, front), last.target, last.accountType)
  }

  lemma ChangeKeepsAdminsAtRoots(d: Directory, c: Change)
    requires AdminsAreRoots(d) && !PromotesLinked(d, c.target, c.accountType)
    ensures AdminsAreRoots(AfterChange(d, c))
  {
    var u := TypeChange(c.accountType, c.tierLevel);
    var r := GuardedUpdate(d, c.caller, c.target, u);
    if r.Ok? {
      UpdateRows(d, c.target, u.(role := ForcedRole(d[c.target], u)));
      forall x | x in d && r.value[x].role == ADMINISTRATOR
        ensures IsRoot(r.value, x)
      {
        assert d[x].role == ADMINISTRATOR ==> IsRoot(d, x);
      }
    }
  }

  /** No run of guarded account-type changes that avoids such promotions ever loses the last active
      system administrator, cascades and forced roles included. */
  lemma {:induction false} SystemAdministratorSurvives(d: Directory, changes: seq<Change>)
    requires AdminsAreRoots(d) && CountSystemAdministrators(d) >= 1 && NeverPromotesLinked(d, changes)
    ensures AdminsAreRoots(AfterChanges(d, changes)) && CountSystemAdministrators(AfterChanges(d, changes)) >= 1
  {
    if changes != [] {
      var front, last := changes[..|changes| - 1], changes[|changes| - 1];
      SystemAdministratorSurvives(d, front);
      var d1 := AfterChanges(d, front);
      ChangeKeepsAdminsAtRoots(d1, last);
      if GuardedUpdate(d1, last.caller, last.target, TypeChange(last.accountType, last.tierLevel)).Ok? {
        LastSystemAdministratorLostIff(d1, last.caller, last.target, last.accountType, last.tierLevel);
      }
    }
  }
}
