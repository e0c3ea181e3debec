/** Owners, the account each one belongs to, and the visibility rules built on it. */
module Accounts {
  import opened Options
  import opened Text
  import opened Lists

  datatype AccountType = PRIVATE | PRIVATE_PLUS | EXCLUSIVE | ENHANCED | ENHANCED_PLUS

  datatype Role = ADMINISTRATOR | USER

  /** `link` is account_owner_id. */
  datatype Owner = Owner(email: string, zoneId: string, role: Role, accountType: AccountType, link: Option<int>,
                         tierLevel: Option<int>, active: bool)

  type Directory = map<int, Owner>

  function IsSystemAdministrator(o: Owner): bool {
    o.role == ADMINISTRATOR && o.accountType == PRIVATE
  }

  // ----- visibility -----------------------------------------------------------------------

  function AccountRootId(d: Directory, id: int): int
    requires id in d
  {
    if d[id].link.Some? then d[id].link.value else id
  }

  function AllOwnerIds(d: Directory, includeInactive: bool): set<int> {
    set x | x in d && (includeInactive || d[x].active)
  }

  /** The query shared by the listings: the root row and every row linked to it. */
  function OnAccount(d: Directory, root: int, includeInactive: bool): set<int> {
    set x | x in d && (x == root || d[x].link == Some(root)) && (includeInactive || d[x].active)
  }

  function WithSelf(d: Directory, ids: set<int>, id: int, includeInactive: bool): set<int>
    requires id in d
  {
    if includeInactive || d[id].active then ids + {id} else ids
  }

  function VisibleOwnerIds(d: Directory, id: int, includeInactive: bool): set<int>
    requires id in d
  {
    if IsSystemAdministrator(d[id]) then AllOwnerIds(d, includeInactive)
    else if d[id].role != ADMINISTRATOR then {id}
    else
      (set x | x in d && d[x].link == Some(AccountRootId(d, id)) && (includeInactive || d[x].active)) + {id}
  }

  function AccountPropagationOwnerIds(d: Directory, id: int, includeInactive: bool): set<int>
    requires id in d
  {
    WithSelf(d, OnAccount(d, AccountRootId(d, id), includeInactive), id, includeInactive)
  }

  function MessagingVisibleOwnerIds(d: Directory, id: int, includeInactive: bool, requireSameZone: bool): set<int>
    requires id in d
  {
    if IsSystemAdministrator(d[id]) then AllOwnerIds(d, includeInactive)
    else
      var ids := OnAccount(d, AccountRootId(d, id), includeInactive);
      var near := set x | x in ids && (requireSameZone ==> d[x].zoneId == d[id].zoneId);
      WithSelf(d, near, id, includeInactive)
  }

  predicate CanMessageOwner(d: Directory, sender: int, receiver: int, requireSameZone: bool)
    requires sender in d && receiver in d
  {
    d[receiver].active && sender != receiver
    && AccountRootId(d, sender) == AccountRootId(d, receiver)
    && (requireSameZone ==> d[sender].zoneId == d[receiver].zoneId)
  }

  // ----- the forest -----------------------------------------------------------------------

  /** The owner is its own account root. */
  predicate IsRoot(d: Directory, id: int) {
    id in d && AccountRootId(d, id) == id
  }

  /** Depth one: every link is null or names an existing owner who is its own root. */
  ghost predicate Forest(d: Directory) {
    forall id :: id in d && d[id].link.Some? ==> IsRoot(d, d[id].link.value)
  }

  ghost predicate AdminsAreRoots(d: Directory) {
    forall id :: id in d && d[id].role == ADMINISTRATOR ==> IsRoot(d, id)
  }

  ghost predicate Sound(d: Directory) {
    Forest(d) && AdminsAreRoots(d)
  }

  /** In a forest the receivers offered for private messages are exactly the ones the send check accepts. */
  lemma MessagingListAgreesWithCheck(d: Directory, sender: int, receiver: int, requireSameZone: bool)
    requires Forest(d) && sender in d && receiver in d && sender != receiver
    requires d[receiver].active && !IsSystemAdministrator(d[sender])
    ensures CanMessageOwner(d, sender, receiver, requireSameZone)
            <==> receiver in MessagingVisibleOwnerIds(d, sender, false, requireSameZone)
  {
    if d[sender].link.Some? {
      assert IsRoot(d, d[sender].link.value);
    }
  }

  /** Without the forest they differ: a linked account root is offered and then refused. */
  lemma ChainBreaksAgreement(d: Directory, a: int, b: int, c: int)
    requires a in d && b in d && a != b && b != c && d[a].link == Some(b) && d[b].link == Some(c)
    requires d[b].active && !IsSystemAdministrator(d[a])
    ensures b in MessagingVisibleOwnerIds(d, a, false, false) && !CanMessageOwner(d, a, b, false)
  {
  }

  /** A system administrator is offered everyone, but may still message only the own account: list
      and check agree for such a sender exactly when the receiver shares its root and zone. */
  lemma SystemAdministratorListIsWider(d: Directory, sender: int, receiver: int)
    requires sender in d && receiver in d && sender != receiver
    requires d[receiver].active && IsSystemAdministrator(d[sender])
    ensures receiver in MessagingVisibleOwnerIds(d, sender, false, true)
    ensures CanMessageOwner(d, sender, receiver, true)
            <==> AccountRootId(d, sender) == AccountRootId(d, receiver) && d[sender].zoneId == d[receiver].zoneId
  {
  }

  /** Alarm fan-out reaches exactly the active owners with the sender's root. */
  lemma PropagationIsTheAccount(d: Directory, id: int, x: int)
    requires Forest(d) && id in d && d[id].active
    ensures x in AccountPropagationOwnerIds(d, id, false)
            <==> x in d && d[x].active && AccountRootId(d, x) == AccountRootId(d, id)
  {
    if d[id].link.Some? {
      assert IsRoot(d, d[id].link.value);
    }
  }

  /** So fan-out divides the active owners into classes: everyone is in their own, and two classes
      are the same or have nobody in common. */
  lemma PropagationPartitions(d: Directory, a: int, b: int)
    requires Forest(d) && a in d && b in d && d[a].active && d[b].active
    ensures a in AccountPropagationOwnerIds(d, a, false)
    ensures a in AccountPropagationOwnerIds(d, b, false) <==> b in AccountPropagationOwnerIds(d, a, false)
    ensures var p, q := AccountPropagationOwnerIds(d, a, false), AccountPropagationOwnerIds(d, b, false);
            if b in p then p == q else p !! q
  {
    forall x
      ensures x in AccountPropagationOwnerIds(d, a, false)
              <==> x in d && d[x].active && AccountRootId(d, x) == AccountRootId(d, a)
      ensures x in AccountPropagationOwnerIds(d, b, false)
              <==> x in d && d[x].active && AccountRootId(d, x) == AccountRootId(d, b)
    {
      PropagationIsTheAccount(d, a, x);
      PropagationIsTheAccount(d, b, x);
    }
  }

  // ----- seats ----------------------------------------------------------------------------

  predicate AllowsMembers(t: AccountType) {
    t in {PRIVATE, PRIVATE_PLUS, ENHANCED_PLUS}
  }

  function LevelCapacity(level: Option<int>): nat {
    if level == Some(2) then 50
    else if level == Some(3) then 100
    else if level == Some(4) then 500
    else if level == Some(5) then 2500
    else 20
  }

  /** Active users an account may hold, its administrator included; None is unlimited. */
  function MaxTotalUsers(o: Owner): Option<nat> {
    match o.accountType
    case PRIVATE => None
    case PRIVATE_PLUS => Some(10)
    case ENHANCED_PLUS => Some(LevelCapacity(o.tierLevel))
    case EXCLUSIVE => Some(1)
    case ENHANCED => Some(1)
  }

  function ActiveMembers(d: Directory, admin: int): set<int> {
    set x | x in d && d[x].link == Some(admin) && x != admin && d[x].role == USER && d[x].active
  }

  function ActiveUsers(d: Directory, admin: int): nat
    requires admin in d
  {
    |ActiveMembers(d, admin)| + if d[admin].active then 1 else 0
  }

  // ----- signing up -----------------------------------------------------------------------

  datatype AccountError = EmailTaken | PrivateNotPublic | OwnerNotFound | NotAdministrator | NoMembersAllowed
                        | TypeMismatch | CapacityFull | NetworkRequired | AdminEmailNotFound | AmbiguousNetwork
                        | NoNetworkAdmin | BadRegistrationCode | BadQrToken | ZoneRequired | ZoneTaken
                        | CommunalIdRefused | Forbidden | Unprocessable

  datatype Result<+T> = Ok(value: T) | Error(error: AccountError)

  function CapacityError(d: Directory, admin: int): Option<AccountError>
    requires admin in d
  {
    var limit := MaxTotalUsers(d[admin]);
    if limit == None then None
    else if !AllowsMembers(d[admin].accountType) then Some(NoMembersAllowed)
    else if ActiveUsers(d, admin) >= limit.value then Some(CapacityFull)
    else None
  }

  /** `_accept_account_owner` */
  function AcceptAccountOwner(d: Directory, admin: int, accountType: AccountType, enforceType: bool): Result<int> {
    if admin !in d then Error(OwnerNotFound)
    else if d[admin].role != ADMINISTRATOR then Error(NotAdministrator)
    else if !AllowsMembers(d[admin].accountType) then Error(NoMembersAllowed)
    else if enforceType && accountType != EXCLUSIVE && d[admin].accountType != accountType then Error(TypeMismatch)
    else
      match CapacityError(d, admin)
      case Some(e) => Error(e)
      case None => Ok(admin)
  }

  function NetworkKey(zoneId: string): string {
    Lower(Strip(zoneId))
  }

  /** Active non-system administrators of a network with one account type. */
  function NetworkAdmins(d: Directory, network: string, accountType: AccountType): set<int> {
    set x | x in d && NetworkKey(d[x].zoneId) == NetworkKey(network) && d[x].role == ADMINISTRATOR && d[x].active
            && !IsSystemAdministrator(d[x]) && d[x].accountType == accountType
  }

  /** `communalOk`: a Communal ID was chosen that can give the primary zone of a solo Individual. */
  datatype Signup = Signup(email: string, zoneId: string, role: Role, accountType: AccountType, requested: Option<int>,
                           administratorEmail: string, tierLevel: Option<int>, communalOk: bool)

  /** `resolve_account_owner_id`: the administrator a new user links to; None makes an account root. */
  function ResolveAccountOwnerId(d: Directory, role: Role, s: Signup): Result<Option<int>> {
    if role == ADMINISTRATOR then Ok(None)
    else if s.accountType == EXCLUSIVE && s.requested == None then Ok(None)
    else if s.requested.Some? then Linked(AcceptAccountOwner(d, s.requested.value, s.accountType, true))
    else if Strip(s.zoneId) == "" then Error(NetworkRequired)
    else
      var admins := NetworkAdmins(d, s.zoneId, s.accountType);
      var email := Lower(Strip(s.administratorEmail));
      if email != "" then ByEmail(d, admins, email, s.accountType) else OnlyAdmin(d, admins, s.accountType)
  }

  /** The first administrator with the e-mail. */
  function ByEmail(d: Directory, admins: set<int>, email: string, t: AccountType): Result<Option<int>>
    requires admins <= d.Keys
  {
    var matched := SortedIds(set x | x in admins && Lower(Strip(d[x].email)) == email);
    if matched == [] then Error(AdminEmailNotFound) else Linked(AcceptAccountOwner(d, matched[0], t, false))
  }

  /** The only administrator, if there is just one. */
  function OnlyAdmin(d: Directory, admins: set<int>, t: AccountType): Result<Option<int>> {
    var ids := SortedIds(admins);
    if |ids| == 1 then Linked(AcceptAccountOwner(d, ids[0], t, false))
    else if |ids| > 1 then Error(AmbiguousNetwork)
    else Error(NoNetworkAdmin)
  }

  function Linked(r: Result<int>): Result<Option<int>> {
    match r
    case Ok(id) => Ok(Some(id))
    case Error(e) => Error(e)
  }

  /** Individual accounts are users, Individual Pro accounts administrators. */
  function CoercedRole(t: AccountType, role: Role): Role {
    if t == EXCLUSIVE then USER else if t == ENHANCED then ADMINISTRATOR else role
  }

  function InvitedMemberType(admin: Owner): AccountType {
    if admin.accountType in {PRIVATE_PLUS, ENHANCED_PLUS} then admin.accountType else EXCLUSIVE
  }

  predicate EmailKnown(d: Directory, email: string) {
    exists x | x in d :: Lower(d[x].email) == Lower(Strip(email))
  }

  function CreatedTier(t: AccountType, level: Option<int>): Option<int> {
    if t != ENHANCED_PLUS then None else if level.Some? then level else Some(1)
  }

  /** `create_owner`: a row without a link becomes its own root. */
  function CreatedOwner(id: int, email: string, zoneId: string, role: Role, t: AccountType, level: Option<int>,
                        link: Option<int>): Owner {
    Owner(email, zoneId, role, t, if link == None then Some(id) else link, CreatedTier(t, level), true)
  }

  /** What the registration code check answers; a code may carry an Organization level. */
  datatype CodeCheck = Rejected | Accepted(level: Option<int>)

  /** The capacity level of a new Organization administrator: the code's level wins. */
  function SignupLevel(code: Option<int>, requested: Option<int>): Result<int> {
    if code.Some? then Ok(if 1 <= code.value <= 5 then code.value else 1)
    else if requested.None? then Ok(1)
    else if 1 <= requested.value <= 5 then Ok(requested.value)
    else Error(Unprocessable)
  }

  /** The type stored for a new user: members follow the administrator they link to. */
  function SignupType(d: Directory, role: Role, t: AccountType, link: Option<int>): AccountType {
    if role == USER && link.Some? && link.value in d then InvitedMemberType(d[link.value]) else t
  }

  /** The level stored with a new administrator, or the error. */
  function AdministratorLevel(t: AccountType, code: Option<int>, requested: Option<int>): Result<Option<int>> {
    if t != ENHANCED_PLUS then Ok(None)
    else
      match SignupLevel(code, requested)
      case Ok(level) => Ok(Some(level))
      case Error(e) => Error(e)
  }

  /** The owner a registration stores under `id`. */
  function Registered(d: Directory, id: int, s: Signup, code: CodeCheck): Result<Owner> {
    if EmailKnown(d, s.email) then Error(EmailTaken)
    else if s.accountType == PRIVATE then Error(PrivateNotPublic)
    else
      var role := CoercedRole(s.accountType, s.role);
      match ResolveAccountOwnerId(d, role, s)
      case Error(e) => Error(e)
      case Ok(link) =>
        var t := SignupType(d, role, s.accountType, link);
        if role == USER && link.None? && !s.communalOk then Error(CommunalIdRefused)
        else if role == USER then Ok(CreatedOwner(id, s.email, s.zoneId, role, t, s.tierLevel, link))
        else if code.Rejected? then Error(BadRegistrationCode)
        else
          match AdministratorLevel(t, code.level, s.tierLevel)
          case Error(e) => Error(e)
          case Ok(level) => Ok(CreatedOwner(id, s.email, s.zoneId, role, t, level, link))
  }

  /** The owner the contract registration stores: e-mails are compared as they are, and the code is
      consumed before the administrator is looked up. */
  function ContractRegistered(d: Directory, id: int, s: Signup, code: CodeCheck): Result<Owner> {
    var role := CoercedRole(s.accountType, s.role);
    if exists x | x in d :: d[x].email == s.email then Error(EmailTaken)
    else if s.accountType == PRIVATE then Error(PrivateNotPublic)
    else if role == ADMINISTRATOR && code.Rejected? then Error(BadRegistrationCode)
    else
      match ResolveAccountOwnerId(d, role, s)
      case Error(e) => Error(e)
      case Ok(link) =>
        var t := SignupType(d, role, s.accountType, link);
        if role == USER && link.None? && !s.communalOk then Error(CommunalIdRefused)
        else if role == USER then Ok(CreatedOwner(id, s.email, s.zoneId, role, t, None, link))
        else
          match AdministratorLevel(t, code.level, s.tierLevel)
          case Error(e) => Error(e)
          case Ok(level) => Ok(CreatedOwner(id, s.email, s.zoneId, role, t, level, link))
  }

  datatype Qr = Qr(owner: int, used: bool, expiresAt: Option<int>)

  datatype JoinRequest = JoinRequest(email: string, zoneId: string, communalOk: bool)

  /** The owner that redeeming an invite stores under `id`. */
  function Joined(d: Directory, id: int, qr: Qr, r: JoinRequest, now: int): Result<Owner> {
    if qr.used || (qr.expiresAt.Some? && now > qr.expiresAt.value) then Error(BadQrToken)
    else if qr.owner !in d || d[qr.owner].role != ADMINISTRATOR || !AllowsMembers(d[qr.owner].accountType) then Error(BadQrToken)
    else if EmailKnown(d, r.email) then Error(EmailTaken)
    else if IsSystemAdministrator(d[qr.owner]) then
      var zone := Strip(r.zoneId);
      if zone == "" then Error(ZoneRequired)
      else if exists x | x in d :: d[x].zoneId == zone && d[x].active then Error(ZoneTaken)
      else if !r.communalOk then Error(CommunalIdRefused)
      else Ok(CreatedOwner(id, r.email, zone, USER, EXCLUSIVE, None, None))
    else
      match CapacityError(d, qr.owner)
      case Some(e) => Error(e)
      case None =>
        Ok(CreatedOwner(id, r.email, d[qr.owner].zoneId, USER, InvitedMemberType(d[qr.owner]), None, Some(qr.owner)))
  }

  /** A row that fits the forest: its own root, or a user linked to an administrator. */
  ghost predicate Fits(d: Directory, id: int, o: Owner) {
    o.link == Some(id)
    || (o.role == USER && o.link.Some? && o.link.value in d && d[o.link.value].role == ADMINISTRATOR)
  }

  lemma AcceptedIsAdministrator(d: Directory, role: Role, s: Signup)
    ensures var r := ResolveAccountOwnerId(d, role, s);
            r.Ok? && r.value.Some? ==>
              role == USER && r.value.value in d && d[r.value.value].role == ADMINISTRATOR
              && CapacityError(d, r.value.value) == None
  {
  }

  lemma SignupsFit(d: Directory, id: int)
    ensures forall s, code :: Registered(d, id, s, code).Ok? ==> Fits(d, id, Registered(d, id, s, code).value)
    ensures forall s, code :: ContractRegistered(d, id, s, code).Ok? ==> Fits(d, id, ContractRegistered(d, id, s, code).value)
    ensures forall qr, r, now :: Joined(d, id, qr, r, now).Ok? ==> Fits(d, id, Joined(d, id, qr, r, now).value)
  {
    forall s, code | Registered(d, id, s, code).Ok?
      ensures Fits(d, id, Registered(d, id, s, code).value)
    {
      AcceptedIsAdministrator(d, CoercedRole(s.accountType, s.role), s);
    }
    forall s, code | ContractRegistered(d, id, s, code).Ok?
      ensures Fits(d, id, ContractRegistered(d, id, s, code).value)
    {
      AcceptedIsAdministrator(d, CoercedRole(s.accountType, s.role), s);
    }
  }

  /** No way of signing up makes a system administrator: that set is unchanged by any accepted signup. */
  lemma SignupsMakeNoSystemAdministrator(d: Directory, id: int, s: Signup, code: CodeCheck, qr: Qr, r: JoinRequest, now: int)
    requires id !in d
    ensures var made := Registered(d, id, s, code);
            made.Ok? ==> SystemAdministrators(d[id := made.value]) == SystemAdministrators(d)
    ensures var made := ContractRegistered(d, id, s, code);
            made.Ok? ==> SystemAdministrators(d[id := made.value]) == SystemAdministrators(d)
    ensures var made := Joined(d, id, qr, r, now);
            made.Ok? ==> SystemAdministrators(d[id := made.value]) == SystemAdministrators(d)
  {
  }

  /** What a registered owner is: an administrator root with an accepted code, a user root only on
      the Individual plan with a Communal ID, or a user on the administrator's plan. */
  ghost predicate OneOfThree(d: Directory, id: int, o: Owner, s: Signup, code: CodeCheck) {
    && o.active && (o.accountType == ENHANCED_PLUS <==> o.tierLevel.Some?)
    && if o.role == ADMINISTRATOR then
         o.link == Some(id) && code.Accepted? && o.accountType !in {PRIVATE, EXCLUSIVE}
         && (o.tierLevel.Some? ==> 1 <= o.tierLevel.value <= 5)
       else if o.link == Some(id) then o.accountType == EXCLUSIVE && s.communalOk
       else o.link.Some? && o.link.value in d && o.accountType == InvitedMemberType(d[o.link.value])
            && AllowsMembers(d[o.link.value].accountType) && CapacityError(d, o.link.value) == None
  }

  lemma RegisteredIsOneOfThree(d: Directory, id: int, s: Signup, code: CodeCheck)
    requires id !in d
    ensures Registered(d, id, s, code).Ok? ==> OneOfThree(d, id, Registered(d, id, s, code).value, s, code)
    ensures ContractRegistered(d, id, s, code).Ok? ==> OneOfThree(d, id, ContractRegistered(d, id, s, code).value, s, code)
  {
    AcceptedIsAdministrator(d, CoercedRole(s.accountType, s.role), s);
  }

  lemma OnlyAdminIs(d: Directory, admins: set<int>, t: AccountType)
    ensures var r := OnlyAdmin(d, admins, t);
            && (r == Error(NoNetworkAdmin) <==> admins == {})
            && (r == Error(AmbiguousNetwork) <==> |admins| > 1)
            && (r.Ok? ==> r.value.Some? && admins == {r.value.value} && AcceptAccountOwner(d, r.value.value, t, false).Ok?)
  {
    var ids := SortedIds(admins);
    SortedIdsSize(admins);
    if |ids| == 1 {
      assert ids == [ids[0]] && ids[0] in admins;
      assert forall x :: x in admins ==> x == ids[0];
      assert admins == {ids[0]};
    }
  }

  lemma ByEmailIs(d: Directory, admins: set<int>, email: string, t: AccountType)
    requires admins <= d.Keys
    ensures var r := ByEmail(d, admins, email, t);
            && (r == Error(AdminEmailNotFound) <==> forall x :: x in admins ==> Lower(Strip(d[x].email)) != email)
            && (r.Ok? ==> r.value.Some? && r.value.value in admins && Lower(Strip(d[r.value.value].email)) == email)
  {
    var matched := SortedIds(set x | x in admins && Lower(Strip(d[x].email)) == email);
    if matched != [] {
      assert matched[0] in matched;
    } else {
      assert forall x :: x in admins && Lower(Strip(d[x].email)) == email ==> x in matched;
    }
  }

  /** Joining by network name links to an administrator of that very network and plan: the only one,
      or the one the e-mail names; no such administrator and several of them are told apart. */
  lemma NetworkSignup(d: Directory, s: Signup)
    requires s.requested == None && s.accountType != EXCLUSIVE && Strip(s.zoneId) != ""
    ensures var r, admins := ResolveAccountOwnerId(d, USER, s), NetworkAdmins(d, s.zoneId, s.accountType);
            && (r.Ok? ==> r.value.Some? && r.value.value in admins)
            && (Lower(Strip(s.administratorEmail)) == "" ==>
                  ((r == Error(NoNetworkAdmin)) <==> admins == {})
                  && ((r == Error(AmbiguousNetwork)) <==> |admins| > 1))
  {
    var admins, email := NetworkAdmins(d, s.zoneId, s.accountType), Lower(Strip(s.administratorEmail));
    if email == "" {
      OnlyAdminIs(d, admins, s.accountType);
    } else {
      ByEmailIs(d, admins, email, s.accountType);
    }
  }

  /** Adding a fitting row keeps the forest. */
  lemma FittingRowKeepsSound(d: Directory, id: int, o: Owner)
    requires Sound(d) && id !in d && Fits(d, id, o)
    ensures Sound(d[id := o])
  {
    var d' := d[id := o];
    forall x | x in d && IsRoot(d, x)
      ensures IsRoot(d', x)
    {
    }
  }

  /** After an accepted signup under an administrator the account is within its cap. */
  lemma SignupFitsCapacity(d: Directory, id: int, o: Owner, admin: int)
    requires id !in d && admin in d && CapacityError(d, admin) == None
    requires o.link == Some(admin) && o.role == USER
    ensures var limit := MaxTotalUsers(d[admin]);
            limit.Some? ==> ActiveUsers(d[id := o], admin) <= limit.value
  {
    var d' := d[id := o];
    assert ActiveMembers(d', admin) <= ActiveMembers(d, admin) + {id};
    SubsetSize(ActiveMembers(d', admin), ActiveMembers(d, admin) + {id});
  }

  lemma SubsetSize<T>(a: set<T>, b: set<T>)
    requires a <= b
    ensures |a| <= |b|
  {
    assert b == a + (b - a);
  }

  // ----- updating -------------------------------------------------------------------------

  datatype OwnerUpdate = OwnerUpdate(role: Option<Role>, accountType: Option<AccountType>, tierLevel: Option<int>,
                                     active: Option<bool>)

  /** Invited members follow the account holder's type. */
  function Cascaded(d: Directory, admin: int): Directory
    requires admin in d
  {
    if d[admin].role != ADMINISTRATOR then d
    else
      map x | x in d ::
        if d[x].link == Some(AccountRootId(d, admin)) && x != admin
        then d[x].(accountType := InvitedMemberType(d[admin])) else d[x]
  }

  function WithRole(id: int, o: Owner, role: Option<Role>): Owner {
    if role == None then o
    else if role.value == ADMINISTRATOR && o.link == None then o.(role := ADMINISTRATOR, link := Some(id))
    else o.(role := role.value)
  }

  function WithTier(o: Owner, u: OwnerUpdate): Owner {
    if o.accountType == ENHANCED_PLUS then
      if u.tierLevel.Some? then o.(tierLevel := u.tierLevel)
      else if o.tierLevel == None then o.(tierLevel := Some(1))
      else o
    else if u.accountType.Some? || u.tierLevel.Some? then o.(tierLevel := None)
    else o
  }

  /** `update_owner` on an existing row. */
  function Updated(d: Directory, id: int, u: OwnerUpdate): Directory
    requires id in d
  {
    var o := if u.active.Some? then d[id].(active := u.active.value) else d[id];
    var o := WithRole(id, o, u.role);
    var o := if u.accountType.Some? then o.(accountType := u.accountType.value) else o;
    var d1 := d[id := o];
    var d2 := if u.accountType.Some? then Cascaded(d1, id) else d1;
    d2[id := WithTier(d2[id], u)]
  }

  /** Active administrators on the Private tier. */
  function SystemAdministrators(d: Directory): set<int> {
    set x | x in d && IsSystemAdministrator(d[x]) && d[x].active
  }

  function CountSystemAdministrators(d: Directory): nat {
    |SystemAdministrators(d)|
  }

  /** `assert_account_type_change_allowed` */
  function TypeChangeError(d: Directory, caller: int, target: int, t: AccountType): Option<AccountError>
    requires caller in d && target in d
  {
    if t == d[target].accountType then None
    else if !IsSystemAdministrator(d[caller]) then Some(Forbidden)
    else if IsSystemAdministrator(d[target]) && t != PRIVATE && CountSystemAdministrators(d) <= 1 then Some(Forbidden)
    else if t == PRIVATE && d[target].role != ADMINISTRATOR then Some(Unprocessable)
    else None
  }

  /** `assert_role_change_allowed` */
  function RoleChangeError(d: Directory, caller: int, effective: AccountType, role: Option<Role>): Option<AccountError>
    requires caller in d
  {
    if role == None then None
    else if !IsSystemAdministrator(d[caller]) then Some(Forbidden)
    else if effective == EXCLUSIVE && role.value == ADMINISTRATOR then Some(Unprocessable)
    else if effective == ENHANCED && role.value == USER then Some(Unprocessable)
    else None
  }

  /** A type that has only one role forces it. */
  function ForcedRole(o: Owner, u: OwnerUpdate): Option<Role> {
    var effective := if u.accountType.Some? then u.accountType.value else o.accountType;
    if u.role.Some? || u.accountType == None then u.role
    else if effective == EXCLUSIVE && o.role != USER then Some(USER)
    else if effective == ENHANCED && o.role != ADMINISTRATOR then Some(ADMINISTRATOR)
    else None
  }

  /** The guarded update: the directory it leaves, or why it is refused. */
  function GuardedUpdate(d: Directory, caller: int, target: int, u: OwnerUpdate): Result<Directory> {
    if caller !in d then Error(OwnerNotFound)
    else if d[caller].role != ADMINISTRATOR && caller != target then Error(Forbidden)
    else if u.active.Some? && d[caller].role != ADMINISTRATOR then Error(Forbidden)
    else if u.role.Some? && !IsSystemAdministrator(d[caller]) then Error(Forbidden)
    else if target !in d then Error(if u.role.Some? || u.accountType.Some? then OwnerNotFound else Forbidden)
    else
      var effective := if u.accountType.Some? then u.accountType.value else d[target].accountType;
      var roleError := RoleChangeError(d, caller, effective, u.role);
      var typeError := if u.accountType.Some? then TypeChangeError(d, caller, target, u.accountType.value) else None;
      if roleError.Some? then Error(roleError.value)
      else if typeError.Some? then Error(typeError.value)
      else if d[caller].role == ADMINISTRATOR && caller != target && target !in VisibleOwnerIds(d, caller, true) then Error(Forbidden)
      else Ok(Updated(d, target, u.(role := ForcedRole(d[target], u))))
  }

  /** Links are untouched, except that a promoted unlinked owner becomes its own root. */
  lemma UpdateRows(d: Directory, id: int, u: OwnerUpdate)
    requires id in d
    ensures var d' := Updated(d, id, u);
            && d'.Keys == d.Keys
            && (forall x :: x in d && x != id ==> d'[x].link == d[x].link && d'[x].role == d[x].role && d'[x].active == d[x].active)
            && d'[id].role == (if u.role.Some? then u.role.value else d[id].role)
            && d'[id].active == (if u.active.Some? then u.active.value else d[id].active)
            && d'[id].link == (if u.role == Some(ADMINISTRATOR) && d[id].link == None then Some(id) else d[id].link)
            && d'[id].accountType == (if u.accountType.Some? then u.accountType.value else d[id].accountType)
  {
  }

  function CascadedType(d: Directory, d': Directory, id: int, u: OwnerUpdate, x: int): AccountType
    requires id in d' && x in d
  {
    if u.accountType.Some? && d'[id].role == ADMINISTRATOR && d[x].link == Some(AccountRootId(d', id))
    then InvitedMemberType(d'[id]) else d[x].accountType
  }

  /** A type change by an administrator reaches every linked member and nobody else; the capacity
      level follows the type of the updated owner. */
  lemma UpdateReaches(d: Directory, id: int, u: OwnerUpdate, x: int)
    requires id in d && x in d
    ensures var d' := Updated(d, id, u);
            && (x != id ==> d'[x].accountType == CascadedType(d, d', id, u, x))
            && (x != id ==> d'[x].tierLevel == d[x].tierLevel)
            && (d'[id].accountType == ENHANCED_PLUS ==> d'[id].tierLevel.Some?)
            && (u.accountType.Some? && u.accountType.value != ENHANCED_PLUS ==> d'[id].tierLevel == None)
  {
  }

  /** An update keeps the forest with administrators at the roots exactly when it does not make an
      administrator of an owner linked to somebody else. */
  lemma UpdateKeepsSoundIff(d: Directory, id: int, u: OwnerUpdate)
    requires Sound(d) && id in d
    ensures Sound(Updated(d, id, u)) <==> !(u.role == Some(ADMINISTRATOR) && !IsRoot(d, id))
    ensures Forest(Updated(d, id, u))
  {
    UpdateRows(d, id, u);
    var d' := Updated(d, id, u);
    forall x | x in d
      ensures IsRoot(d', x) <==> IsRoot(d, x)
    {
    }
  }

  /** Deleting a row sets every link to it to null. */
  function Deleted(d: Directory, id: int): Directory {
    map x | x in d && x != id :: if d[x].link == Some(id) then d[x].(link := None) else d[x]
  }

  lemma DeleteKeepsSound(d: Directory, id: int)
    requires Sound(d)
    ensures Sound(Deleted(d, id))
  {
    var d' := Deleted(d, id);
    forall x | x in d' && d'[x].link.Some?
      ensures IsRoot(d', d'[x].link.value)
    {
      assert IsRoot(d, d[x].link.value);
    }
    forall x | x in d' && d'[x].role == ADMINISTRATOR
      ensures IsRoot(d', x)
    {
      assert IsRoot(d, x);
    }
  }
}
