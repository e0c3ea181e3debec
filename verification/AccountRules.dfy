/** The account rules written out: who may sign up, join and update, and what the rows hold then. */
module AccountRules {
  import opened Options
  import opened Text
  import opened Lists
  import opened Accounts

  /** An active or inactive administrator on the Private tier. */
  predicate PrivateAdministrator(o: Owner) {
    o.role == ADMINISTRATOR && o.accountType == PRIVATE
  }

  // ----- who reaches whom -----------------------------------------------------------------

  function HolderOf(d: Directory, id: int): Option<int>
    requires id in d
  {
    if d[id].link.Some? then d[id].link else Some(id)
  }

  /** The account in plain terms: an active owner is reached when it is the sender's account holder,
      is linked to that holder, or is the sender. */
  lemma ReachedIff(d: Directory, id: int, x: int)
    requires id in d && d[id].active
    ensures x in AccountPropagationOwnerIds(d, id, false)
            <==> x in d && d[x].active
                 && (x == id || Some(x) == HolderOf(d, id) || d[x].link == HolderOf(d, id))
  {
  }

  /** Private messages go where alarms go: to the other active owners of the account, and in the
      zone-bound form to those of the sender's zone. */
  lemma MessagesFollowAlarms(d: Directory, sender: int, receiver: int)
    requires Forest(d) && sender in d && receiver in d && d[sender].active
    ensures CanMessageOwner(d, sender, receiver, false)
            <==> receiver != sender && receiver in AccountPropagationOwnerIds(d, sender, false)
    ensures CanMessageOwner(d, sender, receiver, true)
            <==> CanMessageOwner(d, sender, receiver, false) && d[sender].zoneId == d[receiver].zoneId
  {
    PropagationIsTheAccount(d, sender, receiver);
  }

  /** With administrators at the roots: the Private tier sees everyone, an administrator the own
      account, a user nobody else; inactive owners only where asked for, oneself always. */
  lemma VisibleIsTheAccount(d: Directory, id: int, includeInactive: bool, x: int)
    requires Sound(d) && id in d
    ensures x in VisibleOwnerIds(d, id, includeInactive) <==>
              x in d && (includeInactive || d[x].active || (x == id && !PrivateAdministrator(d[id])))
              && (x == id || PrivateAdministrator(d[id]) || (d[id].role == ADMINISTRATOR && HolderOf(d, x) == Some(id)))
  {
    if d[id].role == ADMINISTRATOR {
      assert IsRoot(d, id);
    }
  }

  /** Whom the messaging list offers, inactive owners included where asked for. */
  lemma OfferedIff(d: Directory, id: int, includeInactive: bool, sameZone: bool, x: int)
    requires Forest(d) && id in d
    ensures x in MessagingVisibleOwnerIds(d, id, includeInactive, sameZone) <==>
              x in d && (includeInactive || d[x].active)
              && (PrivateAdministrator(d[id])
                  || (HolderOf(d, x) == HolderOf(d, id) && (sameZone ==> d[x].zoneId == d[id].zoneId)))
  {
    if d[id].link.Some? {
      assert IsRoot(d, d[id].link.value);
    }
  }

  // ----- seats and administrators ---------------------------------------------------------

  /** Active users of an account: linked users, and the administrator if active. */
  function SeatsTaken(d: Directory, admin: int): nat
    requires admin in d
  {
    |set x | x in d && x != admin && d[x].link == Some(admin) && d[x].role == USER && d[x].active|
    + if d[admin].active then 1 else 0
  }

  /** In numbers: an administrator with room for one more member. */
  predicate TakesMember(d: Directory, admin: int) {
    admin in d && d[admin].role == ADMINISTRATOR
    && match d[admin].accountType
       case PRIVATE => true
       case PRIVATE_PLUS => SeatsTaken(d, admin) < 10
       case ENHANCED_PLUS =>
         SeatsTaken(d, admin) < (match d[admin].tierLevel
                                 case None => 20
                                 case Some(level) =>
                                   if level == 2 then 50 else if level == 3 then 100
                                   else if level == 4 then 500 else if level == 5 then 2500 else 20)
       case EXCLUSIVE => false
       case ENHANCED => false
  }

  /** Exactly when an administrator is accepted as the holder of a new user's account. */
  lemma SeatNumbers(d: Directory, admin: int, t: AccountType, enforceType: bool)
    ensures AcceptAccountOwner(d, admin, t, enforceType).Ok?
            <==> TakesMember(d, admin) && (enforceType && t != EXCLUSIVE ==> d[admin].accountType == t)
    ensures AcceptAccountOwner(d, admin, t, enforceType).Ok? ==> AcceptAccountOwner(d, admin, t, enforceType).value == admin
  {
    if admin in d {
      assert ActiveMembers(d, admin)
             == set x | x in d && x != admin && d[x].link == Some(admin) && d[x].role == USER && d[x].active;
    }
  }

  /** An active administrator of the network and plan asked for, up to case and padding. */
  predicate Serves(o: Owner, s: Signup) {
    o.active && o.role == ADMINISTRATOR && o.accountType != PRIVATE && o.accountType == s.accountType
    && Lower(Strip(o.zoneId)) == Lower(Strip(s.zoneId))
  }

  /** The administrator a new user joins by network name: the only one, or, with an e-mail, the
      earliest one of that e-mail. */
  predicate IsChosen(d: Directory, s: Signup, a: int) {
    var email := Lower(Strip(s.administratorEmail));
    a in d && Serves(d[a], s)
    && if email == "" then forall x | x in d && Serves(d[x], s) :: x == a
       else Lower(Strip(d[a].email)) == email
            && forall x | x in d && Serves(d[x], s) && Lower(Strip(d[x].email)) == email :: a <= x
  }

  lemma ChosenIsFirst(d: Directory, s: Signup, a: int)
    requires IsChosen(d, s, a) && s.requested == None && s.accountType != EXCLUSIVE && Strip(s.zoneId) != ""
    ensures ResolveAccountOwnerId(d, USER, s) == Linked(AcceptAccountOwner(d, a, s.accountType, false))
  {
    var admins, email := NetworkAdmins(d, s.zoneId, s.accountType), Lower(Strip(s.administratorEmail));
    assert forall x :: x in admins <==> x in d && Serves(d[x], s);
    if email == "" {
      assert forall x :: x in admins <==> x == a;
      assert admins == {a};
      SortedIdsSize(admins);
      assert SortedIds(admins)[0] in admins;
    } else {
      var matched := SortedIds(set x | x in admins && Lower(Strip(d[x].email)) == email);
      assert a in matched && matched[0] in matched && forall x :: x in matched ==> matched[0] <= x;
    }
  }

  lemma SomeoneChosen(d: Directory, s: Signup) returns (a: int)
    requires s.requested == None && s.accountType != EXCLUSIVE && ResolveAccountOwnerId(d, USER, s).Ok?
    ensures IsChosen(d, s, a)
  {
    var admins, email := NetworkAdmins(d, s.zoneId, s.accountType), Lower(Strip(s.administratorEmail));
    assert forall x :: x in admins <==> x in d && Serves(d[x], s);
    if email == "" {
      OnlyAdminIs(d, admins, s.accountType);
      a := ResolveAccountOwnerId(d, USER, s).value.value;
      assert a in admins;
    } else {
      var matched := SortedIds(set x | x in admins && Lower(Strip(d[x].email)) == email);
      a := matched[0];
      assert a in matched;
      forall x | x in d && Serves(d[x], s) && Lower(Strip(d[x].email)) == email
        ensures a <= x
      {
        assert x in matched;
      }
    }
  }

  /** What `resolve_account_owner_id` finds for a new user: nobody for a solo Individual, else the
      administrator asked for by id, or the chosen one of the network. */
  ghost predicate Holder(d: Directory, s: Signup, a: int) {
    if s.requested.Some? then
      a == s.requested.value && (s.accountType == EXCLUSIVE || (a in d && d[a].accountType == s.accountType))
    else s.accountType != EXCLUSIVE && Strip(s.zoneId) != "" && IsChosen(d, s, a)
  }

  lemma HolderIff(d: Directory, s: Signup)
    ensures var r := ResolveAccountOwnerId(d, USER, s);
            && (r == Ok(None) <==> s.accountType == EXCLUSIVE && s.requested == None)
            && (forall a :: r == Ok(Some(a)) <==> Holder(d, s, a) && TakesMember(d, a))
  {
    var r := ResolveAccountOwnerId(d, USER, s);
    forall a
      ensures r == Ok(Some(a)) <==> Holder(d, s, a) && TakesMember(d, a)
    {
      HolderIs(d, s, a);
    }
    if r == Ok(None) && !(s.accountType == EXCLUSIVE && s.requested == None) && s.requested == None {
      var a := SomeoneChosen(d, s);
      ChosenIsFirst(d, s, a);
    }
  }

  lemma HolderIs(d: Directory, s: Signup, a: int)
    ensures ResolveAccountOwnerId(d, USER, s) == Ok(Some(a)) <==> Holder(d, s, a) && TakesMember(d, a)
  {
    var r := ResolveAccountOwnerId(d, USER, s);
    if s.requested.Some? {
      SeatNumbers(d, s.requested.value, s.accountType, true);
    } else if s.accountType != EXCLUSIVE && Strip(s.zoneId) != "" {
      if IsChosen(d, s, a) {
        ChosenIsFirst(d, s, a);
        SeatNumbers(d, a, s.accountType, false);
      } else if r.Ok? {
        var b := SomeoneChosen(d, s);
        ChosenIsFirst(d, s, b);
        SeatNumbers(d, b, s.accountType, false);
      }
    }
  }

  // ----- signing up -----------------------------------------------------------------------

  predicate SignsUpAsUser(s: Signup) {
    s.accountType == EXCLUSIVE || (s.accountType != ENHANCED && s.role == USER)
  }

  predicate FoundsAccount(s: Signup) {
    !SignsUpAsUser(s) || (s.accountType == EXCLUSIVE && s.requested == None)
  }

  /** What a sign-up needs besides a new e-mail. */
  ghost predicate MayRegister(d: Directory, s: Signup, code: CodeCheck) {
    s.accountType != PRIVATE
    && if !SignsUpAsUser(s) then
         code.Accepted?
         && (s.accountType == ENHANCED_PLUS && code.level == None && s.tierLevel.Some? ==> 1 <= s.tierLevel.value <= 5)
       else if FoundsAccount(s) then s.communalOk
       else exists a :: Holder(d, s, a) && TakesMember(d, a)
  }

  /** When the account of a new owner is found. */
  lemma LinkFoundIff(d: Directory, s: Signup)
    ensures var r := ResolveAccountOwnerId(d, CoercedRole(s.accountType, s.role), s);
            && (r == Ok(None) <==> FoundsAccount(s))
            && (r.Ok? <==> FoundsAccount(s) || exists a :: Holder(d, s, a) && TakesMember(d, a))
  {
    if SignsUpAsUser(s) {
      HolderIff(d, s);
      var r := ResolveAccountOwnerId(d, USER, s);
      if r.Ok? && r.value.Some? {
        assert Holder(d, s, r.value.value) && TakesMember(d, r.value.value);
      }
    }
  }

  /** Exactly which sign-ups are accepted, at the owners route */
  lemma RegistrationAcceptedIff(d: Directory, id: int, s: Signup, code: CodeCheck)
    ensures Registered(d, id, s, code).Ok?
            <==> MayRegister(d, s, code) && forall x :: x in d ==> Lower(d[x].email) != Lower(Strip(s.email))
    ensures Registered(d, id, s, code) == Error(EmailTaken) <==> exists x :: x in d && Lower(d[x].email) == Lower(Strip(s.email))
  {
    LinkFoundIff(d, s);
  }

  /** and at the contract route, where e-mails are compared as they are. */
  lemma ContractAcceptedIff(d: Directory, id: int, s: Signup, code: CodeCheck)
    ensures ContractRegistered(d, id, s, code).Ok?
            <==> MayRegister(d, s, code) && forall x :: x in d ==> d[x].email != s.email
    ensures ContractRegistered(d, id, s, code) == Error(EmailTaken) <==> exists x :: x in d && d[x].email == s.email
  {
    LinkFoundIff(d, s);
  }

  /** Members of Family and Organization accounts share the plan, others are on Individual. */
  function MemberPlan(t: AccountType): AccountType {
    if t == PRIVATE_PLUS then PRIVATE_PLUS else if t == ENHANCED_PLUS then ENHANCED_PLUS else EXCLUSIVE
  }

  /** What a registration stores, field by field. */
  ghost predicate SignedUp(d: Directory, id: int, o: Owner, s: Signup, code: CodeCheck, memberLevel: Option<int>) {
    && o.email == s.email && o.zoneId == s.zoneId && o.active
    && o.role == (if SignsUpAsUser(s) then USER else ADMINISTRATOR)
    && (if FoundsAccount(s) then o.link == Some(id) && o.accountType == s.accountType
        else o.link.Some? && Holder(d, s, o.link.value) && TakesMember(d, o.link.value)
             && o.accountType == MemberPlan(d[o.link.value].accountType))
    && o.tierLevel == (if o.accountType != ENHANCED_PLUS then None else if o.role == USER then memberLevel
                       else if code.Accepted? && code.level.Some? then
                         Some(if 1 <= code.level.value <= 5 then code.level.value else 1)
                       else if s.tierLevel.Some? then s.tierLevel else Some(1))
  }

  /** The two registrations store the same row up to the level of an Organization member. */
  lemma RegisteredFields(d: Directory, id: int, s: Signup, code: CodeCheck)
    ensures var r := Registered(d, id, s, code);
            r.Ok? ==> SignedUp(d, id, r.value, s, code, if s.tierLevel.Some? then s.tierLevel else Some(1))
    ensures var r := ContractRegistered(d, id, s, code);
            r.Ok? ==> SignedUp(d, id, r.value, s, code, Some(1))
  {
    if SignsUpAsUser(s) {
      HolderIff(d, s);
    }
  }

  /** Exactly when an invite is redeemed: its token is unused and not past its time, the inviter
      takes one more member, the e-mail is new, and a guest of the Private tier brings a free network
      and a Communal ID. */
  lemma JoinAcceptedIff(d: Directory, id: int, qr: Qr, r: JoinRequest, now: int)
    ensures Joined(d, id, qr, r, now).Ok?
            <==> !qr.used && (qr.expiresAt.Some? ==> now <= qr.expiresAt.value)
                 && TakesMember(d, qr.owner) && (forall x :: x in d ==> Lower(d[x].email) != Lower(Strip(r.email)))
                 && (PrivateAdministrator(d[qr.owner]) ==>
                       Strip(r.zoneId) != "" && r.communalOk
                       && forall x :: x in d && d[x].active ==> d[x].zoneId != Strip(r.zoneId))
    ensures Joined(d, id, qr, r, now) == Error(BadQrToken)
            <==> qr.used || (qr.expiresAt.Some? && now > qr.expiresAt.value)
                 || !(qr.owner in d && d[qr.owner].role == ADMINISTRATOR && d[qr.owner].accountType !in {EXCLUSIVE, ENHANCED})
  {
    SeatNumbers(d, qr.owner, EXCLUSIVE, false);
  }

  /** The new user joins the inviter's account and network or, invited by the Private tier, founds an
      Individual account in the network named. */
  lemma JoinedFields(d: Directory, id: int, qr: Qr, r: JoinRequest, now: int)
    requires Joined(d, id, qr, r, now).Ok? && qr.owner in d
    ensures var plan := MemberPlan(d[qr.owner].accountType);
            Joined(d, id, qr, r, now).value ==
              if PrivateAdministrator(d[qr.owner]) then Owner(r.email, Strip(r.zoneId), USER, EXCLUSIVE, Some(id), None, true)
              else Owner(r.email, d[qr.owner].zoneId, USER, plan, Some(qr.owner),
                         if plan == ENHANCED_PLUS then Some(1) else None, true)
  {
  }

  // ----- updating -------------------------------------------------------------------------

  function NewType(o: Owner, u: OwnerUpdate): AccountType {
    if u.accountType.Some? then u.accountType.value else o.accountType
  }

  /** A role that the type rules out. */
  predicate RoleClash(t: AccountType, role: Role) {
    (t == EXCLUSIVE && role == ADMINISTRATOR) || (t == ENHANCED && role == USER)
  }

  /** Active administrators on the Private tier. */
  ghost function ActivePrivate(d: Directory): set<int> {
    set x | x in d && d[x].role == ADMINISTRATOR && d[x].accountType == PRIVATE && d[x].active
  }

  lemma ActivePrivateIs(d: Directory)
    ensures SystemAdministrators(d) == ActivePrivate(d)
  {
    assert forall x :: x in SystemAdministrators(d) <==> x in ActivePrivate(d);
  }

  /** The caller may send such an update at all. */
  predicate MaySend(d: Directory, caller: int, target: int, u: OwnerUpdate) {
    caller in d && (d[caller].role == ADMINISTRATOR || (caller == target && u.active == None))
    && (u.role.Some? ==> PrivateAdministrator(d[caller]))
  }

  /** A change of type that the rules allow: by the Private tier only, Private only for an
      administrator, and not for the last active Private administrator. */
  ghost predicate TypeAllowed(d: Directory, caller: int, target: int, t: AccountType)
    requires caller in d && target in d
  {
    t != d[target].accountType ==>
      PrivateAdministrator(d[caller]) && (t == PRIVATE ==> d[target].role == ADMINISTRATOR)
      && (PrivateAdministrator(d[target]) ==> |ActivePrivate(d)| > 1)
  }

  /** Exactly when an update is accepted, and how a refused one is answered. */
  lemma UpdateAcceptedIff(d: Directory, caller: int, target: int, u: OwnerUpdate)
    ensures GuardedUpdate(d, caller, target, u).Ok?
            <==> MaySend(d, caller, target, u) && target in d
                 && (caller == target || PrivateAdministrator(d[caller]) || d[target].link == HolderOf(d, caller))
                 && (u.role.Some? ==> !RoleClash(NewType(d[target], u), u.role.value))
                 && TypeAllowed(d, caller, target, NewType(d[target], u))
    ensures GuardedUpdate(d, caller, target, u) == Error(OwnerNotFound)
            <==> caller !in d || (MaySend(d, caller, target, u) && target !in d && (u.role.Some? || u.accountType.Some?))
    ensures GuardedUpdate(d, caller, target, u) == Error(Unprocessable)
            <==> MaySend(d, caller, target, u) && target in d
                 && ((u.role.Some? && RoleClash(NewType(d[target], u), u.role.value))
                     || (u.accountType == Some(PRIVATE) && d[target].role != ADMINISTRATOR
                         && d[target].accountType != PRIVATE && PrivateAdministrator(d[caller])))
  {
    ActivePrivateIs(d);
  }

  /** The whole row after an update. Individual forces the user role and Individual Pro the
      administrator role; only Organization rows have a level. */
  function RowAfter(id: int, o: Owner, u: OwnerUpdate): Owner {
    var t := NewType(o, u);
    var role := if u.role.Some? then u.role.value
                else if u.accountType == Some(EXCLUSIVE) then USER
                else if u.accountType == Some(ENHANCED) then ADMINISTRATOR
                else o.role;
    var promoted := role == ADMINISTRATOR && (u.role.Some? || o.role == USER);
    Owner(o.email, o.zoneId, role, t, if promoted && o.link == None then Some(id) else o.link,
          if t == ENHANCED_PLUS then (if u.tierLevel.Some? then u.tierLevel else if o.tierLevel.Some? then o.tierLevel else Some(1))
          else if u.accountType.Some? || u.tierLevel.Some? then None else o.tierLevel,
          if u.active.Some? then u.active.value else o.active)
  }

  lemma TargetRow(d: Directory, caller: int, target: int, u: OwnerUpdate)
    requires GuardedUpdate(d, caller, target, u).Ok? && target in d
    ensures var d' := GuardedUpdate(d, caller, target, u).value;
            d'.Keys == d.Keys && d'[target] == RowAfter(target, d[target], u)
  {
    UpdateRows(d, target, u.(role := ForcedRole(d[target], u)));
  }

  /** An accepted update writes that row; a type given for an administrator also gives every linked
      owner the plan of a member, and nothing else changes. */
  lemma UpdateWrites(d: Directory, caller: int, target: int, u: OwnerUpdate, x: int)
    requires GuardedUpdate(d, caller, target, u).Ok? && target in d && x in d
    ensures var d', row := GuardedUpdate(d, caller, target, u).value, RowAfter(target, d[target], u);
            d'.Keys == d.Keys
            && d'[x] == if x == target then row
                        else if u.accountType.Some? && row.role == ADMINISTRATOR
                                && d[x].link == (if row.link.Some? then row.link else Some(target))
                             then d[x].(accountType := MemberPlan(row.accountType))
                        else d[x]
  {
    TargetRow(d, caller, target, u);
  }

  /** So only the Private tier changes anybody's type or role, except that naming the own type again
      puts right a role that this type rules out. */
  lemma OnlySystemAdministratorsChangeTypes(d: Directory, caller: int, target: int, u: OwnerUpdate, x: int)
    requires GuardedUpdate(d, caller, target, u).Ok? && x in d
    ensures var d' := GuardedUpdate(d, caller, target, u).value;
            caller in d && target in d && x in d'
            && (d'[x].role != d[x].role ==>
                  x == target && (PrivateAdministrator(d[caller]) || RoleClash(d[target].accountType, d[target].role)))
            && (d'[target].accountType != d[target].accountType ==> PrivateAdministrator(d[caller]))
            && (d'[x].active != d[x].active ==> d[caller].role == ADMINISTRATOR && x == target)
  {
    UpdateAcceptedIff(d, caller, target, u);
    UpdateWrites(d, caller, target, u, x);
    UpdateWrites(d, caller, target, u, target);
  }

  // ----- deleting -------------------------------------------------------------------------

  /** Deleting an account holder leaves every member an account of its own, and nothing else of any
      row changes. */
  lemma DeletionSplitsTheAccount(d: Directory, id: int, x: int)
    requires x in d
    ensures var d' := Deleted(d, id);
            (x in d' <==> x != id)
            && (x != id ==> d'[x].(link := d[x].link) == d[x]
                            && HolderOf(d', x) == if HolderOf(d, x) == Some(id) then Some(x) else HolderOf(d, x))
  {
  }
}
