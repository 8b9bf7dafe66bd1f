/**
 * The tables `OrganizationService` works on, its repository queries, and one function per service
 * operation giving the outcome and the tables afterwards. Each operation runs as one transaction:
 * when it fails, nothing it did is kept.
 */
module OrganizationTables {
  import opened Wrappers
  import opened UserOrganizations

  /** `CategoryCode`; only ORGANIZATION_TITLE is used by name in this core. */
  datatype CategoryCode = ORGANIZATION_TITLE | OtherCode(code: string)

  /** The (code, name) pair `findByCodeAndName` looks a category up by. */
  datatype CategoryKey = CategoryKey(code: CategoryCode, name: string)

  /** The default title given to new members. */
  const StaffTitle: CategoryKey := CategoryKey(ORGANIZATION_TITLE, "STAFF")

  /** The message keys of the not-found errors, and the messages of the illegal-state errors. */
  const OrganizationNotFound: string := "organization.not.found"
  const UsersNotInOrganization: string := "users.not.in.organization"
  const UserNotInOrganization: string := "user.not.in.organization"
  const TitleNotFound: string := "title.not.found"
  const StaffMissing: string := "Default title STAFF not found"
  const MembershipInactive: string := "User is inactive in this organization"

  /**
   * How an operation ends: normally, with `BWCNotFoundException` (by message key), with
   * `IllegalStateException`, or with the database refusing a row that breaks the unique constraint.
   */
  datatype Outcome = Done | NotFound(messageKey: string) | IllegalState(message: string) | DataIntegrityViolation

  /**
   * The persisted state: each organization's parent (absent for a root), the users, the categories
   * by (code, name), and the membership rows.
   */
  datatype Db = Db(
    organizations: map<OrganizationId, Option<OrganizationId>>,
    users: set<UserId>,
    categories: map<CategoryKey, CategoryId>,
    memberships: seq<Membership>)

  datatype Transition = Transition(outcome: Outcome, after: Db)

  /** `BasewareUtils.isBlank`: null or empty. */
  predicate IsBlank<T>(xs: Option<seq<T>>) {
    xs.None? || |xs.value| == 0
  }

  predicate Distinct<T(==)>(xs: seq<T>) {
    forall i, j :: 0 <= i < j < |xs| ==> xs[i] != xs[j]
  }

  /**
   * `findAllById(ids)`: the requested ids that name a stored entity, each once. The database returns
   * them in an order of its own; the model uses the order of first mention.
   */
  function FindAllById(ids: seq<nat>, stored: set<nat>): (r: seq<nat>)
    ensures forall x :: x in r <==> x in ids && x in stored
    ensures Distinct(r)
  {
    if ids == [] then []
    else
      var found := FindAllById(ids[..|ids| - 1], stored);
      var last := ids[|ids| - 1];
      assert ids == ids[..|ids| - 1] + [last];
      if last in stored && last !in found then found + [last] else found
  }

  // ---------------------------------------------------------------- organization hierarchy

  /** The forEach of `assignOrganizations`: every child not yet under `parent` is put under it. */
  function Reparented(parents: map<OrganizationId, Option<OrganizationId>>, children: seq<OrganizationId>, parent: OrganizationId)
    : (r: map<OrganizationId, Option<OrganizationId>>)
    ensures r.Keys == parents.Keys
    ensures forall o :: o in r ==> r[o] == if o in children then Some(parent) else parents[o]
  {
    map o | o in parents :: if o in children && parents[o] != Some(parent) then Some(parent) else parents[o]
  }

  /** The forEach of `removeOrganizations`: every child currently under `parent` becomes a root. */
  function Unparented(parents: map<OrganizationId, Option<OrganizationId>>, children: seq<OrganizationId>, parent: OrganizationId)
    : (r: map<OrganizationId, Option<OrganizationId>>)
    ensures r.Keys == parents.Keys
    ensures forall o :: o in r ==> r[o] == if o in children && parents[o] == Some(parent) then None else parents[o]
  {
    map o | o in parents :: if o in children && parents[o] == Some(parent) then None else parents[o]
  }

  /** `assignOrganizations(id, ids)`: put the organizations `ids` under `id`. */
  function AssignOrganizations(db: Db, id: OrganizationId, ids: Option<seq<OrganizationId>>): (t: Transition)
    ensures IsBlank(ids) ==> t == Transition(Done, db)
    ensures t.outcome == NotFound(OrganizationNotFound) <==> !IsBlank(ids) && id !in db.organizations
    ensures t.outcome.Done? || t.outcome == NotFound(OrganizationNotFound)
    ensures t.after == db.(organizations := t.after.organizations)
    ensures t.after.organizations.Keys == db.organizations.Keys
    ensures t.outcome.Done? && !IsBlank(ids) ==> forall o :: o in db.organizations ==>
              t.after.organizations[o] == if o in ids.value then Some(id) else db.organizations[o]
    ensures t.outcome.NotFound? ==> t.after == db
  {
    if IsBlank(ids) then Transition(Done, db)
    else if id !in db.organizations then Transition(NotFound(OrganizationNotFound), db)
    else
      var children := FindAllById(ids.value, db.organizations.Keys);
      if |children| == 0 then Transition(Done, db)
      else Transition(Done, db.(organizations := Reparented(db.organizations, children, id)))
  }

  /** `removeOrganizations(id, ids)`: make roots of those organizations `ids` that are under `id`. */
  function RemoveOrganizations(db: Db, id: OrganizationId, ids: Option<seq<OrganizationId>>): (t: Transition)
    ensures IsBlank(ids) ==> t == Transition(Done, db)
    ensures t.outcome == NotFound(OrganizationNotFound) <==> !IsBlank(ids) && id !in db.organizations
    ensures t.outcome.Done? || t.outcome == NotFound(OrganizationNotFound)
    ensures t.after == db.(organizations := t.after.organizations)
    ensures t.after.organizations.Keys == db.organizations.Keys
    ensures t.outcome.Done? && !IsBlank(ids) ==> forall o :: o in db.organizations ==>
              t.after.organizations[o] == if o in ids.value && db.organizations[o] == Some(id) then None else db.organizations[o]
    ensures t.outcome.NotFound? ==> t.after == db
  {
    if IsBlank(ids) then Transition(Done, db)
    else if id !in db.organizations then Transition(NotFound(OrganizationNotFound), db)
    else
      var children := FindAllById(ids.value, db.organizations.Keys);
      if |children| == 0 then Transition(Done, db)
      else Transition(Done, db.(organizations := Unparented(db.organizations, children, id)))
  }

  /** Following parent links from `o` ends at a root, a stored organization without parent, within `fuel` steps. */
  predicate ReachesRoot(parents: map<OrganizationId, Option<OrganizationId>>, o: OrganizationId, fuel: nat)
    decreases fuel
  {
    o in parents && (parents[o].None? || (fuel > 0 && ReachesRoot(parents, parents[o].value, fuel - 1)))
  }

  /** The hierarchy is a forest: no organization lies on a cycle of parent links or under a missing parent. */
  predicate IsForest(parents: map<OrganizationId, Option<OrganizationId>>) {
    forall o :: o in parents ==> ReachesRoot(parents, o, |parents|)
  }

  // ---------------------------------------------------------------- memberships

  /** `findActiveUserIdsByOrganizationId(id)`: the users with an active row in the organization. */
  function ActiveUserIds(rows: seq<Membership>, organization: OrganizationId): (r: set<UserId>)
    ensures forall u :: u in r <==> exists i :: 0 <= i < |rows| && rows[i].IsFor(u, organization) && rows[i].IsActive()
  {
    set i | 0 <= i < |rows| && rows[i].organization == organization && rows[i].IsActive() :: rows[i].user
  }

  /** The stream of `assignUsers`: one new active row with the default title per user not already active. */
  function NewMemberships(found: seq<UserId>, existing: set<UserId>, organization: OrganizationId, title: CategoryId)
    : (r: seq<Membership>)
    ensures forall m :: m in r ==> m == Membership(m.user, organization, Some(title), None, Some(true))
    ensures forall u :: (exists m :: m in r && m.user == u) <==> u in found && u !in existing
    ensures |r| <= |found|
  {
    if found == [] then []
    else
      var rest := NewMemberships(found[1..], existing, organization, title);
      assert forall u :: u in found <==> u == found[0] || u in found[1..];
      if found[0] in existing then rest
      else [Membership(found[0], organization, Some(title), None, Some(true))] + rest
  }

  /** Some row to be inserted has the same (user, organization) as a stored row. */
  predicate Clashes(rows: seq<Membership>, toCreate: seq<Membership>) {
    exists j, i :: 0 <= j < |toCreate| && 0 <= i < |rows| && rows[i].IsFor(toCreate[j].user, toCreate[j].organization)
  }

  /** `assignUsers(id, ids)`: make the users `ids` active members of `id`. */
  function AssignUsers(db: Db, id: OrganizationId, ids: Option<seq<UserId>>): (t: Transition)
    ensures IsBlank(ids) ==> t == Transition(Done, db)
    ensures t.outcome == NotFound(OrganizationNotFound) <==> !IsBlank(ids) && id !in db.organizations
    ensures t.outcome == IllegalState(StaffMissing) <==>
              !IsBlank(ids) && id in db.organizations && (exists u :: u in ids.value && u in db.users) && StaffTitle !in db.categories
    ensures t.outcome.DataIntegrityViolation? <==>
              !IsBlank(ids) && id in db.organizations && StaffTitle in db.categories &&
              Clashes(db.memberships, NewMemberships(FindAllById(ids.value, db.users), ActiveUserIds(db.memberships, id), id, db.categories[StaffTitle]))
    ensures t.outcome.Done? || t.outcome.DataIntegrityViolation? || t.outcome == NotFound(OrganizationNotFound) || t.outcome == IllegalState(StaffMissing)
    ensures t.after == db.(memberships := t.after.memberships)
    ensures !t.outcome.Done? ==> t.after == db
    ensures t.outcome.Done? && !IsBlank(ids) && id in db.organizations && StaffTitle in db.categories ==>
              t.after.memberships == db.memberships + NewMemberships(FindAllById(ids.value, db.users), ActiveUserIds(db.memberships, id), id, db.categories[StaffTitle])
    ensures |db.memberships| <= |t.after.memberships| && t.after.memberships[..|db.memberships|] == db.memberships
  {
    if IsBlank(ids) then Transition(Done, db)
    else if id !in db.organizations then Transition(NotFound(OrganizationNotFound), db)
    else
      var found := FindAllById(ids.value, db.users);
      if |found| == 0 then Transition(Done, db)
      else
        var existing := ActiveUserIds(db.memberships, id);
        assert found[0] in found;
        if StaffTitle !in db.categories then Transition(IllegalState(StaffMissing), db)
        else
          var toCreate := NewMemberships(found, existing, id, db.categories[StaffTitle]);
          if |toCreate| == 0 then Transition(Done, db)
          else if Clashes(db.memberships, toCreate) then Transition(DataIntegrityViolation, db)
          else Transition(Done, db.(memberships := db.memberships + toCreate))
  }

  /** The row that `deactivateUsers(organization, ids)` changes. */
  predicate Deactivates(row: Membership, organization: OrganizationId, ids: seq<UserId>) {
    row.organization == organization && row.user in ids && row.IsActive()
  }

  /** `deactivateUsers(organization, ids)` on one row. */
  function DeactivateRow(row: Membership, organization: OrganizationId, ids: seq<UserId>): (r: Membership)
    ensures r == row.(active := r.active)
    ensures r.active == if Deactivates(row, organization, ids) then Some(false) else row.active
  {
    if Deactivates(row, organization, ids) then row.(active := Some(false)) else row
  }

  /** The table after the bulk update of `deactivateUsers`. */
  function Deactivated(rows: seq<Membership>, organization: OrganizationId, ids: seq<UserId>): (r: seq<Membership>)
    ensures |r| == |rows| && forall i :: 0 <= i < |rows| ==> r[i] == DeactivateRow(rows[i], organization, ids)
  {
    seq(|rows|, i requires 0 <= i < |rows| => DeactivateRow(rows[i], organization, ids))
  }

  /** The update count `deactivateUsers` returns. */
  function DeactivatedCount(rows: seq<Membership>, organization: OrganizationId, ids: seq<UserId>): (n: nat)
    ensures n <= |rows|
    ensures n == 0 <==> forall i :: 0 <= i < |rows| ==> !Deactivates(rows[i], organization, ids)
  {
    if rows == [] then 0
    else (if Deactivates(rows[|rows| - 1], organization, ids) then 1 else 0)
         + DeactivatedCount(rows[..|rows| - 1], organization, ids)
  }

  /** `removeUsers(id, ids)`: deactivate the active memberships of the users `ids` in `id`. */
  function RemoveUsers(db: Db, id: OrganizationId, ids: Option<seq<UserId>>): (t: Transition)
    ensures IsBlank(ids) ==> t == Transition(Done, db)
    ensures t.outcome == NotFound(OrganizationNotFound) <==> !IsBlank(ids) && id !in db.organizations
    ensures t.outcome == NotFound(UsersNotInOrganization) <==>
              (!IsBlank(ids) && id in db.organizations &&
               forall i :: 0 <= i < |db.memberships| ==> !Deactivates(db.memberships[i], id, ids.value))
    ensures t.outcome.Done? || t.outcome == NotFound(OrganizationNotFound) || t.outcome == NotFound(UsersNotInOrganization)
    ensures t.after == db.(memberships := t.after.memberships)
    ensures !t.outcome.Done? ==> t.after == db
    ensures t.outcome.Done? && !IsBlank(ids) ==> t.after.memberships == Deactivated(db.memberships, id, ids.value)
  {
    if IsBlank(ids) then Transition(Done, db)
    else if id !in db.organizations then Transition(NotFound(OrganizationNotFound), db)
    else if DeactivatedCount(db.memberships, id, ids.value) == 0 then Transition(NotFound(UsersNotInOrganization), db)
    else Transition(Done, db.(memberships := Deactivated(db.memberships, id, ids.value)))
  }

  /** `findByUserIdAndOrganizationId(user, organization)`: the position of the row for the pair. */
  function FindMembership(rows: seq<Membership>, user: UserId, organization: OrganizationId): (r: Option<nat>)
    ensures r.None? <==> forall i :: 0 <= i < |rows| ==> !rows[i].IsFor(user, organization)
    ensures r.Some? ==> r.value < |rows| && rows[r.value].IsFor(user, organization)
  {
    if rows == [] then None
    else if rows[0].IsFor(user, organization) then Some(0)
    else
      var rest := FindMembership(rows[1..], user, organization);
      if rest.Some? then Some(rest.value + 1) else None
  }

  /** `changeTitle(orgId, userId, title)`: give an active member another title. */
  function ChangeTitle(db: Db, orgId: OrganizationId, userId: UserId, title: string): (t: Transition)
    ensures t.outcome == NotFound(UserNotInOrganization) <==>
              forall i :: 0 <= i < |db.memberships| ==> !db.memberships[i].IsFor(userId, orgId)
    ensures t.outcome.Done? || t.outcome == NotFound(UserNotInOrganization) || t.outcome == IllegalState(MembershipInactive) || t.outcome == NotFound(TitleNotFound)
    ensures t.outcome == NotFound(TitleNotFound) ==> CategoryKey(ORGANIZATION_TITLE, title) !in db.categories
    ensures t.outcome.Done? ==> CategoryKey(ORGANIZATION_TITLE, title) in db.categories
    ensures t.after == db.(memberships := t.after.memberships)
    ensures !t.outcome.Done? ==> t.after == db
    ensures |t.after.memberships| == |db.memberships|
  {
    var found := FindMembership(db.memberships, userId, orgId);
    if found.None? then Transition(NotFound(UserNotInOrganization), db)
    else if !db.memberships[found.value].IsActive() then Transition(IllegalState(MembershipInactive), db)
    else if CategoryKey(ORGANIZATION_TITLE, title) !in db.categories then Transition(NotFound(TitleNotFound), db)
    else
      var row := db.memberships[found.value];
      Transition(Done, db.(memberships := db.memberships[found.value := row.(title := Some(db.categories[CategoryKey(ORGANIZATION_TITLE, title)]))]))
  }
}
