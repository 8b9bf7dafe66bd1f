/**
 * `OrganizationService`: the state-changing operations on the organization hierarchy and on
 * memberships. The service holds the tables it works on: each organization's parent, the users, the
 * categories, and the membership entities. Every operation is proved against the function of the
 * same name in `OrganizationTables`, which gives its outcome and the tables afterwards.
 */
module OrganizationServices {
  import opened Wrappers
  import opened UserOrganizations
  import opened OrganizationTables
  import OrganizationProperties

  class OrganizationService {
    var organizations: map<OrganizationId, Option<OrganizationId>>
    var users: set<UserId>
    var categories: map<CategoryKey, CategoryId>
    var memberships: seq<UserOrganization>

    /** Each membership row is its own entity, and the (user, organization) unique constraint holds. */
    ghost predicate Valid()
      reads this, memberships
    {
      && AllApart(memberships)
      && UniquePairs(Rows())
    }

    /** The membership table as values. */
    function Rows(): seq<Membership>
      reads this, memberships
    {
      Views(memberships)
    }

    /** All tables as one value. */
    function Tables(): Db
      reads this, memberships
    {
      OrganizationTables.Db(organizations, users, categories, Rows())
    }

    constructor (organizations: map<OrganizationId, Option<OrganizationId>>, users: set<UserId>, categories: map<CategoryKey, CategoryId>)
      ensures Valid()
      ensures Tables() == OrganizationTables.Db(organizations, users, categories, [])
    {
      this.organizations := organizations;
      this.users := users;
      this.categories := categories;
      this.memberships := [];
    }

    /** `assignOrganizations(id, ids)`: every found child not yet under `id` is put under it. */
    method AssignOrganizations(id: OrganizationId, ids: Option<seq<OrganizationId>>) returns (outcome: Outcome)
      requires Valid()
      modifies this
      ensures Valid()
      ensures memberships == old(memberships)
      ensures Transition(outcome, Tables()) == OrganizationTables.AssignOrganizations(old(Tables()), id, ids)
    {
      if IsBlank(ids) {
        return Done;
      }
      if id !in organizations {
        return NotFound(OrganizationNotFound);
      }
      var children := FindAllById(ids.value, organizations.Keys);
      if |children| == 0 {
        return Done;
      }
      ghost var before := organizations;
      for i := 0 to |children|
        invariant organizations.Keys == before.Keys
        invariant forall o :: o in organizations ==>
                    organizations[o] == if o in children[..i] then Some(id) else before[o]
        invariant memberships == old(memberships) && users == old(users) && categories == old(categories)
      {
        var child := children[i];
        assert children[..i + 1] == children[..i] + [child];
        if organizations[child] != Some(id) {
          organizations := organizations[child := Some(id)];
        }
      }
      assert children[..|children|] == children;
      assert organizations == Reparented(before, children, id);
      outcome := Done;
    }

    /** `removeOrganizations(id, ids)`: every found child under `id` becomes a root. */
    method RemoveOrganizations(id: OrganizationId, ids: Option<seq<OrganizationId>>) returns (outcome: Outcome)
      requires Valid()
      modifies this
      ensures Valid()
      ensures memberships == old(memberships)
      ensures Transition(outcome, Tables()) == OrganizationTables.RemoveOrganizations(old(Tables()), id, ids)
    {
      if IsBlank(ids) {
        return Done;
      }
      if id !in organizations {
        return NotFound(OrganizationNotFound);
      }
      var children := FindAllById(ids.value, organizations.Keys);
      if |children| == 0 {
        return Done;
      }
      ghost var before := organizations;
      for i := 0 to |children|
        invariant organizations.Keys == before.Keys
        invariant forall o :: o in organizations ==>
                    organizations[o] == if o in children[..i] && before[o] == Some(id) then None else before[o]
        invariant memberships == old(memberships) && users == old(users) && categories == old(categories)
      {
        var child := children[i];
        assert children[..i + 1] == children[..i] + [child];
        assert child !in children[..i];
        if organizations[child] == Some(id) {
          organizations := organizations[child := None];
        }
      }
      assert children[..|children|] == children;
      assert organizations == Unparented(before, children, id);
      outcome := Done;
    }

    /**
     * `assignUsers(id, ids)`: build one active entity with the STAFF title for every found user not
     * already active in `id`, and save them all, unless one breaks the unique constraint.
     */
    method AssignUsers(id: OrganizationId, ids: Option<seq<UserId>>) returns (outcome: Outcome)
      requires Valid()
      modifies this
      ensures Valid()
      ensures Transition(outcome, Tables()) == OrganizationTables.AssignUsers(old(Tables()), id, ids)
    {
      ghost var db := Tables();
      if IsBlank(ids) {
        return Done;
      }
      if id !in organizations {
        return NotFound(OrganizationNotFound);
      }
      var found := FindAllById(ids.value, users);
      if |found| == 0 {
        return Done;
      }
      var existing := ActiveUserIds(Rows(), id);
      if StaffTitle !in categories {
        assert found[0] in found;
        return IllegalState(StaffMissing);
      }
      var toCreate := Build(found, existing, id, categories[StaffTitle]);
      if |toCreate| == 0 {
        return Done;
      }
      if Clashes(Rows(), Views(toCreate)) {
        return DataIntegrityViolation;
      }
      ghost var after := db.(memberships := db.memberships + Views(toCreate));
      assert OrganizationTables.AssignUsers(db, id, ids) == Transition(Done, after);
      OrganizationProperties.AssignUsersKeepsUniquePairs(db, id, ids);
      SaveAll(toCreate);
      outcome := Done;
    }

    /** `saveAll(toCreate)` for new entities that keep the unique constraint. */
    method SaveAll(toCreate: seq<UserOrganization>)
      requires Valid()
      requires UniquePairs(Rows() + Views(toCreate))
      modifies this
      ensures Valid()
      ensures memberships == old(memberships) + toCreate
      ensures Tables() == old(Tables()).(memberships := old(Rows()) + Views(toCreate))
    {
      ViewsAppend(memberships, toCreate);
      memberships := memberships + toCreate;
      // Rows for distinct pairs come from distinct entities.
      forall i, j | 0 <= i < j < |memberships| ensures Apart(memberships, i, j) {
        assert Rows()[i] == memberships[i].View() && Rows()[j] == memberships[j].View();
      }
    }

    /** The `map` of `assignUsers`: a new entity per user not in `existing`, in the order of `found`. */
    static method Build(found: seq<UserId>, existing: set<UserId>, organization: OrganizationId, title: CategoryId)
      returns (toCreate: seq<UserOrganization>)
      ensures forall m :: m in toCreate ==> fresh(m)
      ensures Views(toCreate) == NewMemberships(found, existing, organization, title)
    {
      toCreate := [];
      ghost var rows: seq<Membership> := [];
      for i := 0 to |found|
        invariant forall m :: m in toCreate ==> fresh(m)
        invariant Views(toCreate) == rows
        invariant rows == NewMemberships(found[..i], existing, organization, title)
      {
        var user := found[i];
        OrganizationProperties.NewMembershipsSnoc(found[..i], user, existing, organization, title);
        assert found[..i + 1] == found[..i] + [user];
        if user !in existing {
          var uo := new UserOrganization.Build(user, organization, Some(title), None);
          ViewsAppend(toCreate, [uo]);
          toCreate := toCreate + [uo];
          rows := rows + [uo.View()];
        }
      }
      assert found[..|found|] == found;
    }

    /**
     * `deactivateUsers(organization, ids)`, the bulk update of the membership repository: every
     * active row of one of the users in the organization becomes inactive; the result is the number
     * of rows changed. The query is one UPDATE statement, so all matching entities change at once.
     */
    method DeactivateUsers(organization: OrganizationId, ids: seq<UserId>) returns (updated: nat)
      requires AllApart(memberships)
      modifies memberships
      ensures memberships == old(memberships)
      ensures Rows() == Deactivated(old(Rows()), organization, ids)
      ensures updated == DeactivatedCount(old(Rows()), organization, ids)
    {
      ghost var before := Rows();
      updated := DeactivatedCount(Rows(), organization, ids);
      forall k | 0 <= k < |memberships| && Deactivates(memberships[k].View(), organization, ids) {
        memberships[k].active := Some(false);
      }
      forall k | 0 <= k < |memberships|
        ensures Rows()[k] == DeactivateRow(before[k], organization, ids)
      {
        ApartFrom(memberships, k);
      }
    }

    /** `removeUsers(id, ids)`: deactivate the users' memberships; not found when none was active. */
    method RemoveUsers(id: OrganizationId, ids: Option<seq<UserId>>) returns (outcome: Outcome)
      requires Valid()
      modifies memberships
      ensures Valid()
      ensures memberships == old(memberships)
      ensures Transition(outcome, Tables()) == OrganizationTables.RemoveUsers(old(Tables()), id, ids)
    {
      if IsBlank(ids) {
        return Done;
      }
      if id !in organizations {
        return NotFound(OrganizationNotFound);
      }
      OrganizationProperties.RemoveUsersKeepsRows(Tables(), id, ids, OrganizationTables.RemoveUsers(Tables(), id, ids).after.memberships);
      var updated := DeactivateUsers(id, ids.value);
      if updated == 0 {
        return NotFound(UsersNotInOrganization);
      }
      outcome := Done;
    }

    /** `changeTitle(orgId, userId, title)`: give an active member the title category `title`. */
    method ChangeTitle(orgId: OrganizationId, userId: UserId, title: string) returns (outcome: Outcome)
      requires Valid()
      modifies memberships
      ensures Valid()
      ensures memberships == old(memberships)
      ensures Transition(outcome, Tables()) == OrganizationTables.ChangeTitle(old(Tables()), orgId, userId, title)
    {
      OrganizationProperties.ChangeTitleKeepsUniquePairs(Tables(), orgId, userId, title);
      var found := FindMembership(Rows(), userId, orgId);
      if found.None? {
        return NotFound(UserNotInOrganization);
      }
      var uo := memberships[found.value];
      ApartFrom(memberships, found.value);
      if !uo.View().IsActive() {
        return IllegalState(MembershipInactive);
      }
      var key := CategoryKey(ORGANIZATION_TITLE, title);
      if key !in categories {
        return NotFound(TitleNotFound);
      }
      uo.SetTitle(Some(categories[key]));
      assert Rows() == old(Rows())[found.value := old(Rows())[found.value].(title := Some(categories[key]))];
      outcome := Done;
    }
  }
}
