/** What the organization and membership operations guarantee across calls, and what they do not. */
module OrganizationProperties {
  import opened Wrappers
  import opened UserOrganizations
  import opened OrganizationTables

  // ---------------------------------------------------------------- organization hierarchy

  /** A second identical `assignOrganizations` changes nothing. */
  lemma AssignOrganizationsIdempotent(db: Db, id: OrganizationId, ids: Option<seq<OrganizationId>>)
    ensures var t := AssignOrganizations(db, id, ids);
            AssignOrganizations(t.after, id, ids) == Transition(t.outcome, t.after)
  {
    var t := AssignOrganizations(db, id, ids);
    if t.outcome.Done? && !IsBlank(ids) && id in db.organizations {
      var p := t.after.organizations;
      var children := FindAllById(ids.value, p.Keys);
      if |children| > 0 {
        assert Reparented(p, children, id) == p;
      }
    }
  }

  /** An organization that is its own parent never reaches a root, however far one follows the links. */
  lemma {:induction false} SelfParentNeverReachesRoot(parents: map<OrganizationId, Option<OrganizationId>>, o: OrganizationId, fuel: nat)
    requires o in parents && parents[o] == Some(o)
    ensures !ReachesRoot(parents, o, fuel)
    decreases fuel
  {
    if fuel > 0 {
      SelfParentNeverReachesRoot(parents, o, fuel - 1);
    }
  }

  /** `assignOrganizations(id, [id])` makes `id` its own parent: the hierarchy is then no forest. */
  lemma AssignToItselfBreaksForest(db: Db, id: OrganizationId)
    requires id in db.organizations
    ensures var after := AssignOrganizations(db, id, Some([id])).after.organizations;
            after[id] == Some(id) && !IsForest(after)
  {
    var after := AssignOrganizations(db, id, Some([id])).after.organizations;
    SelfParentNeverReachesRoot(after, id, |after|);
  }

  /**
   * No cycle check: putting a parent under its own child turns a forest into a cycle.
   * Organization 2 is under 1; `assignOrganizations(2, [1])` puts 1 under 2.
   */
  lemma AssignOrganizationsCanCreateCycle()
    ensures var before := Db(map[1 := None, 2 := Some(1)], {}, map[], []);
            var t := AssignOrganizations(before, 2, Some([1]));
            IsForest(before.organizations) && t.outcome.Done? && !IsForest(t.after.organizations)
  {
    var before := Db(map[1 := None, 2 := Some(1)], {}, map[], []);
    var p := before.organizations;
    assert ReachesRoot(p, 1, 2);
    assert ReachesRoot(p, 2, 2) by {
      assert ReachesRoot(p, 1, 1);
    }
    var t := AssignOrganizations(before, 2, Some([1]));
    var q := t.after.organizations;
    assert q[1] == Some(2) && q[2] == Some(1);
    assert |q| == 2 by {
      assert q.Keys == {1, 2};
    }
    assert !ReachesRoot(q, 1, 2) by {
      assert !ReachesRoot(q, 1, 0);
      assert !ReachesRoot(q, 2, 1);
    }
  }

  /** Cutting parent links can only shorten the way to a root. */
  lemma {:induction false} ReachesRootAfterCut(p: map<OrganizationId, Option<OrganizationId>>, q: map<OrganizationId, Option<OrganizationId>>, o: OrganizationId, fuel: nat)
    requires q.Keys == p.Keys
    requires forall x :: x in q ==> q[x] == p[x] || q[x].None?
    requires ReachesRoot(p, o, fuel)
    ensures ReachesRoot(q, o, fuel)
    decreases fuel
  {
    if q[o].Some? {
      ReachesRootAfterCut(p, q, p[o].value, fuel - 1);
    }
  }

  /** `removeOrganizations` keeps a forest a forest. */
  lemma RemoveOrganizationsKeepsForest(db: Db, id: OrganizationId, ids: Option<seq<OrganizationId>>)
    requires IsForest(db.organizations)
    ensures IsForest(RemoveOrganizations(db, id, ids).after.organizations)
  {
    var p := db.organizations;
    var q := RemoveOrganizations(db, id, ids).after.organizations;
    assert |q| == |p| by {
      assert q.Keys == p.Keys;
    }
    forall o | o in q ensures ReachesRoot(q, o, |q|) {
      ReachesRootAfterCut(p, q, o, |p|);
    }
  }

  /** `removeOrganizations` leaves an organization under another parent, or a root, where it was. */
  lemma RemoveOrganizationsKeepsOtherParents(db: Db, id: OrganizationId, ids: Option<seq<OrganizationId>>, o: OrganizationId)
    requires o in db.organizations && db.organizations[o] != Some(id)
    ensures RemoveOrganizations(db, id, ids).after.organizations[o] == db.organizations[o]
  {
  }

  // ---------------------------------------------------------------- memberships

  /** A user may hold at most one active row per organization, since it holds at most one row. */
  lemma UniquePairsOneActive(rows: seq<Membership>, i: nat, j: nat)
    requires UniquePairs(rows)
    requires i < |rows| && j < |rows| && rows[i].IsActive() && rows[j].IsActive()
    requires rows[j].IsFor(rows[i].user, rows[i].organization)
    ensures i == j
  {
  }

  /** New rows for distinct users have distinct users. */
  lemma {:induction false} NewMembershipsDistinct(found: seq<UserId>, existing: set<UserId>, organization: OrganizationId, title: CategoryId, r: seq<Membership>)
    requires Distinct(found)
    requires r == NewMemberships(found, existing, organization, title)
    ensures forall i, j :: 0 <= i < j < |r| ==> r[i].user != r[j].user
  {
    if found != [] {
      var tail := found[1..];
      assert Distinct(tail) by {
        forall i, j | 0 <= i < j < |tail| ensures tail[i] != tail[j] {
          assert tail[i] == found[i + 1] && tail[j] == found[j + 1];
        }
      }
      var rest := NewMemberships(tail, existing, organization, title);
      NewMembershipsDistinct(tail, existing, organization, title, rest);
      assert found[0] !in tail;
      if found[0] !in existing {
        assert r == [Membership(found[0], organization, Some(title), None, Some(true))] + rest;
        forall i, j | 0 <= i < j < |r| ensures r[i].user != r[j].user {
          assert r[j] == rest[j - 1] && rest[j - 1] in rest;
          if i == 0 {
            assert exists m :: m in rest && m.user == r[j].user;
          } else {
            assert r[i] == rest[i - 1];
          }
        }
      }
    }
  }

  /** The unique constraint holds after every `assignUsers` that the database accepts. */
  lemma AssignUsersKeepsUniquePairs(db: Db, id: OrganizationId, ids: Option<seq<UserId>>)
    requires UniquePairs(db.memberships)
    ensures UniquePairs(AssignUsers(db, id, ids).after.memberships)
  {
    var t := AssignUsers(db, id, ids);
    if t.after != db {
      var found := FindAllById(ids.value, db.users);
      var toCreate := NewMemberships(found, ActiveUserIds(db.memberships, id), id, db.categories[StaffTitle]);
      NewMembershipsDistinct(found, ActiveUserIds(db.memberships, id), id, db.categories[StaffTitle], toCreate);
      assert t.after.memberships == db.memberships + toCreate;
      UniquePairsAppend(db.memberships, toCreate);
    }
  }

  /** Appending rows with distinct users that clash with no stored row keeps the unique constraint. */
  lemma UniquePairsAppend(rows: seq<Membership>, more: seq<Membership>)
    requires UniquePairs(rows)
    requires forall i, j :: 0 <= i < j < |more| ==> more[i].user != more[j].user
    requires !Clashes(rows, more)
    ensures UniquePairs(rows + more)
  {
    var after := rows + more;
    forall i, j | 0 <= i < j < |after| ensures !after[j].IsFor(after[i].user, after[i].organization) {
      if j < |rows| {
        assert after[i] == rows[i] && after[j] == rows[j];
      } else if i >= |rows| {
        assert after[i] == more[i - |rows|] && after[j] == more[j - |rows|];
      } else {
        var n := j - |rows|;
        assert after[i] == rows[i] && after[j] == more[n];
        assert !rows[i].IsFor(more[n].user, more[n].organization);
      }
    }
  }

  /** The active members over two tables are those of either. */
  lemma ActiveUserIdsAppend(rows: seq<Membership>, more: seq<Membership>, organization: OrganizationId)
    ensures ActiveUserIds(rows + more, organization) == ActiveUserIds(rows, organization) + ActiveUserIds(more, organization)
  {
    var all := rows + more;
    forall u | u in ActiveUserIds(all, organization) ensures u in ActiveUserIds(rows, organization) + ActiveUserIds(more, organization) {
      var i :| 0 <= i < |all| && all[i].IsFor(u, organization) && all[i].IsActive();
      if i >= |rows| {
        assert all[i] == more[i - |rows|];
      }
    }
    forall u | u in ActiveUserIds(rows, organization) ensures u in ActiveUserIds(all, organization) {
      var i :| 0 <= i < |rows| && rows[i].IsFor(u, organization) && rows[i].IsActive();
      assert all[i] == rows[i];
    }
    forall u | u in ActiveUserIds(more, organization) ensures u in ActiveUserIds(all, organization) {
      var i :| 0 <= i < |more| && more[i].IsFor(u, organization) && more[i].IsActive();
      assert all[|rows| + i] == more[i];
    }
  }

  /** On success every requested user that exists is an active member of the organization. */
  lemma AssignUsersMakesMembers(db: Db, id: OrganizationId, ids: Option<seq<UserId>>, t: Transition)
    requires !IsBlank(ids) && id in db.organizations
    requires t == AssignUsers(db, id, ids)
    ensures t.outcome.Done? ==> forall u :: u in ids.value && u in db.users ==> u in ActiveUserIds(t.after.memberships, id)
  {
    var found := FindAllById(ids.value, db.users);
    if t.outcome.Done? && |found| > 0 {
      var existing := ActiveUserIds(db.memberships, id);
      var toCreate := NewMemberships(found, existing, id, db.categories[StaffTitle]);
      ActiveUserIdsAppend(db.memberships, toCreate, id);
      forall u | u in ids.value && u in db.users && u !in existing ensures u in ActiveUserIds(toCreate, id) {
        var m :| m in toCreate && m.user == u;
        var k :| 0 <= k < |toCreate| && toCreate[k] == m;
      }
    }
  }

  /**
   * Every row `assignUsers` adds is a new active row with the default title, for a requested user
   * that exists and was not an active member. The rows before stay as they were.
   */
  lemma AssignUsersNewRows(db: Db, id: OrganizationId, ids: Option<seq<UserId>>, t: Transition, k: nat)
    requires t == AssignUsers(db, id, ids)
    requires |db.memberships| <= k < |t.after.memberships|
    ensures t.outcome.Done? && !IsBlank(ids) && StaffTitle in db.categories
    ensures var m := t.after.memberships[k];
            && m == Membership(m.user, id, Some(db.categories[StaffTitle]), None, Some(true))
            && m.user in ids.value && m.user in db.users && m.user !in ActiveUserIds(db.memberships, id)
  {
    var found := FindAllById(ids.value, db.users);
    var toCreate := NewMemberships(found, ActiveUserIds(db.memberships, id), id, db.categories[StaffTitle]);
    assert t.after.memberships == db.memberships + toCreate;
    assert t.after.memberships[k] == toCreate[k - |db.memberships|] && toCreate[k - |db.memberships|] in toCreate;
  }

  /** When none of the found users is an active member, every one of them gets a row. */
  lemma {:induction false} NoExistingAllNewMemberships(found: seq<UserId>, existing: set<UserId>, organization: OrganizationId, title: CategoryId)
    requires forall u :: u in found ==> u !in existing
    ensures |NewMemberships(found, existing, organization, title)| == |found|
  {
    if found != [] {
      assert found[0] in found;
      NoExistingAllNewMemberships(found[1..], existing, organization, title);
    }
  }

  /**
   * `assignUsers` succeeds for users that have never been members of the organization: with the
   * organization and the STAFF title present, the call ends normally and adds exactly one row for
   * each requested user that exists.
   */
  lemma AssignUsersNewcomersSucceed(db: Db, id: OrganizationId, ids: Option<seq<UserId>>)
    requires !IsBlank(ids) && id in db.organizations && StaffTitle in db.categories
    requires forall u, i :: u in ids.value && u in db.users && 0 <= i < |db.memberships| ==> !db.memberships[i].IsFor(u, id)
    ensures var t := AssignUsers(db, id, ids);
            && t.outcome.Done?
            && |t.after.memberships| == |db.memberships| + |FindAllById(ids.value, db.users)|
  {
    var found := FindAllById(ids.value, db.users);
    var existing := ActiveUserIds(db.memberships, id);
    var toCreate := NewMemberships(found, existing, id, db.categories[StaffTitle]);
    assert forall u :: u in found ==> u !in existing;
    NoExistingAllNewMemberships(found, existing, id, db.categories[StaffTitle]);
    forall j | 0 <= j < |toCreate| ensures toCreate[j].user in found && toCreate[j].organization == id {
      assert toCreate[j] in toCreate;
    }
    assert !Clashes(db.memberships, toCreate);
  }

  /** When every found user is already an active member, no row is created. */
  lemma {:induction false} AllExistingNoNewMemberships(found: seq<UserId>, existing: set<UserId>, organization: OrganizationId, title: CategoryId)
    requires forall u :: u in found ==> u in existing
    ensures NewMemberships(found, existing, organization, title) == []
  {
    if found != [] {
      assert found[0] in found;
      AllExistingNoNewMemberships(found[1..], existing, organization, title);
    }
  }

  /** A second identical `assignUsers` after a successful one adds nothing. */
  lemma AssignUsersIdempotent(db: Db, id: OrganizationId, ids: Option<seq<UserId>>)
    ensures var t := AssignUsers(db, id, ids);
            t.outcome.Done? ==> AssignUsers(t.after, id, ids) == Transition(Done, t.after)
  {
    var t := AssignUsers(db, id, ids);
    if t.outcome.Done? && !IsBlank(ids) && id in db.organizations {
      AssignUsersMakesMembers(db, id, ids, t);
      var found := FindAllById(ids.value, t.after.users);
      if |found| > 0 {
        var existing := ActiveUserIds(t.after.memberships, id);
        assert StaffTitle in db.categories by {
          assert found[0] in found;
        }
        AllExistingNoNewMemberships(found, existing, id, t.after.categories[StaffTitle]);
      }
    }
  }

  /**
   * `assignUsers` skips only ACTIVE members: a user whose row in the organization is inactive gets a
   * second row for the same pair, which the unique constraint refuses. A removed user cannot be
   * assigned again.
   */
  lemma ReassignInactiveClashes(db: Db, id: OrganizationId, u: UserId, k: nat)
    requires UniquePairs(db.memberships)
    requires id in db.organizations && u in db.users && StaffTitle in db.categories
    requires k < |db.memberships| && db.memberships[k].IsFor(u, id) && !db.memberships[k].IsActive()
    ensures AssignUsers(db, id, Some([u])) == Transition(DataIntegrityViolation, db)
  {
    var found := FindAllById([u], db.users);
    assert found == [u] by {
      assert [u][..0] == [];
      assert FindAllById([], db.users) == [];
    }
    var existing := ActiveUserIds(db.memberships, id);
    assert u !in existing;
    var toCreate := NewMemberships(found, existing, id, db.categories[StaffTitle]);
    assert toCreate[0].user == u;
    assert Clashes(db.memberships, toCreate);
  }

  /** `removeUsers` leaves none of the given users active in the organization. */
  lemma RemoveUsersDeactivatesAll(db: Db, id: OrganizationId, ids: Option<seq<UserId>>, u: UserId)
    requires !IsBlank(ids) && u in ids.value
    ensures var t := RemoveUsers(db, id, ids);
            t.outcome.Done? ==> u !in ActiveUserIds(t.after.memberships, id)
  {
  }

  /** `removeUsers` keeps every row, the unique constraint, and every other user's and organization's rows. */
  lemma RemoveUsersKeepsRows(db: Db, id: OrganizationId, ids: Option<seq<UserId>>, after: seq<Membership>)
    requires UniquePairs(db.memberships)
    requires after == RemoveUsers(db, id, ids).after.memberships
    ensures && |after| == |db.memberships|
            && UniquePairs(after)
            && forall i :: 0 <= i < |after| ==>
                 after[i] == db.memberships[i].(active := after[i].active) &&
                 (after[i] != db.memberships[i] ==> db.memberships[i].organization == id && db.memberships[i].user in ids.value && db.memberships[i].IsActive())
  {
  }

  /** Once removed, a user cannot be assigned to the same organization again. */
  lemma RemoveThenAssignClashes(db: Db, id: OrganizationId, u: UserId)
    requires UniquePairs(db.memberships)
    requires id in db.organizations && u in db.users && StaffTitle in db.categories
    requires u in ActiveUserIds(db.memberships, id)
    ensures var removed := RemoveUsers(db, id, Some([u]));
            removed.outcome.Done? && AssignUsers(removed.after, id, Some([u])).outcome.DataIntegrityViolation?
  {
    var i :| 0 <= i < |db.memberships| && db.memberships[i].IsFor(u, id) && db.memberships[i].IsActive();
    assert Deactivates(db.memberships[i], id, [u]);
    var removed := RemoveUsers(db, id, Some([u]));
    RemoveUsersKeepsRows(db, id, Some([u]), removed.after.memberships);
    ReassignInactiveClashes(removed.after, id, u, i);
  }

  /**
   * `changeTitle` on the row `k` of the pair: an inactive membership is an illegal state, an unknown
   * title is not found, and otherwise only that row's title changes.
   */
  lemma ChangeTitleAt(db: Db, orgId: OrganizationId, userId: UserId, title: string, k: nat)
    requires UniquePairs(db.memberships)
    requires k < |db.memberships| && db.memberships[k].IsFor(userId, orgId)
    ensures var t := ChangeTitle(db, orgId, userId, title);
            var key := CategoryKey(ORGANIZATION_TITLE, title);
            && (t.outcome == IllegalState(MembershipInactive) <==> !db.memberships[k].IsActive())
            && (t.outcome == NotFound(TitleNotFound) <==> db.memberships[k].IsActive() && key !in db.categories)
            && (t.outcome.Done? ==>
                  t.after.memberships == db.memberships[k := db.memberships[k].(title := Some(db.categories[key]))])
  {
    var found := FindMembership(db.memberships, userId, orgId);
    assert found == Some(k);
  }

  /** `changeTitle` keeps every row's user and organization, so the unique constraint still holds. */
  lemma ChangeTitleKeepsUniquePairs(db: Db, orgId: OrganizationId, userId: UserId, title: string)
    requires UniquePairs(db.memberships)
    ensures UniquePairs(ChangeTitle(db, orgId, userId, title).after.memberships)
  {
    var found := FindMembership(db.memberships, userId, orgId);
    if found.Some? {
      var after := ChangeTitle(db, orgId, userId, title).after.memberships;
      assert forall i :: 0 <= i < |after| ==> after[i].IsFor(db.memberships[i].user, db.memberships[i].organization);
    }
  }

  /** The stream of `assignUsers` read one user at a time, front to back. */
  lemma {:induction false} NewMembershipsSnoc(found: seq<UserId>, u: UserId, existing: set<UserId>, organization: OrganizationId, title: CategoryId)
    ensures NewMemberships(found + [u], existing, organization, title) ==
            NewMemberships(found, existing, organization, title) +
            (if u in existing then [] else [Membership(u, organization, Some(title), None, Some(true))])
  {
    if found == [] {
      assert [u][1..] == [];
    } else {
      assert (found + [u])[1..] == found[1..] + [u];
      NewMembershipsSnoc(found[1..], u, existing, organization, title);
    }
  }
}
