/**
 * `UserOrganization`: the membership of a user in an organization, one row of the
 * `users_organizations` table, unique per (user, organization).
 */
module UserOrganizations {
  import opened Wrappers

  /** Entity identifiers (UUIDs in the source). */
  type UserId = nat
  type OrganizationId = nat
  type CategoryId = nat

  /**
   * A membership row as a value. `user` and `organization` are mandatory references; `title` and
   * `position` are optional category references; `active` is a nullable `Boolean`.
   */
  datatype Membership = Membership(
    user: UserId,
    organization: OrganizationId,
    title: Option<CategoryId>,
    position: Option<CategoryId>,
    active: Option<bool>)
  {
    /** `Boolean.TRUE.equals(getActive())`: null counts as inactive. */
    predicate IsActive() {
      active == Some(true)
    }

    predicate IsFor(u: UserId, o: OrganizationId) {
      user == u && organization == o
    }
  }

  /** The (user_id, organization_id) unique constraint on the table. */
  predicate UniquePairs(rows: seq<Membership>) {
    forall i, j :: 0 <= i < j < |rows| ==> !rows[j].IsFor(rows[i].user, rows[i].organization)
  }

  /** The mutable entity; the service changes `title` and `active` after construction. */
  class UserOrganization {
    var user: UserId
    var organization: OrganizationId
    var title: Option<CategoryId>
    var position: Option<CategoryId>
    var active: Option<bool>

    /**
     * `UserOrganization.builder().user(..).organization(..).title(..).position(..).build()`:
     * the builder default makes the row active when `active` is not given.
     */
    constructor Build(user: UserId, organization: OrganizationId, title: Option<CategoryId>, position: Option<CategoryId>)
      ensures View() == Membership(user, organization, title, position, Some(true))
      ensures View().IsActive()
    {
      this.user := user;
      this.organization := organization;
      this.title := title;
      this.position := position;
      this.active := Some(true);
    }

    /** The row's current field values. */
    function View(): Membership
      reads this
    {
      Membership(user, organization, title, position, active)
    }

    /** `setTitle`: only the title changes. */
    method SetTitle(t: Option<CategoryId>)
      modifies this
      ensures View() == old(View()).(title := t)
    {
      title := t;
    }
  }

  /** The rows held by a sequence of entities, in order. */
  function Views(ms: seq<UserOrganization>): (r: seq<Membership>)
    reads ms
    ensures |r| == |ms| && forall i :: 0 <= i < |ms| ==> r[i] == ms[i].View()
  {
    seq(|ms|, i reads ms requires 0 <= i < |ms| => ms[i].View())
  }

  lemma ViewsAppend(ms: seq<UserOrganization>, ns: seq<UserOrganization>)
    ensures Views(ms + ns) == Views(ms) + Views(ns)
  {
  }

  /** Entities `i` and `j` of `ms` are different objects. */
  predicate Apart(ms: seq<UserOrganization>, i: int, j: int)
    requires 0 <= i < |ms| && 0 <= j < |ms|
  {
    ms[i] != ms[j]
  }

  /**
   * No entity occurs twice in `ms`. The trigger lets the verifier use a pair only when a proof
   * names it, instead of trying every pair of positions it sees.
   */
  predicate AllApart(ms: seq<UserOrganization>) {
    forall i, j {:trigger Apart(ms, i, j)} :: 0 <= i < j < |ms| ==> Apart(ms, i, j)
  }

  /** In a sequence of distinct entities, entity `i` is none of the others. */
  lemma ApartFrom(ms: seq<UserOrganization>, i: int)
    requires AllApart(ms) && 0 <= i < |ms|
    ensures forall k :: 0 <= k < |ms| && k != i ==> ms[k] != ms[i]
  {
    forall k | 0 <= k < |ms| && k != i
      ensures ms[k] != ms[i]
    {
      if k < i {
        assert Apart(ms, k, i);
      } else {
        assert Apart(ms, i, k);
      }
    }
  }
}
