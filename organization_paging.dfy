/**
 * The paged `findAll` of `OrganizationService`: the organizations with a parent are grouped by their
 * parent's id, and one tree is built for each root candidate of the requested page.
 */
module OrganizationPaging {
  import opened Wrappers
  import opened UserOrganizations

  /** What `findAllWithParent` yields per organization: its id and its parent's id, if any. */
  datatype OrganizationNode = OrganizationNode(id: OrganizationId, parent: Option<OrganizationId>)

  /** The reference definition of a bucket: the nodes directly under `p`, in the order given. */
  function ChildrenOf(nodes: seq<OrganizationNode>, p: OrganizationId): (r: seq<OrganizationNode>)
    ensures forall n :: n in r <==> n in nodes && n.parent == Some(p)
    ensures |r| <= |nodes|
    ensures r == [] <==> forall n :: n in nodes ==> n.parent != Some(p)
  {
    if nodes == [] then []
    else (if nodes[0].parent == Some(p) then [nodes[0]] else []) + ChildrenOf(nodes[1..], p)
  }

  /**
   * `filter(o -> o.getParent() != null).collect(groupingBy(o -> o.getParent().getId()))`, one node at
   * a time: a node with a parent is appended to its parent's list, a root is skipped.
   */
  function GroupByParent(nodes: seq<OrganizationNode>): (r: map<OrganizationId, seq<OrganizationNode>>)
    ensures forall p :: p in r ==> |r[p]| > 0
  {
    if nodes == [] then map[]
    else
      var grouped := GroupByParent(nodes[..|nodes| - 1]);
      var last := nodes[|nodes| - 1];
      if last.parent.None? then grouped
      else
        var p := last.parent.value;
        grouped[p := (if p in grouped then grouped[p] else []) + [last]]
  }

  lemma {:induction false} ChildrenOfAppend(nodes: seq<OrganizationNode>, n: OrganizationNode, p: OrganizationId)
    ensures ChildrenOf(nodes + [n], p) == ChildrenOf(nodes, p) + (if n.parent == Some(p) then [n] else [])
  {
    if nodes == [] {
      assert [n][1..] == [];
    } else {
      assert (nodes + [n])[1..] == nodes[1..] + [n];
      ChildrenOfAppend(nodes[1..], n, p);
    }
  }

  /**
   * The grouping has a key for exactly the parents that some node names, and the list under it is
   * the nodes directly under that parent, in their original order.
   */
  lemma {:induction false} GroupByParentBuckets(nodes: seq<OrganizationNode>)
    ensures forall p :: p in GroupByParent(nodes) <==> exists n :: n in nodes && n.parent == Some(p)
    ensures forall p :: p in GroupByParent(nodes) ==> GroupByParent(nodes)[p] == ChildrenOf(nodes, p)
  {
    if nodes != [] {
      var init, last := nodes[..|nodes| - 1], nodes[|nodes| - 1];
      assert nodes == init + [last];
      GroupByParentBuckets(init);
      GroupByParentKeysStep(init, last);
      GroupByParentListsStep(init, last);
    }
  }

  /** Appending a node adds its parent, if any, to the keys of the grouping. */
  lemma GroupByParentKeysStep(init: seq<OrganizationNode>, last: OrganizationNode)
    requires forall p :: p in GroupByParent(init) <==> exists n :: n in init && n.parent == Some(p)
    ensures forall p :: p in GroupByParent(init + [last]) <==> exists n :: n in init + [last] && n.parent == Some(p)
  {
    var nodes := init + [last];
    assert nodes[..|nodes| - 1] == init;
    var r := GroupByParent(nodes);
    forall p | exists n :: n in nodes && n.parent == Some(p) ensures p in r {
      var n :| n in nodes && n.parent == Some(p);
      if n != last {
        assert n in init;
      }
    }
  }

  /** Appending a node appends it to its parent's list and leaves the other lists as they were. */
  lemma GroupByParentListsStep(init: seq<OrganizationNode>, last: OrganizationNode)
    requires forall p :: p in GroupByParent(init) <==> exists n :: n in init && n.parent == Some(p)
    requires forall p :: p in GroupByParent(init) ==> GroupByParent(init)[p] == ChildrenOf(init, p)
    ensures forall p :: p in GroupByParent(init + [last]) ==> GroupByParent(init + [last])[p] == ChildrenOf(init + [last], p)
  {
    forall p | p in GroupByParent(init + [last]) ensures GroupByParent(init + [last])[p] == ChildrenOf(init + [last], p) {
      GroupByParentListAt(init, last, p);
    }
  }

  /** The step of `GroupByParentListsStep` for one parent `p`. */
  lemma GroupByParentListAt(init: seq<OrganizationNode>, last: OrganizationNode, p: OrganizationId)
    requires p in GroupByParent(init) ==> GroupByParent(init)[p] == ChildrenOf(init, p)
    requires p !in GroupByParent(init) ==> ChildrenOf(init, p) == []
    requires p in GroupByParent(init + [last])
    ensures GroupByParent(init + [last])[p] == ChildrenOf(init + [last], p)
  {
    var nodes := init + [last];
    assert nodes[..|nodes| - 1] == init;
    var g := GroupByParent(init);
    var r := GroupByParent(nodes);
    ChildrenOfAppend(init, last, p);
    if last.parent == Some(p) {
      assert r[p] == (if p in g then g[p] else []) + [last];
    } else {
      assert r[p] == g[p];
    }
  }

  /**
   * Every organization with a parent lies in the bucket of that parent and in no other; a root lies
   * in none.
   */
  lemma EachNodeInOneBucket(nodes: seq<OrganizationNode>, n: OrganizationNode, p: OrganizationId)
    requires n in nodes
    ensures var r := GroupByParent(nodes);
            n.parent == Some(p) <==> p in r && n in r[p]
  {
    GroupByParentBuckets(nodes);
  }

  /** The page request: page number and page size (the sort by `createdDate` is the query's business). */
  datatype PageRequest = PageRequest(pageNumber: nat, pageSize: nat)

  /** A page of `findAllParent`: the root candidates on the page, and how many there are in all. */
  datatype RootPage = RootPage(content: seq<OrganizationNode>, totalElements: nat)

  /** `PageImpl(content, pageable, total)`. */
  datatype Page<T> = Page(content: seq<T>, request: PageRequest, totalElements: nat)

  /**
   * `findAll(pageable)`: `build` stands for `mapper.buildOrganizationTree`, given each root candidate
   * and the grouping of all nodes with a parent.
   */
  function FindAllPaged<T>(pageable: PageRequest, all: seq<OrganizationNode>, roots: RootPage,
                           build: (OrganizationNode, map<OrganizationId, seq<OrganizationNode>>) -> T): (r: Page<T>)
    ensures |r.content| == |roots.content|
    ensures forall i :: 0 <= i < |roots.content| ==> r.content[i] == build(roots.content[i], GroupByParent(all))
    ensures r.totalElements == roots.totalElements
    ensures r.request == pageable
  {
    var parentMap := GroupByParent(all);
    Page(seq(|roots.content|, i requires 0 <= i < |roots.content| => build(roots.content[i], parentMap)),
         pageable, roots.totalElements)
  }
}
