/**
 * The category table: which categories lie under a given one, on any table even with cycles,
 * and the forest built from the rows whose parent chain ends at the top.
 */
module Categories {
  import opened Optional
  import opened Sorting

  type Id = string

  datatype Row = Row(id: Id, parentId: Option<Id>, order: int)
  datatype Tree = Node(row: Row, children: seq<Tree>)

  // ---------------------------------------------------------------- links and chains

  /** Some row says that `child` lies directly under `parent`. */
  ghost predicate Link(all: seq<Row>, parent: Option<Id>, child: Id) {
    exists i :: 0 <= i < |all| && all[i].id == child && all[i].parentId == parent
  }

  ghost predicate Chain(all: seq<Row>, path: seq<Id>) {
    forall i :: 0 < i < |path| ==> Link(all, Some(path[i - 1]), path[i])
  }

  /** `target` is `from` or lies under it, at any depth. */
  ghost predicate Reaches(all: seq<Row>, from: Id, target: Id) {
    exists path :: Leads(all, path, from, target)
  }

  ghost predicate Leads(all: seq<Row>, path: seq<Id>, from: Id, target: Id) {
    |path| > 0 && path[0] == from && path[|path| - 1] == target && Chain(all, path)
  }

  ghost predicate Distinct(ids: seq<Id>) {
    forall i, j :: 0 <= i < j < |ids| ==> ids[i] != ids[j]
  }

  function ChildRows(all: seq<Row>, parent: Option<Id>): seq<Row> {
    Filter(all, (r: Row) => r.parentId == parent)
  }

  /** The rows grouped by parent, each group in table order. */
  method GroupByParent(all: seq<Row>) returns (byParent: map<Option<Id>, seq<Row>>)
    ensures forall p :: Children(byParent, p) == ChildRows(all, p)
  {
    hide Filter;
    byParent := map[];
    var i := 0;
    assert forall p :: ChildRows(all[..0], p) == [] by {
      NoChildren(all[..0]);
    }
    while i < |all|
      invariant 0 <= i <= |all|
      invariant forall p :: Children(byParent, p) == ChildRows(all[..i], p)
    {
      var cat := all[i];
      ghost var before := byParent;
      if cat.parentId !in byParent {
        byParent := byParent[cat.parentId := []];
      }
      byParent := byParent[cat.parentId := byParent[cat.parentId] + [cat]];
      assert all[..i + 1] == all[..i] + [cat];
      forall p ensures Children(byParent, p) == ChildRows(all[..i + 1], p) {
        OneMoreChild(all[..i], cat, p);
        assert Children(before, p) == ChildRows(all[..i], p);
      }
      i := i + 1;
    }
    assert all[..i] == all;
  }

  lemma NoChildren(all: seq<Row>)
    ensures all == [] ==> forall p :: ChildRows(all, p) == []
  {
  }

  lemma OneMoreChild(all: seq<Row>, cat: Row, p: Option<Id>)
    ensures ChildRows(all + [cat], p) == ChildRows(all, p) + if cat.parentId == p then [cat] else []
  {
    FilterConcat(all, [cat], (r: Row) => r.parentId == p);
    FilterOne(cat, (r: Row) => r.parentId == p);
  }

  function Children(byParent: map<Option<Id>, seq<Row>>, parent: Option<Id>): seq<Row> {
    if parent in byParent then byParent[parent] else []
  }

  // ---------------------------------------------------------------- descendants

  function Ids(all: seq<Row>): set<Id> { set r | r in all :: r.id }

  function Members(ids: seq<Id>): set<Id> { set x | x in ids }

  ghost predicate ClosedUnder(all: seq<Row>, x: Id, ids: seq<Id>) {
    forall c :: Link(all, Some(x), c) ==> c in ids
  }

  lemma ReachesSelf(all: seq<Row>, x: Id)
    ensures Reaches(all, x, x)
  {
    assert Leads(all, [x], x, x);
  }

  lemma ReachesThrough(all: seq<Row>, from: Id, child: Id, target: Id)
    requires Link(all, Some(from), child) && Reaches(all, child, target)
    ensures Reaches(all, from, target)
  {
    var path :| Leads(all, path, child, target);
    assert Leads(all, [from] + path, from, target);
  }

  /** A set of ids that holds `from` and every child of its members holds all that `from` reaches. */
  lemma {:induction false} ClosureHoldsReachable(all: seq<Row>, ids: seq<Id>, path: seq<Id>)
    requires |path| > 0 && path[0] in ids && Chain(all, path)
    requires forall x :: x in ids ==> ClosedUnder(all, x, ids)
    ensures path[|path| - 1] in ids
  {
    if |path| > 1 {
      assert Link(all, Some(path[0]), path[1]);
      assert ClosedUnder(all, path[0], ids);
      assert forall i :: 0 < i < |path[1..]| ==> path[1..][i - 1] == path[i] && path[1..][i] == path[i + 1];
      ClosureHoldsReachable(all, ids, path[1..]);
    }
  }

  lemma PrefixMembers(a: seq<Id>, b: seq<Id>)
    requires a <= b
    ensures forall x :: x in a ==> x in b
  {
    forall x | x in a ensures x in b {
      var i :| 0 <= i < |a| && a[i] == x;
      assert b[i] == x;
    }
  }

  /** One depth-first search over a fixed table; `out` is the visited set in insertion order. */
  class DescendantSearch {
    const all: seq<Row>
    const byParent: map<Option<Id>, seq<Row>>
    var out: seq<Id>

    constructor (all: seq<Row>, byParent: map<Option<Id>, seq<Row>>, id: Id)
      ensures this.all == all && this.byParent == byParent && out == [id]
    {
      this.all, this.byParent, this.out := all, byParent, [id];
    }

    ghost predicate Ready()
      reads this
    {
      Distinct(out) && forall p :: Children(byParent, p) == ChildRows(all, p)
    }

    /** Add everything below `parentId` that is not there yet. */
    method Visit(parentId: Id)
      requires Ready()
      modifies this`out
      ensures Ready() && old(out) <= out
      ensures ClosedUnder(all, parentId, out)
      ensures forall x :: x in out && x !in old(out) ==> ClosedUnder(all, x, out) && Reaches(all, parentId, x)
      decreases Ids(all) - Members(out)
    {
      var kids := Children(byParent, Some(parentId));
      var i := 0;
      while i < |kids|
        invariant 0 <= i <= |kids|
        invariant Ready() && old(out) <= out
        invariant forall j :: 0 <= j < i ==> kids[j].id in out
        invariant forall x :: x in out && x !in old(out) ==> ClosedUnder(all, x, out) && Reaches(all, parentId, x)
      {
        var child := kids[i].id;
        assert kids[i] in all && kids[i].parentId == Some(parentId);
        assert Link(all, Some(parentId), child);
        if child !in out {
          ghost var before := out;
          out := out + [child];
          PrefixMembers(before, out);
          assert child in Ids(all) && child in out && child !in before;
          assert Ids(all) - Members(out) < Ids(all) - Members(before) by {
            assert child in Members(out) && child !in Members(before);
          }
          PrefixMembers(old(out), before);
          label visiting:
          Visit(child);
          PrefixMembers(old@visiting(out), out);
          ReachesSelf(all, child);
          forall x | x in out && x !in old(out) ensures ClosedUnder(all, x, out) && Reaches(all, parentId, x) {
            if x in before {
              assert ClosedUnder(all, x, before);
            } else {
              assert x == child || x !in old@visiting(out);
              ReachesThrough(all, parentId, child, x);
            }
          }
        }
        i := i + 1;
      }
      forall c | Link(all, Some(parentId), c) ensures c in out {
        var k :| 0 <= k < |all| && all[k].id == c && all[k].parentId == Some(parentId);
        assert all[k] in kids;
      }
    }
  }

  /**
   * The given id and everything under it, each once. It holds of every table, including one
   * whose parent links form a cycle.
   */
  method GetDescendantIds(all: seq<Row>, id: Id) returns (ids: seq<Id>)
    ensures Distinct(ids) && |ids| > 0 && ids[0] == id
    ensures forall x :: x in ids <==> Reaches(all, id, x)
  {
    var byParent := GroupByParent(all);
    var search := new DescendantSearch(all, byParent, id);
    search.Visit(id);
    ids := search.out;
    assert [id] <= ids && ids[0] == id;
    forall x ensures x in ids <==> Reaches(all, id, x) {
      if x in ids {
        ReachesSelf(all, id);
      } else if Reaches(all, id, x) {
        var path :| Leads(all, path, id, x);
        ClosureHoldsReachable(all, ids, path);
      }
    }
  }

  // ---------------------------------------------------------------- paths from the top

  ghost predicate UniqueIds(all: seq<Row>) {
    forall i, j :: 0 <= i < j < |all| ==> all[i].id != all[j].id
  }

  /** A chain that starts at a category without parent. The empty path stands for the top itself. */
  ghost predicate RootPath(all: seq<Row>, path: seq<Id>) {
    Chain(all, path) && (path != [] ==> Link(all, None, path[0]))
  }

  ghost predicate Rooted(all: seq<Row>, x: Id) {
    exists path :: EndsAt(all, path, x)
  }

  ghost predicate EndsAt(all: seq<Row>, path: seq<Id>, x: Id) {
    RootPath(all, path) && path != [] && path[|path| - 1] == x
  }

  function Key(path: seq<Id>): Option<Id> { if path == [] then None else Some(path[|path| - 1]) }

  lemma OneParent(all: seq<Row>, p: Option<Id>, x: Id, q: Option<Id>, y: Id)
    requires UniqueIds(all) && Link(all, p, x) && Link(all, q, y)
    ensures x == y ==> p == q
  {
  }

  /** The link into position `i` of a path from the top. */
  lemma LinkInto(all: seq<Row>, path: seq<Id>, i: nat)
    requires RootPath(all, path) && i < |path|
    ensures Link(all, Key(path[..i]), path[i])
  {
    if i > 0 {
      assert path[..i][i - 1] == path[i - 1];
    }
  }

  /** No category repeats on a path from the top: the recursion cannot run into a cycle. */
  lemma {:induction false} PathNeverRepeats(all: seq<Row>, path: seq<Id>, i: nat, j: nat)
    requires UniqueIds(all) && RootPath(all, path) && i < j < |path|
    ensures path[i] != path[j]
  {
    LinkInto(all, path, i);
    LinkInto(all, path, j);
    assert path[..j][j - 1] == path[j - 1];
    if i > 0 {
      assert path[..i][i - 1] == path[i - 1];
      PathNeverRepeats(all, path, i - 1, j - 1);
    }
    OneParent(all, Key(path[..i]), path[i], Key(path[..j]), path[j]);
  }

  lemma {:induction false} DistinctFits(ids: seq<Id>, bound: set<Id>)
    requires Distinct(ids) && forall x :: x in ids ==> x in bound
    ensures |ids| <= |bound|
  {
    if ids != [] {
      var last := ids[|ids| - 1];
      DistinctFits(ids[..|ids| - 1], bound - {last});
    }
  }

  lemma {:induction false} FewIds(all: seq<Row>)
    ensures |Ids(all)| <= |all|
  {
    if all != [] {
      assert Ids(all) == Ids(all[1..]) + {all[0].id} by {
        assert all == [all[0]] + all[1..];
      }
      FewIds(all[1..]);
    }
  }

  lemma PathFits(all: seq<Row>, path: seq<Id>)
    requires UniqueIds(all) && RootPath(all, path)
    ensures |path| <= |all|
  {
    forall i, j | 0 <= i < j < |path| ensures path[i] != path[j] {
      PathNeverRepeats(all, path, i, j);
    }
    forall x | x in path ensures x in Ids(all) {
      var i :| 0 <= i < |path| && path[i] == x;
      LinkInto(all, path, i);
    }
    DistinctFits(path, Ids(all));
    FewIds(all);
  }

  /** A category has at most one path from the top. */
  lemma {:induction false} PathIsUnique(all: seq<Row>, p: seq<Id>, q: seq<Id>, x: Id)
    requires UniqueIds(all) && EndsAt(all, p, x) && EndsAt(all, q, x)
    ensures p == q
    decreases |p|
  {
    var m, n := |p| - 1, |q| - 1;
    LinkInto(all, p, m);
    LinkInto(all, q, n);
    OneParent(all, Key(p[..m]), x, Key(q[..n]), x);
    if m > 0 {
      PathIsUnique(all, p[..m], q[..n], p[m - 1]);
    }
    assert p == p[..m] + [x] && q == q[..n] + [x];
  }

  lemma ExtendPath(all: seq<Row>, path: seq<Id>, child: Id)
    requires RootPath(all, path) && Link(all, Key(path), child)
    ensures RootPath(all, path + [child])
  {
    var longer := path + [child];
    forall i | 0 < i < |longer| ensures Link(all, Some(longer[i - 1]), longer[i]) {
      if i < |path| {
        assert Link(all, Some(path[i - 1]), path[i]);
      }
    }
  }

  // ---------------------------------------------------------------- the forest

  ghost predicate UnderPath(all: seq<Row>, kids: seq<Row>, path: seq<Id>) {
    forall k :: k in kids ==> Link(all, Key(path), k.id)
  }

  lemma ChildRowsAreLinked(all: seq<Row>, path: seq<Id>)
    ensures UnderPath(all, ChildRows(all, Key(path)), path)
    ensures |ChildRows(all, Key(path))| <= |all|
  {
    FilterShrinks(all, (r: Row) => r.parentId == Key(path));
    forall k | k in ChildRows(all, Key(path)) ensures Link(all, Key(path), k.id) {
      assert k in all;
    }
  }

  /** The nodes below the end of a path from the top. */
  ghost function Build(all: seq<Row>, path: seq<Id>): seq<Tree>
    requires UniqueIds(all) && RootPath(all, path)
    decreases (PathFits(all, path); |all| - |path|), |all| + 1
  {
    ChildRowsAreLinked(all, path);
    BuildList(all, ChildRows(all, Key(path)), path)
  }

  ghost function BuildList(all: seq<Row>, kids: seq<Row>, path: seq<Id>): (nodes: seq<Tree>)
    requires UniqueIds(all) && RootPath(all, path) && UnderPath(all, kids, path)
    ensures |nodes| == |kids|
    ensures forall i :: 0 <= i < |kids| ==> nodes[i].row == kids[i]
    decreases (PathFits(all, path); |all| - |path|), |kids|
  {
    if kids == [] then []
    else
      ExtendPath(all, path, kids[0].id);
      PathFits(all, path + [kids[0].id]);
      [Node(kids[0], Build(all, path + [kids[0].id]))] + BuildList(all, kids[1..], path)
  }

  function Preorder(nodes: seq<Tree>): seq<Id> {
    if nodes == [] then []
    else [nodes[0].row.id] + Preorder(nodes[0].children) + Preorder(nodes[1..])
  }

  /** Every node of a forest, in preorder. */
  function AllNodes(nodes: seq<Tree>): seq<Tree> {
    if nodes == [] then []
    else [nodes[0]] + AllNodes(nodes[0].children) + AllNodes(nodes[1..])
  }

  /** `x` is at the end of a path from the top that continues `path`. */
  ghost predicate Continues(all: seq<Row>, path: seq<Id>, x: Id) {
    exists q :: path <= q && EndsAt(all, q, x)
  }

  lemma ContinuesByChild(all: seq<Row>, path: seq<Id>, x: Id)
    requires RootPath(all, path)
    ensures (exists q :: path < q && EndsAt(all, q, x))
       <==> exists c :: c in ChildRows(all, Key(path)) && Continues(all, path + [c.id], x)
  {
    if q :| path < q && EndsAt(all, q, x) {
      LinkInto(all, q, |path|);
      assert q[..|path|] == path;
      var i :| 0 <= i < |all| && all[i].id == q[|path|] && all[i].parentId == Key(path);
      assert path + [all[i].id] <= q;
      assert all[i] in ChildRows(all, Key(path)) && Continues(all, path + [all[i].id], x);
    }
    if c :| c in ChildRows(all, Key(path)) && Continues(all, path + [c.id], x) {
      var q :| path + [c.id] <= q && EndsAt(all, q, x);
      assert q[..|path|] == path;
      assert path < q;
    }
  }

  /** The ids below a path are the categories whose own path from the top continues it. */
  lemma {:induction false} BuildHolds(all: seq<Row>, path: seq<Id>, x: Id)
    requires UniqueIds(all) && RootPath(all, path)
    ensures x in Preorder(Build(all, path)) <==> exists q :: path < q && EndsAt(all, q, x)
    decreases (PathFits(all, path); |all| - |path|), |all| + 1
  {
    ChildRowsAreLinked(all, path);
    ContinuesByChild(all, path, x);
    BuildListHolds(all, ChildRows(all, Key(path)), path, x);
  }

  lemma {:induction false} BuildListHolds(all: seq<Row>, kids: seq<Row>, path: seq<Id>, x: Id)
    requires UniqueIds(all) && RootPath(all, path) && UnderPath(all, kids, path)
    ensures x in Preorder(BuildList(all, kids, path)) <==> exists c :: c in kids && Continues(all, path + [c.id], x)
    decreases (PathFits(all, path); |all| - |path|), |kids|
  {
    if kids != [] {
      hide EndsAt;
      hide RootPath;
      hide Preorder;
      hide BuildList;
      hide Filter;
      var first := path + [kids[0].id];
      ExtendPath(all, path, kids[0].id);
      PathFits(all, first);
      BuildHolds(all, first, x);
      BuildListHolds(all, kids[1..], path, x);
      ContinuesAtOrBelow(all, first, x);
      PreorderOfList(all, kids, path);
      assert kids == [kids[0]] + kids[1..];
    }
  }

  lemma ContinuesAtOrBelow(all: seq<Row>, path: seq<Id>, x: Id)
    requires RootPath(all, path) && path != []
    ensures Continues(all, path, x) <==> x == path[|path| - 1] || exists q :: path < q && EndsAt(all, q, x)
  {
    if x == path[|path| - 1] {
      assert EndsAt(all, path, x);
    }
    if q :| path <= q && EndsAt(all, q, x) {
      assert q == path || path < q;
    }
  }

  lemma PreorderOfList(all: seq<Row>, kids: seq<Row>, path: seq<Id>)
    requires UniqueIds(all) && RootPath(all, path) && UnderPath(all, kids, path) && kids != []
    requires RootPath(all, path + [kids[0].id])
    ensures Preorder(BuildList(all, kids, path))
         == [kids[0].id] + Preorder(Build(all, path + [kids[0].id])) + Preorder(BuildList(all, kids[1..], path))
    ensures AllNodes(BuildList(all, kids, path))
         == [Node(kids[0], Build(all, path + [kids[0].id]))] + AllNodes(Build(all, path + [kids[0].id]))
            + AllNodes(BuildList(all, kids[1..], path))
  {
    var nodes := BuildList(all, kids, path);
    assert nodes[0] == Node(kids[0], Build(all, path + [kids[0].id]));
    assert nodes[1..] == BuildList(all, kids[1..], path);
  }

  // ---------------------------------------------------------------- each rooted category exactly once

  /** The ids below two different siblings have nothing in common. */
  lemma SiblingsAreApart(all: seq<Row>, path: seq<Id>, a: Id, b: Id, x: Id)
    requires UniqueIds(all) && a != b && Continues(all, path + [a], x)
    ensures !Continues(all, path + [b], x)
  {
    var p :| path + [a] <= p && EndsAt(all, p, x);
    assert p[|path|] == a;
    forall q | path + [b] <= q ensures !EndsAt(all, q, x) {
      assert q[|path|] == b;
      if EndsAt(all, q, x) {
        PathIsUnique(all, p, q, x);
      }
    }
  }

  lemma NotBelowItself(all: seq<Row>, path: seq<Id>, q: seq<Id>)
    requires UniqueIds(all) && path != [] && RootPath(all, path) && path < q
    ensures !EndsAt(all, q, path[|path| - 1])
  {
    if EndsAt(all, q, path[|path| - 1]) {
      PathIsUnique(all, path, q, path[|path| - 1]);
    }
  }

  lemma {:induction false} BuildDistinct(all: seq<Row>, path: seq<Id>)
    requires UniqueIds(all) && RootPath(all, path)
    ensures Distinct(Preorder(Build(all, path)))
    decreases (PathFits(all, path); |all| - |path|), |all| + 1
  {
    ChildRowsAreLinked(all, path);
    FilterKeepsDistinct(all, (r: Row) => r.parentId == Key(path), (r: Row) => r.id);
    BuildListDistinct(all, ChildRows(all, Key(path)), path);
  }

  lemma DistinctConcat(a: seq<Id>, b: seq<Id>)
    requires Distinct(a) && Distinct(b) && forall x :: x in a ==> x !in b
    ensures Distinct(a + b)
  {
    var c := a + b;
    forall i, j | 0 <= i < j < |c| ensures c[i] != c[j] {
      if i < |a| <= j {
        assert c[i] in a && c[j] in b;
      }
    }
  }

  lemma {:induction false} BuildListDistinct(all: seq<Row>, kids: seq<Row>, path: seq<Id>)
    requires UniqueIds(all) && RootPath(all, path) && UnderPath(all, kids, path) && UniqueIds(kids)
    ensures Distinct(Preorder(BuildList(all, kids, path)))
    decreases (PathFits(all, path); |all| - |path|), |kids|
  {
    if kids != [] {
      hide EndsAt;
      hide RootPath;
      hide Preorder;
      hide BuildList;
      hide Filter;
      var first := path + [kids[0].id];
      ExtendPath(all, path, kids[0].id);
      PathFits(all, first);
      PreorderOfList(all, kids, path);
      var below := Preorder(Build(all, first));
      var rest := Preorder(BuildList(all, kids[1..], path));
      BuildDistinct(all, first);
      BuildListDistinct(all, kids[1..], path);
      BuildHolds(all, first, kids[0].id);
      forall q | first < q ensures !EndsAt(all, q, kids[0].id) {
        NotBelowItself(all, first, q);
      }
      DistinctConcat([kids[0].id], below);
      forall x | x in [kids[0].id] + below ensures x !in rest {
        BuildHolds(all, first, x);
        ContinuesAtOrBelow(all, first, x);
        BuildListHolds(all, kids[1..], path, x);
        forall c | c in kids[1..] ensures !Continues(all, path + [c.id], x) {
          SiblingsAreApart(all, path, kids[0].id, c.id, x);
        }
      }
      DistinctConcat([kids[0].id] + below, rest);
    }
  }

  /** The forest holds each category whose parent chain ends at the top exactly once, and no other. */
  lemma ForestHoldsRootedOnce(all: seq<Row>)
    requires UniqueIds(all)
    ensures Distinct(Preorder(Build(all, [])))
    ensures forall x :: x in Preorder(Build(all, [])) <==> Rooted(all, x)
  {
    BuildDistinct(all, []);
    forall x ensures x in Preorder(Build(all, [])) <==> Rooted(all, x) {
      BuildHolds(all, [], x);
      if Rooted(all, x) {
        var path :| EndsAt(all, path, x);
        assert [] < path;
      }
    }
  }

  // ---------------------------------------------------------------- a subtree is the descendants

  lemma ChainSuffix(all: seq<Row>, q: seq<Id>, from: nat)
    requires Chain(all, q) && from <= |q|
    ensures Chain(all, q[from..])
  {
    forall i | 0 < i < |q[from..]| ensures Link(all, Some(q[from..][i - 1]), q[from..][i]) {
      assert Link(all, Some(q[from + i - 1]), q[from + i]);
    }
  }

  lemma ChainJoin(all: seq<Row>, p: seq<Id>, r: seq<Id>)
    requires RootPath(all, p) && p != [] && Chain(all, r) && r != [] && r[0] == p[|p| - 1]
    ensures RootPath(all, p + r[1..])
  {
    var q := p + r[1..];
    forall i | 0 < i < |q| ensures Link(all, Some(q[i - 1]), q[i]) {
      if i < |p| {
        assert Link(all, Some(p[i - 1]), p[i]);
      } else {
        assert Link(all, Some(r[i - |p|]), r[i - |p| + 1]);
      }
    }
  }

  /** What a category reaches is what continues its path from the top. */
  lemma ReachesIsContinues(all: seq<Row>, path: seq<Id>, x: Id)
    requires RootPath(all, path) && path != []
    ensures Reaches(all, path[|path| - 1], x) <==> Continues(all, path, x)
  {
    var c := path[|path| - 1];
    if Reaches(all, c, x) {
      var r :| Leads(all, r, c, x);
      ChainJoin(all, path, r);
      assert EndsAt(all, path + r[1..], x);
    }
    if Continues(all, path, x) {
      var q :| path <= q && EndsAt(all, q, x);
      ChainSuffix(all, q, |path| - 1);
      assert q[..|path|] == path;
      assert Leads(all, q[|path| - 1..], c, x);
    }
  }

  /** A node whose row comes with the children the table gives it and the ids its category reaches. */
  ghost predicate NodeIsRight(all: seq<Row>, node: Tree) {
    && |node.children| == |ChildRows(all, Some(node.row.id))|
    && (forall i :: 0 <= i < |node.children| ==> node.children[i].row == ChildRows(all, Some(node.row.id))[i])
    && (forall x :: x in [node.row.id] + Preorder(node.children) <==> Reaches(all, node.row.id, x))
  }

  lemma BuiltNodeIsRight(all: seq<Row>, path: seq<Id>, row: Row)
    requires UniqueIds(all) && RootPath(all, path) && path != [] && path[|path| - 1] == row.id
    ensures NodeIsRight(all, Node(row, Build(all, path)))
  {
    ChildRowsAreLinked(all, path);
    forall x ensures x in [row.id] + Preorder(Build(all, path)) <==> Reaches(all, row.id, x) {
      BuildHolds(all, path, x);
      ContinuesAtOrBelow(all, path, x);
      ReachesIsContinues(all, path, x);
    }
  }

  lemma {:induction false} BuildNodesRight(all: seq<Row>, path: seq<Id>, node: Tree)
    requires UniqueIds(all) && RootPath(all, path) && node in AllNodes(Build(all, path))
    ensures NodeIsRight(all, node)
    decreases (PathFits(all, path); |all| - |path|), |all| + 1
  {
    ChildRowsAreLinked(all, path);
    BuildListNodesRight(all, ChildRows(all, Key(path)), path, node);
  }

  lemma {:induction false} BuildListNodesRight(all: seq<Row>, kids: seq<Row>, path: seq<Id>, node: Tree)
    requires UniqueIds(all) && RootPath(all, path) && UnderPath(all, kids, path)
    requires node in AllNodes(BuildList(all, kids, path))
    ensures NodeIsRight(all, node)
    decreases (PathFits(all, path); |all| - |path|), |kids|
  {
    if kids != [] {
      hide NodeIsRight;
      hide RootPath;
      var first := path + [kids[0].id];
      ExtendPath(all, path, kids[0].id);
      PathFits(all, first);
      PreorderOfList(all, kids, path);
      BuiltNodeIsRight(all, first, kids[0]);
      if node in AllNodes(Build(all, first)) {
        BuildNodesRight(all, first, node);
      } else if node in AllNodes(BuildList(all, kids[1..], path)) {
        BuildListNodesRight(all, kids[1..], path, node);
      }
    }
  }

  ghost predicate InOrder(rows: seq<Row>) {
    forall i, j :: 0 <= i < j < |rows| ==> rows[i].order <= rows[j].order
  }

  lemma {:induction false} FilterKeepsOrder(all: seq<Row>, keep: Row -> bool)
    requires InOrder(all)
    ensures InOrder(Filter(all, keep))
  {
    if all != [] {
      FilterKeepsOrder(all[1..], keep);
      forall r | r in Filter(all[1..], keep) ensures all[0].order <= r.order {
        assert r in all[1..];
      }
    }
  }

  /**
   * Every node of the forest has exactly the table's children of its category, in the table's
   * order, and its subtree holds exactly what `GetDescendantIds` returns for it.
   */
  lemma EveryNodeIsRight(all: seq<Row>, node: Tree)
    requires UniqueIds(all) && InOrder(all) && node in AllNodes(Build(all, []))
    ensures NodeIsRight(all, node)
    ensures forall i, j :: 0 <= i < j < |node.children| ==> node.children[i].row.order <= node.children[j].row.order
  {
    BuildNodesRight(all, [], node);
    FilterKeepsOrder(all, (r: Row) => r.parentId == Some(node.row.id));
    assert InOrder(ChildRows(all, Some(node.row.id)));
  }

  // ---------------------------------------------------------------- the code that builds it

  /** The top-level categories are in `order`. */
  lemma RootsAreInOrder(all: seq<Row>)
    requires UniqueIds(all) && InOrder(all)
    ensures forall i, j :: 0 <= i < j < |Build(all, [])| ==> Build(all, [])[i].row.order <= Build(all, [])[j].row.order
  {
    FilterKeepsOrder(all, (r: Row) => r.parentId == None);
    ChildRowsAreLinked(all, []);
    assert Build(all, []) == BuildList(all, ChildRows(all, None), []);
  }

  /** The recursion inside `getTree`, over the grouped rows. */
  method BuildLevel(all: seq<Row>, byParent: map<Option<Id>, seq<Row>>, path: seq<Id>) returns (nodes: seq<Tree>)
    requires UniqueIds(all) && RootPath(all, path)
    requires forall p :: Children(byParent, p) == ChildRows(all, p)
    ensures nodes == Build(all, path)
    decreases (PathFits(all, path); |all| - |path|)
  {
    var kids := Children(byParent, Key(path));
    ChildRowsAreLinked(all, path);
    nodes := [];
    var i := |kids|;
    while i > 0
      invariant 0 <= i <= |kids|
      invariant UnderPath(all, kids[i..], path)
      invariant nodes == BuildList(all, kids[i..], path)
    {
      i := i - 1;
      assert kids[i] in kids && kids[i..][1..] == kids[i + 1..];
      assert UnderPath(all, kids[i..], path);
      ExtendPath(all, path, kids[i].id);
      PathFits(all, path + [kids[i].id]);
      var below := BuildLevel(all, byParent, path + [kids[i].id]);
      nodes := [Node(kids[i], below)] + nodes;
    }
    assert kids[0..] == kids;
  }

  method GetTree(all: seq<Row>) returns (forest: seq<Tree>)
    requires UniqueIds(all)
    ensures forest == Build(all, [])
  {
    var byParent := GroupByParent(all);
    forest := BuildLevel(all, byParent, []);
  }
}
