/** The parse tree as linked nodes with clusters shared between the leaves and the id index, changed in place. */
module TemplateTree {
  import opened Numerals
  import opened Options
  import opened TemplateInvariants
  import opened TemplateRuns
  import opened Templates

  class ClusterNode {
    const id: Id
    var template: seq<Token>
    var count: nat
    var lruGen: nat

    constructor (id: Id, template: seq<Token>)
      ensures this.id == id && this.template == template && count == 0 && lruGen == 0
    {
      this.id, this.template, count, lruGen := id, template, 0, 0;
    }
  }

  class TreeNode {
    ghost const path: Path
    var children: map<string, TreeNode>
    var clusters: seq<ClusterNode>

    constructor (ghost path: Path)
      ensures children == map[] && clusters == [] && this.path == path
    {
      this.path, children, clusters := path, map[], [];
    }
  }

  function Ids(clusters: seq<ClusterNode>): seq<Id> {
    seq(|clusters|, i requires 0 <= i < |clusters| => clusters[i].id)
  }

  /** at gives every node of the tree under its key path; kids and held are the nodes' two fields. */
  type Nodes = map<Path, TreeNode>

  type Kids = map<Path, map<string, TreeNode>>

  type Held = map<Path, seq<ClusterNode>>

  ghost predicate ChildLinked(at: Nodes, p: Path, k: string, child: TreeNode) {
    child.path == p + [k] && p + [k] in at && at[p + [k]] == child
  }

  ghost predicate ParentLinked(kids: Kids, p: Path) {
    p != [] ==> p[..|p| - 1] in kids && p[|p| - 1] in kids[p[..|p| - 1]]
  }

  /** Each node knows its path, and its children are exactly the nodes one key further. */
  ghost predicate Linked(at: Nodes, kids: Kids, root: TreeNode) {
    && kids.Keys == at.Keys && [] in at && at[[]] == root
    && (forall p | p in at :: at[p].path == p && ParentLinked(kids, p))
    && (forall p, k | p in kids && k in kids[p] :: ChildLinked(at, p, k, kids[p][k]))
  }

  /** The index maps exactly the ids of clusters held somewhere to those clusters. */
  ghost predicate Shared(held: Held, clusters: map<Id, ClusterNode>) {
    && (forall p, c | p in held && c in held[p] :: c.id in clusters && clusters[c.id] == c)
    && (forall id | id in clusters :: clusters[id].id == id)
  }

  lemma SharedIds(held: Held, clusters: map<Id, ClusterNode>)
    requires Shared(held, clusters)
    ensures forall id | id in clusters :: clusters[id].id == id
  {
  }

  lemma KeyTaken(at: Nodes, kids: Kids, root: TreeNode, p: Path, key: string)
    requires Linked(at, kids, root) && p in at
    ensures p + [key] in at <==> key in kids[p]
    ensures key in kids[p] ==> kids[p][key] == at[p + [key]]
  {
    if p + [key] in at {
      assert ParentLinked(kids, p + [key]);
      assert (p + [key])[..|p|] == p;
    }
    if key in kids[p] {
      assert ChildLinked(at, p, key, kids[p][key]);
    }
  }

  function KidsWith(kids: Kids, p: Path, key: string, child: TreeNode): Kids
    requires p in kids
  {
    kids[p := kids[p][key := child]][p + [key] := map[]]
  }

  lemma ParentsAdded(kids: Kids, p: Path, key: string, child: TreeNode, q: Path)
    requires p in kids && p + [key] !in kids && q in KidsWith(kids, p, key, child)
    requires q in kids ==> ParentLinked(kids, q)
    ensures ParentLinked(KidsWith(kids, p, key, child), q)
  {
    if q == p + [key] {
      assert q[..|q| - 1] == p;
    } else if q != [] {
      var r := q[..|q| - 1];
      assert r in kids && r != p + [key];
    }
  }

  lemma PathsKnown(at: Nodes, kids: Kids, root: TreeNode)
    requires Linked(at, kids, root)
    ensures forall q | q in at :: at[q].path == q
    ensures [] in at && at[[]] == root
  {
  }

  lemma LinkAdded(at: Nodes, kids: Kids, root: TreeNode, p: Path, key: string, child: TreeNode)
    requires Linked(at, kids, root) && p in at && p + [key] !in at && child.path == p + [key]
    ensures Linked(at[p + [key] := child], KidsWith(kids, p, key, child), root)
  {
    hide ParentLinked;
    var new_ := p + [key];
    var at', kids' := at[new_ := child], KidsWith(kids, p, key, child);
    forall q | q in at' ensures at'[q].path == q && ParentLinked(kids', q) {
      ParentsAdded(kids, p, key, child, q);
    }
    forall q, k | q in kids' && k in kids'[q] ensures ChildLinked(at', q, k, kids'[q][k]) {
      if q != p || k != key {
        assert q != new_;
        assert k in kids[q] && ChildLinked(at, q, k, kids[q][k]);
      }
    }
  }

  lemma HeldAdded(held: Held, clusters: map<Id, ClusterNode>, p: Path)
    requires Shared(held, clusters) && p !in held
    ensures Shared(held[p := []], clusters)
  {
  }

  function HeldIds(held: Held): (ids: map<Path, seq<Id>>)
    ensures ids.Keys == held.Keys
  {
    map p | p in held :: Ids(held[p])
  }

  lemma HeldIdsAdded(held: Held, p: Path)
    ensures HeldIds(held[p := []]) == HeldIds(held)[p := []]
  {
  }

  lemma KidsKeys(at: Nodes, kids: Kids, root: TreeNode)
    requires Linked(at, kids, root)
    ensures kids.Keys == at.Keys
  {
  }

  /** A node's children are the keys its path extends by. */
  lemma KidsAreChildren(at: Nodes, kids: Kids, root: TreeNode, f: Forest, p: Path)
    requires Linked(at, kids, root) && f.nodes.Keys == at.Keys && p in at
    ensures kids[p].Keys == Children(f, p)
  {
    hide Linked;
    KidsKeys(at, kids, root);
    forall k ensures k in kids[p] <==> k in Children(f, p) {
      KeyTaken(at, kids, root, p, k);
      if k in kids[p] {
        var q := p + [k];
        assert q in f.nodes && q[..|p|] == p && q[|p|] == k;
      }
      if k in Children(f, p) {
        var q :| q in f.nodes && |q| == |p| + 1 && q[..|p|] == p && q[|p|] == k;
        assert q == p + [k];
      }
    }
  }

  function CutAt(clusters: seq<ClusterNode>, i: nat): seq<ClusterNode>
    requires i < |clusters|
  {
    clusters[..i] + clusters[i + 1..]
  }

  lemma DroppedViews(held: Held, p: Path, i: nat)
    requires p in held && i < |held[p]|
    ensures HeldIds(held)[p][i] == held[p][i].id
    ensures HeldIds(held[p := CutAt(held[p], i)]) == HeldIds(held)[p := WithoutAt(HeldIds(held)[p], i)]
  {
    assert Ids(CutAt(held[p], i)) == WithoutAt(Ids(held[p]), i);
  }

  lemma CutShared(held: Held, clusters: map<Id, ClusterNode>, p: Path, i: nat)
    requires Shared(held, clusters) && p in held && i < |held[p]|
    ensures Shared(held[p := CutAt(held[p], i)], clusters)
  {
  }

  /** What is cut from its leaf is held nowhere else. */
  lemma DroppedElsewhere(held: Held, clusters: map<Id, ClusterNode>, f: Forest, p: Path, i: nat)
    requires Shared(held, clusters) && Placed(f) && f.nodes == HeldIds(held) && p in held && i < |held[p]|
    ensures var held' := held[p := CutAt(held[p], i)]; forall q, c | q in held' && c in held'[q] :: c.id != held[p][i].id
  {
    var id, held' := held[p][i].id, held[p := CutAt(held[p], i)];
    assert held[p][i] in held[p] && f.nodes[p][i] == id && At(f, p, id);
    forall q: Path, c: ClusterNode | q in held' && c in held'[q] ensures c.id != id {
      if q == p {
        var k :| 0 <= k < |held'[p]| && held'[p][k] == c;
        var l := if k < i then k else k + 1;
        assert held[p][l] == c && l != i;
        assert f.nodes[p][l] == c.id;
        assert NoRepeats(f.nodes[p]);
      } else {
        var k :| 0 <= k < |held[q]| && held[q][k] == c;
        assert f.nodes[q][k] == c.id && At(f, q, c.id);
      }
    }
  }

  lemma AddedShared(held: Held, clusters: map<Id, ClusterNode>, p: Path, c: ClusterNode)
    requires Shared(held, clusters) && p in held && c.id !in clusters
    ensures Shared(held[p := held[p] + [c]], clusters[c.id := c])
    ensures HeldIds(held[p := held[p] + [c]]) == HeldIds(held)[p := HeldIds(held)[p] + [c.id]]
  {
    assert Ids(held[p] + [c]) == Ids(held[p]) + [c.id];
  }

  /** Every prefix of a node's path is a node's path. */
  lemma {:induction false} PrefixIsNode(at: Nodes, kids: Kids, root: TreeNode, q: Path, j: nat)
    requires Linked(at, kids, root) && q in at && j <= |q|
    ensures q[..j] in at
    decreases |q|
  {
    if j < |q| {
      assert ParentLinked(kids, q);
      PrefixIsNode(at, kids, root, q[..|q| - 1], j);
      assert q[..|q| - 1][..j] == q[..j];
    } else {
      assert q[..j] == q;
    }
  }

  /** Nodes with clusters have nothing below them. */
  ghost predicate LeafOnly(nodes: map<Path, seq<Id>>) {
    forall p, q | p in nodes && q in nodes && p < q :: nodes[p] == []
  }

  ghost predicate NotUnder(nodes: map<Path, seq<Id>>, p: Path, id: Id) {
    forall q | q in nodes && p <= q :: id !in nodes[q]
  }

  lemma SoundLeafOnly(cfg: Config, f: Forest, at: Nodes, kids: Kids, root: TreeNode)
    requires Shaped(cfg, f) && Linked(at, kids, root) && f.nodes.Keys == at.Keys
    ensures LeafOnly(f.nodes)
  {
    forall p, q | p in f.nodes && q in f.nodes && p < q ensures f.nodes[p] == [] {
      PrefixIsNode(at, kids, root, q, |p| + 1);
      var c := q[..|p| + 1];
      assert c in f.nodes && c[..|p|] == p;
      assert c[|p|] in Children(f, p);
      if f.nodes[p] != [] {
        NeverBoth(cfg, f, p);
      }
    }
  }

  /** A node below p is at or below one of p's children. */
  lemma BelowAChild(at: Nodes, kids: Kids, root: TreeNode, p: Path, q: Path)
    requires Linked(at, kids, root) && p in at && q in at && p < q
    ensures q[|p|] in kids[p] && p + [q[|p|]] <= q
  {
    PrefixIsNode(at, kids, root, q, |p| + 1);
    assert q[..|p| + 1] == p + [q[|p|]];
    KeyTaken(at, kids, root, p, q[|p|]);
  }

  lemma NotUnderAll(at: Nodes, kids: Kids, root: TreeNode, nodes: map<Path, seq<Id>>, p: Path, id: Id)
    requires Linked(at, kids, root) && nodes.Keys == at.Keys && p in at && id !in nodes[p]
    requires forall k | k in kids[p] :: NotUnder(nodes, p + [k], id)
    ensures NotUnder(nodes, p, id)
  {
    hide Linked;
    forall q | q in nodes && p <= q ensures id !in nodes[q] {
      if q != p {
        assert p < q;
        BelowAChild(at, kids, root, p, q);
        assert NotUnder(nodes, p + [q[|p|]], id);
      }
    }
  }

  lemma LeafNotUnder(nodes: map<Path, seq<Id>>, p: Path, id: Id)
    requires LeafOnly(nodes) && p in nodes && nodes[p] != [] && id !in nodes[p]
    ensures NotUnder(nodes, p, id)
  {
    forall q | q in nodes && p <= q ensures id !in nodes[q] {
      assert q == p || p < q;
    }
  }

  function Under(at: Nodes, p: Path): set<Path> {
    set q | q in at && p <= q
  }

  lemma UnderShrinks(at: Nodes, p: Path, k: string)
    requires p in at
    ensures Under(at, p + [k]) < Under(at, p)
  {
    forall q | q in Under(at, p + [k]) ensures q in Under(at, p) {
      assert p <= p + [k] <= q;
    }
    assert p in Under(at, p) && p !in Under(at, p + [k]);
  }

  ghost predicate CutAtPlace(nodes: map<Path, seq<Id>>, nodes': map<Path, seq<Id>>, id: Id, q: Path, i: nat) {
    q in nodes && i < |nodes[q]| && nodes[q][i] == id && nodes' == nodes[q := WithoutAt(nodes[q], i)]
  }

  /** One occurrence of id was cut, from one node. */
  ghost predicate CutSomewhere(nodes: map<Path, seq<Id>>, nodes': map<Path, seq<Id>>, id: Id) {
    exists q: Path, i: nat :: CutAtPlace(nodes, nodes', id, q, i)
  }

  lemma {:induction false} WithoutIsCut(ids: seq<Id>, i: nat)
    requires i < |ids| && NoRepeats(ids)
    ensures Without(ids, ids[i]) == WithoutAt(ids, i)
  {
    var n := |ids| - 1;
    if i == n {
      WithoutAbsent(ids[..n], ids[n]);
    } else {
      WithoutIsCut(ids[..n], i);
      assert WithoutAt(ids, i) == WithoutAt(ids[..n], i) + [ids[n]];
    }
  }

  lemma {:induction false} WithoutAbsent(ids: seq<Id>, id: Id)
    requires id !in ids
    ensures Without(ids, id) == ids
  {
    if ids != [] {
      WithoutAbsent(ids[..|ids| - 1], id);
    }
  }

  /** In a tree that places every cluster once, cutting it somewhere is cutting it everywhere. */
  lemma CutIsEverywhere(f: Forest, nodes': map<Path, seq<Id>>, id: Id)
    requires Placed(f) && CutSomewhere(f.nodes, nodes', id)
    ensures nodes' == EvictEverywhere(f, id).nodes
  {
    var q: Path, i: nat :| CutAtPlace(f.nodes, nodes', id, q, i);
    assert At(f, q, id);
    forall p | p in f.nodes ensures nodes'[p] == Without(f.nodes[p], id) {
      if p == q {
        WithoutIsCut(f.nodes[q], i);
      } else {
        assert !At(f, p, id);
        WithoutAbsent(f.nodes[p], id);
      }
    }
  }

  method HasDigit(token: Token) returns (numeric: bool)
    ensures numeric == LooksNumeric(token)
  {
    for i := 0 to |token|
      invariant forall j | 0 <= j < i :: !('0' <= token[j] <= '9')
    {
      if '0' <= token[i] <= '9' {
        assert token[i] in token;
        return true;
      }
    }
    numeric := false;
  }

  /** similarity */
  method SimilarityOf(tokens: seq<Token>, template: seq<Token>) returns (score: real)
    requires tokens != []
    ensures score == Similarity(tokens, template)
  {
    if |tokens| != |template| {
      return 0.0;
    }
    var matches := 0;
    for i := 0 to |tokens|
      invariant matches == Matches(tokens[..i], template[..i])
    {
      assert tokens[..i + 1][..i] == tokens[..i] && template[..i + 1][..i] == template[..i];
      if template[i] == WILDCARD || template[i] == tokens[i] {
        matches := matches + 1;
      }
    }
    assert tokens[..|tokens|] == tokens && template[..|tokens|] == template;
    score := matches as real / |tokens| as real;
  }

  /** merge, on a template of the same length. */
  method MergeInto(template: seq<Token>, tokens: seq<Token>) returns (merged: seq<Token>, widened: bool)
    requires |template| == |tokens|
    ensures merged == Merged(template, tokens) && |merged| == |template| && (widened <==> merged != template)
  {
    merged, widened := template, false;
    for i := 0 to |tokens|
      invariant |merged| == |template|
      invariant forall j | 0 <= j < i :: merged[j] == Merged(template, tokens)[j]
      invariant forall j | i <= j < |template| :: merged[j] == template[j]
      invariant widened <==> exists j :: 0 <= j < i && merged[j] != template[j]
    {
      if merged[i] != WILDCARD && merged[i] != tokens[i] {
        merged, widened := merged[i := WILDCARD], true;
        assert merged[i] != template[i];
      }
    }
  }

  /** extractParams */
  method ExtractParams(tokens: seq<Token>, template: seq<Token>) returns (params: seq<Token>)
    requires |tokens| == |template|
    ensures params == Params(tokens, template)
  {
    params := [];
    for i := 0 to |template|
      invariant params == Params(tokens[..i], template[..i])
    {
      assert tokens[..i + 1][..i] == tokens[..i] && template[..i + 1][..i] == template[..i];
      if template[i] == WILDCARD {
        params := params + [tokens[i]];
      }
    }
    assert tokens[..|tokens|] == tokens && template[..|template|] == template;
  }

  class Drain {
    const cfg: Config
    const root: TreeNode
    var nextId: nat
    var nextGen: nat
    var clusters: map<Id, ClusterNode>
    ghost var at: Nodes

    ghost function KidsOf(): Kids
      reads this`at, at.Values`children
    {
      map p | p in at :: at[p].children
    }

    ghost function HeldBy(): Held
      reads this`at, at.Values`clusters
    {
      map p | p in at :: at[p].clusters
    }

    ghost function ClustersView(): map<Id, Cluster>
      reads this`clusters, clusters.Values
    {
      map id | id in clusters :: Cluster(clusters[id].template, clusters[id].count, clusters[id].lruGen)
    }

    ghost predicate Valid()
      reads this`at, this`clusters, at.Values
    {
      Linked(at, KidsOf(), root) && Shared(HeldBy(), clusters)
    }

    ghost function View(): Forest
      reads this, at.Values, clusters.Values
    {
      Forest(HeldIds(HeldBy()), ClustersView(), nextId, nextGen)
    }

    lemma FieldsAt(p: Path)
      requires p in at
      ensures KidsOf().Keys == at.Keys && KidsOf()[p] == at[p].children
      ensures HeldBy().Keys == at.Keys && HeldBy()[p] == at[p].clusters
    {
    }

    constructor (cfg: Config)
      ensures Valid() && fresh(at.Values) && fresh(clusters.Values) && View() == BARE && this.cfg == cfg
    {
      this.cfg := cfg;
      var r := new TreeNode([]);
      root, nextId, nextGen, clusters := r, 0, 0, map[];
      at := map[[] := r];
      new;
      assert KidsOf() == map[[] := map[]] && HeldBy() == map[[] := []];
      assert HeldIds(map[[] := []]) == map[[] := []];
    }

    method AddChild(ghost p: Path, n: TreeNode, key: string) returns (child: TreeNode)
      requires p in at && at[p] == n && p + [key] !in at && forall q | q in at :: at[q].path == q
      modifies this`at, n`children
      ensures fresh(child) && child.path == p + [key] && at == old(at)[p + [key] := child]
      ensures KidsOf() == KidsWith(old(KidsOf()), p, key, child) && HeldBy() == old(HeldBy())[p + [key] := []]
    {
      hide KidsOf, HeldBy;
      FieldsAt(p);
      child := new TreeNode(p + [key]);
      SetChild(p, n, key, child);
      Enter(p + [key], child);
    }

    ghost method Enter(p: Path, child: TreeNode)
      requires p !in at && child.children == map[] && child.clusters == []
      modifies this`at
      ensures at == old(at)[p := child]
      ensures KidsOf() == old(KidsOf())[p := map[]] && HeldBy() == old(HeldBy())[p := []]
    {
      at := at[p := child];
    }

    method SetChild(ghost p: Path, n: TreeNode, key: string, child: TreeNode)
      requires p in at && at[p] == n && forall q | q in at :: at[q].path == q
      modifies n`children
      ensures n.children == old(n.children)[key := child]
      ensures KidsOf() == old(KidsOf())[p := old(n.children)[key := child]] && HeldBy() == old(HeldBy())
    {
      n.children := n.children[key := child];
    }

    /** childFor: the child under a key, made if missing. */
    method ChildFor(ghost p: Path, n: TreeNode, key: string) returns (child: TreeNode)
      requires Valid() && p in at && at[p] == n
      modifies this`at, n`children
      ensures Valid() && fresh(at.Values - old(at.Values))
      ensures p + [key] in at && at[p + [key]] == child
      ensures at == (if p + [key] in old(at) then old(at) else old(at)[p + [key] := child])
      ensures HeldBy() == (if p + [key] in old(at) then old(HeldBy()) else old(HeldBy())[p + [key] := []])
    {
      hide Linked, Shared;
      ghost var kids, held, before := KidsOf(), HeldBy(), at;
      KeyTaken(at, kids, root, p, key);
      if key in n.children {
        return n.children[key];
      }
      PathsKnown(at, kids, root);
      child := AddChild(p, n, key);
      LinkAdded(before, kids, root, p, key, child);
      HeldAdded(held, clusters, p + [key]);
    }

    method ChildOf(ghost p: Path, n: TreeNode, key: string) returns (child: TreeNode)
      requires Valid() && p in at && at[p] == n
      modifies this`at, n`children
      ensures Valid() && fresh(at.Values - old(at.Values)) && old(at.Keys) <= at.Keys
      ensures p + [key] in at && at[p + [key]] == child
      ensures forall q | q in old(at) :: at[q] == old(at)[q]
      ensures View() == WithNode(old(View()), p + [key])
    {
      hide Linked, Shared, KidsOf, HeldBy, ClustersView, HeldIds, Valid;
      HeldIdsAdded(HeldBy(), p + [key]);
      FieldsAt(p);
      child := ChildFor(p, n, key);
    }

    /** The key a token is routed by at a node. */
    method KeyAt(ghost p: Path, n: TreeNode, token: Token) returns (key: string)
      requires Valid() && p in at && at[p] == n
      ensures key == KeyFor(cfg, View(), p, token)
    {
      hide Linked, Shared, LooksNumeric, Children;
      KidsAreChildren(at, KidsOf(), root, View(), p);
      KeyTaken(at, KidsOf(), root, p, token);
      key := token;
      var numeric := HasDigit(token);
      if numeric {
        key := WILDCARD;
      } else if |n.children| >= cfg.maxChildren {
        assert |n.children| == |n.children.Keys|;
        if token !in n.children {
          key := WILDCARD;
        }
      }
    }

    /** descend: by length, then by leading tokens. */
    method Descend(tokens: seq<Token>) returns (leaf: TreeNode, ghost p: Path)
      requires Valid() && tokens != []
      modifies this`at, at.Values`children
      ensures Valid() && fresh(at.Values - old(at.Values))
      ensures p in at && at[p] == leaf && (View(), p) == Leaf(cfg, old(View()), tokens)
    {
      hide Linked, Shared, KidsOf, HeldBy, ClustersView, KeyFor, WithNode, Valid, View, Itoa;
      RootAt();
      leaf := ChildOf([], root, Itoa(|tokens|));
      p := [Itoa(|tokens|)];
      assert [] + [Itoa(|tokens|)] == p;
      var levels := if cfg.depth - 2 < 0 then 0 else cfg.depth - 2;
      if levels > |tokens| {
        levels := |tokens|;
      }
      for i := 0 to levels
        invariant Valid() && fresh(at.Values - old(at.Values)) && p in at && at[p] == leaf
        invariant (View(), p) == Descended(cfg, old(View()), tokens, i)
      {
        var key := KeyAt(p, leaf, tokens[i]);
        leaf := ChildOf(p, leaf, key);
        p := p + [key];
      }
    }

    lemma RootAt()
      requires Valid()
      ensures [] in at && at[[]] == root
    {
    }

    /** The leaf's first cluster with the highest positive similarity. */
    method FindBest(ghost p: Path, leaf: TreeNode, tokens: seq<Token>) returns (best: Option<ClusterNode>, score: real)
      requires Valid() && p in at && at[p] == leaf && Indexed(View()) && tokens != []
      ensures (match best case None => None case Some(c) => Some(c.id), score) ==
              BestOf(View().clusters, View().nodes[p], tokens)
      ensures best.Some? ==> best.value.id in clusters && clusters[best.value.id] == best.value
    {
      hide Linked, Similarity;
      best, score := None, 0.0;
      ghost var ids := View().nodes[p];
      assert ids[..0] == [] && |ids| == |leaf.clusters|;
      for i := 0 to |leaf.clusters|
        invariant (match best case None => None case Some(c) => Some(c.id), score) ==
                  BestOf(View().clusters, ids[..i], tokens)
        invariant best.Some? ==> best.value.id in clusters && clusters[best.value.id] == best.value
      {
        var c := leaf.clusters[i];
        assert c in leaf.clusters && ids[i] == c.id && clusters[c.id] == c;
        assert ids[..i + 1][..i] == ids[..i];
        var s := SimilarityOf(tokens, c.template);
        if s > score {
          best, score := Some(c), s;
        }
      }
      assert ids[..|ids|] == ids;
    }

    method Rewrite(c: ClusterNode, template: seq<Token>)
      requires c.id in clusters && clusters[c.id] == c && forall id | id in clusters :: clusters[id].id == id
      modifies c
      ensures c.template == template && c.lruGen == nextGen && c.count == old(c.count) + 1
      ensures ClustersView() == old(ClustersView())[c.id := Cluster(template, old(c.count) + 1, nextGen)]
    {
      c.template, c.lruGen, c.count := template, nextGen, c.count + 1;
    }

    method Overwrite(c: ClusterNode, template: seq<Token>)
      requires Valid() && c.id in clusters && clusters[c.id] == c
      modifies c
      ensures Valid() && c.template == template
      ensures View() == old(View()).(clusters := old(View()).clusters[c.id := Cluster(template, old(c.count) + 1, nextGen)])
    {
      hide Linked, Shared, HeldIds, HeldBy, KidsOf, ClustersView;
      SharedIds(HeldBy(), clusters);
      Rewrite(c, template);
    }

    /** touch, first half: a new generation. */
    method Stamp()
      requires Valid()
      modifies this`nextGen
      ensures Valid() && View() == old(View()).(nextGen := NextGen(old(View()))) && nextGen == View().nextGen
    {
      hide Linked, Shared, HeldIds, HeldBy, KidsOf, ClustersView;
      nextGen := (nextGen + 1) % GEN_SPACE;
    }

    lemma ViewsCluster(id: Id)
      requires id in clusters
      ensures View().clusters[id] == Cluster(clusters[id].template, clusters[id].count, clusters[id].lruGen)
    {
    }

    /** Match an existing cluster: generalize its template in place, stamp it and count the line. */
    method Join(c: ClusterNode, tokens: seq<Token>) returns (widened: bool)
      requires Valid() && c.id in clusters && clusters[c.id] == c && |c.template| == |tokens|
      modifies this`nextGen, c
      ensures Valid() && View() == Matched(old(View()), c.id, tokens)
      ensures (widened <==> c.template != old(c.template)) && c.template == Merged(old(c.template), tokens)
      ensures |c.template| == |tokens|
    {
      hide Valid, View, Merged;
      ViewsCluster(c.id);
      var merged, changed := MergeInto(c.template, tokens);
      widened := changed;
      Stamp();
      Overwrite(c, merged);
    }

    /** evictLeafLRU: the first least recently matched cluster of the leaf goes, from the leaf and the index. */
    method EvictLeafLRU(ghost p: Path, leaf: TreeNode)
      requires Valid() && p in at && at[p] == leaf && leaf.clusters != [] && Placed(View()) && Indexed(View())
      modifies this`clusters, leaf`clusters
      ensures Valid() && View() == EvictLeaf(old(View()), p)
    {
      hide Linked, Placed;
      ghost var ids := View().nodes[p];
      var oldestIdx, oldestGen := 0, leaf.clusters[0].lruGen;
      assert leaf.clusters[0] in leaf.clusters && ids[..1] == [ids[0]];
      for i := 1 to |leaf.clusters|
        invariant oldestIdx == OldestIn(View().clusters, ids[..i])
        invariant oldestGen == View().clusters[ids[oldestIdx]].gen
      {
        assert leaf.clusters[i] in leaf.clusters;
        assert ids[..i + 1][..i] == ids[..i];
        if leaf.clusters[i].lruGen < oldestGen {
          oldestGen, oldestIdx := leaf.clusters[i].lruGen, i;
        }
      }
      assert ids[..|ids|] == ids;
      DropAt(p, leaf, oldestIdx);
    }

    method Cut(ghost p: Path, leaf: TreeNode, i: nat)
      requires p in at && at[p] == leaf && i < |leaf.clusters| && forall q | q in at :: at[q].path == q
      modifies leaf`clusters
      ensures HeldBy() == old(HeldBy())[p := CutAt(old(HeldBy())[p], i)]
    {
      leaf.clusters := CutAt(leaf.clusters, i);
    }

    method CutFrom(ghost p: Path, leaf: TreeNode, i: nat)
      requires Valid() && p in at && at[p] == leaf && i < |leaf.clusters|
      modifies leaf`clusters
      ensures Valid() && HeldBy() == old(HeldBy())[p := CutAt(old(HeldBy())[p], i)]
      ensures View() == old(View()).(nodes := old(View()).nodes[p := WithoutAt(old(View()).nodes[p], i)])
    {
      hide Linked, Shared, HeldIds, KidsOf, ClustersView, HeldBy, CutAt, WithoutAt;
      PathsKnown(at, KidsOf(), root);
      FieldsAt(p);
      DroppedViews(HeldBy(), p, i);
      CutShared(HeldBy(), clusters, p, i);
      Cut(p, leaf, i);
    }

    method Forget(id: Id)
      requires Valid() && forall p, c | p in HeldBy() && c in HeldBy()[p] :: c.id != id
      modifies this`clusters
      ensures Valid() && View() == old(View()).(clusters := old(View()).clusters - {id})
    {
      hide Linked, HeldIds, HeldBy, KidsOf;
      clusters := clusters - {id};
    }

    method DropAt(ghost p: Path, leaf: TreeNode, i: nat)
      requires Valid() && p in at && at[p] == leaf && i < |leaf.clusters| && Placed(View())
      modifies this`clusters, leaf`clusters
      ensures Valid() && at == old(at)
      ensures View() == old(View()).(nodes := old(View()).nodes[p := WithoutAt(old(View()).nodes[p], i)],
                                     clusters := old(View()).clusters - {old(View()).nodes[p][i]})
    {
      hide Linked, Shared, HeldIds, KidsOf, ClustersView, HeldBy, Placed, CutAt, WithoutAt;
      FieldsAt(p);
      DroppedViews(HeldBy(), p, i);
      DroppedElsewhere(HeldBy(), clusters, View(), p, i);
      var evictedId := leaf.clusters[i].id;
      CutFrom(p, leaf, i);
      Forget(evictedId);
    }

    method Append(ghost p: Path, leaf: TreeNode, c: ClusterNode)
      requires p in at && at[p] == leaf && forall q | q in at :: at[q].path == q
      modifies leaf`clusters
      ensures HeldBy() == old(HeldBy())[p := old(HeldBy())[p] + [c]]
    {
      leaf.clusters := leaf.clusters + [c];
    }

    method Insert(ghost p: Path, leaf: TreeNode, c: ClusterNode)
      requires Valid() && p in at && at[p] == leaf && c.id !in clusters
      modifies this`clusters, leaf`clusters
      ensures Valid() && clusters == old(clusters)[c.id := c]
      ensures View() == old(View()).(nodes := old(View()).nodes[p := old(View()).nodes[p] + [c.id]],
                                     clusters := old(View()).clusters[c.id := Cluster(c.template, c.count, c.lruGen)])
    {
      hide Linked, Shared, HeldIds, KidsOf, HeldBy;
      FieldsAt(p);
      PathsKnown(at, KidsOf(), root);
      AddedShared(HeldBy(), clusters, p, c);
      Append(p, leaf, c);
      clusters := clusters[c.id := c];
    }

    /** A new cluster for the line, with the next id, stamped before any eviction looks at it. */
    method Create(ghost p: Path, leaf: TreeNode, tokens: seq<Token>) returns (c: ClusterNode)
      requires Valid() && p in at && at[p] == leaf && NextId(View()) !in clusters
      modifies this`clusters, this`nextId, this`nextGen, leaf`clusters
      ensures Valid() && fresh(c) && clusters == old(clusters)[c.id := c] && c.id == NextId(old(View()))
      ensures c.template == tokens && View() == Created(old(View()), p, tokens)
    {
      hide Linked, Shared, HeldIds, KidsOf, HeldBy, ClustersView;
      nextId := (nextId + 1) % ID_SPACE;
      nextGen := (nextGen + 1) % GEN_SPACE;
      c := new ClusterNode(nextId, tokens);
      c.lruGen, c.count := nextGen, 1;
      Insert(p, leaf, c);
    }

    /** The first loop of removeClusterFromTree: cut the cluster from a leaf that has it. */
    method CutFromLeaf(ghost p: Path, leaf: TreeNode, id: Id) returns (found: bool)
      requires Valid() && p in at && at[p] == leaf
      modifies leaf`clusters
      ensures Valid()
      ensures !found ==> View() == old(View()) && id !in View().nodes[p]
      ensures found ==> CutSomewhere(old(View()).nodes, View().nodes, id) && View() == old(View()).(nodes := View().nodes)
    {
      hide Linked, Shared, HeldIds, KidsOf, HeldBy, ClustersView, WithoutAt;
      NodeIds(p);
      ghost var ids := View().nodes[p];
      for i := 0 to |leaf.clusters|
        invariant Valid() && View() == old(View()) && leaf.clusters == old(leaf.clusters)
        invariant forall j | 0 <= j < i :: ids[j] != id
      {
        if leaf.clusters[i].id == id {
          ghost var before := View().nodes;
          CutFrom(p, leaf, i);
          assert CutAtPlace(before, View().nodes, id, p, i);
          return true;
        }
      }
      found := false;
    }

    lemma NodeIds(p: Path)
      requires p in at
      ensures View().nodes.Keys == at.Keys && View().nodes[p] == Ids(at[p].clusters)
    {
    }

    /** removeClusterFromTree: search the tree below a node for the cluster and cut it from its leaf. */
    method RemoveClusterFromTree(ghost p: Path, n: TreeNode, id: Id) returns (found: bool)
      requires Valid() && p in at && at[p] == n && LeafOnly(View().nodes)
      modifies at.Values`clusters
      ensures Valid()
      ensures !found ==> View() == old(View()) && NotUnder(View().nodes, p, id)
      ensures found ==> CutSomewhere(old(View()).nodes, View().nodes, id) && View() == old(View()).(nodes := View().nodes)
      decreases Under(at, p)
    {
      hide Linked, Shared, HeldIds, KidsOf, HeldBy, ClustersView, View, Valid, CutSomewhere, NotUnder, Under;
      NodeIds(p);
      FieldsAt(p);
      ghost var kids := KidsOf();
      ValidLinked();
      if n.clusters != [] {
        found := CutFromLeaf(p, n, id);
        if !found {
          LeafNotUnder(View().nodes, p, id);
        }
        return;
      }
      var rest := n.children.Keys;
      while rest != {}
        invariant Valid() && View() == old(View()) && rest <= n.children.Keys
        invariant forall k | k in n.children && k !in rest :: NotUnder(View().nodes, p + [k], id)
        decreases |rest|
      {
        var k :| k in rest;
        rest := rest - {k};
        KeyTaken(at, kids, root, p, k);
        UnderShrinks(at, p, k);
        found := RemoveClusterFromTree(p + [k], n.children[k], id);
        if found {
          return;
        }
      }
      NotUnderAll(at, kids, root, View().nodes, p, id);
      found := false;
    }

    lemma ValidLinked()
      requires Valid()
      ensures Linked(at, KidsOf(), root)
    {
    }

    /** The tree's least recently matched cluster; map order does not matter, as no two share a generation. */
    method FindOldest() returns (id: Id)
      requires Stamped(View()) && clusters != map[] && View().nextGen < GEN_SPACE - 1
      ensures Oldest(View(), id)
    {
      var oldest: Option<Id>, oldestGen := None, GEN_SPACE - 1;
      var rest := clusters.Keys;
      while rest != {}
        invariant rest <= clusters.Keys
        invariant match oldest
                  case None => rest == clusters.Keys && oldestGen == GEN_SPACE - 1
                  case Some(o) => o in clusters && clusters[o].lruGen == oldestGen
        invariant forall x | x in clusters && x !in rest :: oldestGen <= clusters[x].lruGen
        decreases |rest|
      {
        var x :| x in rest;
        rest := rest - {x};
        assert View().clusters[x].gen == clusters[x].lruGen;
        if clusters[x].lruGen < oldestGen {
          oldest, oldestGen := Some(x), clusters[x].lruGen;
        }
      }
      id := oldest.value;
    }

    /** evictLRU; the cluster is always found in the tree. */
    method EvictLRU() returns (victim: Id)
      requires Valid() && Sound(cfg, View()) && clusters != map[] && View().nextGen < GEN_SPACE - 1
      modifies this`clusters, at.Values`clusters
      ensures Valid() && Oldest(old(View()), victim) && View() == EvictEverywhere(old(View()), victim)
    {
      hide Linked, Shared, HeldIds, KidsOf, HeldBy, ClustersView, View, Valid, CutSomewhere, Shaped, LeavesCapped, Stamped;
      victim := FindOldest();
      RootAt();
      NodeIds([]);
      ValidLinked();
      SoundLeafOnly(cfg, View(), at, KidsOf(), root);
      var found := RemoveClusterFromTree([], root, victim);
      ghost var p :| At(old(View()), p, victim);
      assert [] <= p;
      assert found;
      CutIsEverywhere(old(View()), View().nodes, victim);
      GoneEverywhere(old(View()), victim);
      NotHeld(victim);
      Forget(victim);
    }

    /** The rest of Parse when no cluster at the leaf is similar enough. */
    method AddCluster(ghost p: Path, leaf: TreeNode, tokens: seq<Token>)
      returns (c: ClusterNode, evicted: bool, ghost victim: Option<Id>)
      requires Valid() && Sound(cfg, View()) && Room(View()) && p in at && at[p] == leaf
      requires tokens != [] && |p| == 1 + Levels(cfg, |tokens|) && p[0] == Itoa(|tokens|)
      modifies this`clusters, this`nextId, this`nextGen, at.Values`clusters
      ensures Valid() && Indexed(old(View()))
      ensures var h := Created(MadeRoom(cfg, old(View()), p), p, tokens);
              && c.id == h.nextId && c.template == tokens
              && (victim.Some? <==> |h.clusters| > cfg.maxTemplates) && (victim.Some? ==> Oldest(h, victim.value))
              && evicted == (LeafFull(cfg, old(View()), p) || victim.Some?)
              && View() == if victim.Some? then EvictEverywhere(h, victim.value) else h
    {
      hide Linked, Shared, HeldIds, KidsOf, HeldBy, ClustersView, View, Valid, Sound, OldestIn, NextId, NextGen, EvictEverywhere, Levels, Itoa;
      victim := None;
      SoundIndexed(cfg, View());
      NodeIds(p);
      evicted := cfg.maxClustersPerLeaf > 0 && |leaf.clusters| >= cfg.maxClustersPerLeaf;
      if evicted {
        SoundPlaced(cfg, View());
        EvictingLeaf(cfg, View(), p);
        RoomMade(cfg, View(), p);
        EvictLeafLRU(p, leaf);
      }
      NextPlain(View());
      ClusterKeys();
      Creating(cfg, View(), p, tokens);
      c := Create(p, leaf, tokens);
      ClusterKeys();
      if |clusters| > cfg.maxTemplates {
        var gone := EvictLRU();
        victim, evicted := Some(gone), true;
      }
    }

    lemma ClusterKeys()
      ensures View().clusters.Keys == clusters.Keys && |View().clusters| == |clusters|
    {
      assert |View().clusters| == |View().clusters.Keys| && |clusters| == |clusters.Keys|;
    }

    /** findOrCreate, with the count and the parameters Parse adds. */
    method FindOrCreate(ghost p: Path, leaf: TreeNode, tokens: seq<Token>) returns (m: Match, ghost victim: Option<Id>)
      requires Valid() && Sound(cfg, View()) && Indexed(View()) && Room(View()) && p in at && at[p] == leaf
      requires tokens != [] && |p| == 1 + Levels(cfg, |tokens|) && p[0] == Itoa(|tokens|)
      requires p in View().nodes
      requires forall id | id in View().nodes[p] :: id in View().clusters && |View().clusters[id].template| == |tokens|
      modifies this`clusters, this`nextId, this`nextGen, at.Values`clusters, clusters.Values
      ensures Valid()
      ensures var g := old(View());
              match Chosen(cfg, g, p, tokens)
              case Some(id) =>
                && victim == None && id in g.clusters && |g.clusters[id].template| == |tokens|
                && View() == Matched(g, id, tokens)
                && var template := Merged(g.clusters[id].template, tokens);
                   m == Match(id, template, Params(tokens, template), false, false, template != g.clusters[id].template)
              case None =>
                var h := Created(MadeRoom(cfg, g, p), p, tokens);
                && (victim.Some? <==> |h.clusters| > cfg.maxTemplates) && (victim.Some? ==> Oldest(h, victim.value))
                && View() == (if victim.Some? then EvictEverywhere(h, victim.value) else h)
                && m == Match(h.nextId, tokens, Params(tokens, tokens), true, LeafFull(cfg, g, p) || victim.Some?, true)
    {
      hide Linked, Shared, HeldIds, KidsOf, HeldBy, ClustersView, View, Valid, Sound, EvictEverywhere, Levels, Itoa, Merged,
           Params, BestOf, Matched, Created, MadeRoom, Oldest, Room, LeafFull;
      victim := None;
      ChosenIsBest(cfg, View(), p, tokens);
      var best, score := FindBest(p, leaf, tokens);
      if best.Some? && score >= cfg.threshold {
        var c := best.value;
        assert clusters[c.id] in clusters.Values;
        ViewsCluster(c.id);
        var changed := Join(c, tokens);
        var params := ExtractParams(tokens, c.template);
        m := Match(c.id, c.template, params, false, false, changed);
      } else {
        var c, evicted, gone := AddCluster(p, leaf, tokens);
        victim := gone;
        var params := ExtractParams(tokens, c.template);
        m := Match(c.id, c.template, params, true, evicted, true);
      }
    }

    /** Parse: route the line, then join the most similar cluster or make a new one. */
    method Parse(fields: seq<Token>) returns (m: Match, ghost victim: Option<Id>)
      requires Valid() && Sound(cfg, View()) && Room(View())
      modifies this, at.Values, clusters.Values
      ensures Valid() && TemplateRuns.VictimOf(cfg, old(View()), Tokens(fields), victim)
      ensures (View(), m) == TemplateRuns.Parse(cfg, old(View()), Tokens(fields), victim)
    {
      hide Linked, Shared, HeldIds, KidsOf, HeldBy, ClustersView, View, Valid, Sound, EvictEverywhere, Levels, Itoa, Descended,
           Merged, Params, BestOf, Chosen, Created, MadeRoom, Oldest, LeafFull, NextGen;
      var tokens := if fields == [] then [""] else fields;
      ghost var before := View();
      Routing(cfg, before, tokens);
      ChoiceAtLeaf(cfg, before, tokens);
      var leaf, p := Descend(tokens);
      m, victim := FindOrCreate(p, leaf, tokens);
    }

    lemma NotHeld(id: Id)
      requires forall p | p in View().nodes :: id !in View().nodes[p]
      ensures forall p, c | p in HeldBy() && c in HeldBy()[p] :: c.id != id
    {
      forall p, c | p in HeldBy() && c in HeldBy()[p] ensures c.id != id {
        var k :| 0 <= k < |HeldBy()[p]| && HeldBy()[p][k] == c;
        assert View().nodes[p][k] == c.id;
      }
    }
  }

  lemma SoundPlaced(cfg: Config, f: Forest)
    requires Sound(cfg, f)
    ensures Placed(f)
  {
  }

  lemma GoneEverywhere(f: Forest, id: Id)
    requires Placed(f)
    ensures forall p | p in f.nodes :: id !in EvictEverywhere(f, id).nodes[p]
  {
    forall p | p in f.nodes ensures id !in EvictEverywhere(f, id).nodes[p] {
      WithoutKeeps(f.nodes[p], id);
    }
  }
}
