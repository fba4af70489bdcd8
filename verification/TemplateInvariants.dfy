/** What every parsed line keeps of the template tree: its shape, its index, its caps and its recency stamps. */
module TemplateInvariants {
  import opened Numerals
  import opened Options
  import opened Templates

  ghost predicate At(f: Forest, p: Path, id: Id) {
    p in f.nodes && id in f.nodes[p]
  }

  ghost predicate NoRepeats(ids: seq<Id>) {
    forall i, j | 0 <= i < j < |ids| :: ids[i] != ids[j]
  }

  /** A node on the branch for lines of n tokens; only the deepest level holds clusters, all of n tokens. */
  ghost predicate OnBranch(cfg: Config, f: Forest, p: Path, n: nat)
    requires p in f.nodes
  {
    && n >= 1 && |p| >= 1 && p[0] == Itoa(n) && |p| <= 1 + Levels(cfg, n)
    && (f.nodes[p] != [] ==> |p| == 1 + Levels(cfg, n))
    && forall id | id in f.nodes[p] :: id in f.clusters && |f.clusters[id].template| == n
  }

  ghost predicate NodeFine(cfg: Config, f: Forest, p: Path)
    requires p in f.nodes
  {
    if p == [] then f.nodes[p] == [] else p[..|p| - 1] in f.nodes && exists n: nat :: OnBranch(cfg, f, p, n)
  }

  ghost predicate Shaped(cfg: Config, f: Forest) {
    [] in f.nodes && forall p | p in f.nodes :: NodeFine(cfg, f, p)
  }

  /** The index is the disjoint union of the leaves' lists. */
  ghost predicate Placed(f: Forest) {
    && (forall p, id | At(f, p, id) :: id in f.clusters)
    && (forall id | id in f.clusters :: exists p :: At(f, p, id))
    && (forall p, q, id | At(f, p, id) && At(f, q, id) :: p == q)
    && (forall p | p in f.nodes :: NoRepeats(f.nodes[p]))
  }

  /** Ids and generations have been handed out, and no two clusters share a generation. */
  ghost predicate Stamped(f: Forest) {
    && (forall id | id in f.clusters :: 1 <= id <= f.nextId && f.clusters[id].gen <= f.nextGen)
    && (forall a, b | a in f.clusters && b in f.clusters && f.clusters[a].gen == f.clusters[b].gen :: a == b)
  }

  ghost predicate LeavesCapped(cfg: Config, f: Forest) {
    forall p | p in f.nodes :: cfg.maxClustersPerLeaf > 0 ==> |f.nodes[p]| <= cfg.maxClustersPerLeaf
  }

  ghost predicate Sound(cfg: Config, f: Forest) {
    Shaped(cfg, f) && Placed(f) && Stamped(f) && LeavesCapped(cfg, f)
  }

  /** No node holds both children and clusters. */
  lemma NeverBoth(cfg: Config, f: Forest, p: Path)
    requires Shaped(cfg, f) && p in f.nodes && f.nodes[p] != []
    ensures Children(f, p) == {}
  {
    forall q | q in f.nodes && |q| == |p| + 1 ensures q[..|p|] != p {
      if q[..|p|] == p {
        assert NodeFine(cfg, f, p) && NodeFine(cfg, f, q);
        var m: nat :| OnBranch(cfg, f, p, m);
        var n: nat :| OnBranch(cfg, f, q, n);
        assert q[0] == p[0];
        ItoaInjective(m, n);
      }
    }
  }

  /** All clusters at a full-depth node have templates of that length. */
  lemma LeafLengths(cfg: Config, f: Forest, p: Path, n: nat)
    requires Shaped(cfg, f) && p in f.nodes && |p| >= 1 && p[0] == Itoa(n)
    ensures forall id | id in f.nodes[p] :: id in f.clusters && |f.clusters[id].template| == n
  {
    assert NodeFine(cfg, f, p);
    var m: nat :| OnBranch(cfg, f, p, m);
    ItoaInjective(m, n);
  }

  // ---- Descending only adds empty nodes ----

  ghost predicate OnlyAddsNodes(f: Forest, g: Forest) {
    && g.clusters == f.clusters && g.nextId == f.nextId && g.nextGen == f.nextGen
    && (forall p | p in f.nodes :: p in g.nodes && g.nodes[p] == f.nodes[p])
    && (forall p | p in g.nodes && p !in f.nodes :: g.nodes[p] == [])
  }

  lemma AddingKeepsFine(cfg: Config, f: Forest, g: Forest, p: Path)
    requires OnlyAddsNodes(f, g) && p in f.nodes && NodeFine(cfg, f, p)
    ensures NodeFine(cfg, g, p)
  {
    if p != [] {
      var n: nat :| OnBranch(cfg, f, p, n);
      assert OnBranch(cfg, g, p, n);
    }
  }

  lemma AddingNode(cfg: Config, f: Forest, p: Path, n: nat)
    requires Sound(cfg, f) && p != [] && p[..|p| - 1] in f.nodes
    requires n >= 1 && p[0] == Itoa(n) && |p| <= 1 + Levels(cfg, n)
    ensures Sound(cfg, WithNode(f, p)) && OnlyAddsNodes(f, WithNode(f, p))
  {
    hide Levels, Itoa, NodeFine;
    var g := WithNode(f, p);
    assert Shaped(cfg, g) by {
      forall q | q in g.nodes ensures NodeFine(cfg, g, q) {
        if q in f.nodes {
          AddingKeepsFine(cfg, f, g, q);
        } else {
          FreshFine(cfg, g, p, n);
        }
      }
    }
    assert forall q, id | At(g, q, id) :: At(f, q, id);
    assert forall q, id | At(f, q, id) :: At(g, q, id);
  }

  lemma FreshFine(cfg: Config, g: Forest, p: Path, n: nat)
    requires p in g.nodes && p != [] && p[..|p| - 1] in g.nodes && g.nodes[p] == []
    requires n >= 1 && p[0] == Itoa(n) && |p| <= 1 + Levels(cfg, n)
    ensures NodeFine(cfg, g, p)
  {
    assert OnBranch(cfg, g, p, n);
  }

  lemma AddsTwice(f: Forest, g: Forest, h: Forest)
    requires OnlyAddsNodes(f, g) && OnlyAddsNodes(g, h)
    ensures OnlyAddsNodes(f, h)
  {
  }

  lemma {:induction false} Descending(cfg: Config, f: Forest, tokens: seq<Token>, i: nat)
    requires Sound(cfg, f) && i <= Levels(cfg, |tokens|) && tokens != []
    ensures var (g, p) := Descended(cfg, f, tokens, i);
            Sound(cfg, g) && OnlyAddsNodes(f, g) && p in g.nodes && |p| == 1 + i && p[0] == Itoa(|tokens|)
  {
    hide Sound, OnlyAddsNodes, KeyFor, Itoa;
    if i == 0 {
      var p := [Itoa(|tokens|)];
      assert p[..0] == [];
      RootIn(cfg, f);
      AddingNode(cfg, f, p, |tokens|);
    } else {
      Descending(cfg, f, tokens, i - 1);
      var (g, p) := Descended(cfg, f, tokens, i - 1);
      var q := p + [KeyFor(cfg, g, p, tokens[i - 1])];
      assert q[..|q| - 1] == p;
      AddingNode(cfg, g, q, |tokens|);
      AddsTwice(f, g, WithNode(g, q));
    }
  }

  lemma RootIn(cfg: Config, f: Forest)
    requires Sound(cfg, f)
    ensures [] in f.nodes
  {
  }

  // ---- Lists losing one id ----

  lemma WithoutAtKeeps(ids: seq<Id>, i: nat)
    requires i < |ids| && NoRepeats(ids)
    ensures NoRepeats(WithoutAt(ids, i)) && |WithoutAt(ids, i)| == |ids| - 1
    ensures forall x :: x in WithoutAt(ids, i) <==> x in ids && x != ids[i]
  {
    var r := WithoutAt(ids, i);
    assert ids == ids[..i] + [ids[i]] + ids[i + 1..];
    forall x | x in ids && x != ids[i] ensures x in r {
      var k :| 0 <= k < |ids| && ids[k] == x;
      assert x == r[if k < i then k else k - 1];
    }
    forall k | 0 <= k < |r| ensures r[k] in ids && r[k] != ids[i] {
      assert r[k] == ids[if k < i then k else k + 1];
    }
  }

  lemma {:induction false} WithoutKeeps(ids: seq<Id>, id: Id)
    requires NoRepeats(ids)
    ensures NoRepeats(Without(ids, id)) && |Without(ids, id)| <= |ids|
    ensures forall x :: x in Without(ids, id) <==> x in ids && x != id
  {
    if ids != [] {
      var n := |ids| - 1;
      WithoutKeeps(ids[..n], id);
      assert ids == ids[..n] + [ids[n]];
      assert ids[n] !in ids[..n] && ids[n] !in Without(ids[..n], id);
    }
  }

  /** g's lists are parts of f's, over the same nodes. */
  ghost predicate Thinner(f: Forest, g: Forest) {
    && g.nodes.Keys == f.nodes.Keys
    && forall p, id | At(g, p, id) ::
         At(f, p, id) && id in f.clusters && id in g.clusters && |g.clusters[id].template| == |f.clusters[id].template|
  }

  lemma ThinnerShaped(cfg: Config, f: Forest, g: Forest)
    requires Shaped(cfg, f) && Thinner(f, g)
    ensures Shaped(cfg, g)
  {
    hide Levels, Itoa;
    forall p | p in g.nodes ensures NodeFine(cfg, g, p) {
      assert NodeFine(cfg, f, p);
      assert g.nodes[p] != [] ==> At(g, p, g.nodes[p][0]);
      assert forall id | id in g.nodes[p] :: At(g, p, id);
      if p != [] {
        var n: nat :| OnBranch(cfg, f, p, n);
        assert OnBranch(cfg, g, p, n);
      }
    }
  }

  // ---- Joining a cluster ----

  lemma {:induction false} BestIsThere(clusters: map<Id, Cluster>, ids: seq<Id>, tokens: seq<Token>)
    requires tokens != [] && forall id | id in ids :: id in clusters
    ensures var (best, score) := BestOf(clusters, ids, tokens);
            && (best.Some? ==> best.value in ids && score == Similarity(tokens, clusters[best.value].template))
            && score >= 0.0 && (best.None? ==> score == 0.0)
            && forall id | id in ids :: Similarity(tokens, clusters[id].template) <= score
  {
    hide Similarity;
    if ids != [] {
      var n := |ids| - 1;
      BestIsThere(clusters, ids[..n], tokens);
      assert ids == ids[..n] + [ids[n]];
    }
  }

  /** The chosen cluster is at the leaf, reaches the threshold, and none there is more similar; otherwise none reaches it. */
  lemma ChosenIsBest(cfg: Config, f: Forest, leaf: Path, tokens: seq<Token>)
    requires Indexed(f) && leaf in f.nodes && tokens != []
    ensures var c := Chosen(cfg, f, leaf, tokens);
            && (c.Some? ==>
                  && c.value in f.nodes[leaf] && Similarity(tokens, f.clusters[c.value].template) >= cfg.threshold
                  && forall id | id in f.nodes[leaf] ::
                       Similarity(tokens, f.clusters[id].template) <= Similarity(tokens, f.clusters[c.value].template))
            && (c.None? ==> forall id | id in f.nodes[leaf] ::
                  Similarity(tokens, f.clusters[id].template) <= 0.0 || Similarity(tokens, f.clusters[id].template) < cfg.threshold)
  {
    hide Similarity, BestOf;
    BestIsThere(f.clusters, f.nodes[leaf], tokens);
    var (best, score) := BestOf(f.clusters, f.nodes[leaf], tokens);
    forall id | id in f.nodes[leaf] && (best.None? || score < cfg.threshold)
      ensures Similarity(tokens, f.clusters[id].template) <= 0.0 || Similarity(tokens, f.clusters[id].template) < cfg.threshold
    {
    }
  }

  lemma SoundIndexed(cfg: Config, f: Forest)
    requires Sound(cfg, f)
    ensures Indexed(f)
  {
    forall p, id | p in f.nodes && id in f.nodes[p] ensures id in f.clusters {
      assert At(f, p, id);
    }
  }

  lemma Matching(cfg: Config, f: Forest, id: Id, tokens: seq<Token>)
    requires Sound(cfg, f) && id in f.clusters && |f.clusters[id].template| == |tokens| && f.nextGen + 1 < GEN_SPACE
    ensures Sound(cfg, Matched(f, id, tokens))
  {
    hide NodeFine, Merged, NextGen;
    NextPlain(f);
    var g := Matched(f, id, tokens);
    MergedCovers(f.clusters[id].template, tokens);
    SoundIndexed(cfg, f);
    ThinnerShaped(cfg, f, g);
    assert forall p, x | At(g, p, x) :: At(f, p, x);
    assert forall p, x | At(f, p, x) :: At(g, p, x);
  }

  // ---- Eviction ----

  lemma {:induction false} OldestInIsOldest(clusters: map<Id, Cluster>, ids: seq<Id>)
    requires ids != [] && forall id | id in ids :: id in clusters
    ensures forall id | id in ids :: clusters[ids[OldestIn(clusters, ids)]].gen <= clusters[id].gen
  {
    if |ids| > 1 {
      var n := |ids| - 1;
      OldestInIsOldest(clusters, ids[..n]);
      assert ids == ids[..n] + [ids[n]];
    }
  }

  /** Dropping an id from its one leaf and from the index. */
  ghost predicate Drops(f: Forest, g: Forest, id: Id) {
    && id in f.clusters && g.clusters == f.clusters - {id} && g.nextId == f.nextId && g.nextGen == f.nextGen
    && g.nodes.Keys == f.nodes.Keys
    && forall p | p in f.nodes ::
         && NoRepeats(g.nodes[p]) && |g.nodes[p]| <= |f.nodes[p]|
         && forall x :: x in g.nodes[p] <==> x in f.nodes[p] && x != id
  }

  lemma Dropping(cfg: Config, f: Forest, g: Forest, id: Id)
    requires Sound(cfg, f) && Drops(f, g, id)
    ensures Sound(cfg, g)
  {
    hide NodeFine, NoRepeats;
    SoundIndexed(cfg, f);
    ThinnerShaped(cfg, f, g);
    assert forall p, x :: At(g, p, x) <==> At(f, p, x) && x != id;
    forall x | x in g.clusters ensures exists p :: At(g, p, x) {
      var p :| At(f, p, x);
      assert At(g, p, x);
    }
  }

  lemma EvictingLeaf(cfg: Config, f: Forest, leaf: Path)
    requires Sound(cfg, f) && Indexed(f) && leaf in f.nodes && f.nodes[leaf] != []
    ensures Sound(cfg, EvictLeaf(f, leaf)) && |EvictLeaf(f, leaf).nodes[leaf]| == |f.nodes[leaf]| - 1
    ensures Drops(f, EvictLeaf(f, leaf), f.nodes[leaf][OldestIn(f.clusters, f.nodes[leaf])])
  {
    hide NodeFine, NoRepeats, OldestIn, WithoutAt;
    var ids := f.nodes[leaf];
    var i := OldestIn(f.clusters, ids);
    var g := EvictLeaf(f, leaf);
    WithoutAtKeeps(ids, i);
    assert At(f, leaf, ids[i]);
    forall p, x | p in f.nodes && p != leaf && x in f.nodes[p] ensures x != ids[i] {
      assert At(f, p, x);
    }
    Dropping(cfg, f, g, ids[i]);
  }

  lemma EvictingEverywhere(cfg: Config, f: Forest, id: Id)
    requires Sound(cfg, f) && id in f.clusters
    ensures Sound(cfg, EvictEverywhere(f, id)) && Drops(f, EvictEverywhere(f, id), id)
    ensures |EvictEverywhere(f, id).clusters| == |f.clusters| - 1
  {
    hide NodeFine, NoRepeats, Without;
    var g := EvictEverywhere(f, id);
    forall p | p in f.nodes
      ensures NoRepeats(g.nodes[p]) && |g.nodes[p]| <= |f.nodes[p]| && forall x :: x in g.nodes[p] <==> x in f.nodes[p] && x != id
    {
      WithoutKeeps(f.nodes[p], id);
    }
    Dropping(cfg, f, g, id);
    assert g.clusters.Keys == f.clusters.Keys - {id};
  }

  // ---- Creating a cluster ----

  lemma NextPlain(f: Forest)
    ensures f.nextId + 1 < ID_SPACE ==> NextId(f) == f.nextId + 1
    ensures f.nextGen + 1 < GEN_SPACE ==> NextGen(f) == f.nextGen + 1
  {
  }

  lemma CreatedStamped(f: Forest, leaf: Path, tokens: seq<Token>)
    requires Stamped(f) && leaf in f.nodes && f.nextId + 1 < ID_SPACE && f.nextGen + 1 < GEN_SPACE
    ensures Stamped(Created(f, leaf, tokens)) && NextId(f) !in f.clusters
  {
    hide NextId, NextGen;
    NextPlain(f);
  }

  lemma CreatedCapped(cfg: Config, f: Forest, leaf: Path, tokens: seq<Token>)
    requires LeavesCapped(cfg, f) && leaf in f.nodes && !LeafFull(cfg, f, leaf)
    ensures LeavesCapped(cfg, Created(f, leaf, tokens))
  {
    hide NextId, NextGen;
  }

  lemma Creating(cfg: Config, f: Forest, leaf: Path, tokens: seq<Token>)
    requires Sound(cfg, f) && leaf in f.nodes && tokens != [] && !LeafFull(cfg, f, leaf)
    requires |leaf| == 1 + Levels(cfg, |tokens|) && leaf[0] == Itoa(|tokens|)
    requires f.nextId + 1 < ID_SPACE && f.nextGen + 1 < GEN_SPACE
    ensures Sound(cfg, Created(f, leaf, tokens))
    ensures NextId(f) !in f.clusters && |Created(f, leaf, tokens).clusters| == |f.clusters| + 1
  {
    hide Levels, Itoa, Shaped, Placed, Stamped, LeavesCapped, NextId, NextGen;
    CreatedStamped(f, leaf, tokens);
    CreatedCapped(cfg, f, leaf, tokens);
    CreatedShaped(cfg, f, leaf, tokens);
    CreatedPlaced(cfg, f, leaf, tokens);
    assert Created(f, leaf, tokens).clusters.Keys == f.clusters.Keys + {NextId(f)};
  }

  lemma CreatedShaped(cfg: Config, f: Forest, leaf: Path, tokens: seq<Token>)
    requires Shaped(cfg, f) && leaf in f.nodes && tokens != [] && NextId(f) !in f.clusters
    requires |leaf| == 1 + Levels(cfg, |tokens|) && leaf[0] == Itoa(|tokens|)
    ensures Shaped(cfg, Created(f, leaf, tokens))
  {
    hide Levels, Itoa;
    var g, id := Created(f, leaf, tokens), NextId(f);
    forall p | p in g.nodes ensures NodeFine(cfg, g, p) {
      assert NodeFine(cfg, f, p);
      if p == leaf {
        LeafLengths(cfg, f, leaf, |tokens|);
        assert OnBranch(cfg, g, p, |tokens|);
      } else if p != [] {
        var n: nat :| OnBranch(cfg, f, p, n);
        assert OnBranch(cfg, g, p, n);
      }
    }
  }

  lemma CreatedPlaced(cfg: Config, f: Forest, leaf: Path, tokens: seq<Token>)
    requires Placed(f) && leaf in f.nodes && NextId(f) !in f.clusters
    ensures Placed(Created(f, leaf, tokens))
  {
    var g, id := Created(f, leaf, tokens), NextId(f);
    assert forall p, x :: At(g, p, x) <==> At(f, p, x) || (p == leaf && x == id);
    assert !At(f, leaf, id);
    assert id !in f.nodes[leaf];
    assert At(g, leaf, id);
    forall x | x in g.clusters ensures exists p :: At(g, p, x) {
      if x != id {
        var p :| At(f, p, x);
        assert At(g, p, x);
      }
    }
  }
}
