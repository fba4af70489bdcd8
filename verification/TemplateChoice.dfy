/** Where a line goes and which cluster it joins, by the positions at which it agrees with a template. */
module TemplateChoice {
  import opened Numerals
  import opened Options
  import opened TemplateInvariants
  import opened TemplateRuns
  import opened Templates

  /** The positions where the template holds "<*>" or the line's own token. */
  ghost function Agreeing(template: seq<Token>, tokens: seq<Token>): set<nat> {
    set i: nat | i < |tokens| && i < |template| && (template[i] == "<*>" || template[i] == tokens[i])
  }

  lemma {:induction false} Counted(tokens: seq<Token>, template: seq<Token>)
    requires |tokens| == |template|
    ensures Matches(tokens, template) == |Agreeing(template, tokens)|
    ensures Matches(tokens, template) <= |tokens|
    ensures Matches(tokens, template) == |tokens| <==> Covers(template, tokens)
  {
    if tokens != [] {
      var n := |tokens| - 1;
      Counted(tokens[..n], template[..n]);
      var front := Agreeing(template[..n], tokens[..n]);
      assert Agreeing(template, tokens) ==
             if template[n] == "<*>" || template[n] == tokens[n] then front + {n} else front;
      CoversFront(template, tokens);
    }
  }

  lemma CoversFront(template: seq<Token>, tokens: seq<Token>)
    requires |template| == |tokens| > 0
    ensures var n := |tokens| - 1;
            Covers(template, tokens) <==>
            Covers(template[..n], tokens[..n]) && (template[n] == WILDCARD || template[n] == tokens[n])
  {
    var n := |tokens| - 1;
    if Covers(template[..n], tokens[..n]) && (template[n] == WILDCARD || template[n] == tokens[n]) {
      forall i | 0 <= i < |tokens| ensures template[i] == WILDCARD || template[i] == tokens[i] {
        assert i < n ==> template[..n][i] == template[i] && tokens[..n][i] == tokens[i];
      }
    }
    if Covers(template, tokens) {
      forall i | 0 <= i < n ensures template[..n][i] == WILDCARD || template[..n][i] == tokens[..n][i] {
        assert template[i] == WILDCARD || template[i] == tokens[i];
      }
    }
  }

  lemma Quotient(m: real, k: real, n: real, t: real)
    requires n > 0.0
    ensures (m / n) * n == m
    ensures m / n <= k / n <==> m <= k
    ensures m / n >= t <==> m >= t * n
    ensures m / n > 0.0 <==> m > 0.0
    ensures m / n == 1.0 <==> m == n
  {
    assert (m / n) * n == m && (k / n) * n == k;
    OrderScaled(m / n, k / n, n);
    OrderScaled(t, m / n, n);
    OrderScaled(m / n, 0.0, n);
  }

  lemma OrderScaled(a: real, b: real, n: real)
    requires n > 0.0
    ensures a <= b <==> a * n <= b * n
  {
    if a <= b {
      assert (b - a) * n >= 0.0;
    } else {
      assert (a - b) * n > 0.0;
    }
  }

  /** Similarity is the share of agreeing positions: it is 1 exactly if the template covers the line. */
  lemma SimilarityCounts(tokens: seq<Token>, template: seq<Token>)
    requires tokens != [] && |tokens| == |template|
    ensures Similarity(tokens, template) * |tokens| as real == |Agreeing(template, tokens)| as real
    ensures Similarity(tokens, template) == 1.0 <==> Covers(template, tokens)
  {
    hide Matches, Agreeing, Covers;
    Counted(tokens, template);
    Quotient(Matches(tokens, template) as real, 0.0, |tokens| as real, 0.0);
  }

  /** Enough of the line agrees with the template. */
  ghost predicate Qualifies(cfg: Config, template: seq<Token>, tokens: seq<Token>) {
    var n := |Agreeing(template, tokens)|;
    n > 0 && n as real >= cfg.threshold * |tokens| as real
  }

  lemma SimilarityCompares(cfg: Config, tokens: seq<Token>, s: seq<Token>, t: seq<Token>)
    requires tokens != [] && |tokens| == |s| == |t|
    ensures Similarity(tokens, s) <= Similarity(tokens, t) <==> |Agreeing(s, tokens)| <= |Agreeing(t, tokens)|
    ensures Similarity(tokens, s) > 0.0 && Similarity(tokens, s) >= cfg.threshold <==> Qualifies(cfg, s, tokens)
  {
    hide Matches, Agreeing, Covers;
    Counted(tokens, s);
    Counted(tokens, t);
    Quotient(Matches(tokens, s) as real, Matches(tokens, t) as real, |tokens| as real, cfg.threshold);
  }

  /** The k-th cluster of the list is the first that no other agrees with the line more than. */
  ghost predicate FirstMost(clusters: map<Id, Cluster>, ids: seq<Id>, tokens: seq<Token>, k: nat)
    requires forall id | id in ids :: id in clusters
  {
    && k < |ids|
    && (forall j | 0 <= j < |ids| ::
          |Agreeing(clusters[ids[j]].template, tokens)| <= |Agreeing(clusters[ids[k]].template, tokens)|)
    && (forall j | 0 <= j < k ::
          |Agreeing(clusters[ids[j]].template, tokens)| < |Agreeing(clusters[ids[k]].template, tokens)|)
  }

  ghost predicate SameLength(clusters: map<Id, Cluster>, ids: seq<Id>, tokens: seq<Token>) {
    forall id | id in ids :: id in clusters && |clusters[id].template| == |tokens|
  }

  lemma {:induction false} BestIsFirstMost(clusters: map<Id, Cluster>, ids: seq<Id>, tokens: seq<Token>) returns (k: nat)
    requires tokens != [] && SameLength(clusters, ids, tokens)
    ensures var (best, score) := BestOf(clusters, ids, tokens);
            if best.None? then score == 0.0 && forall id | id in ids :: Similarity(tokens, clusters[id].template) <= 0.0
            else
              && k < |ids| && ids[k] == best.value && score == Similarity(tokens, clusters[ids[k]].template) > 0.0
              && (forall j | 0 <= j < |ids| :: Similarity(tokens, clusters[ids[j]].template) <= score)
              && (forall j | 0 <= j < k :: Similarity(tokens, clusters[ids[j]].template) < score)
  {
    hide Similarity;
    k := 0;
    if ids != [] {
      var n := |ids| - 1;
      k := BestIsFirstMost(clusters, ids[..n], tokens);
      assert ids == ids[..n] + [ids[n]];
      if Similarity(tokens, clusters[ids[n]].template) > BestOf(clusters, ids[..n], tokens).1 {
        k := n;
        forall j | 0 <= j < n
          ensures Similarity(tokens, clusters[ids[j]].template) < Similarity(tokens, clusters[ids[n]].template)
        {
          assert ids[..n][j] == ids[j] && ids[j] in ids[..n];
        }
      }
    }
  }

  lemma ChosenByCount(cfg: Config, f: Forest, leaf: Path, tokens: seq<Token>) returns (k: nat)
    requires Indexed(f) && leaf in f.nodes && tokens != [] && SameLength(f.clusters, f.nodes[leaf], tokens)
    ensures var c := Chosen(cfg, f, leaf, tokens);
            var ids := f.nodes[leaf];
            && (c.None? <==> forall id | id in ids :: !Qualifies(cfg, f.clusters[id].template, tokens))
            && (c.Some? ==> FirstMost(f.clusters, ids, tokens, k) && ids[k] == c.value
                            && Qualifies(cfg, f.clusters[ids[k]].template, tokens))
  {
    hide Similarity, BestOf, Agreeing, Qualifies;
    var ids := f.nodes[leaf];
    k := BestIsFirstMost(f.clusters, ids, tokens);
    var (best, score) := BestOf(f.clusters, ids, tokens);
    forall id | id in ids
      ensures Qualifies(cfg, f.clusters[id].template, tokens) <==>
              Similarity(tokens, f.clusters[id].template) > 0.0 && Similarity(tokens, f.clusters[id].template) >= cfg.threshold
    {
      SimilarityCompares(cfg, tokens, f.clusters[id].template, f.clusters[id].template);
    }
    if best.Some? {
      forall j | 0 <= j < |ids|
        ensures |Agreeing(f.clusters[ids[j]].template, tokens)| <= |Agreeing(f.clusters[ids[k]].template, tokens)|
        ensures j < k ==> |Agreeing(f.clusters[ids[j]].template, tokens)| < |Agreeing(f.clusters[ids[k]].template, tokens)|
      {
        SimilarityCompares(cfg, tokens, f.clusters[ids[j]].template, f.clusters[ids[k]].template);
        SimilarityCompares(cfg, tokens, f.clusters[ids[k]].template, f.clusters[ids[j]].template);
      }
      assert ids[k] in ids;
    }
  }

  /** The clusters at the line's leaf, in order. */
  ghost function AtLeaf(cfg: Config, f: Forest, tokens: seq<Token>): (ids: seq<Id>)
    requires Sound(cfg, f) && tokens != []
    ensures SameLength(f.clusters, ids, tokens)
  {
    Routing(cfg, f, tokens);
    RoutedClusters(cfg, f, tokens);
    Routed(cfg, f, tokens).nodes[LeafOf(cfg, f, tokens)]
  }

  lemma RoutedClusters(cfg: Config, f: Forest, tokens: seq<Token>)
    requires Sound(cfg, f) && tokens != []
    ensures Routed(cfg, f, tokens).clusters == f.clusters
  {
    hide Sound, Routed, LeafOf;
    Routing(cfg, f, tokens);
  }

  // A line opens a new cluster exactly if it agrees enough with no template at its leaf; otherwise it joins the first of those
  // it agrees with at the most positions.
  lemma JoinsExactly(cfg: Config, f: Forest, tokens: seq<Token>, victim: Option<Id>) returns (k: nat)
    requires Sound(cfg, f) && tokens != []
    ensures var m := Parse(cfg, f, tokens, victim).1;
            var ids := AtLeaf(cfg, f, tokens);
            && (m.isNew <==> forall id | id in ids :: !Qualifies(cfg, f.clusters[id].template, tokens))
            && (!m.isNew ==> FirstMost(f.clusters, ids, tokens, k) && m.id == ids[k]
                             && Qualifies(cfg, f.clusters[m.id].template, tokens)
                             && (m.changed <==> !Covers(f.clusters[m.id].template, tokens)))
  {
    hide Sound, Routed, LeafOf, Chosen, Qualifies, Merged, Params, Grown, Full, Over, Indexed;
    Routing(cfg, f, tokens);
    RoutedClusters(cfg, f, tokens);
    ChoiceAtLeaf(cfg, f, tokens);
    k := ChosenByCount(cfg, Routed(cfg, f, tokens), LeafOf(cfg, f, tokens), tokens);
    var c := Choice(cfg, f, tokens);
    if c.Some? {
      MergedCovers(f.clusters[c.value].template, tokens);
    }
  }

  /** With a threshold of at most 1, a line that a template at its leaf covers joins one that covers it: nothing new, nothing widened. */
  lemma CoveredJoins(cfg: Config, f: Forest, tokens: seq<Token>, victim: Option<Id>, id: Id)
    requires Sound(cfg, f) && tokens != [] && cfg.threshold <= 1.0
    requires id in AtLeaf(cfg, f, tokens) && Covers(f.clusters[id].template, tokens)
    ensures var m := Parse(cfg, f, tokens, victim).1;
            !m.isNew && !m.changed && m.id in f.clusters && Covers(f.clusters[m.id].template, tokens)
  {
    hide Sound, AtLeaf, Parse, Agreeing, Covers, Matches;
    var ids := AtLeaf(cfg, f, tokens);
    var k := JoinsExactly(cfg, f, tokens, victim);
    Counted(tokens, f.clusters[id].template);
    ThresholdMet(cfg.threshold, |tokens| as real);
    assert Qualifies(cfg, f.clusters[id].template, tokens);
    var j :| 0 <= j < |ids| && ids[j] == id;
    assert ids[k] in ids;
    Counted(tokens, f.clusters[ids[k]].template);
  }

  lemma ThresholdMet(t: real, n: real)
    requires t <= 1.0 && n >= 0.0
    ensures t * n <= n
  {
    OrderOrZero(t, n);
  }

  lemma OrderOrZero(t: real, n: real)
    requires t <= 1.0 && n >= 0.0
    ensures t * n <= 1.0 * n
  {
    if n > 0.0 {
      OrderScaled(t, 1.0, n);
    }
  }

  // ---- Which leaf a line goes to ----

  ghost predicate HasADigit(t: Token) {
    exists i :: 0 <= i < |t| && t[i] in "0123456789"
  }

  /** No child for the token, and no room for one. */
  ghost predicate Crowded(cfg: Config, f: Forest, p: Path, t: Token) {
    |Children(f, p)| >= cfg.maxChildren && p + [t] !in f.nodes
  }

  /** What stands at level i of the path: the token, or "<*>" for a token with a digit or without a place. */
  ghost predicate LevelSpelled(cfg: Config, f: Forest, tokens: seq<Token>, path: Path, i: nat)
    requires i < |tokens| && i + 1 < |path|
  {
    path[i + 1] == if HasADigit(tokens[i]) || Crowded(cfg, f, path[..i + 1], tokens[i]) then "<*>" else tokens[i]
  }

  lemma DigitsLookNumeric(t: Token)
    ensures LooksNumeric(t) <==> HasADigit(t)
  {
    var digits := "0123456789";
    assert forall c: char :: c in digits <==> '0' <= c <= '9';
    if LooksNumeric(t) {
      var c :| c in t && '0' <= c <= '9';
      var i :| 0 <= i < |t| && t[i] == c;
      assert t[i] in digits;
    }
    if HasADigit(t) {
      var i :| 0 <= i < |t| && t[i] in digits;
      assert t[i] in t;
    }
  }

  /** Nodes deeper than p are those of f. */
  ghost predicate DeeperOld(f: Forest, g: Forest, p: Path) {
    && (forall q | q in f.nodes :: q in g.nodes)
    && forall q | q in g.nodes && |q| > |p| :: q in f.nodes
  }

  lemma SameChildren(f: Forest, g: Forest, p: Path)
    requires DeeperOld(f, g, p)
    ensures Children(f, p) == Children(g, p) && forall t :: p + [t] in f.nodes <==> p + [t] in g.nodes
  {
    forall q ensures q in f.nodes && |q| == |p| + 1 && q[..|p|] == p <==> q in g.nodes && |q| == |p| + 1 && q[..|p|] == p {
    }
    forall c ensures c in Children(f, p) <==> c in Children(g, p) {
    }
  }

  lemma {:induction false} DescentSpelled(cfg: Config, f: Forest, tokens: seq<Token>, i: nat)
    requires i <= |tokens|
    ensures var (g, p) := Descended(cfg, f, tokens, i);
            && |p| == i + 1 && p[0] == Itoa(|tokens|) && DeeperOld(f, g, p)
            && forall j | 0 <= j < i :: LevelSpelled(cfg, f, tokens, p, j)
  {
    hide LooksNumeric, HasADigit, Itoa, Children;
    if i > 0 {
      DescentSpelled(cfg, f, tokens, i - 1);
      var (g, p) := Descended(cfg, f, tokens, i - 1);
      var t := tokens[i - 1];
      SameChildren(f, g, p);
      DigitsLookNumeric(t);
      var q := p + [KeyFor(cfg, g, p, t)];
      assert q[..i] == p;
      forall j | 0 <= j < i ensures LevelSpelled(cfg, f, tokens, q, j) {
        if j < i - 1 {
          assert LevelSpelled(cfg, f, tokens, p, j) && q[..j + 1] == p[..j + 1] && q[j + 1] == p[j + 1];
        }
      }
    }
  }

  // The leaf of a line, level by level: its number of tokens, then its leading tokens, with "<*>" for those with a digit and for
  // those a full node has no child for.
  lemma LeafSpelled(cfg: Config, f: Forest, tokens: seq<Token>)
    ensures var leaf := LeafOf(cfg, f, tokens);
            && (cfg.depth <= 2 ==> |leaf| == 1)
            && (cfg.depth > 2 ==> |leaf| - 1 == if cfg.depth - 2 > |tokens| then |tokens| else cfg.depth - 2)
            && |leaf| == 1 + Levels(cfg, |tokens|) && leaf[0] == Itoa(|tokens|)
            && forall i | 0 <= i < Levels(cfg, |tokens|) :: LevelSpelled(cfg, f, tokens, leaf, i)
  {
    hide LevelSpelled, Itoa, DeeperOld;
    DescentSpelled(cfg, f, tokens, Levels(cfg, |tokens|));
  }

  /** Two tokens routed alike where there is room. */
  ghost predicate AlikeTokens(s: Token, t: Token) {
    s == t || (HasADigit(s) && HasADigit(t))
  }

  ghost predicate AlikeLines(cfg: Config, a: seq<Token>, b: seq<Token>) {
    |a| == |b| && forall i | 0 <= i < Levels(cfg, |a|) :: AlikeTokens(a[i], b[i])
  }

  ghost predicate NeverCrowded(cfg: Config, f: Forest, tokens: seq<Token>) {
    forall p, i | 0 <= i < |tokens| :: !Crowded(cfg, f, p, tokens[i])
  }

  /** Where no node is crowded, lines of words other than "<*>" share a leaf exactly if they are as long and lead with like tokens. */
  lemma SameLeafExactly(cfg: Config, f: Forest, a: seq<Token>, b: seq<Token>)
    requires NeverCrowded(cfg, f, a) && NeverCrowded(cfg, f, b) && "<*>" !in a && "<*>" !in b
    ensures LeafOf(cfg, f, a) == LeafOf(cfg, f, b) <==> AlikeLines(cfg, a, b)
  {
    hide HasADigit, LeafOf, Crowded, Itoa, Levels;
    var p, q := LeafOf(cfg, f, a), LeafOf(cfg, f, b);
    LeafSpelled(cfg, f, a);
    LeafSpelled(cfg, f, b);
    ItoaUndone(|a|);
    ItoaUndone(|b|);
    LevelsFit(cfg, |a|);
    if |a| == |b| {
      forall i | 0 <= i < Levels(cfg, |a|) ensures p[i + 1] == q[i + 1] <==> AlikeTokens(a[i], b[i]) {
        assert LevelSpelled(cfg, f, a, p, i) && LevelSpelled(cfg, f, b, q, i);
        assert a[i] in a && b[i] in b;
      }
      if AlikeLines(cfg, a, b) {
        forall k | 0 <= k < |p| ensures p[k] == q[k] {
          if k > 0 {
            assert AlikeTokens(a[k - 1], b[k - 1]);
            assert p[k - 1 + 1] == q[k - 1 + 1];
          }
        }
      }
    }
  }

  lemma LevelsFit(cfg: Config, n: nat)
    ensures Levels(cfg, n) <= n
  {
  }
}
