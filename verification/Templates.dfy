// Online log-template extraction as a value: the paths of the parse tree with the cluster ids at its leaves, and the
// index of clusters by id. Ids and generations wrap at the widths the program uses.
module Templates {
  import opened Numerals
  import opened Options

  type Token = string

  type Path = seq<string>

  type Id = nat

  const WILDCARD := "<*>"
  const ID_SPACE := 0x1_0000_0000
  const GEN_SPACE := 0x1_0000_0000_0000_0000

  datatype Config = Config(
    depth: int, threshold: real, maxChildren: int, maxTemplates: int, maxClustersPerLeaf: int)

  datatype Cluster = Cluster(template: seq<Token>, count: nat, gen: nat)

  /** nodes has every node of the tree under its key path, with the clusters it holds in order. */
  datatype Forest = Forest(nodes: map<Path, seq<Id>>, clusters: map<Id, Cluster>, nextId: nat, nextGen: nat)

  const BARE := Forest(map[[] := []], map[], 0, 0)

  // ---- Tokens and templates ----

  predicate LooksNumeric(t: Token) {
    exists c :: c in t && '0' <= c <= '9'
  }

  function Matches(tokens: seq<Token>, template: seq<Token>): nat
    requires |tokens| == |template|
  {
    if tokens == [] then 0
    else
      var n := |tokens| - 1;
      Matches(tokens[..n], template[..n]) + (if template[n] == WILDCARD || template[n] == tokens[n] then 1 else 0)
  }

  function Similarity(tokens: seq<Token>, template: seq<Token>): real
    requires tokens != []
  {
    if |tokens| != |template| then 0.0 else Matches(tokens, template) as real / |tokens| as real
  }

  /** The template with every disagreeing position generalized. */
  function Merged(template: seq<Token>, tokens: seq<Token>): seq<Token>
    requires |template| == |tokens|
  {
    seq(|template|, i requires 0 <= i < |template| =>
      if template[i] != WILDCARD && template[i] != tokens[i] then WILDCARD else template[i])
  }

  /** The tokens at the template's wildcard positions. */
  function Params(tokens: seq<Token>, template: seq<Token>): seq<Token>
    requires |tokens| == |template|
  {
    if tokens == [] then []
    else
      var n := |tokens| - 1;
      Params(tokens[..n], template[..n]) + (if template[n] == WILDCARD then [tokens[n]] else [])
  }

  function Wildcards(template: seq<Token>): nat {
    if template == [] then 0
    else Wildcards(template[..|template| - 1]) + (if template[|template| - 1] == WILDCARD then 1 else 0)
  }

  /** The line a template and its parameters stand for. */
  function Filled(template: seq<Token>, params: seq<Token>): seq<Token>
    requires |params| == Wildcards(template)
  {
    if template == [] then []
    else
      var n := |template| - 1;
      if template[n] == WILDCARD then Filled(template[..n], params[..|params| - 1]) + [params[|params| - 1]]
      else Filled(template[..n], params) + [template[n]]
  }

  ghost predicate Covers(template: seq<Token>, tokens: seq<Token>) {
    |template| == |tokens| && forall i | 0 <= i < |tokens| :: template[i] == WILDCARD || template[i] == tokens[i]
  }

  /** w differs from t only where t's literal became a wildcard. */
  ghost predicate Widens(w: seq<Token>, t: seq<Token>) {
    |w| == |t| && forall i | 0 <= i < |t| :: w[i] == t[i] || w[i] == WILDCARD
  }

  /** Template and parameters together give the line back. */
  lemma {:induction false} ParamsRoundTrip(template: seq<Token>, tokens: seq<Token>)
    requires Covers(template, tokens)
    ensures |Params(tokens, template)| == Wildcards(template) && Filled(template, Params(tokens, template)) == tokens
  {
    if tokens != [] {
      var n := |tokens| - 1;
      ParamsRoundTrip(template[..n], tokens[..n]);
      var front := Params(tokens[..n], template[..n]);
      assert (front + [tokens[n]])[..|front|] == front && front + [] == front;
      assert tokens == tokens[..n] + [tokens[n]];
    }
  }

  lemma MergedCovers(template: seq<Token>, tokens: seq<Token>)
    requires |template| == |tokens|
    ensures Covers(Merged(template, tokens), tokens) && Widens(Merged(template, tokens), template)
    ensures forall line | Covers(template, line) :: Covers(Merged(template, tokens), line)
    ensures Merged(template, tokens) == template <==> Covers(template, tokens)
  {
  }

  // ---- Descending ----

  /** How many leading tokens a line of n tokens is routed by. */
  function Levels(cfg: Config, n: nat): nat {
    var levels := if cfg.depth - 2 < 0 then 0 else cfg.depth - 2;
    if levels > n then n else levels
  }

  function Children(f: Forest, p: Path): set<string> {
    set q | q in f.nodes && |q| == |p| + 1 && q[..|p|] == p :: q[|p|]
  }

  /** Numeric-looking tokens, and new tokens at a full node, go to the wildcard child. */
  function KeyFor(cfg: Config, f: Forest, p: Path, t: Token): string {
    if LooksNumeric(t) then WILDCARD
    else if |Children(f, p)| >= cfg.maxChildren && p + [t] !in f.nodes then WILDCARD
    else t
  }

  function WithNode(f: Forest, p: Path): Forest {
    if p in f.nodes then f else f.(nodes := f.nodes[p := []])
  }

  /** The node reached after the length level and the first i leading tokens, created where missing. */
  function Descended(cfg: Config, f: Forest, tokens: seq<Token>, i: nat): (Forest, Path)
    requires i <= |tokens|
  {
    if i == 0 then
      var p := [Itoa(|tokens|)];
      (WithNode(f, p), p)
    else
      var (g, p) := Descended(cfg, f, tokens, i - 1);
      var q := p + [KeyFor(cfg, g, p, tokens[i - 1])];
      (WithNode(g, q), q)
  }

  // ---- Finding, creating, evicting ----

  /** The first cluster with the highest positive similarity, and that similarity. */
  function BestOf(clusters: map<Id, Cluster>, ids: seq<Id>, tokens: seq<Token>): (Option<Id>, real)
    requires tokens != [] && forall id | id in ids :: id in clusters
  {
    if ids == [] then (None, 0.0)
    else
      var last := ids[|ids| - 1];
      var (best, score) := BestOf(clusters, ids[..|ids| - 1], tokens);
      var s := Similarity(tokens, clusters[last].template);
      if s > score then (Some(last), s) else (best, score)
  }

  /** Position of the first least recently matched cluster. */
  function OldestIn(clusters: map<Id, Cluster>, ids: seq<Id>): (r: nat)
    requires ids != [] && forall id | id in ids :: id in clusters
    ensures r < |ids|
  {
    if |ids| == 1 then 0
    else
      var n := |ids| - 1;
      var before := OldestIn(clusters, ids[..n]);
      if clusters[ids[n]].gen < clusters[ids[before]].gen then n else before
  }

  function WithoutAt(ids: seq<Id>, i: nat): seq<Id>
    requires i < |ids|
  {
    ids[..i] + ids[i + 1..]
  }

  function EvictLeaf(f: Forest, leaf: Path): Forest
    requires leaf in f.nodes && f.nodes[leaf] != [] && forall id | id in f.nodes[leaf] :: id in f.clusters
  {
    var ids := f.nodes[leaf];
    var i := OldestIn(f.clusters, ids);
    f.(nodes := f.nodes[leaf := WithoutAt(ids, i)], clusters := f.clusters - {ids[i]})
  }

  function Without(ids: seq<Id>, id: Id): seq<Id> {
    if ids == [] then []
    else Without(ids[..|ids| - 1], id) + (if ids[|ids| - 1] == id then [] else [ids[|ids| - 1]])
  }

  function EvictEverywhere(f: Forest, id: Id): Forest {
    f.(nodes := map p | p in f.nodes :: Without(f.nodes[p], id), clusters := f.clusters - {id})
  }

  ghost predicate Oldest(f: Forest, id: Id) {
    id in f.clusters && forall x | x in f.clusters :: f.clusters[id].gen <= f.clusters[x].gen
  }

  function NextId(f: Forest): Id {
    (f.nextId + 1) % ID_SPACE
  }

  function NextGen(f: Forest): nat {
    (f.nextGen + 1) % GEN_SPACE
  }

  /** Every id at a node is in the index. */
  predicate Indexed(f: Forest) {
    forall p, id | p in f.nodes && id in f.nodes[p] :: id in f.clusters
  }

  // ---- One line ----

  datatype Match = Match(id: Id, template: seq<Token>, params: seq<Token>, isNew: bool, evicted: bool, changed: bool)

  function Matched(f: Forest, id: Id, tokens: seq<Token>): Forest
    requires id in f.clusters && |f.clusters[id].template| == |tokens|
  {
    var c := f.clusters[id];
    f.(clusters := f.clusters[id := Cluster(Merged(c.template, tokens), c.count + 1, NextGen(f))], nextGen := NextGen(f))
  }

  function Created(f: Forest, leaf: Path, tokens: seq<Token>): Forest
    requires leaf in f.nodes
  {
    f.(nodes := f.nodes[leaf := f.nodes[leaf] + [NextId(f)]],
       clusters := f.clusters[NextId(f) := Cluster(tokens, 1, NextGen(f))],
       nextId := NextId(f), nextGen := NextGen(f))
  }

  predicate LeafFull(cfg: Config, f: Forest, leaf: Path)
    requires leaf in f.nodes
  {
    cfg.maxClustersPerLeaf > 0 && |f.nodes[leaf]| >= cfg.maxClustersPerLeaf
  }

  function Leaf(cfg: Config, f: Forest, tokens: seq<Token>): (Forest, Path) {
    Descended(cfg, f, tokens, Levels(cfg, |tokens|))
  }

  /** The cluster a line joins at a leaf: the best one, if it is similar enough. */
  function Chosen(cfg: Config, f: Forest, leaf: Path, tokens: seq<Token>): Option<Id>
    requires Indexed(f) && leaf in f.nodes && tokens != []
  {
    var (best, score) := BestOf(f.clusters, f.nodes[leaf], tokens);
    if best.Some? && score >= cfg.threshold then best else None
  }

  function MadeRoom(cfg: Config, f: Forest, leaf: Path): Forest
    requires Indexed(f) && leaf in f.nodes
  {
    if LeafFull(cfg, f, leaf) then EvictLeaf(f, leaf) else f
  }
}
