/** Parsing one line after another: templates only widen, parameters lose nothing, the dictionary keeps up. */
module TemplateRuns {
  import opened Numerals
  import opened Options
  import opened TemplateInvariants
  import opened Templates

  /** strings.Fields leaves nothing of a blank line; it counts as one empty token. */
  function Tokens(fields: seq<Token>): (tokens: seq<Token>)
    ensures tokens != []
  {
    if fields == [] then [""] else fields
  }

  /** The tree once the line's leaf exists. */
  function Routed(cfg: Config, f: Forest, tokens: seq<Token>): Forest {
    Leaf(cfg, f, tokens).0
  }

  function LeafOf(cfg: Config, f: Forest, tokens: seq<Token>): Path {
    Leaf(cfg, f, tokens).1
  }

  lemma Routing(cfg: Config, f: Forest, tokens: seq<Token>)
    requires Sound(cfg, f) && tokens != []
    ensures var g, leaf := Routed(cfg, f, tokens), LeafOf(cfg, f, tokens);
            && Sound(cfg, g) && OnlyAddsNodes(f, g) && Indexed(g) && leaf in g.nodes
            && |leaf| == 1 + Levels(cfg, |tokens|) && leaf[0] == Itoa(|tokens|)
            && forall id | id in g.nodes[leaf] :: id in g.clusters && |g.clusters[id].template| == |tokens|
  {
    hide Sound, OnlyAddsNodes, Descended, Itoa;
    Descending(cfg, f, tokens, Levels(cfg, |tokens|));
    SoundIndexed(cfg, Routed(cfg, f, tokens));
    SoundShaped(cfg, Routed(cfg, f, tokens));
    LeafLengths(cfg, Routed(cfg, f, tokens), LeafOf(cfg, f, tokens), |tokens|);
  }

  lemma SoundShaped(cfg: Config, f: Forest)
    requires Sound(cfg, f)
    ensures Shaped(cfg, f)
  {
  }

  ghost function Choice(cfg: Config, f: Forest, tokens: seq<Token>): Option<Id>
    requires Sound(cfg, f) && tokens != []
  {
    Routing(cfg, f, tokens);
    Chosen(cfg, Routed(cfg, f, tokens), LeafOf(cfg, f, tokens), tokens)
  }

  lemma ChoiceAtLeaf(cfg: Config, f: Forest, tokens: seq<Token>)
    requires Sound(cfg, f) && tokens != []
    ensures var c := Choice(cfg, f, tokens); c.Some? ==> c.value in f.clusters && |f.clusters[c.value].template| == |tokens|
  {
    hide Sound, Routed, LeafOf, Itoa, Chosen;
    Routing(cfg, f, tokens);
    ChosenIsBest(cfg, Routed(cfg, f, tokens), LeafOf(cfg, f, tokens), tokens);
  }

  /** The tree with a new cluster for the line, before the tree-wide cap is looked at. */
  ghost function Grown(cfg: Config, f: Forest, tokens: seq<Token>): Forest
    requires Sound(cfg, f) && tokens != []
  {
    Routing(cfg, f, tokens);
    Created(MadeRoom(cfg, Routed(cfg, f, tokens), LeafOf(cfg, f, tokens)), LeafOf(cfg, f, tokens), tokens)
  }

  ghost predicate Full(cfg: Config, f: Forest, tokens: seq<Token>)
    requires Sound(cfg, f) && tokens != []
  {
    Routing(cfg, f, tokens);
    LeafFull(cfg, Routed(cfg, f, tokens), LeafOf(cfg, f, tokens))
  }

  ghost predicate Over(cfg: Config, f: Forest, tokens: seq<Token>)
    requires Sound(cfg, f) && tokens != []
  {
    Choice(cfg, f, tokens).None? && |Grown(cfg, f, tokens).clusters| > cfg.maxTemplates
  }

  /** Parse on a tokenized line; victim is what evictLRU picks when the tree-wide cap is exceeded. */
  ghost function Parse(cfg: Config, f: Forest, tokens: seq<Token>, victim: Option<Id>): (Forest, Match)
    requires Sound(cfg, f) && tokens != []
  {
    ChoiceAtLeaf(cfg, f, tokens);
    Routing(cfg, f, tokens);
    match Choice(cfg, f, tokens)
    case Some(id) =>
      var g := Routed(cfg, f, tokens);
      var h := Matched(g, id, tokens);
      var template := h.clusters[id].template;
      (h, Match(id, template, Params(tokens, template), false, false, template != g.clusters[id].template))
    case None =>
      var h := Grown(cfg, f, tokens);
      (if victim.Some? then EvictEverywhere(h, victim.value) else h,
       Match(h.nextId, tokens, Params(tokens, tokens), true, Full(cfg, f, tokens) || Over(cfg, f, tokens), true))
  }

  ghost predicate VictimOf(cfg: Config, f: Forest, tokens: seq<Token>, victim: Option<Id>)
    requires Sound(cfg, f) && tokens != []
  {
    (victim.Some? <==> Over(cfg, f, tokens)) && (victim.Some? ==> Oldest(Grown(cfg, f, tokens), victim.value))
  }

  predicate Room(f: Forest) {
    f.nextId + 1 < ID_SPACE && f.nextGen + 2 < GEN_SPACE
  }

  /** What one line does to the index: its own cluster is new or widened, the others stay as they are or go. */
  ghost predicate StepsTo(f: Forest, tokens: seq<Token>, g: Forest, m: Match) {
    && m.id in g.clusters && g.clusters[m.id].template == m.template && Covers(m.template, tokens)
    && m.params == Params(tokens, m.template)
    && g.clusters[m.id].gen == f.nextGen + 1 == g.nextGen && f.nextId <= g.nextId
    && (forall id | id in g.clusters && id != m.id :: id in f.clusters && g.clusters[id] == f.clusters[id])
    && (if m.isNew then m.id == f.nextId + 1 == g.nextId && m.changed && m.template == tokens && g.clusters[m.id].count == 1
        else
          && m.id in f.clusters && g.nextId == f.nextId && Widens(m.template, f.clusters[m.id].template)
          && m.template == Merged(f.clusters[m.id].template, tokens)
          && g.clusters[m.id].count == f.clusters[m.id].count + 1
          && (m.changed <==> m.template != f.clusters[m.id].template)
          && g.clusters.Keys == f.clusters.Keys)
  }

  lemma JoiningSteps(cfg: Config, f: Forest, tokens: seq<Token>)
    requires Sound(cfg, f) && tokens != [] && Room(f) && Choice(cfg, f, tokens).Some?
    ensures var (g, m) := Parse(cfg, f, tokens, None);
            Sound(cfg, g) && StepsTo(f, tokens, g, m) && !m.isNew && g.clusters.Keys == f.clusters.Keys
  {
    hide Sound, Routed, LeafOf, Itoa, Chosen, NextGen, Choice, Merged, Params;
    var id := Choice(cfg, f, tokens).value;
    Routing(cfg, f, tokens);
    ChoiceAtLeaf(cfg, f, tokens);
    var g := Routed(cfg, f, tokens);
    NextPlain(g);
    MergedCovers(f.clusters[id].template, tokens);
    Matching(cfg, g, id, tokens);
  }

  lemma Growing(cfg: Config, f: Forest, tokens: seq<Token>)
    requires Sound(cfg, f) && tokens != [] && Room(f)
    ensures var h := Grown(cfg, f, tokens);
            && Sound(cfg, h) && h.nextId == f.nextId + 1 && h.nextGen == f.nextGen + 1
            && h.nextId in h.clusters && h.clusters[h.nextId] == Cluster(tokens, 1, h.nextGen)
            && (forall id | id in h.clusters && id != h.nextId :: id in f.clusters && h.clusters[id] == f.clusters[id])
            && |h.clusters| <= |f.clusters| + 1
            && (forall id | id in f.clusters :: 1 <= id <= f.nextId && f.clusters[id].gen <= f.nextGen)
  {
    hide Sound, Routed, LeafOf, Itoa, NextGen, NextId, EvictLeaf, Levels, OldestIn;
    Routing(cfg, f, tokens);
    var g, leaf := Routed(cfg, f, tokens), LeafOf(cfg, f, tokens);
    var r := MadeRoom(cfg, g, leaf);
    if LeafFull(cfg, g, leaf) {
      EvictingLeaf(cfg, g, leaf);
      assert r.clusters.Keys <= g.clusters.Keys;
      FewerKeys(r.clusters.Keys, g.clusters.Keys);
      RoomMade(cfg, g, leaf);
    }
    NextPlain(r);
    Creating(cfg, r, leaf, tokens);
    SoundStamped(cfg, f);
  }

  lemma RoomMade(cfg: Config, f: Forest, leaf: Path)
    requires Sound(cfg, f) && Indexed(f) && leaf in f.nodes && LeafFull(cfg, f, leaf)
    ensures !LeafFull(cfg, EvictLeaf(f, leaf), leaf)
  {
    EvictingLeaf(cfg, f, leaf);
    assert |f.nodes[leaf]| <= cfg.maxClustersPerLeaf;
  }

  lemma FewerKeys(a: set<Id>, b: set<Id>)
    requires a <= b
    ensures |a| <= |b|
  {
    if b != {} {
      var x :| x in b;
      FewerKeys(a - {x}, b - {x});
      assert a == if x in a then (a - {x}) + {x} else a - {x};
    } else {
      assert a == {};
    }
  }

  lemma SoundStamped(cfg: Config, f: Forest)
    requires Sound(cfg, f)
    ensures forall id | id in f.clusters :: 1 <= id <= f.nextId && f.clusters[id].gen <= f.nextGen
  {
  }

  /** One line keeps the tree sound and within its caps, and never evicts the cluster it just used. */
  lemma Parsing(cfg: Config, f: Forest, tokens: seq<Token>, victim: Option<Id>)
    requires Sound(cfg, f) && tokens != [] && Room(f) && VictimOf(cfg, f, tokens, victim)
    requires cfg.maxTemplates >= 1 && |f.clusters| <= cfg.maxTemplates
    ensures var (g, m) := Parse(cfg, f, tokens, victim);
            Sound(cfg, g) && StepsTo(f, tokens, g, m) && |g.clusters| <= cfg.maxTemplates
  {
    hide Sound, Routed, LeafOf, Itoa, NextGen, NextId, EvictEverywhere, Levels, Choice, Grown, Params, Merged, Full;
    if Choice(cfg, f, tokens).Some? {
      JoiningSteps(cfg, f, tokens);
      assert |Parse(cfg, f, tokens, None).0.clusters.Keys| == |f.clusters.Keys|;
    } else {
      var h := Grown(cfg, f, tokens);
      Growing(cfg, f, tokens);
      ChoiceAtLeaf(cfg, f, tokens);
      Routing(cfg, f, tokens);
      if victim.Some? {
        NewestStays(h, f, victim.value);
        EvictingEverywhere(cfg, h, victim.value);
      }
    }
  }

  lemma NewestStays(h: Forest, f: Forest, victim: Id)
    requires Oldest(h, victim) && h.nextId in h.clusters && h.clusters[h.nextId].gen == h.nextGen == f.nextGen + 1
    requires forall id | id in h.clusters && id != h.nextId :: h.clusters[id].gen <= f.nextGen
    requires |h.clusters| > 1
    ensures victim != h.nextId
  {
    AnotherOne(h.clusters.Keys, h.nextId);
  }

  lemma AnotherOne(ids: set<Id>, id: Id)
    ensures |ids| <= 1 || exists x :: x in ids && x != id
  {
    if forall x | x in ids :: x == id {
      FewerKeys(ids, {id});
    }
  }

  /** A cluster that goes was least recently matched at the full leaf, or in the whole tree. */
  lemma EvictedIsOldest(cfg: Config, f: Forest, tokens: seq<Token>, victim: Option<Id>, id: Id)
    requires Sound(cfg, f) && tokens != [] && Room(f) && VictimOf(cfg, f, tokens, victim)
    requires id in f.clusters && id !in Parse(cfg, f, tokens, victim).0.clusters
    ensures var g, leaf := Routed(cfg, f, tokens), LeafOf(cfg, f, tokens);
            && Parse(cfg, f, tokens, victim).1.isNew && Parse(cfg, f, tokens, victim).1.evicted
            && leaf in g.nodes && (forall x | x in g.nodes[leaf] :: x in f.clusters)
            && ((Full(cfg, f, tokens) && id in g.nodes[leaf]
                 && forall x | x in g.nodes[leaf] :: f.clusters[id].gen <= f.clusters[x].gen)
                || (victim == Some(id) && Oldest(Grown(cfg, f, tokens), id)))
  {
    hide Sound, Routed, LeafOf, Itoa, NextGen, NextId, Levels, Params, Merged, Oldest, OldestIn;
    Routing(cfg, f, tokens);
    ChoiceAtLeaf(cfg, f, tokens);
    var g, leaf := Routed(cfg, f, tokens), LeafOf(cfg, f, tokens);
    if Choice(cfg, f, tokens).None? && LeafFull(cfg, g, leaf) {
      OldestInIsOldest(g.clusters, g.nodes[leaf]);
    }
  }

  // ---- Runs ----

  /** lines pairs every line so far with the cluster it was assigned; dict is the upserts applied in order. */
  datatype History = History(f: Forest, lines: seq<(seq<Token>, Id)>, dict: map<Id, seq<Token>>)

  const BEGINNING := History(BARE, [], map[])

  /** Process: the line's match, and an upsert of the template's text whenever it is new or changed. */
  ghost function Process(cfg: Config, h: History, tokens: seq<Token>, victim: Option<Id>): History
    requires Sound(cfg, h.f) && tokens != []
  {
    var (g, m) := Parse(cfg, h.f, tokens, victim);
    History(g, h.lines + [(tokens, m.id)], if m.changed then h.dict[m.id := m.template] else h.dict)
  }

  ghost function Run(cfg: Config, inputs: seq<(seq<Token>, Option<Id>)>): Option<History> {
    if inputs == [] then Some(BEGINNING)
    else
      match Run(cfg, inputs[..|inputs| - 1])
      case None => None
      case Some(h) =>
        var (fields, victim) := inputs[|inputs| - 1];
        var tokens := Tokens(fields);
        if Sound(cfg, h.f) && Room(h.f) && VictimOf(cfg, h.f, tokens, victim) then Some(Process(cfg, h, tokens, victim))
        else None
  }

  function CountOf(lines: seq<(seq<Token>, Id)>, id: Id): nat {
    if lines == [] then 0 else CountOf(lines[..|lines| - 1], id) + (if lines[|lines| - 1].1 == id then 1 else 0)
  }

  /** Where the history stands for one live cluster. */
  ghost predicate Traced(h: History, id: Id)
    requires id in h.f.clusters
  {
    var c := h.f.clusters[id];
    && (forall i | 0 <= i < |h.lines| && h.lines[i].1 == id :: Covers(c.template, h.lines[i].0))
    && 1 <= c.gen <= |h.lines| && h.lines[c.gen - 1].1 == id
    && (forall i | c.gen <= i < |h.lines| :: h.lines[i].1 != id)
    && c.count == CountOf(h.lines, id)
    && id in h.dict && h.dict[id] == c.template
  }

  ghost predicate Faithful(cfg: Config, h: History) {
    && Sound(cfg, h.f)
    && h.f.nextGen == |h.lines|
    && h.f.nextId <= |h.lines|
    && (forall i | 0 <= i < |h.lines| :: h.lines[i].1 <= h.f.nextId)
    && (forall id | id in h.f.clusters :: Traced(h, id))
    && (cfg.maxTemplates >= 1 ==> |h.f.clusters| <= cfg.maxTemplates)
  }

  lemma {:induction false} CountNone(lines: seq<(seq<Token>, Id)>, id: Id)
    requires forall i | 0 <= i < |lines| :: lines[i].1 != id
    ensures CountOf(lines, id) == 0
  {
    if lines != [] {
      CountNone(lines[..|lines| - 1], id);
    }
  }

  lemma TracedNew(h: History, h': History, tokens: seq<Token>, m: Match)
    requires StepsTo(h.f, tokens, h'.f, m) && m.isNew && h.f.nextGen == |h.lines|
    requires h'.lines == h.lines + [(tokens, m.id)] && h'.dict == h.dict[m.id := m.template]
    requires forall i | 0 <= i < |h.lines| :: h.lines[i].1 <= h.f.nextId
    ensures Traced(h', m.id)
  {
    CountNone(h.lines, m.id);
    assert h'.lines[..|h.lines|] == h.lines;
  }

  lemma TracedJoined(h: History, h': History, tokens: seq<Token>, m: Match)
    requires StepsTo(h.f, tokens, h'.f, m) && !m.isNew && h.f.nextGen == |h.lines| && Traced(h, m.id)
    requires h'.lines == h.lines + [(tokens, m.id)] && h'.dict == if m.changed then h.dict[m.id := m.template] else h.dict
    ensures Traced(h', m.id)
  {
    hide Merged;
    MergedCovers(h.f.clusters[m.id].template, tokens);
    assert h'.lines[..|h.lines|] == h.lines;
  }

  lemma TracedOther(h: History, h': History, tokens: seq<Token>, m: Match, id: Id)
    requires StepsTo(h.f, tokens, h'.f, m) && id != m.id && id in h'.f.clusters && id in h.f.clusters && Traced(h, id)
    requires h'.lines == h.lines + [(tokens, m.id)] && h'.dict == if m.changed then h.dict[m.id := m.template] else h.dict
    ensures Traced(h', id)
  {
    assert h'.lines[..|h.lines|] == h.lines;
  }

  lemma Processing(cfg: Config, h: History, tokens: seq<Token>, victim: Option<Id>)
    requires Faithful(cfg, h) && tokens != [] && Room(h.f) && VictimOf(cfg, h.f, tokens, victim) && cfg.maxTemplates >= 1
    ensures Faithful(cfg, Process(cfg, h, tokens, victim))
    ensures StepsTo(h.f, tokens, Process(cfg, h, tokens, victim).f, Parse(cfg, h.f, tokens, victim).1)
  {
    hide Sound, Traced, Parse, VictimOf;
    var h' := Process(cfg, h, tokens, victim);
    var m := Parse(cfg, h.f, tokens, victim).1;
    Parsing(cfg, h.f, tokens, victim);
    SoundStamped(cfg, h.f);
    forall id | id in h'.f.clusters ensures Traced(h', id) {
      if id != m.id {
        TracedOther(h, h', tokens, m, id);
      } else if m.isNew {
        TracedNew(h, h', tokens, m);
      } else {
        TracedJoined(h, h', tokens, m);
      }
    }
  }

  lemma Beginning(cfg: Config)
    ensures Faithful(cfg, BEGINNING)
  {
    assert forall p, id :: !At(BARE, p, id);
  }

  // After any lines: the tree is sound and within its caps, every live template covers every line ever assigned to it,
  // its count and recency are those of the lines, and the dictionary holds its current text.
  lemma {:induction false} RunFaithful(cfg: Config, inputs: seq<(seq<Token>, Option<Id>)>)
    requires Run(cfg, inputs).Some? && cfg.maxTemplates >= 1
    ensures Faithful(cfg, Run(cfg, inputs).value) && |Run(cfg, inputs).value.lines| == |inputs|
  {
    hide Faithful, VictimOf, Parse;
    if inputs == [] {
      Beginning(cfg);
    } else {
      var n := |inputs| - 1;
      RunFaithful(cfg, inputs[..n]);
      Processing(cfg, Run(cfg, inputs[..n]).value, Tokens(inputs[n].0), inputs[n].1);
    }
  }

  /** A parsed line is its template with its parameters filled in. */
  lemma MatchGivesLineBack(cfg: Config, h: History, tokens: seq<Token>, victim: Option<Id>)
    requires Faithful(cfg, h) && tokens != [] && Room(h.f) && VictimOf(cfg, h.f, tokens, victim) && cfg.maxTemplates >= 1
    ensures var m := Parse(cfg, h.f, tokens, victim).1;
            |m.params| == Wildcards(m.template) && Filled(m.template, m.params) == tokens
  {
    hide Parse, VictimOf, Traced, Sound, Params, Filled, Wildcards;
    Processing(cfg, h, tokens, victim);
    ParamsRoundTrip(Parse(cfg, h.f, tokens, victim).1.template, tokens);
  }

  lemma OneLineWidens(f: Forest, tokens: seq<Token>, g: Forest, m: Match, id: Id)
    requires StepsTo(f, tokens, g, m) && id <= f.nextId && id in g.clusters
    ensures id in f.clusters && Widens(g.clusters[id].template, f.clusters[id].template) && f.nextId <= g.nextId
  {
  }

  lemma WidensTwice(u: seq<Token>, v: seq<Token>, w: seq<Token>)
    requires Widens(u, v) && Widens(v, w)
    ensures Widens(u, w)
  {
  }

  lemma FaithfulStamped(cfg: Config, h: History)
    requires Faithful(cfg, h)
    ensures forall id | id in h.f.clusters :: id <= h.f.nextId
  {
    hide Traced, Shaped, Placed;
  }

  /** Between any two moments a live template only turned literals into wildcards. */
  lemma {:induction false} TemplatesOnlyWiden(cfg: Config, inputs: seq<(seq<Token>, Option<Id>)>, k: nat, id: Id)
    requires Run(cfg, inputs).Some? && cfg.maxTemplates >= 1 && k <= |inputs|
    ensures Run(cfg, inputs[..k]).Some? && Run(cfg, inputs[..k]).value.f.nextId <= Run(cfg, inputs).value.f.nextId
    ensures id in Run(cfg, inputs[..k]).value.f.clusters && id in Run(cfg, inputs).value.f.clusters ==>
              Widens(Run(cfg, inputs).value.f.clusters[id].template, Run(cfg, inputs[..k]).value.f.clusters[id].template)
    decreases |inputs|
  {
    hide VictimOf, Parse, Faithful, Sound, StepsTo, Widens;
    if k == |inputs| {
      assert inputs[..k] == inputs;
      WidensItself();
    } else {
      var n := |inputs| - 1;
      assert inputs[..n][..k] == inputs[..k];
      TemplatesOnlyWiden(cfg, inputs[..n], k, id);
      RunFaithful(cfg, inputs[..n]);
      RunFaithful(cfg, inputs[..k]);
      FaithfulStamped(cfg, Run(cfg, inputs[..k]).value);
      var h, t, tokens, victim := Run(cfg, inputs[..n]).value, Run(cfg, inputs).value, Tokens(inputs[n].0), inputs[n].1;
      Processing(cfg, h, tokens, victim);
      var m := Parse(cfg, h.f, tokens, victim).1;
      NextGrows(h.f, tokens, t.f, m);
      if id in Run(cfg, inputs[..k]).value.f.clusters && id in t.f.clusters {
        OneLineWidens(h.f, tokens, t.f, m, id);
        WidensTwice(t.f.clusters[id].template, h.f.clusters[id].template, Run(cfg, inputs[..k]).value.f.clusters[id].template);
      }
    }
  }

  lemma NextGrows(f: Forest, tokens: seq<Token>, g: Forest, m: Match)
    requires StepsTo(f, tokens, g, m)
    ensures f.nextId <= g.nextId
  {
  }

  lemma WidensItself()
    ensures forall t :: Widens(t, t)
  {
  }

  /** No line is ever refused: as long as ids last, every further line can be parsed. */
  lemma RunGoesOn(cfg: Config, inputs: seq<(seq<Token>, Option<Id>)>, fields: seq<Token>) returns (victim: Option<Id>)
    requires Run(cfg, inputs).Some? && cfg.maxTemplates >= 1 && |inputs| + 1 < ID_SPACE
    ensures Run(cfg, inputs + [(fields, victim)]).Some?
  {
    hide Parse, Traced, Sound, Grown, Choice;
    RunFaithful(cfg, inputs);
    var h, tokens := Run(cfg, inputs).value, Tokens(fields);
    victim := None;
    if Over(cfg, h.f, tokens) {
      Growing(cfg, h.f, tokens);
      var oldest := OldestOf(Grown(cfg, h.f, tokens));
      victim := Some(oldest);
    }
    assert (inputs + [(fields, victim)])[..|inputs|] == inputs;
  }

  lemma OldestOf(f: Forest) returns (id: Id)
    requires f.clusters != map[]
    ensures Oldest(f, id)
    decreases |f.clusters|
  {
    var first :| first in f.clusters;
    id := first;
    if x :| x in f.clusters && f.clusters[x].gen < f.clusters[first].gen {
      var rest := f.(clusters := f.clusters - {first});
      assert rest.clusters.Keys == f.clusters.Keys - {first};
      assert x in rest.clusters;
      id := OldestOf(rest);
      forall y | y in f.clusters ensures f.clusters[id].gen <= f.clusters[y].gen {
        assert f.clusters[id].gen <= rest.clusters[x].gen;
        assert y != first ==> f.clusters[id].gen <= rest.clusters[y].gen;
      }
    }
  }
}
