/** How wide the parse tree gets: a node below the root has at most maxChildren children besides the wildcard's. */
module TemplateWidth {
  import opened Numerals
  import opened Options
  import opened TemplateInvariants
  import opened TemplateRuns
  import opened Templates

  function Literals(f: Forest, p: Path): set<string> {
    Children(f, p) - {WILDCARD}
  }

  function Width(cfg: Config): nat {
    if cfg.maxChildren < 0 then 0 else cfg.maxChildren
  }

  ghost predicate Narrow(cfg: Config, f: Forest) {
    forall p | p in f.nodes && p != [] :: |Literals(f, p)| <= Width(cfg)
  }

  /** A new node is one more child of its parent, and has none itself. */
  lemma NodeAdded(f: Forest, p: Path, key: string, q: Path)
    requires p + [key] !in f.nodes
    ensures Children(WithNode(f, p + [key]), q) == if q == p then Children(f, p) + {key} else Children(f, q)
  {
    var g := WithNode(f, p + [key]);
    forall c ensures c in Children(g, q) <==> c in Children(f, q) || (q == p && c == key) {
      ChildIs(f, q, c);
      ChildIs(g, q, c);
      assert (q + [c])[..|q|] == q && (q + [c])[|q|] == c;
      assert (p + [key])[..|p|] == p && (p + [key])[|p|] == key;
    }
  }

  lemma ChildIs(f: Forest, p: Path, c: string)
    ensures c in Children(f, p) <==> p + [c] in f.nodes
  {
    if c in Children(f, p) {
      var q :| q in f.nodes && |q| == |p| + 1 && q[..|p|] == p && q[|p|] == c;
      assert q == p + [c];
    }
    if p + [c] in f.nodes {
      assert (p + [c])[..|p|] == p && (p + [c])[|p|] == c;
    }
  }

  /** Every node's parent is there. */
  ghost predicate Rooted(f: Forest) {
    forall p | p in f.nodes && p != [] :: p[..|p| - 1] in f.nodes
  }

  lemma NoChildrenYet(f: Forest, p: Path)
    requires Rooted(f) && p !in f.nodes
    ensures Children(f, p) == {}
  {
    forall q | q in f.nodes && |q| == |p| + 1 ensures q[..|p|] != p {
      assert q[..|q| - 1] in f.nodes;
    }
  }

  lemma SoundRooted(cfg: Config, f: Forest)
    requires Sound(cfg, f)
    ensures Rooted(f)
  {
    forall p | p in f.nodes && p != [] ensures p[..|p| - 1] in f.nodes {
      assert NodeFine(cfg, f, p);
    }
  }

  lemma Fewer(a: set<string>, b: set<string>)
    requires a <= b
    ensures |a| <= |b|
  {
    assert b == a + (b - a);
  }

  /** A literal child is only added below the cap, so one routing step keeps the tree narrow. */
  lemma StepNarrow(cfg: Config, f: Forest, p: Path, t: Token)
    requires Narrow(cfg, f) && Rooted(f) && p in f.nodes && p != []
    ensures Narrow(cfg, WithNode(f, p + [KeyFor(cfg, f, p, t)]))
  {
    hide Children, LooksNumeric;
    var key := KeyFor(cfg, f, p, t);
    var n := p + [key];
    var g := WithNode(f, n);
    if n !in f.nodes {
      forall q | q in g.nodes && q != [] ensures |Literals(g, q)| <= Width(cfg) {
        NodeAdded(f, p, key, q);
        if q == n {
          NoChildrenYet(f, n);
          assert Literals(g, q) == {};
        } else if q == p {
          Fewer(Literals(f, p), Children(f, p));
          if key == WILDCARD {
            assert Literals(g, p) == Literals(f, p);
          } else {
            assert |Children(f, p)| < cfg.maxChildren;
            assert Literals(g, p) == Literals(f, p) + {key};
          }
        } else {
          assert Literals(g, q) == Literals(f, q);
        }
      }
    }
  }

  lemma RootNarrow(cfg: Config, f: Forest, key: string)
    requires Narrow(cfg, f) && Rooted(f)
    ensures Narrow(cfg, WithNode(f, [key]))
  {
    hide Children;
    var g := WithNode(f, [key]);
    assert [] + [key] == [key];
    if [key] !in f.nodes {
      forall q | q in g.nodes && q != [] ensures |Literals(g, q)| <= Width(cfg) {
        NodeAdded(f, [], key, q);
        if q == [key] {
          NoChildrenYet(f, q);
          assert Literals(g, q) == {};
        } else {
          assert Literals(g, q) == Literals(f, q);
        }
      }
    }
  }

  lemma {:induction false} DescendingNarrow(cfg: Config, f: Forest, tokens: seq<Token>, i: nat)
    requires Sound(cfg, f) && Narrow(cfg, f) && i <= Levels(cfg, |tokens|) && tokens != []
    ensures Narrow(cfg, Descended(cfg, f, tokens, i).0)
  {
    hide Sound, Narrow, KeyFor, Itoa, Rooted;
    if i == 0 {
      SoundRooted(cfg, f);
      RootNarrow(cfg, f, Itoa(|tokens|));
    } else {
      DescendingNarrow(cfg, f, tokens, i - 1);
      Descending(cfg, f, tokens, i - 1);
      var (g, p) := Descended(cfg, f, tokens, i - 1);
      SoundRooted(cfg, g);
      StepNarrow(cfg, g, p, tokens[i - 1]);
    }
  }

  /** Narrowness is about which nodes there are. */
  lemma SameNodes(cfg: Config, f: Forest, g: Forest)
    requires Narrow(cfg, f) && g.nodes.Keys == f.nodes.Keys
    ensures Narrow(cfg, g)
  {
    forall p | p in g.nodes && p != [] ensures |Literals(g, p)| <= Width(cfg) {
      assert Children(g, p) == Children(f, p);
    }
  }

  lemma ParsingNarrow(cfg: Config, f: Forest, tokens: seq<Token>, victim: Option<Id>)
    requires Sound(cfg, f) && Narrow(cfg, f) && tokens != []
    ensures Narrow(cfg, Parse(cfg, f, tokens, victim).0)
  {
    hide Sound, Narrow, Descended, Chosen, OldestIn, Without, Itoa, Levels;
    Routing(cfg, f, tokens);
    var g := Routed(cfg, f, tokens);
    RoutedNarrow(cfg, f, tokens);
    var h := Parse(cfg, f, tokens, victim).0;
    assert h.nodes.Keys == g.nodes.Keys;
    SameNodes(cfg, g, h);
  }

  lemma RoutedNarrow(cfg: Config, f: Forest, tokens: seq<Token>)
    requires Sound(cfg, f) && Narrow(cfg, f) && tokens != []
    ensures Narrow(cfg, Routed(cfg, f, tokens))
  {
    hide Sound, Narrow, Descended;
    DescendingNarrow(cfg, f, tokens, Levels(cfg, |tokens|));
  }

  /** After any lines, no node below the root has more than maxChildren children besides the wildcard's. */
  lemma {:induction false} TreeStaysNarrow(cfg: Config, inputs: seq<(seq<Token>, Option<Id>)>)
    requires Run(cfg, inputs).Some?
    ensures Narrow(cfg, Run(cfg, inputs).value.f)
  {
    hide Sound, Narrow, Parse, Tokens, VictimOf;
    if inputs == [] {
      BareNarrow(cfg);
    } else {
      var n := |inputs| - 1;
      TreeStaysNarrow(cfg, inputs[..n]);
      ParsingNarrow(cfg, Run(cfg, inputs[..n]).value.f, Tokens(inputs[n].0), inputs[n].1);
    }
  }

  lemma BareNarrow(cfg: Config)
    ensures Narrow(cfg, BARE)
  {
  }
}
