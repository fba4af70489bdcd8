// The constant-folding pass over one AND chain: equalities and ranges are gathered per field, tightened,
// and turned into "no rows" when they contradict each other. A Go map is an insertion-ordered list of
// pairs here; the final sort makes the order of the chain independent of it.
module ConstantFolding {
  import opened Expressions
  import opened Options
  import Sorting

  datatype Bound = Unset | At(val: real, inclusive: bool)

  type Literals = seq<(string, Value)>

  datatype FieldState = FieldState(left: Expr, lower: Bound, upper: Bound, eq: Literals, neq: Literals)

  datatype Gathered = Gathered(
    fields: map<string, FieldState>,
    order: seq<string>,
    passthrough: seq<Expr>,
    seen: set<string>)

  const NOTHING := Gathered(map[], [], [], {})

  // ---- Gathering ----

  function FieldKey(e: Expr): string {
    match e
    case ColumnRef(name) => "col:" + name
    case AttrRef(key) => "attr:" + key
    case _ => ""
  }

  function Put(q: Literals, k: string, v: Value): Literals {
    if q == [] then [(k, v)]
    else if q[0].0 == k then [(k, v)] + q[1..]
    else [q[0]] + Put(q[1..], k, v)
  }

  predicate HasKey(q: Literals, k: string) {
    exists p :: p in q && p.0 == k
  }

  function RaiseLower(b: Bound, v: real, inclusive: bool): Bound {
    if b.Unset? || v > b.val || (v == b.val && !inclusive) then At(v, inclusive) else b
  }

  function DropUpper(b: Bound, v: real, inclusive: bool): Bound {
    if b.Unset? || v < b.val || (v == b.val && !inclusive) then At(v, inclusive) else b
  }

  function PassOnce(env: Env, g: Gathered, t: Expr): Gathered {
    if Show(env, t) in g.seen then g
    else g.(seen := g.seen + {Show(env, t)}, passthrough := g.passthrough + [t])
  }

  predicate Gathers(op: string) {
    op == "=" || op == "==" || op == "!=" || RangeOp(op)
  }

  /** One more comparison on a field. A range literal that is not a float is dropped. */
  function Absorb(env: Env, fs: FieldState, op: string, v: Value): FieldState {
    if op == "=" || op == "==" then fs.(eq := Put(fs.eq, ValueString(env, v), v))
    else if op == "!=" then fs.(neq := Put(fs.neq, ValueString(env, v), v))
    else if !v.Num? then fs
    else if op == ">" || op == ">=" then fs.(lower := RaiseLower(fs.lower, v.n, op == ">="))
    else fs.(upper := DropUpper(fs.upper, v.n, op == "<="))
  }

  /** A "field op literal" term, which the pass may simplify. */
  predicate Simple(t: Expr) {
    t.Binary? && FieldKey(t.left) != "" && t.right.Literal?
  }

  function Gather(env: Env, g: Gathered, t: Expr): Gathered {
    if !t.Binary? then g.(passthrough := g.passthrough + [t])
    else if !Simple(t) then PassOnce(env, g, t)
    else
      var key := FieldKey(t.left);
      var g1 := if key in g.fields then g
                    else g.(fields := g.fields[key := FieldState(t.left, Unset, Unset, [], [])], order := g.order + [key]);
      if Gathers(t.op) then
        g1.(fields := g1.fields[key := Absorb(env, g1.fields[key], t.op, t.right.value)])
      else PassOnce(env, g1, t)
  }

  function GatherAll(env: Env, terms: seq<Expr>): Gathered {
    if terms == [] then NOTHING else Gather(env, GatherAll(env, terms[..|terms| - 1]), terms[|terms| - 1])
  }

  // ---- Rebuilding ----

  predicate Impossible(lower: Bound, upper: Bound) {
    && lower.At? && upper.At?
    && (lower.val > upper.val || (lower.val == upper.val && (!lower.inclusive || !upper.inclusive)))
  }

  /** More than one value required, a required value excluded, or an empty range. */
  predicate Contradicts(fs: FieldState) {
    || |fs.eq| > 1
    || (|fs.eq| == 1 && HasKey(fs.neq, fs.eq[0].0))
    || Impossible(fs.lower, fs.upper)
  }

  function Terms(left: Expr, op: string, q: Literals): seq<Expr> {
    seq(|q|, i requires 0 <= i < |q| => Binary(op, left, Literal(q[i].1)))
  }

  function BoundTerm(left: Expr, strict: string, weak: string, b: Bound): seq<Expr> {
    if b.Unset? then [] else [Binary(if b.inclusive then weak else strict, left, Literal(Num(b.val)))]
  }

  function FieldTerms(fs: FieldState): seq<Expr> {
    Terms(fs.left, "=", fs.eq)
    + (if fs.eq == [] then Terms(fs.left, "!=", fs.neq) else [])
    + BoundTerm(fs.left, ">", ">=", fs.lower)
    + BoundTerm(fs.left, "<", "<=", fs.upper)
  }

  function Rebuild(g: Gathered, n: nat): Option<seq<Expr>>
    requires n <= |g.order| && forall k | k in g.order :: k in g.fields
  {
    if n == 0 then Some([])
    else
      var before := Rebuild(g, n - 1);
      var fs := g.fields[g.order[n - 1]];
      if before.None? || Contradicts(fs) then None else Some(before.value + FieldTerms(fs))
  }

  ghost predicate Indexed(g: Gathered) {
    forall k :: k in g.order <==> k in g.fields
  }

  lemma {:induction false} GatherAllIndexed(env: Env, terms: seq<Expr>)
    ensures Indexed(GatherAll(env, terms))
  {
    if terms != [] {
      GatherAllIndexed(env, terms[..|terms| - 1]);
    }
  }

  function SimplifyAnd(env: Env, terms: seq<Expr>): seq<Expr> {
    var g := GatherAll(env, terms);
    GatherAllIndexed(env, terms);
    var rebuilt := Rebuild(g, |g.order|);
    if rebuilt.None? then [Literal(Bool(false))]
    else Sorting.SortBy(rebuilt.value + g.passthrough, (e: Expr) => Show(env, e))
  }

  /** The pass's two loops. */
  method SimplifyAndLoop(env: Env, terms: seq<Expr>) returns (out: seq<Expr>)
    ensures out == SimplifyAnd(env, terms)
  {
    var g := NOTHING;
    for i := 0 to |terms|
      invariant g == GatherAll(env, terms[..i])
    {
      assert terms[..i + 1][..i] == terms[..i];
      g := Gather(env, g, terms[i]);
    }
    assert terms[..|terms|] == terms;
    GatherAllIndexed(env, terms);
    out := [];
    for i := 0 to |g.order|
      invariant Rebuild(g, i) == Some(out)
    {
      var fs := g.fields[g.order[i]];
      if Contradicts(fs) {
        RebuildStops(g, i + 1, |g.order|);
        return [Literal(Bool(false))];
      }
      out := out + FieldTerms(fs);
    }
    out := Sorting.SortBy(out + g.passthrough, (e: Expr) => Show(env, e));
  }

  lemma {:induction false} RebuildStops(g: Gathered, m: nat, n: nat)
    requires m <= n <= |g.order| && (forall k | k in g.order :: k in g.fields) && Rebuild(g, m).None?
    ensures Rebuild(g, n).None?
  {
    if m < n {
      RebuildStops(g, m, n - 1);
    }
  }

  // ---- Which rows the gathered state keeps ----

  ghost function KeysOf(q: Literals): set<string> {
    if q == [] then {} else {q[0].0} + KeysOf(q[1..])
  }

  /** Keys are the literals' own renderings, without repeats. */
  ghost predicate Keyed(env: Env, q: Literals) {
    q == [] || (q[0].0 == ValueString(env, q[0].1) && q[0].0 !in KeysOf(q[1..]) && Keyed(env, q[1..]))
  }

  predicate InLower(b: Bound, c: Cell) {
    b.Unset? || (c.num.Some? && if b.inclusive then c.num.value >= b.val else c.num.value > b.val)
  }

  predicate InUpper(b: Bound, c: Cell) {
    b.Unset? || (c.num.Some? && if b.inclusive then c.num.value <= b.val else c.num.value < b.val)
  }

  predicate Unconstrained(fs: FieldState) {
    fs.eq == [] && fs.neq == [] && fs.lower.Unset? && fs.upper.Unset?
  }

  ghost predicate FieldHolds(env: Env, row: Row, fs: FieldState) {
    Unconstrained(fs) ||
    (var o := Operand(env, row, fs.left);
     && o.Some?
     && (forall k | k in KeysOf(fs.eq) :: o.value.text == k)
     && (forall k | k in KeysOf(fs.neq) :: o.value.text != k)
     && InLower(fs.lower, o.value)
     && InUpper(fs.upper, o.value))
  }

  ghost predicate StateHolds(env: Env, row: Row, g: Gathered) {
    && (forall k | k in g.fields :: FieldHolds(env, row, g.fields[k]))
    && AllHold(env, row, g.passthrough)
  }

  /** Range literals are floats, as Build makes them. */
  predicate RangesNumeric(t: Expr) {
    t.Binary? && RangeOp(t.op) && t.right.Literal? ==> t.right.value.Num?
  }

  /** Terms the pass keeps verbatim and compares by their printed form. */
  predicate Passes(t: Expr) {
    t.Binary? && (!Simple(t) || !Gathers(t.op))
  }

  /** No two different verbatim terms print alike. */
  ghost predicate PrintApart(env: Env, terms: seq<Expr>) {
    forall a, b | a in terms && b in terms && Passes(a) && Passes(b) && Show(env, a) == Show(env, b) :: a == b
  }

  /** What the pass is made for: float range literals, and verbatim terms that print apart. */
  ghost predicate Foldable(env: Env, terms: seq<Expr>) {
    (forall t | t in terms :: RangesNumeric(t)) && PrintApart(env, terms)
  }

  /** A range on a field whose literal is no float; the pass forgets it. */
  predicate Forgotten(t: Expr) {
    Simple(t) && RangeOp(t.op) && !t.right.value.Num?
  }

  function Only(terms: seq<Expr>, forgotten: bool): seq<Expr> {
    if terms == [] then []
    else
      var t := terms[|terms| - 1];
      Only(terms[..|terms| - 1], forgotten) + (if Forgotten(t) == forgotten then [t] else [])
  }

  lemma {:induction false} OnlyIs(terms: seq<Expr>, forgotten: bool)
    ensures forall t :: t in Only(terms, forgotten) <==> t in terms && Forgotten(t) == forgotten
  {
    hide Forgotten;
    if terms != [] {
      var n := |terms| - 1;
      OnlyIs(terms[..n], forgotten);
      assert terms == terms[..n] + [terms[n]];
    }
  }

  lemma {:induction false} NoneForgotten(terms: seq<Expr>)
    requires forall t | t in terms :: RangesNumeric(t)
    ensures Only(terms, false) == terms
  {
    if terms != [] {
      var n := |terms| - 1;
      assert terms == terms[..n] + [terms[n]];
      assert RangesNumeric(terms[n]);
      NoneForgotten(terms[..n]);
    }
  }

  lemma {:induction false} PutKeys(env: Env, q: Literals, k: string, v: Value)
    requires Keyed(env, q) && k == ValueString(env, v)
    ensures KeysOf(Put(q, k, v)) == KeysOf(q) + {k} && Keyed(env, Put(q, k, v))
  {
    if q == [] {
      assert Put(q, k, v)[1..] == [];
    } else if q[0].0 == k {
      assert Put(q, k, v)[1..] == q[1..];
    } else {
      PutKeys(env, q[1..], k, v);
      assert Put(q, k, v)[1..] == Put(q[1..], k, v);
    }
  }

  ghost predicate AbsorbedOk(env: Env, row: Row, fs: FieldState, op: string, v: Value) {
    var next := Absorb(env, fs, op, v);
    && Keyed(env, next.eq) && Keyed(env, next.neq)
    && next.left == fs.left
    && (FieldHolds(env, row, next) <==> FieldHolds(env, row, fs) && Holds(env, row, Binary(op, fs.left, Literal(v))))
  }

  lemma AbsorbedEquality(env: Env, row: Row, fs: FieldState, op: string, v: Value)
    requires (op == "=" || op == "==" || op == "!=") && Keyed(env, fs.eq) && Keyed(env, fs.neq)
    ensures AbsorbedOk(env, row, fs, op, v)
  {
    hide Put, Keyed, KeysOf;
    PutKeys(env, fs.eq, ValueString(env, v), v);
    PutKeys(env, fs.neq, ValueString(env, v), v);
    NoKeys(fs);
    NoKeys(Absorb(env, fs, op, v));
  }

  lemma NoKeys(fs: FieldState)
    ensures fs.eq == [] ==> KeysOf(fs.eq) == {}
    ensures fs.neq == [] ==> KeysOf(fs.neq) == {}
    ensures KeysOf(fs.eq) == {} ==> fs.eq == []
    ensures KeysOf(fs.neq) == {} ==> fs.neq == []
  {
  }

  lemma AbsorbedRange(env: Env, row: Row, fs: FieldState, op: string, v: Value)
    requires RangeOp(op) && v.Num? && Keyed(env, fs.eq) && Keyed(env, fs.neq)
    ensures AbsorbedOk(env, row, fs, op, v)
  {
    hide Put, Keyed, KeysOf;
    NoKeys(fs);
  }

  /** Tightening keeps exactly the rows both constraints keep. */
  lemma Absorbed(env: Env, row: Row, fs: FieldState, op: string, v: Value)
    requires Gathers(op) && (RangeOp(op) ==> v.Num?) && Keyed(env, fs.eq) && Keyed(env, fs.neq)
    ensures AbsorbedOk(env, row, fs, op, v)
  {
    hide AbsorbedOk, Keyed;
    if RangeOp(op) {
      AbsorbedRange(env, row, fs, op, v);
    } else {
      AbsorbedEquality(env, row, fs, op, v);
    }
  }

  lemma FieldKeyInjective(a: Expr, b: Expr)
    requires FieldKey(a) == FieldKey(b) != ""
    ensures a == b
  {
    assert FieldKey(a)[0] == FieldKey(b)[0];
    match (a, b) {
      case (ColumnRef(x), ColumnRef(y)) => assert x == FieldKey(a)[4..] && y == FieldKey(b)[4..];
      case (AttrRef(x), AttrRef(y)) => assert x == FieldKey(a)[5..] && y == FieldKey(b)[5..];
      case _ =>
    }
  }

  ghost predicate FieldsOk(env: Env, g: Gathered) {
    forall k | k in g.fields ::
      && FieldKey(g.fields[k].left) == k && k != ""
      && Keyed(env, g.fields[k].eq) && Keyed(env, g.fields[k].neq)
  }

  /** What was kept verbatim comes from the chain, and `seen` lists how it prints. */
  ghost predicate SeenOk(env: Env, g: Gathered, terms: seq<Expr>) {
    && (forall t | t in g.passthrough :: t in terms)
    && (forall s | s in g.seen :: exists t :: t in g.passthrough && Passes(t) && Show(env, t) == s)
  }

  // ---- Gathering loses nothing ----

  /** What the first loop maintains about the terms it has read. */
  ghost predicate GatheredOk(env: Env, row: Row, g: Gathered, terms: seq<Expr>) {
    && FieldsOk(env, g)
    && SeenOk(env, g, terms)
    && (StateHolds(env, row, g) <==> AllHold(env, row, terms))
  }

  lemma PassedOnce(env: Env, row: Row, g: Gathered, terms: seq<Expr>, t: Expr)
    requires GatheredOk(env, row, g, terms) && Passes(t)
    requires PrintApart(env, terms + [t])
    ensures GatheredOk(env, row, PassOnce(env, g, t), terms + [t])
  {
    hide Keyed, FieldKey, FieldHolds, Passes, Holds, RangesNumeric;
    var n := PassOnce(env, g, t);
    var more := terms + [t];
    assert forall x :: x in more <==> x in terms || x == t;
    if Show(env, t) in g.seen {
      var u :| u in g.passthrough && Passes(u) && Show(env, u) == Show(env, t);
      assert u in more && t in more;
      assert u == t;
    } else {
      AllHoldPlus(env, row, g.passthrough, t);
      assert forall x :: x in n.passthrough <==> x in g.passthrough || x == t;
      assert forall s | s in n.seen :: s in g.seen || s == Show(env, t);
    }
    AllHoldPlus(env, row, terms, t);
  }

  lemma PassedPlain(env: Env, row: Row, g: Gathered, terms: seq<Expr>, t: Expr)
    requires GatheredOk(env, row, g, terms) && !t.Binary?
    ensures GatheredOk(env, row, Gather(env, g, t), terms + [t])
  {
    hide Keyed, FieldKey, FieldHolds, Passes, Holds;
    AllHoldPlus(env, row, g.passthrough, t);
    AllHoldPlus(env, row, terms, t);
    var n := Gather(env, g, t);
    assert forall x :: x in terms + [t] <==> x in terms || x == t;
    assert forall x :: x in n.passthrough <==> x in g.passthrough || x == t;
  }

  function OpenField(g: Gathered, left: Expr): Gathered {
    var key := FieldKey(left);
    if key in g.fields then g
    else g.(fields := g.fields[key := FieldState(left, Unset, Unset, [], [])], order := g.order + [key])
  }

  lemma FreshFieldHolds(env: Env, row: Row, left: Expr)
    ensures FieldHolds(env, row, FieldState(left, Unset, Unset, [], []))
  {
  }

  lemma FieldOpened(env: Env, row: Row, g: Gathered, terms: seq<Expr>, left: Expr)
    requires GatheredOk(env, row, g, terms) && FieldKey(left) != ""
    ensures GatheredOk(env, row, OpenField(g, left), terms)
    ensures FieldKey(left) in OpenField(g, left).fields && OpenField(g, left).fields[FieldKey(left)].left == left
  {
    hide AllHold, Foldable, FieldHolds, Operand;
    var key := FieldKey(left);
    if key in g.fields {
      FieldKeyInjective(g.fields[key].left, left);
    } else {
      FreshFieldHolds(env, row, left);
      var n := OpenField(g, left);
      assert forall k | k in n.fields :: k == key || (k in g.fields && n.fields[k] == g.fields[k]);
      assert forall k | k in g.fields :: k in n.fields && n.fields[k] == g.fields[k];
    }
  }

  lemma FieldUpdated(env: Env, row: Row, g: Gathered, terms: seq<Expr>, t: Expr)
    requires GatheredOk(env, row, g, terms) && Simple(t) && Gathers(t.op) && RangesNumeric(t)
    requires FieldKey(t.left) in g.fields && g.fields[FieldKey(t.left)].left == t.left
    ensures var key := FieldKey(t.left);
            GatheredOk(env, row,
                       g.(fields := g.fields[key := Absorb(env, g.fields[key], t.op, t.right.value)]), terms + [t])
  {
    hide FieldHolds, Holds, Keyed, Absorb, Passes;
    var key := FieldKey(t.left);
    var fs := g.fields[key];
    Absorbed(env, row, fs, t.op, t.right.value);
    assert t == Binary(t.op, t.left, Literal(t.right.value));
    AllHoldPlus(env, row, terms, t);
    var n := g.(fields := g.fields[key := Absorb(env, fs, t.op, t.right.value)]);
    assert forall k | k in n.fields && k != key :: k in g.fields && n.fields[k] == g.fields[k];
    assert forall k | k in g.fields && k != key :: k in n.fields && n.fields[k] == g.fields[k];
    assert FieldsOk(env, n);
    assert SeenOk(env, n, terms + [t]);
    assert FieldHolds(env, row, n.fields[key]) <==> FieldHolds(env, row, fs) && Holds(env, row, t);
    assert StateHolds(env, row, g) && Holds(env, row, t) ==> StateHolds(env, row, n);
    if StateHolds(env, row, n) {
      assert FieldHolds(env, row, n.fields[key]);
      forall k | k in g.fields ensures FieldHolds(env, row, g.fields[k]) {
        assert k != key ==> FieldHolds(env, row, n.fields[k]);
      }
    }
  }

  lemma GatheredMore(env: Env, row: Row, g: Gathered, terms: seq<Expr>, t: Expr)
    requires GatheredOk(env, row, g, terms) && PrintApart(env, terms + [t]) && !Forgotten(t)
    ensures GatheredOk(env, row, Gather(env, g, t), terms + [t])
  {
    hide GatheredOk, PrintApart, Absorb, PassOnce, FieldKey;
    if !t.Binary? {
      PassedPlain(env, row, g, terms, t);
    } else if !Simple(t) {
      PassedOnce(env, row, g, terms, t);
    } else {
      FieldOpened(env, row, g, terms, t.left);
      if Gathers(t.op) {
        FieldUpdated(env, row, OpenField(g, t.left), terms, t);
      } else {
        PassedOnce(env, row, OpenField(g, t.left), terms, t);
      }
    }
  }

  /** A forgotten range leaves at most an unconstrained field behind. */
  lemma GatheredNothing(env: Env, row: Row, g: Gathered, terms: seq<Expr>, t: Expr)
    requires GatheredOk(env, row, g, terms) && Forgotten(t)
    ensures GatheredOk(env, row, Gather(env, g, t), terms)
  {
    hide GatheredOk, FieldKey;
    FieldOpened(env, row, g, terms, t.left);
    var key := FieldKey(t.left);
    var g1 := OpenField(g, t.left);
    assert Absorb(env, g1.fields[key], t.op, t.right.value) == g1.fields[key];
    assert g1.fields[key := g1.fields[key]] == g1.fields;
  }

  lemma ApartParts(env: Env, terms: seq<Expr>, parts: seq<Expr>)
    requires PrintApart(env, terms) && forall t | t in parts :: t in terms
    ensures PrintApart(env, parts)
  {
  }

  /** The first loop gathers exactly the terms it does not forget. */
  lemma {:induction false} GatherAllOk(env: Env, row: Row, terms: seq<Expr>)
    requires PrintApart(env, terms)
    ensures GatheredOk(env, row, GatherAll(env, terms), Only(terms, false))
  {
    hide PrintApart, Forgotten, Gather;
    if terms == [] {
      NothingGathered(env, row);
    } else {
      var n := |terms| - 1;
      var front, t := terms[..n], terms[n];
      assert terms == front + [t];
      ApartParts(env, terms, front);
      GatherAllOk(env, row, front);
      if Forgotten(t) {
        GatheredNothing(env, row, GatherAll(env, front), Only(front, false), t);
        assert Only(front, false) + [] == Only(front, false);
      } else {
        OnlyIs(front, false);
        ApartParts(env, terms, Only(front, false) + [t]);
        GatheredMore(env, row, GatherAll(env, front), Only(front, false), t);
      }
    }
  }

  lemma NothingGathered(env: Env, row: Row)
    ensures GatheredOk(env, row, NOTHING, [])
  {
  }

  // ---- Rebuilding loses nothing ----

  /** What "field op k" asks of the field's text, for the two equality operators. */
  predicate Meets(op: string, text: string, k: string) {
    if op == "=" then text == k else text != k
  }

  lemma {:induction false} TermsHold(env: Env, row: Row, left: Expr, op: string, q: Literals, c: Cell)
    requires Keyed(env, q) && Operand(env, row, left) == Some(c) && (op == "=" || op == "!=")
    ensures AllHold(env, row, Terms(left, op, q)) <==>
            forall k | k in KeysOf(q) :: Meets(op, c.text, k)
  {
    if q != [] {
      TermsHold(env, row, left, op, q[1..], c);
      var t := Binary(op, left, Literal(q[0].1));
      assert Terms(left, op, q) == [t] + Terms(left, op, q[1..]);
      AllHoldPlus(env, row, Terms(left, op, q[1..]), t);
      assert Holds(env, row, t) <==> Meets(op, c.text, q[0].0);
      assert KeysOf(q) == {q[0].0} + KeysOf(q[1..]);
    } else {
      assert Terms(left, op, q) == [];
    }
  }

  lemma BoundsHold(env: Env, row: Row, left: Expr, lower: Bound, upper: Bound, c: Cell)
    requires Operand(env, row, left) == Some(c)
    ensures AllHold(env, row, BoundTerm(left, ">", ">=", lower)) <==> InLower(lower, c)
    ensures AllHold(env, row, BoundTerm(left, "<", "<=", upper)) <==> InUpper(upper, c)
  {
    var lo, hi := BoundTerm(left, ">", ">=", lower), BoundTerm(left, "<", "<=", upper);
    assert lo != [] ==> lo[0] in lo;
    assert hi != [] ==> hi[0] in hi;
  }

  lemma HasKeyIsIn(q: Literals, k: string)
    ensures HasKey(q, k) <==> k in KeysOf(q)
  {
    if q != [] {
      HasKeyIsIn(q[1..], k);
      assert q == [q[0]] + q[1..];
      assert forall p :: p in q <==> p == q[0] || p in q[1..];
      if HasKey(q, k) {
        var p :| p in q && p.0 == k;
      }
      if HasKey(q[1..], k) {
        var p :| p in q[1..] && p.0 == k;
        assert p in q;
      }
    }
  }

  /** A contradictory field keeps no row. */
  lemma ContradictionKeepsNothing(env: Env, row: Row, fs: FieldState)
    requires Contradicts(fs) && Keyed(env, fs.eq)
    ensures !FieldHolds(env, row, fs)
  {
    if |fs.eq| > 1 {
      assert fs.eq[0].0 in KeysOf(fs.eq) && fs.eq[1..][0].0 in KeysOf(fs.eq[1..]);
    } else if |fs.eq| == 1 {
      assert fs.eq[0].0 in KeysOf(fs.eq);
      HasKeyIsIn(fs.neq, fs.eq[0].0);
    }
  }

  /** With one value required, the excluded values other than it are implied. */
  lemma OneValueImpliesExclusions(fs: FieldState, c: Cell)
    requires !Contradicts(fs) && fs.eq != [] && forall k | k in KeysOf(fs.eq) :: c.text == k
    ensures forall k | k in KeysOf(fs.neq) :: c.text != k
  {
    assert fs.eq[0].0 in KeysOf(fs.eq);
    HasKeyIsIn(fs.neq, fs.eq[0].0);
  }

  lemma FieldTermsHold(env: Env, row: Row, fs: FieldState)
    requires !Contradicts(fs) && Keyed(env, fs.eq) && Keyed(env, fs.neq)
    ensures AllHold(env, row, FieldTerms(fs)) <==> FieldHolds(env, row, fs)
  {
    hide Contradicts, Operand, CellHolds, Keyed, InLower, InUpper;
    var a := Terms(fs.left, "=", fs.eq);
    var b := if fs.eq == [] then Terms(fs.left, "!=", fs.neq) else [];
    var lo, hi := BoundTerm(fs.left, ">", ">=", fs.lower), BoundTerm(fs.left, "<", "<=", fs.upper);
    AllHoldConcat(env, row, a + b + lo, hi);
    AllHoldConcat(env, row, a + b, lo);
    AllHoldConcat(env, row, a, b);
    match Operand(env, row, fs.left) {
      case Some(c) =>
        TermsHold(env, row, fs.left, "=", fs.eq, c);
        TermsHold(env, row, fs.left, "!=", fs.neq, c);
        BoundsHold(env, row, fs.left, fs.lower, fs.upper, c);
        if fs.eq != [] && forall k | k in KeysOf(fs.eq) :: c.text == k {
          OneValueImpliesExclusions(fs, c);
        }
        TrivialBounds(fs, c);
        NoKeys(fs);
        assert AllHold(env, row, []);
        assert forall k :: Meets("=", c.text, k) <==> c.text == k;
        assert forall k :: Meets("!=", c.text, k) <==> c.text != k;
        assert AllHold(env, row, a) <==> forall k | k in KeysOf(fs.eq) :: c.text == k;
        assert fs.eq == [] ==> (AllHold(env, row, b) <==> forall k | k in KeysOf(fs.neq) :: c.text != k);
        assert fs.eq != [] && AllHold(env, row, a) ==> forall k | k in KeysOf(fs.neq) :: c.text != k;
      case None =>
        MissingOperand(env, row, fs);
    }
  }

  lemma TrivialBounds(fs: FieldState, c: Cell)
    ensures Unconstrained(fs) ==> InLower(fs.lower, c) && InUpper(fs.upper, c) && KeysOf(fs.eq) == {} == KeysOf(fs.neq)
  {
  }

  /** A constrained field has at least one term, and no term holds of a missing operand. */
  lemma MissingOperand(env: Env, row: Row, fs: FieldState)
    requires Operand(env, row, fs.left) == None
    ensures AllHold(env, row, FieldTerms(fs)) <==> Unconstrained(fs)
  {
    var ts := FieldTerms(fs);
    forall t | t in ts ensures !Holds(env, row, t) {}
    if ts != [] {
      assert ts[0] in ts;
    }
  }

  lemma {:induction false} RebuildHolds(env: Env, row: Row, g: Gathered, n: nat)
    requires FieldsOk(env, g) && Indexed(g) && n <= |g.order|
    ensures match Rebuild(g, n)
            case None => exists k :: k in g.fields && !FieldHolds(env, row, g.fields[k])
            case Some(out) =>
              AllHold(env, row, out) <==> forall i | 0 <= i < n :: FieldHolds(env, row, g.fields[g.order[i]])
  {
    hide FieldHolds, Contradicts, FieldTerms, Keyed;
    if n > 0 {
      RebuildHolds(env, row, g, n - 1);
      var fs := g.fields[g.order[n - 1]];
      if Contradicts(fs) {
        ContradictionKeepsNothing(env, row, fs);
      } else if Rebuild(g, n - 1).Some? {
        FieldTermsHold(env, row, fs);
        AllHoldConcat(env, row, Rebuild(g, n - 1).value, FieldTerms(fs));
      }
    }
  }

  lemma SortedHolds(env: Env, row: Row, terms: seq<Expr>)
    ensures AllHold(env, row, Sorting.SortBy(terms, (e: Expr) => Show(env, e))) <==> AllHold(env, row, terms)
  {
    forall t ensures t in Sorting.SortBy(terms, (e: Expr) => Show(env, e)) <==> t in terms {
      Sorting.SortedSame(terms, (e: Expr) => Show(env, e), t);
    }
  }

  /** Folding keeps exactly the rows that every term but the forgotten ranges keeps. */
  lemma SimplifyKeepsExactly(env: Env, row: Row, terms: seq<Expr>)
    requires PrintApart(env, terms)
    ensures AllHold(env, row, SimplifyAnd(env, terms)) <==> AllHold(env, row, Only(terms, false))
  {
    hide FieldHolds, PrintApart, Rebuild, FieldsOk, SeenOk, Holds, Sorting.SortBy, Only;
    var g := GatherAll(env, terms);
    GatherAllOk(env, row, terms);
    GatherAllIndexed(env, terms);
    RebuildHolds(env, row, g, |g.order|);
    match Rebuild(g, |g.order|) {
      case None =>
        NoRows(env, row);
      case Some(out) =>
        SortedHolds(env, row, out + g.passthrough);
        AllHoldConcat(env, row, out, g.passthrough);
        assert (forall k | k in g.fields :: FieldHolds(env, row, g.fields[k])) <==>
               forall i | 0 <= i < |g.order| :: FieldHolds(env, row, g.fields[g.order[i]]);
    }
  }

  /** Folding an AND chain as Build makes it keeps exactly the rows the chain keeps. */
  lemma SimplifyAndKeeps(env: Env, row: Row, terms: seq<Expr>)
    requires Foldable(env, terms)
    ensures AllHold(env, row, SimplifyAnd(env, terms)) <==> AllHold(env, row, terms)
  {
    hide PrintApart, SimplifyAnd;
    SimplifyKeepsExactly(env, row, terms);
    NoneForgotten(terms);
  }

  /** On any chain, folding is right about a row exactly if the row meets the forgotten ranges or fails another term. */
  lemma FoldingRightExactly(env: Env, row: Row, terms: seq<Expr>)
    requires PrintApart(env, terms)
    ensures (AllHold(env, row, SimplifyAnd(env, terms)) <==> AllHold(env, row, terms)) <==>
            AllHold(env, row, Only(terms, true)) || !AllHold(env, row, Only(terms, false))
  {
    hide PrintApart, SimplifyAnd, Holds, Forgotten;
    SimplifyKeepsExactly(env, row, terms);
    OnlyIs(terms, true);
    OnlyIs(terms, false);
  }

  lemma NoRows(env: Env, row: Row)
    ensures !AllHold(env, row, [Literal(Bool(false))])
  {
    assert Literal(Bool(false)) in [Literal(Bool(false))];
  }

  /** An input on which folding is wrong about every row: a lone string range. */
  lemma StringRangeIsDropped(env: Env, row: Row)
    ensures var terms := [Binary(">", ColumnRef("span_name"), Literal(Str("m")))];
            SimplifyAnd(env, terms) == [] && !AllHold(env, row, terms)
  {
    var t := Binary(">", ColumnRef("span_name"), Literal(Str("m")));
    assert [t][..0] == [];
    var key := FieldKey(t.left);
    var g := GatherAll(env, [t]);
    assert GatherAll(env, []) == NOTHING;
    assert g == Gather(env, NOTHING, t);
    assert g.order == [key] && g.fields[key] == FieldState(t.left, Unset, Unset, [], []);
    assert Rebuild(g, 0) == Some([]);
    assert FieldTerms(g.fields[key]) == [];
    assert Rebuild(g, 1) == Some([]);
    assert t in [t];
  }
}
