/**
 What a tree with includes stands for, said without computing it: which tree
 relates to which, node by node, and which tree a file stands for when includes
 nest at most so deep. The expansions of `Include` are proved to be that.
 */
module IncludeMeaning {
  import opened Expansion
  import opened Include

  /** Which tree an include path may stand for. */
  type Meaning = (string, Node) -> bool

  predicate HasTag(n: Node) {
    (n.Mapping? || n.Sequence? || n.Scalar?) && n.tag == "!include"
  }

  function Written(n: Node): string {
    if n.Scalar? then n.value else ""
  }

  /**
   `r` is the tree `n` with its includes replaced: the children of a document, the
   values of a mapping (and not its keys), the items of a sequence, and what an
   alias refers to.
   */
  ghost predicate Resolves(n: Node, r: Node, means: Meaning)
    decreases n, 0
  {
    match n
    case Zero => r == n
    case Scalar(_, _) => r == n
    case Alias(target) => r.Alias? && Resolves(target, r.target, means)
    case Document(content) =>
      r.Document? && |r.content| == |content| && forall i | 0 <= i < |content| :: Resolves(content[i], r.content[i], means)
    case Mapping(tag, content) =>
      && r.Mapping? && r.tag == tag && |r.content| == |content|
      && forall i | 0 <= i < |content| ::
           if i % 2 == 0 then r.content[i] == content[i] else StandsFor(content[i], r.content[i], means)
    case Sequence(tag, content) => r.Sequence? && r.tag == tag && ItemsStand(content, r.content, means)
  }

  /** `t` stands in the place of the value or item `child`. */
  ghost predicate StandsFor(child: Node, t: Node, means: Meaning)
    decreases child, 1
  {
    if HasTag(child) then means(Written(child), t) else Resolves(child, t, means)
  }

  /** The nodes `out` stand in the place of the item `child`: one, or the items of an included sequence. */
  ghost predicate ItemStands(child: Node, out: seq<Node>, means: Meaning)
    decreases child, 2
  {
    exists t :: StandsFor(child, t, means) && out == if HasTag(child) && t.Sequence? then t.content else [t]
  }

  /** The nodes `out` are those for the items, in their order. */
  ghost predicate ItemsStand(content: seq<Node>, out: seq<Node>, means: Meaning)
    decreases content
  {
    if content == [] then out == []
    else exists m | 0 <= m <= |out| :: ItemStands(content[0], out[..m], means) && ItemsStand(content[1..], out[m..], means)
  }

  /** What a document holds at its root. */
  function Content(doc: Node): Node {
    if doc.Document? && doc.content != [] then doc.content[0] else doc
  }

  /** File `f` stands for the tree `t`, its includes nesting less than `d` deep. */
  ghost predicate FileMeans(fs: Store, f: Path, t: Node, d: nat)
    decreases d, 0
  {
    && d > 0 && f in fs.files && fs.files[f].Parsed?
    && exists doc :: Resolves(fs.files[f].doc, doc, WrittenIn(fs, f, d - 1)) && Content(doc) == t
  }

  /** What the include paths written in file `f` stand for. */
  ghost function WrittenIn(fs: Store, f: Path, d: nat): Meaning
    decreases d, 1
  {
    (p: string, t: Node) => FileMeans(fs, fs.locate(p, fs.dir(f)), t, d)
  }

  // ------------------------------------------------------ grafting gives such trees

  /** Every include path of the tree stands for what the environment gives. */
  ghost predicate Covers(n: Node, env: Loads, means: Meaning) {
    forall p | p in Paths(n) :: means(p, env(p))
  }

  ghost predicate CoversSlot(child: Node, env: Loads, means: Meaning) {
    if child.IsInclude() then means(child.Value(), env(child.Value())) else Covers(child, env, means)
  }

  lemma SlotCovered(child: Node, item: bool, env: Loads, means: Meaning)
    requires forall s | s in SlotIncludes(child, item) :: means(s.1, env(s.1))
    ensures CoversSlot(child, env, means)
  {
    if child.IsInclude() {
      assert (item, child.Value()) in SlotIncludes(child, item);
    } else {
      forall p | p in Paths(child)
        ensures means(p, env(p))
      {
        var s :| s in Includes(child) && s.1 == p;
      }
    }
  }

  lemma CoversParts(n: Node, env: Loads, means: Meaning)
    requires Covers(n, env, means)
    ensures n.Document? ==> forall i | 0 <= i < |n.content| :: Covers(n.content[i], env, means)
    ensures n.Mapping? ==> forall i | 0 <= i < |n.content| && i % 2 == 1 :: CoversSlot(n.content[i], env, means)
    ensures n.Sequence? ==> forall i | 0 <= i < |n.content| :: CoversSlot(n.content[i], env, means)
    ensures n.Alias? ==> Covers(n.target, env, means)
  {
    PartPaths(n);
    if n.Mapping? || n.Sequence? {
      forall i | 0 <= i < |n.content| && (n.Mapping? ==> i % 2 == 1)
        ensures CoversSlot(n.content[i], env, means)
      {
        SlotCovered(n.content[i], n.Sequence?, env, means);
      }
    }
  }

  lemma {:induction false} GraftResolves(n: Node, env: Loads, means: Meaning)
    requires Covers(n, env, means)
    ensures Resolves(n, Graft(n, env), means)
    decreases n, 0
  {
    CoversParts(n, env, means);
    match n
    case Document(content) =>
      forall i | 0 <= i < |content|
        ensures Resolves(content[i], Graft(content[i], env), means)
      {
        GraftResolves(content[i], env, means);
      }
    case Mapping(tag, content) =>
      forall i | 0 <= i < |content| && i % 2 == 1
        ensures StandsFor(content[i], GraftValue(content[i], env), means)
      {
        ValueStands(content[i], env, means);
      }
    case Sequence(tag, content) =>
      forall i | 0 <= i < |content|
        ensures StandsFor(content[i], GraftValue(content[i], env), means)
      {
        ValueStands(content[i], env, means);
      }
      GraftItemsStand(content, env, means);
    case Alias(target) =>
      GraftResolves(target, env, means);
    case Zero =>
    case Scalar(_, _) =>
  }

  lemma {:induction false} ValueStands(child: Node, env: Loads, means: Meaning)
    requires CoversSlot(child, env, means)
    ensures StandsFor(child, GraftValue(child, env), means)
    decreases child, 1
  {
    if !child.IsInclude() {
      GraftResolves(child, env, means);
    }
  }

  lemma {:induction false} GraftItemsStand(content: seq<Node>, env: Loads, means: Meaning)
    requires forall i | 0 <= i < |content| :: StandsFor(content[i], GraftValue(content[i], env), means)
    ensures ItemsStand(content, GraftItems(content, env), means)
  {
    if content != [] {
      var a, b := GraftItem(content[0], env), GraftItems(content[1..], env);
      GraftItemsStand(content[1..], env, means);
      assert ItemStands(content[0], a, means);
      assert (a + b)[..|a|] == a && (a + b)[|a|..] == b;
    }
  }

  // -------------------------------------------------------------- and only such

  /** The relation gives no tree but that of the environment. */
  ghost predicate Only(env: Loads, means: Meaning) {
    forall p, t | means(p, t) :: t == env(p)
  }

  lemma {:induction false} ResolvesGraft(n: Node, r: Node, env: Loads, means: Meaning)
    requires Resolves(n, r, means) && Only(env, means)
    ensures r == Graft(n, env) && Covers(n, env, means)
    decreases n, 0
  {
    match n
    case Document(content) =>
      forall i | 0 <= i < |content|
        ensures r.content[i] == Graft(content[i], env) && Covers(content[i], env, means)
      {
        ResolvesGraft(content[i], r.content[i], env, means);
      }
      CoversWhole(n, env, means);
    case Mapping(tag, content) =>
      forall i | 0 <= i < |content| && i % 2 == 1
        ensures r.content[i] == GraftValue(content[i], env) && CoversSlot(content[i], env, means)
      {
        StandsForGraft(content[i], r.content[i], env, means);
      }
      assert r.content == GraftValues(content, env, |content|);
      CoversWhole(n, env, means);
    case Sequence(tag, content) =>
      ItemsStandGraft(content, r.content, env, means);
      forall i | 0 <= i < |content|
        ensures CoversSlot(content[i], env, means)
      {
        CoversEach(content, env, means, i);
      }
      CoversWhole(n, env, means);
    case Alias(target) =>
      ResolvesGraft(target, r.target, env, means);
    case Zero =>
    case Scalar(_, _) =>
  }

  lemma {:induction false} StandsForGraft(child: Node, t: Node, env: Loads, means: Meaning)
    requires StandsFor(child, t, means) && Only(env, means)
    ensures t == GraftValue(child, env) && CoversSlot(child, env, means)
    decreases child, 1
  {
    if !child.IsInclude() {
      ResolvesGraft(child, t, env, means);
    }
  }

  lemma {:induction false} ItemStandsGraft(child: Node, out: seq<Node>, env: Loads, means: Meaning)
    requires ItemStands(child, out, means) && Only(env, means)
    ensures out == GraftItem(child, env) && CoversSlot(child, env, means)
    decreases child, 2
  {
    var t :| StandsFor(child, t, means) && out == if HasTag(child) && t.Sequence? then t.content else [t];
    StandsForGraft(child, t, env, means);
  }

  ghost predicate CoversItems(content: seq<Node>, env: Loads, means: Meaning) {
    content == [] || (CoversSlot(content[0], env, means) && CoversItems(content[1..], env, means))
  }

  lemma {:induction false} CoversEach(content: seq<Node>, env: Loads, means: Meaning, i: nat)
    requires CoversItems(content, env, means) && i < |content|
    ensures CoversSlot(content[i], env, means)
  {
    if i > 0 {
      CoversEach(content[1..], env, means, i - 1);
    }
  }

  lemma {:induction false} ItemsStandGraft(content: seq<Node>, out: seq<Node>, env: Loads, means: Meaning)
    requires ItemsStand(content, out, means) && Only(env, means)
    ensures out == GraftItems(content, env) && CoversItems(content, env, means)
    decreases content
  {
    if content != [] {
      var m :| 0 <= m <= |out| && ItemStands(content[0], out[..m], means) && ItemsStand(content[1..], out[m..], means);
      ItemStandsGraft(content[0], out[..m], env, means);
      ItemsStandGraft(content[1..], out[m..], env, means);
      assert out == out[..m] + out[m..];
    }
  }

  lemma SlotCovers(child: Node, item: bool, env: Loads, means: Meaning)
    requires CoversSlot(child, env, means)
    ensures forall s | s in SlotIncludes(child, item) :: means(s.1, env(s.1))
  {
    if !child.IsInclude() {
      forall s | s in Includes(child)
        ensures means(s.1, env(s.1))
      {
        assert s.1 in Paths(child);
      }
    }
  }

  lemma CoversWhole(n: Node, env: Loads, means: Meaning)
    requires n.Document? || n.Mapping? || n.Sequence?
    requires n.Document? ==> forall i | 0 <= i < |n.content| :: Covers(n.content[i], env, means)
    requires n.Mapping? ==> forall i | 0 <= i < |n.content| && i % 2 == 1 :: CoversSlot(n.content[i], env, means)
    requires n.Sequence? ==> forall i | 0 <= i < |n.content| :: CoversSlot(n.content[i], env, means)
    ensures Covers(n, env, means)
  {
    forall s | s in Includes(n)
      ensures means(s.1, env(s.1))
    {
      match n
      case Document(content) =>
        var i :| 0 <= i < |content| && s in Includes(content[i]);
        assert s.1 in Paths(content[i]);
      case Mapping(_, content) =>
        var i :| 0 <= i < |content| && i % 2 == 1 && s in SlotIncludes(content[i], false);
        SlotCovers(content[i], false, env, means);
      case Sequence(_, content) =>
        var i :| 0 <= i < |content| && s in SlotIncludes(content[i], true);
        SlotCovers(content[i], true, env, means);
    }
  }

  /** Trees with includes stand for what grafting makes of them, and for nothing else. */
  lemma ResolvesExact(n: Node, r: Node, env: Loads)
    ensures Resolves(n, r, (p: string, t: Node) => t == env(p)) <==> r == Graft(n, env)
  {
    var means: Meaning := (p: string, t: Node) => t == env(p);
    GraftResolves(n, env, means);
    if Resolves(n, r, means) {
      ResolvesGraft(n, r, env, means);
    }
  }

  // -------------------------------------------------------------------- files

  /** The expansions of the files that includes written in `f` name. */
  function Expanded(fs: Store, f: Path, d: nat): Loads {
    p =>
      var h := fs.locate(p, fs.dir(f));
      if Ends(IncludeGraph(fs), h, d) then Plain(IncludeGraph(fs), h, d) else Zero
  }

  lemma PlainGraft(fs: Store, f: Path, d: nat)
    requires d > 0 && Ends(IncludeGraph(fs), f, d)
    ensures fs.Loadable(f) && Plain(IncludeGraph(fs), f, d) == Content(Graft(fs.files[f].doc, Expanded(fs, f, d - 1)))
  {
    var g, doc, dir := IncludeGraph(fs), fs.files[f].doc, fs.dir(f);
    var expanded := map h | h in g.deps(f) :: Plain(g, h, d - 1);
    assert Plain(g, f, d) == g.build(f, expanded);
    forall p | p in Paths(doc)
      ensures Found(fs, dir, expanded)(p) == Expanded(fs, f, d - 1)(p)
    {
      assert fs.Named(p, f) in g.deps(f);
    }
    GraftSame(doc, Found(fs, dir, expanded), Expanded(fs, f, d - 1));
  }

  /** The expansion of a file to a depth ends just if the file stands for a tree, and is that tree. */
  lemma {:induction false} FileMeansPlain(fs: Store, f: Path, t: Node, d: nat)
    ensures FileMeans(fs, f, t, d) <==> Ends(IncludeGraph(fs), f, d) && t == Plain(IncludeGraph(fs), f, d)
    decreases d
  {
    if d > 0 && fs.Loadable(f) {
      var g, doc, env, means := IncludeGraph(fs), fs.files[f].doc, Expanded(fs, f, d - 1), WrittenIn(fs, f, d - 1);
      forall p, t'
        ensures means(p, t') <==> Ends(g, fs.Named(p, f), d - 1) && t' == env(p)
      {
        FileMeansPlain(fs, fs.Named(p, f), t', d - 1);
      }
      if FileMeans(fs, f, t, d) {
        var doc' :| Resolves(doc, doc', means) && Content(doc') == t;
        ResolvesGraft(doc, doc', env, means);
        forall h | h in g.deps(f)
          ensures Ends(g, h, d - 1)
        {
          var p :| p in Paths(doc) && h == fs.Named(p, f);
          assert means(p, env(p));
        }
        PlainGraft(fs, f, d);
      }
      if Ends(g, f, d) && t == Plain(g, f, d) {
        forall p | p in Paths(doc)
          ensures means(p, env(p))
        {
          assert fs.Named(p, f) in g.deps(f);
        }
        GraftResolves(doc, env, means);
        PlainGraft(fs, f, d);
      }
    }
  }

  /** What is loaded is the tree that the file stands for, if it stands for one. */
  ghost predicate LoadsMeaning(fs: Store, f: Path, r: Result) {
    if r.Ok? then
      && (exists d: nat :: FileMeans(fs, f, Content(r.node), d))
      && (forall t, d: nat :: FileMeans(fs, f, t, d) ==> t == Content(r.node))
    else forall t, d: nat :: !FileMeans(fs, f, t, d)
  }

  lemma LoadedMeans(fs: Store, f: Path, r: Result, d: nat)
    requires r.Ok? && Ends(IncludeGraph(fs), f, d)
    requires forall k: nat | Ends(IncludeGraph(fs), f, k) :: Plain(IncludeGraph(fs), f, k) == Content(r.node)
    ensures LoadsMeaning(fs, f, r)
  {
    FileMeansPlain(fs, f, Content(r.node), d);
    forall t, k: nat
      ensures FileMeans(fs, f, t, k) ==> t == Content(r.node)
    {
      FileMeansPlain(fs, f, t, k);
    }
  }

  lemma FailedMeans(fs: Store, f: Path, r: Result)
    requires r.Err? && forall k: nat :: !Ends(IncludeGraph(fs), f, k)
    ensures LoadsMeaning(fs, f, r)
  {
    forall t, k: nat
      ensures !FileMeans(fs, f, t, k)
    {
      FileMeansPlain(fs, f, t, k);
    }
  }

  // ---------------------------------------------------------- included sequences

  lemma {:induction false} ItemsJoin(a: seq<Node>, b: seq<Node>, env: Loads)
    ensures GraftItems(a + b, env) == GraftItems(a, env) + GraftItems(b, env)
  {
    if a == [] {
      assert a + b == b;
    } else {
      assert (a + b)[1..] == a[1..] + b;
      ItemsJoin(a[1..], b, env);
    }
  }

  /**
   Where item `i` of a sequence is an include, what it stands for is found between
   what the items before and behind it come to: the items of an included sequence,
   once each and in their order, or any other tree as one item.
   */
  lemma SequenceSpliced(tag: string, content: seq<Node>, i: nat, env: Loads)
    requires i < |content| && HasTag(content[i])
    ensures var t := env(Written(content[i]));
      var r, before, behind := Graft(Sequence(tag, content), env), Graft(Sequence(tag, content[..i]), env),
        Graft(Sequence(tag, content[i + 1..]), env);
      && r.content == before.content + ((if t.Sequence? then t.content else [t]) + behind.content)
      && |r.content| == |before.content| + (if t.Sequence? then |t.content| else 1) + |behind.content|
  {
    assert content == content[..i] + ([content[i]] + content[i + 1..]);
    ItemsJoin(content[..i], [content[i]] + content[i + 1..], env);
    ItemsJoin([content[i]], content[i + 1..], env);
    assert [content[i]][1..] == [];
    assert GraftItems([content[i]], env) == GraftItem(content[i], env);
  }
}
