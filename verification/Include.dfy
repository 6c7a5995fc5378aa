/**
 Resolving `!include` directives in a YAML tree (pkg/config/include.go), over a
 finite store of files that may include each other in cycles.
 */
module Include {
  import opened Expansion

  type Path = string

  const INCLUDE := "!include"

  /**
   A YAML node. The content of a mapping is key, value, key, value, ...;
   `Zero` is what the parser leaves of an empty file.
   */
  datatype Node =
    | Zero
    | Document(content: seq<Node>)
    | Mapping(tag: string, content: seq<Node>)
    | Sequence(tag: string, content: seq<Node>)
    | Scalar(tag: string, value: string)
    | Alias(target: Node)
  {
    function Tag(): string {
      match this
      case Mapping(tag, _) => tag
      case Sequence(tag, _) => tag
      case Scalar(tag, _) => tag
      case _ => ""
    }

    function Value(): string {
      match this
      case Scalar(_, value) => value
      case _ => ""
    }

    predicate IsInclude() {
      Tag() == INCLUDE
    }

    /** The root content of a parsed file. */
    function Unwrap(): Node {
      if Document? && |content| > 0 then content[0] else this
    }
  }

  datatype File = Malformed | Parsed(doc: Node)

  /**
   The file system: what the files hold, the absolute clean form of an include
   path seen from a directory, and the directory of a file.
   */
  datatype Store = Store(files: map<Path, File>, locate: (string, Path) -> Path, dir: Path -> Path)
  {
    predicate Loadable(f: Path) {
      f in files && files[f].Parsed?
    }

    /** The file an include path names, when it is written in file `f`. */
    function Named(p: string, f: Path): Path {
      locate(p, dir(f))
    }
  }

  datatype Error = Circular(f: Path) | Unreadable(f: Path) | Unparsable(f: Path)
  datatype Result = Ok(node: Node) | Err(error: Error)

  // ---------------------------------------------- what including means, outright

  /** An include position: whether it is an item of a sequence, and the path written there. */
  type Slot = (bool, string)

  /** The include positions of a tree: values of mappings and items of sequences. */
  function Includes(n: Node): set<Slot>
    decreases n, 0
  {
    match n
    case Document(content) => set i, s | 0 <= i < |content| && s in Includes(content[i]) :: s
    case Mapping(_, content) => set i, s | 0 <= i < |content| && i % 2 == 1 && s in SlotIncludes(content[i], false) :: s
    case Sequence(_, content) => set i, s | 0 <= i < |content| && s in SlotIncludes(content[i], true) :: s
    case Alias(target) => Includes(target)
    case Zero => {}
    case Scalar(_, _) => {}
  }

  function SlotIncludes(child: Node, item: bool): set<Slot>
    decreases child, 1
  {
    if child.IsInclude() then {(item, child.Value())} else Includes(child)
  }

  /** The include paths of a tree. */
  function Paths(n: Node): set<string> {
    set s | s in Includes(n) :: s.1
  }

  /** What each include path stands for. */
  type Loads = string -> Node

  /**
   The tree with every include replaced. A sequence included as an item of a
   sequence is spliced into it.
   */
  function Graft(n: Node, env: Loads): Node
    decreases n, 0
  {
    match n
    case Document(content) => Document(seq(|content|, i requires 0 <= i < |content| => Graft(content[i], env)))
    case Mapping(tag, content) => Mapping(tag, GraftValues(content, env, |content|))
    case Sequence(tag, content) => Sequence(tag, GraftItems(content, env))
    case Alias(target) => Alias(Graft(target, env))
    case Zero => n
    case Scalar(_, _) => n
  }

  function GraftValue(child: Node, env: Loads): Node
    decreases child, 1
  {
    if child.IsInclude() then env(child.Value()) else Graft(child, env)
  }

  /** The content of a mapping with the values before place `end` grafted. */
  function GraftValues(content: seq<Node>, env: Loads, end: nat): (r: seq<Node>)
    ensures |r| == |content|
    ensures forall i | 0 <= i < |content| ::
      r[i] == if i < end && i % 2 == 1 then GraftValue(content[i], env) else content[i]
    decreases content
  {
    seq(|content|, i requires 0 <= i < |content| =>
      if i < end && i % 2 == 1 then GraftValue(content[i], env) else content[i])
  }

  lemma GraftValuesStep(content: seq<Node>, env: Loads, i: nat)
    requires i < |content| && i % 2 == 1
    ensures GraftValues(content, env, i)[i := GraftValue(content[i], env)] == GraftValues(content, env, i + 2)
  {
  }

  lemma GraftValuesEnd(content: seq<Node>, env: Loads, end: nat)
    requires |content| <= end
    ensures GraftValues(content, env, end) == GraftValues(content, env, |content|)
  {
  }

  function GraftItem(child: Node, env: Loads): seq<Node>
    decreases child, 2
  {
    var r := GraftValue(child, env);
    if child.IsInclude() && r.Sequence? then r.content else [r]
  }

  function GraftItems(content: seq<Node>, env: Loads): seq<Node>
    decreases content
  {
    if content == [] then [] else GraftItem(content[0], env) + GraftItems(content[1..], env)
  }

  lemma {:induction false} GraftItemsSnoc(content: seq<Node>, i: nat, env: Loads)
    requires i < |content|
    ensures GraftItems(content[..i + 1], env) == GraftItems(content[..i], env) + GraftItem(content[i], env)
  {
    if i == 0 {
      assert content[..1] == [content[0]];
    } else {
      assert content[..i + 1][1..] == content[1..][..i] && content[..i][1..] == content[1..][..i - 1];
      GraftItemsSnoc(content[1..], i - 1, env);
    }
  }

  /** The include paths of a part are include paths of the whole. */
  lemma PartPaths(n: Node)
    ensures n.Document? ==> forall i, p | 0 <= i < |n.content| && p in Paths(n.content[i]) :: p in Paths(n)
    ensures n.Mapping? ==>
      forall i, s | 0 <= i < |n.content| && i % 2 == 1 && s in SlotIncludes(n.content[i], false) :: s.1 in Paths(n)
    ensures n.Sequence? ==>
      forall i, s | 0 <= i < |n.content| && s in SlotIncludes(n.content[i], true) :: s.1 in Paths(n)
  {
    if n.Document? {
      forall i, p | 0 <= i < |n.content| && p in Paths(n.content[i])
        ensures p in Paths(n)
      {
        var s :| s in Includes(n.content[i]) && s.1 == p;
        assert s in Includes(n);
      }
    }
    if n.Mapping? {
      forall i, s | 0 <= i < |n.content| && i % 2 == 1 && s in SlotIncludes(n.content[i], false)
        ensures s.1 in Paths(n)
      {
        assert s in Includes(n);
      }
    }
    if n.Sequence? {
      forall i, s | 0 <= i < |n.content| && s in SlotIncludes(n.content[i], true)
        ensures s.1 in Paths(n)
      {
        assert s in Includes(n);
      }
    }
  }

  /** Grafting depends only on the paths that occur. */
  lemma {:induction false} GraftSame(n: Node, env: Loads, env': Loads)
    requires forall p | p in Paths(n) :: env(p) == env'(p)
    ensures Graft(n, env) == Graft(n, env')
    decreases n, 0
  {
    PartPaths(n);
    match n
    case Document(content) =>
      forall i | 0 <= i < |content|
        ensures Graft(content[i], env) == Graft(content[i], env')
      {
        GraftSame(content[i], env, env');
      }
    case Mapping(_, content) =>
      forall i | 0 <= i < |content| && i % 2 == 1
        ensures GraftValue(content[i], env) == GraftValue(content[i], env')
      {
        GraftValueSame(content[i], false, env, env');
      }
      assert GraftValues(content, env, |content|) == GraftValues(content, env', |content|);
    case Sequence(_, content) =>
      forall i | 0 <= i < |content|
        ensures GraftValue(content[i], env) == GraftValue(content[i], env')
      {
        GraftValueSame(content[i], true, env, env');
      }
      GraftItemsSame(content, env, env');
    case Alias(target) =>
      GraftSame(target, env, env');
    case Zero =>
    case Scalar(_, _) =>
  }

  lemma {:induction false} GraftValueSame(child: Node, item: bool, env: Loads, env': Loads)
    requires forall s | s in SlotIncludes(child, item) :: env(s.1) == env'(s.1)
    ensures GraftValue(child, env) == GraftValue(child, env')
    decreases child, 1
  {
    if child.IsInclude() {
      assert (item, child.Value()) in SlotIncludes(child, item);
    } else {
      GraftSame(child, env, env');
    }
  }

  lemma {:induction false} GraftItemsSame(content: seq<Node>, env: Loads, env': Loads)
    requires forall i | 0 <= i < |content| :: GraftValue(content[i], env) == GraftValue(content[i], env')
    ensures GraftItems(content, env) == GraftItems(content, env')
  {
    if content != [] {
      GraftItemsSame(content[1..], env, env');
    }
  }

  // ------------------------------------------------------ the include graph

  /** The tree an include path, written in directory `dir`, stands for, given the expanded files. */
  function Found(fs: Store, dir: Path, expanded: map<Path, Node>): Loads {
    p => var f := fs.locate(p, dir); if f in expanded then expanded[f] else Zero
  }

  /** The files that parse, the files each one includes, and the tree of a file from theirs. */
  function IncludeGraph(fs: Store): Graph<Path, Node> {
    Graph(
      (set f | f in fs.files && fs.files[f].Parsed?),
      (f: Path) => if fs.Loadable(f) then (set p | p in Paths(fs.files[f].doc) :: fs.Named(p, f)) else {},
      (f: Path, expanded: map<Path, Node>) =>
        if fs.Loadable(f) then Graft(fs.files[f].doc, Found(fs, fs.dir(f), expanded)).Unwrap() else Zero)
  }

  /** Every include of a tree written in directory `dir` can be expanded beside the files in `visited`. */
  predicate LoadsAll(fs: Store, n: Node, dir: Path, visited: set<Path>) {
    forall p | p in Paths(n) :: Allowed(IncludeGraph(fs), fs.locate(p, dir), visited)
  }

  /** What the includes written in directory `dir` stand for. */
  function LoadsOf(fs: Store, dir: Path, visited: set<Path>): Loads {
    p =>
      var g, f := IncludeGraph(fs), fs.locate(p, dir);
      if Allowed(g, f, visited) then Guarded(g, f, visited) else Zero
  }

  /** The expansion of a file is that of its tree. */
  lemma ExpandFile(fs: Store, f: Path, visited: set<Path>)
    requires fs.Loadable(f) && f !in visited
    ensures var g, doc, dir := IncludeGraph(fs), fs.files[f].doc, fs.dir(f);
      && (Allowed(g, f, visited) <==> LoadsAll(fs, doc, dir, visited + {f}))
      && (Allowed(g, f, visited) ==>
            Guarded(g, f, visited) == Graft(doc, LoadsOf(fs, dir, visited + {f})).Unwrap())
  {
    var g, doc, dir := IncludeGraph(fs), fs.files[f].doc, fs.dir(f);
    assert g.deps(f) == set p | p in Paths(doc) :: fs.locate(p, dir);
    if Allowed(g, f, visited) {
      var expanded := map h | h in g.deps(f) :: Guarded(g, h, visited + {f});
      assert Guarded(g, f, visited) == g.build(f, expanded);
      forall p | p in Paths(doc)
        ensures Found(fs, dir, expanded)(p) == LoadsOf(fs, dir, visited + {f})(p)
      {
        assert fs.locate(p, dir) in g.deps(f);
      }
      GraftSame(doc, Found(fs, dir, expanded), LoadsOf(fs, dir, visited + {f}));
    }
  }

  predicate SlotLoads(fs: Store, child: Node, dir: Path, visited: set<Path>) {
    if child.IsInclude() then Allowed(IncludeGraph(fs), fs.locate(child.Value(), dir), visited)
    else LoadsAll(fs, child, dir, visited)
  }

  /** A tree can be expanded iff its parts can. */
  lemma LoadsParts(fs: Store, n: Node, dir: Path, visited: set<Path>)
    ensures n.Document? ==> (LoadsAll(fs, n, dir, visited) <==>
      forall i | 0 <= i < |n.content| :: LoadsAll(fs, n.content[i], dir, visited))
    ensures n.Mapping? ==> (LoadsAll(fs, n, dir, visited) <==>
      forall i | 0 <= i < |n.content| && i % 2 == 1 :: SlotLoads(fs, n.content[i], dir, visited))
    ensures n.Sequence? ==> (LoadsAll(fs, n, dir, visited) <==>
      forall i | 0 <= i < |n.content| :: SlotLoads(fs, n.content[i], dir, visited))
    ensures n.Alias? ==> (LoadsAll(fs, n, dir, visited) <==> LoadsAll(fs, n.target, dir, visited))
  {
    PartPaths(n);
    if n.Mapping? || n.Sequence? {
      forall i | 0 <= i < |n.content|
        ensures SlotLoads(fs, n.content[i], dir, visited) <==>
                forall s | s in SlotIncludes(n.content[i], n.Sequence?) :: Allowed(IncludeGraph(fs), fs.locate(s.1, dir), visited)
      {
        SlotLoadsBy(fs, n.content[i], n.Sequence?, dir, visited);
      }
    }
  }

  lemma SlotLoadsBy(fs: Store, child: Node, item: bool, dir: Path, visited: set<Path>)
    ensures SlotLoads(fs, child, dir, visited) <==>
      forall s | s in SlotIncludes(child, item) :: Allowed(IncludeGraph(fs), fs.locate(s.1, dir), visited)
  {
    if child.IsInclude() {
      assert SlotIncludes(child, item) == {(item, child.Value())};
    } else {
      forall s | s in Includes(child)
        ensures s.1 in Paths(child)
      {
      }
    }
  }

  // ---------------------------------------------------------- include chains

  /** The error is true of the last file of the include chain `c`. */
  ghost predicate Blames(fs: Store, c: seq<Path>, visited: set<Path>, e: Error) {
    && Chain(IncludeGraph(fs), c) && Last(c) == e.f
    && match e
       case Circular(g) => g in visited || g in c[..|c| - 1]
       case Unreadable(g) => g !in fs.files
       case Unparsable(g) => g in fs.files && fs.files[g].Malformed?
  }

  /** The error is true of a file that an include chain from `f` leads to. */
  ghost predicate Justified(fs: Store, f: Path, visited: set<Path>, e: Error) {
    exists c | Blames(fs, c, visited, e) :: c[0] == f
  }

  ghost predicate JustifiedIn(fs: Store, n: Node, dir: Path, visited: set<Path>, e: Error) {
    exists p | p in Paths(n) :: Justified(fs, fs.locate(p, dir), visited, e)
  }

  lemma JustifiedHere(fs: Store, f: Path, visited: set<Path>, e: Error)
    requires e.f == f
    requires match e
      case Circular(g) => g in visited
      case Unreadable(g) => g !in fs.files
      case Unparsable(g) => g in fs.files && fs.files[g].Malformed?
    ensures Justified(fs, f, visited, e)
  {
    assert Blames(fs, [f], visited, e);
  }

  lemma JustifiedFurther(fs: Store, f: Path, visited: set<Path>, e: Error)
    requires fs.Loadable(f) && JustifiedIn(fs, fs.files[f].doc, fs.dir(f), visited + {f}, e)
    ensures Justified(fs, f, visited, e)
  {
    var p :| p in Paths(fs.files[f].doc) && Justified(fs, fs.Named(p, f), visited + {f}, e);
    var c :| Blames(fs, c, visited + {f}, e) && c[0] == fs.Named(p, f);
    ChainCons(IncludeGraph(fs), f, c);
    assert ([f] + c)[..|c|] == [f] + c[..|c| - 1];
    assert Blames(fs, [f] + c, visited, e);
  }

  ghost predicate SlotJustified(fs: Store, child: Node, dir: Path, visited: set<Path>, e: Error) {
    if child.IsInclude() then Justified(fs, fs.locate(child.Value(), dir), visited, e)
    else JustifiedIn(fs, child, dir, visited, e)
  }

  /** An error below a slot is an error of the whole. */
  lemma JustifiedSlot(fs: Store, n: Node, i: nat, dir: Path, visited: set<Path>, e: Error)
    requires n.Mapping? || n.Sequence?
    requires i < |n.content| && (n.Mapping? ==> i % 2 == 1)
    requires SlotJustified(fs, n.content[i], dir, visited, e)
    ensures JustifiedIn(fs, n, dir, visited, e)
  {
    PartPaths(n);
    var child := n.content[i];
    if child.IsInclude() {
      assert (n.Sequence?, child.Value()) in SlotIncludes(child, n.Sequence?);
    } else {
      var p :| p in Paths(child) && Justified(fs, fs.locate(p, dir), visited, e);
      var s :| s in Includes(child) && s.1 == p;
      assert s in SlotIncludes(child, n.Sequence?);
    }
  }

  // ---------------------------------------------------------------- the code

  /** The values before place `end` of a mapping can be resolved. */
  predicate ValuesLoad(fs: Store, content: seq<Node>, dir: Path, visited: set<Path>, end: nat) {
    forall k | 0 <= k < |content| && k < end && k % 2 == 1 :: SlotLoads(fs, content[k], dir, visited)
  }

  lemma ValuesLoadStep(fs: Store, content: seq<Node>, dir: Path, visited: set<Path>, i: nat)
    requires i < |content| && i % 2 == 1 && ValuesLoad(fs, content, dir, visited, i)
    ensures ValuesLoad(fs, content, dir, visited, i + 2) <==> SlotLoads(fs, content[i], dir, visited)
    ensures ValuesLoad(fs, content, dir, visited, |content|) ==> SlotLoads(fs, content[i], dir, visited)
  {
  }

  /** The first `end` items of a sequence can be resolved. */
  predicate ItemsLoad(fs: Store, content: seq<Node>, dir: Path, visited: set<Path>, end: nat) {
    forall k | 0 <= k < |content| && k < end :: SlotLoads(fs, content[k], dir, visited)
  }

  /** One more item is resolved to `node`. */
  lemma ItemDone(content: seq<Node>, i: nat, env: Loads, expanded: seq<Node>, node: Node)
    requires i < |content| && expanded == GraftItems(content[..i], env) && node == GraftValue(content[i], env)
    ensures GraftItems(content[..i + 1], env)
         == expanded + if content[i].IsInclude() && node.Sequence? then node.content else [node]
  {
    GraftItemsSnoc(content, i, env);
  }

  /** `resolveIncludes` and `loadInclude`, which share the set of visited files. */
  class Resolver {
    const fs: Store
    var visited: set<Path>

    constructor (fs: Store, root: Path)
      ensures this.fs == fs && visited == {root}
    {
      this.fs := fs;
      visited := {root};
    }

    /** `loadInclude` */
    method LoadInclude(path: string, baseDir: Path) returns (r: Result)
      modifies this
      ensures visited == old(visited)
      ensures r.Ok? <==> Allowed(IncludeGraph(fs), fs.locate(path, baseDir), visited)
      ensures r.Ok? ==> r.node == Guarded(IncludeGraph(fs), fs.locate(path, baseDir), visited)
      ensures r.Err? ==> Justified(fs, fs.locate(path, baseDir), visited, r.error)
      decreases fs.files.Keys - visited, 0
    {
      var abs := fs.locate(path, baseDir);
      if abs in visited {
        JustifiedHere(fs, abs, visited, Circular(abs));
        return Err(Circular(abs));
      }
      ghost var before := visited;
      visited := visited + {abs};
      if abs !in fs.files {
        visited := visited - {abs};
        JustifiedHere(fs, abs, visited, Unreadable(abs));
        return Err(Unreadable(abs));
      }
      if fs.files[abs].Malformed? {
        visited := visited - {abs};
        JustifiedHere(fs, abs, visited, Unparsable(abs));
        return Err(Unparsable(abs));
      }
      var doc := fs.files[abs].doc;
      ExpandFile(fs, abs, before);
      r := ResolveIncludes(doc, fs.dir(abs));
      visited := visited - {abs};
      assert visited == before;
      if r.Ok? {
        r := Ok(r.node.Unwrap());
      } else {
        JustifiedFurther(fs, abs, visited, r.error);
      }
    }

    /** `resolveIncludes` */
    method ResolveIncludes(node: Node, baseDir: Path) returns (r: Result)
      modifies this
      ensures visited == old(visited)
      ensures r.Ok? <==> LoadsAll(fs, node, baseDir, visited)
      ensures r.Ok? ==> r.node == Graft(node, LoadsOf(fs, baseDir, visited))
      ensures r.Err? ==> JustifiedIn(fs, node, baseDir, visited, r.error)
      decreases fs.files.Keys - visited, 1, node, 0
    {
      LoadsParts(fs, node, baseDir, visited);
      match node {
        case Document(content) =>
          r := ResolveDocument(content, baseDir);
        case Mapping(tag, content) =>
          r := ResolveMapping(tag, content, baseDir);
        case Sequence(tag, content) =>
          r := ResolveSequence(tag, content, baseDir);
        case Alias(target) =>
          var t := ResolveIncludes(target, baseDir);
          return if t.Ok? then Ok(Alias(t.node)) else t;
        case Zero =>
          return Ok(node);
        case Scalar(_, _) =>
          return Ok(node);
      }
    }

    /** A value of a mapping or an item of a sequence. */
    method ResolveSlot(child: Node, baseDir: Path) returns (r: Result)
      modifies this
      ensures visited == old(visited)
      ensures r.Ok? <==> SlotLoads(fs, child, baseDir, visited)
      ensures r.Ok? ==> r.node == GraftValue(child, LoadsOf(fs, baseDir, visited))
      ensures r.Err? ==> SlotJustified(fs, child, baseDir, visited, r.error)
      decreases fs.files.Keys - visited, 1, child, 1
    {
      if child.Tag() == INCLUDE {
        r := LoadInclude(child.Value(), baseDir);
      } else {
        r := ResolveIncludes(child, baseDir);
      }
    }

    /** The case of a document. */
    method ResolveDocument(content: seq<Node>, baseDir: Path) returns (r: Result)
      modifies this
      ensures visited == old(visited)
      ensures r.Ok? <==> forall i | 0 <= i < |content| :: LoadsAll(fs, content[i], baseDir, visited)
      ensures r.Ok? ==> r.node == Graft(Document(content), LoadsOf(fs, baseDir, visited))
      ensures r.Err? ==> JustifiedIn(fs, Document(content), baseDir, visited, r.error)
      decreases fs.files.Keys - visited, 1, content
    {
      var children: seq<Node> := [];
      for i := 0 to |content|
        invariant visited == old(visited)
        invariant |children| == i
        invariant forall k | 0 <= k < i :: LoadsAll(fs, content[k], baseDir, visited)
        invariant forall k | 0 <= k < i :: children[k] == Graft(content[k], LoadsOf(fs, baseDir, visited))
      {
        var child := ResolveIncludes(content[i], baseDir);
        if child.Err? {
          PartPaths(Document(content));
          return child;
        }
        children := children + [child.node];
      }
      return Ok(Document(children));
    }

    /** The case of a mapping: only the values, at the odd places, are resolved. */
    method ResolveMapping(tag: string, content0: seq<Node>, baseDir: Path) returns (r: Result)
      modifies this
      ensures visited == old(visited)
      ensures r.Ok? <==> ValuesLoad(fs, content0, baseDir, visited, |content0|)
      ensures r.Ok? ==> r.node == Graft(Mapping(tag, content0), LoadsOf(fs, baseDir, visited))
      ensures r.Err? ==> JustifiedIn(fs, Mapping(tag, content0), baseDir, visited, r.error)
      decreases fs.files.Keys - visited, 1, content0
    {
      var content := content0;
      var i := 1;
      while i < |content|
        invariant visited == old(visited)
        invariant i % 2 == 1 && |content| == |content0| && i <= |content| + 1
        invariant ValuesLoad(fs, content0, baseDir, visited, i)
        invariant content == GraftValues(content0, LoadsOf(fs, baseDir, visited), i)
      {
        var child := ResolveSlot(content[i], baseDir);
        if child.Err? {
          ValuesLoadStep(fs, content0, baseDir, visited, i);
          JustifiedSlot(fs, Mapping(tag, content0), i, baseDir, visited, child.error);
          return child;
        }
        ValuesLoadStep(fs, content0, baseDir, visited, i);
        GraftValuesStep(content0, LoadsOf(fs, baseDir, visited), i);
        content := content[i := child.node];
        i := i + 2;
      }
      GraftValuesEnd(content0, LoadsOf(fs, baseDir, visited), i);
      return Ok(Mapping(tag, content));
    }

    /** The case of a sequence: an included sequence is spliced in. */
    method ResolveSequence(tag: string, content: seq<Node>, baseDir: Path) returns (r: Result)
      modifies this
      ensures visited == old(visited)
      ensures r.Ok? <==> forall i | 0 <= i < |content| :: SlotLoads(fs, content[i], baseDir, visited)
      ensures r.Ok? ==> r.node == Graft(Sequence(tag, content), LoadsOf(fs, baseDir, visited))
      ensures r.Err? ==> JustifiedIn(fs, Sequence(tag, content), baseDir, visited, r.error)
      decreases fs.files.Keys - visited, 1, content
    {
      ghost var env := LoadsOf(fs, baseDir, visited);
      var expanded: seq<Node> := [];
      for i := 0 to |content|
        invariant visited == old(visited)
        invariant ItemsLoad(fs, content, baseDir, visited, i)
        invariant expanded == GraftItems(content[..i], env)
      {
        var item := content[i];
        var child := ResolveSlot(item, baseDir);
        if child.Err? {
          JustifiedSlot(fs, Sequence(tag, content), i, baseDir, visited, child.error);
          return child;
        }
        ItemDone(content, i, env, expanded, child.node);
        if item.Tag() == INCLUDE && child.node.Sequence? {
          expanded := expanded + child.node.content;
        } else {
          expanded := expanded + [child.node];
        }
      }
      assert content[..|content|] == content;
      return Ok(Sequence(tag, expanded));
    }
  }
}
