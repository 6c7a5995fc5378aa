/**
 What the visited set of the include resolver achieves: it succeeds exactly
 when plain, unrecorded expansion ends, and then with the same tree.
 */
module IncludeTheorems {
  import opened Expansion
  import opened Include
  import opened IncludeMeaning
  import opened Wrappers

  // -------------------------------------------------- includes that are left

  /** Some node of the tree carries the include tag: the root, a key or value, an item, what an alias stands for. */
  predicate Tagged(n: Node)
    decreases n, 1
  {
    n.IsInclude() || TaggedBelow(n)
  }

  predicate TaggedBelow(n: Node)
    decreases n, 0
  {
    match n
    case Document(content) => exists i | 0 <= i < |content| :: Tagged(content[i])
    case Mapping(_, content) => exists i | 0 <= i < |content| :: Tagged(content[i])
    case Sequence(_, content) => exists i | 0 <= i < |content| :: Tagged(content[i])
    case Alias(target) => Tagged(target)
    case Zero => false
    case Scalar(_, _) => false
  }

  /**
   A tag that is at no include position, so that resolving leaves it as it is:
   on the root of the tree, in a key of a mapping, or on what an alias stands
   for.
   */
  predicate Left(n: Node)
    decreases n, 1
  {
    n.IsInclude() || LeftBelow(n)
  }

  predicate LeftBelow(n: Node)
    decreases n, 0
  {
    match n
    case Document(content) => exists i | 0 <= i < |content| :: Left(content[i])
    case Mapping(_, content) =>
      exists i | 0 <= i < |content| :: if i % 2 == 1 then LeftInSlot(content[i]) else Tagged(content[i])
    case Sequence(_, content) => exists i | 0 <= i < |content| :: LeftInSlot(content[i])
    case Alias(target) => Left(target)
    case Zero => false
    case Scalar(_, _) => false
  }

  predicate LeftInSlot(child: Node)
    decreases child, 1
  {
    !child.IsInclude() && LeftBelow(child)
  }

  /** The node reached by going down to child `path[0]`, and so on; an alias has its target as its one child. */
  function NodeAt(n: Node, path: seq<nat>): Option<Node>
    decreases |path|
  {
    if path == [] then Some(n)
    else
      match n
      case Document(content) => if path[0] < |content| then NodeAt(content[path[0]], path[1..]) else None
      case Mapping(_, content) => if path[0] < |content| then NodeAt(content[path[0]], path[1..]) else None
      case Sequence(_, content) => if path[0] < |content| then NodeAt(content[path[0]], path[1..]) else None
      case Alias(target) => if path[0] == 0 then NodeAt(target, path[1..]) else None
      case Zero => None
      case Scalar(_, _) => None
  }

  /** Some node of the tree, key or value or item, has the tag. */
  ghost predicate TagAt(n: Node, path: seq<nat>) {
    NodeAt(n, path).Some? && HasTag(NodeAt(n, path).value)
  }

  lemma TagBelow(n: Node, child: Node, k: nat, path: seq<nat>)
    requires TagAt(child, path)
    requires if n.Alias? then k == 0 && n.target == child
             else !n.Zero? && !n.Scalar? && k < |n.content| && n.content[k] == child
    ensures TagAt(n, [k] + path)
  {
    assert ([k] + path)[1..] == path;
  }

  lemma {:induction false} TaggedPath(n: Node) returns (path: seq<nat>)
    requires Tagged(n)
    ensures TagAt(n, path)
    decreases n
  {
    if n.IsInclude() {
      path := [];
    } else if n.Alias? {
      path := TaggedPath(n.target);
      TagBelow(n, n.target, 0, path);
      path := [0] + path;
    } else {
      var k :| 0 <= k < |n.content| && Tagged(n.content[k]);
      path := TaggedPath(n.content[k]);
      TagBelow(n, n.content[k], k, path);
      path := [k] + path;
    }
  }

  lemma {:induction false} PathTagged(n: Node, path: seq<nat>)
    requires TagAt(n, path)
    ensures Tagged(n)
    decreases |path|
  {
    if path != [] {
      if n.Alias? {
        PathTagged(n.target, path[1..]);
      } else {
        PathTagged(n.content[path[0]], path[1..]);
      }
    }
  }

  /** A tree is tagged just if a path leads to a node with the tag. */
  lemma TaggedExact(n: Node)
    ensures Tagged(n) <==> exists path :: TagAt(n, path)
  {
    if Tagged(n) {
      var path := TaggedPath(n);
    }
    if path :| TagAt(n, path) {
      PathTagged(n, path);
    }
  }

  /** Put at an include position, the tree `r` brings no tag along; spliced into a sequence it loses its root. */
  predicate SettledAt(item: bool, r: Node) {
    if item && r.Sequence? then !TaggedBelow(r) else !Tagged(r)
  }

  predicate AllSettled(slots: set<Slot>, env: Loads) {
    forall s | s in slots :: SettledAt(s.0, env(s.1))
  }

  /** Where tags are found in a grafted tree: those of the tree itself that are left, and those brought along. */
  lemma {:induction false} TagsGraft(n: Node, env: Loads)
    ensures Tagged(Graft(n, env)) <==> Left(n) || !AllSettled(Includes(n), env)
    ensures TaggedBelow(Graft(n, env)) <==> LeftBelow(n) || !AllSettled(Includes(n), env)
    decreases n, 0
  {
    GraftRoot(n, env);
    PartsSettled(n, env);
    match n
    case Document(content) =>
      forall i | 0 <= i < |content|
        ensures Tagged(Graft(n, env).content[i]) <==> Left(content[i]) || !AllSettled(Includes(content[i]), env)
      {
        TagsGraft(content[i], env);
      }
    case Mapping(_, content) =>
      forall i | 0 <= i < |content| && i % 2 == 1
        ensures Tagged(Graft(n, env).content[i]) <==> LeftInSlot(content[i]) || !AllSettled(SlotIncludes(content[i], false), env)
      {
        ValueTags(content[i], env);
      }
      MappingTags(n, env);
    case Sequence(tag, content) =>
      forall i | 0 <= i < |content|
        ensures TaggedBelow(Sequence(tag, GraftItem(content[i], env))) <==>
                LeftInSlot(content[i]) || !AllSettled(SlotIncludes(content[i], true), env)
      {
        ItemTags(tag, content[i], env);
      }
      ItemsTags(tag, content, env);
    case Alias(target) =>
      TagsGraft(target, env);
    case Zero =>
    case Scalar(_, _) =>
  }

  lemma MappingTags(n: Node, env: Loads)
    requires n.Mapping?
    requires forall i | 0 <= i < |n.content| && i % 2 == 1 ::
      Tagged(Graft(n, env).content[i]) <==> LeftInSlot(n.content[i]) || !AllSettled(SlotIncludes(n.content[i], false), env)
    ensures TaggedBelow(Graft(n, env)) <==> LeftBelow(n) || exists i | 0 <= i < |n.content| && i % 2 == 1 ::
      !AllSettled(SlotIncludes(n.content[i], false), env)
  {
    var r := Graft(n, env).content;
    assert forall i | 0 <= i < |r| && i % 2 == 0 :: r[i] == n.content[i];
    if i :| 0 <= i < |r| && Tagged(r[i]) {
      assert i % 2 == 1 || Tagged(n.content[i]);
    }
    if i :| 0 <= i < |r| && if i % 2 == 1 then LeftInSlot(n.content[i]) else Tagged(n.content[i]) {
      assert Tagged(r[i]);
    }
  }

  /** The include positions of a tree are those of its parts. */
  lemma PartsSettled(n: Node, env: Loads)
    ensures n.Document? ==> (AllSettled(Includes(n), env) <==>
      forall i | 0 <= i < |n.content| :: AllSettled(Includes(n.content[i]), env))
    ensures n.Mapping? ==> (AllSettled(Includes(n), env) <==>
      forall i | 0 <= i < |n.content| && i % 2 == 1 :: AllSettled(SlotIncludes(n.content[i], false), env))
    ensures n.Sequence? ==> (AllSettled(Includes(n), env) <==>
      forall i | 0 <= i < |n.content| :: AllSettled(SlotIncludes(n.content[i], true), env))
  {
    match n
    case Document(content) =>
      assert forall i, s | 0 <= i < |content| && s in Includes(content[i]) :: s in Includes(n);
    case Mapping(_, content) =>
      assert forall i, s | 0 <= i < |content| && i % 2 == 1 && s in SlotIncludes(content[i], false) :: s in Includes(n);
    case Sequence(_, content) =>
      assert forall i, s | 0 <= i < |content| && s in SlotIncludes(content[i], true) :: s in Includes(n);
    case _ =>
  }

  /** Grafting keeps the tag and the kind of a root. */
  lemma GraftRoot(n: Node, env: Loads)
    ensures Graft(n, env).Tag() == n.Tag()
    ensures Graft(n, env).Sequence? == n.Sequence?
  {
  }

  lemma {:induction false} ValueTags(child: Node, env: Loads)
    ensures Tagged(GraftValue(child, env)) <==> LeftInSlot(child) || !AllSettled(SlotIncludes(child, false), env)
    decreases child, 1
  {
    if child.IsInclude() {
      assert SlotIncludes(child, false) == {(false, child.Value())};
    } else {
      TagsGraft(child, env);
    }
  }

  lemma OneItem(tag: string, r: Node)
    ensures TaggedBelow(Sequence(tag, [r])) <==> Tagged(r)
  {
    assert [r][0] == r;
  }

  lemma {:induction false} ItemTags(tag: string, child: Node, env: Loads)
    ensures TaggedBelow(Sequence(tag, GraftItem(child, env))) <==>
            LeftInSlot(child) || !AllSettled(SlotIncludes(child, true), env)
    decreases child, 1
  {
    var r := GraftValue(child, env);
    OneItem(tag, r);
    if child.IsInclude() {
      assert SlotIncludes(child, true) == {(true, child.Value())};
    } else {
      TagsGraft(child, env);
    }
  }

  lemma Spliced(tag: string, a: seq<Node>, b: seq<Node>)
    ensures TaggedBelow(Sequence(tag, a + b)) <==> TaggedBelow(Sequence(tag, a)) || TaggedBelow(Sequence(tag, b))
  {
    assert forall i | 0 <= i < |a| :: (a + b)[i] == a[i];
    assert forall i | 0 <= i < |b| :: (a + b)[|a| + i] == b[i];
    if i :| 0 <= i < |a + b| && Tagged((a + b)[i]) {
      assert i >= |a| ==> Tagged(b[i - |a|]);
    }
  }

  lemma {:induction false} ItemsTags(tag: string, content: seq<Node>, env: Loads)
    ensures TaggedBelow(Sequence(tag, GraftItems(content, env))) <==>
            exists i | 0 <= i < |content| :: TaggedBelow(Sequence(tag, GraftItem(content[i], env)))
    decreases content
  {
    if content != [] {
      ItemsTags(tag, content[1..], env);
      Spliced(tag, GraftItem(content[0], env), GraftItems(content[1..], env));
      assert forall i | 0 < i < |content| :: content[i] == content[1..][i - 1];
    }
  }

  /** Parsing a file gives a document with one root, or nothing. */
  ghost predicate ParserShape(fs: Store) {
    forall f | fs.Loadable(f) ::
      var doc := fs.files[f].doc;
      doc.Zero? || (doc.Document? && |doc.content| == 1 && !doc.content[0].Document?)
  }

  /** The root of file `f`. */
  function Root(fs: Store, f: Path): Node
    requires fs.Loadable(f)
  {
    fs.files[f].doc.Unwrap()
  }

  /** Included at a position of the kind `item`, file `f` leaves a tag of its own. */
  predicate LeftAt(fs: Store, f: Path, item: bool)
    requires fs.Loadable(f)
  {
    if item && Root(fs, f).Sequence? then LeftBelow(Root(fs, f)) else Left(Root(fs, f))
  }

  /** File `f` includes a file that leaves a tag there. */
  predicate LeavesOne(fs: Store, f: Path)
    requires fs.Loadable(f)
  {
    exists s | s in Includes(fs.files[f].doc) ::
      var h := fs.Named(s.1, f);
      fs.Loadable(h) && LeftAt(fs, h, s.0)
  }

  /** What is loaded for a file has the root of the file. */
  lemma LoadRoot(fs: Store, f: Path, visited: set<Path>)
    requires ParserShape(fs) && Allowed(IncludeGraph(fs), f, visited)
    ensures Guarded(IncludeGraph(fs), f, visited) == Graft(Root(fs, f), LoadsOf(fs, fs.dir(f), visited + {f}))
    ensures Includes(Root(fs, f)) == Includes(fs.files[f].doc)
  {
    var doc := fs.files[f].doc;
    ExpandFile(fs, f, visited);
    if doc.Document? {
      assert Includes(doc) == Includes(doc.content[0]);
    }
  }

  /** What a file leaves where it is included: tags of its own, and those that its includes bring along. */
  lemma FileSettled(fs: Store, f: Path, visited: set<Path>, item: bool)
    requires ParserShape(fs) && Allowed(IncludeGraph(fs), f, visited)
    ensures var env := LoadsOf(fs, fs.dir(f), visited + {f});
      SettledAt(item, Guarded(IncludeGraph(fs), f, visited)) <==>
      !LeftAt(fs, f, item) && AllSettled(Includes(fs.files[f].doc), env)
  {
    var env := LoadsOf(fs, fs.dir(f), visited + {f});
    LoadRoot(fs, f, visited);
    TagsGraft(Root(fs, f), env);
    GraftRoot(Root(fs, f), env);
  }

  /** No file that `f` leads to includes a file that leaves a tag. */
  ghost predicate Clean(fs: Store, f: Path) {
    forall h | fs.Loadable(h) && Reaches(IncludeGraph(fs), f, h) :: !LeavesOne(fs, h)
  }

  lemma CleanStep(fs: Store, f: Path)
    requires fs.Loadable(f)
    ensures Clean(fs, f) <==>
      !LeavesOne(fs, f) && forall s | s in Includes(fs.files[f].doc) :: Clean(fs, fs.Named(s.1, f))
  {
    var g := IncludeGraph(fs);
    forall h
      ensures Reaches(g, f, h) <==> h == f || exists s | s in Includes(fs.files[f].doc) :: Reaches(g, fs.Named(s.1, f), h)
    {
      ReachesStep(g, f, h);
      assert forall s | s in Includes(fs.files[f].doc) :: s.1 in Paths(fs.files[f].doc) && fs.Named(s.1, f) in g.deps(f);
    }
  }

  lemma Included(fs: Store, f: Path, visited: set<Path>, s: Slot)
    requires Allowed(IncludeGraph(fs), f, visited) && s in Includes(fs.files[f].doc)
    ensures Allowed(IncludeGraph(fs), fs.Named(s.1, f), visited + {f})
    ensures LoadsOf(fs, fs.dir(f), visited + {f})(s.1) == Guarded(IncludeGraph(fs), fs.Named(s.1, f), visited + {f})
  {
    assert s.1 in Paths(fs.files[f].doc) && fs.Named(s.1, f) in IncludeGraph(fs).deps(f);
  }

  /** What the includes of a file bring along, over all files it leads to. */
  lemma {:induction false} IncludesSettle(fs: Store, f: Path, visited: set<Path>)
    requires ParserShape(fs) && Allowed(IncludeGraph(fs), f, visited)
    ensures AllSettled(Includes(fs.files[f].doc), LoadsOf(fs, fs.dir(f), visited + {f})) <==> Clean(fs, f)
    decreases |IncludeGraph(fs).files - visited|
  {
    OneVisited(IncludeGraph(fs).files, f, visited);
    forall s | s in Includes(fs.files[f].doc)
      ensures fs.Loadable(fs.Named(s.1, f))
      ensures SettledAt(s.0, LoadsOf(fs, fs.dir(f), visited + {f})(s.1)) <==>
              Clean(fs, fs.Named(s.1, f)) && !LeftAt(fs, fs.Named(s.1, f), s.0)
    {
      Included(fs, f, visited, s);
      IncludesSettle(fs, fs.Named(s.1, f), visited + {f});
      FileSettled(fs, fs.Named(s.1, f), visited + {f}, s.0);
    }
    CleanStep(fs, f);
  }

  // ------------------------------------------------------ aliases walked again

  /**
   What the aliases of a tree stand for. The source keeps an anchored node and
   its aliases as one node, which it walks where the anchor stands, and again,
   rewritten as it is by then, for every alias.
   */
  function AliasTargets(n: Node): set<Node> {
    match n
    case Document(content) => set i, t | 0 <= i < |content| && t in AliasTargets(content[i]) :: t
    case Mapping(_, content) =>
      set i, t | 0 <= i < |content| && i % 2 == 1 && !content[i].IsInclude() && t in AliasTargets(content[i]) :: t
    case Sequence(_, content) =>
      set i, t | 0 <= i < |content| && !content[i].IsInclude() && t in AliasTargets(content[i]) :: t
    case Alias(target) => {target} + AliasTargets(target)
    case Zero => {}
    case Scalar(_, _) => {}
  }

  lemma {:induction false} AliasIncludes(n: Node, t: Node, s: Slot)
    requires t in AliasTargets(n) && s in Includes(t)
    ensures s in Includes(n)
  {
    match n
    case Document(content) =>
      var i :| 0 <= i < |content| && t in AliasTargets(content[i]);
      AliasIncludes(content[i], t, s);
    case Mapping(_, content) =>
      var i :| 0 <= i < |content| && i % 2 == 1 && !content[i].IsInclude() && t in AliasTargets(content[i]);
      AliasIncludes(content[i], t, s);
      assert s in SlotIncludes(content[i], false);
    case Sequence(_, content) =>
      var i :| 0 <= i < |content| && !content[i].IsInclude() && t in AliasTargets(content[i]);
      AliasIncludes(content[i], t, s);
      assert s in SlotIncludes(content[i], true);
    case Alias(target) =>
      if t != target {
        AliasIncludes(target, t, s);
      }
  }

  /** A tree that brings no include position along, wherever it is put. */
  predicate Finished(r: Node) {
    Includes(r) == {} && !r.IsInclude()
  }

  predicate AllFinished(slots: set<Slot>, env: Loads) {
    forall s | s in slots :: Finished(env(s.1))
  }

  predicate NoSlots(content: seq<Node>) {
    forall i | 0 <= i < |content| :: SlotIncludes(content[i], true) == {}
  }

  lemma NoSlotsSequence(tag: string, content: seq<Node>)
    ensures Includes(Sequence(tag, content)) == {} <==> NoSlots(content)
  {
    assert forall i, s | 0 <= i < |content| && s in SlotIncludes(content[i], true) :: s in Includes(Sequence(tag, content));
  }

  lemma {:induction false} ValueFinished(child: Node, item: bool, env: Loads)
    requires AllFinished(SlotIncludes(child, item), env)
    ensures SlotIncludes(GraftValue(child, env), item) == {}
    decreases child, 1
  {
    if child.IsInclude() {
      assert (item, child.Value()) in SlotIncludes(child, item);
    } else {
      FinishedGraft(child, env);
      GraftRoot(child, env);
    }
  }

  lemma {:induction false} ItemsFinished(content: seq<Node>, env: Loads)
    requires forall i | 0 <= i < |content| :: AllFinished(SlotIncludes(content[i], true), env)
    ensures NoSlots(GraftItems(content, env))
    decreases content
  {
    if content != [] {
      ItemsFinished(content[1..], env);
      ValueFinished(content[0], true, env);
      var r := GraftValue(content[0], env);
      if content[0].IsInclude() && r.Sequence? {
        assert (true, content[0].Value()) in SlotIncludes(content[0], true);
        NoSlotsSequence(r.tag, r.content);
      } else {
        assert GraftItem(content[0], env) == [r];
      }
    }
  }

  /** Where nothing is brought along, no include position is left. */
  lemma {:induction false} FinishedGraft(n: Node, env: Loads)
    requires AllFinished(Includes(n), env)
    ensures Includes(Graft(n, env)) == {}
    decreases n, 0
  {
    match n
    case Document(content) =>
      forall i | 0 <= i < |content|
        ensures Includes(Graft(content[i], env)) == {}
      {
        assert forall s | s in Includes(content[i]) :: s in Includes(n);
        FinishedGraft(content[i], env);
      }
    case Mapping(_, content) =>
      forall i | 0 <= i < |content| && i % 2 == 1
        ensures SlotIncludes(Graft(n, env).content[i], false) == {}
      {
        assert forall s | s in SlotIncludes(content[i], false) :: s in Includes(n);
        ValueFinished(content[i], false, env);
      }
    case Sequence(tag, content) =>
      forall i | 0 <= i < |content|
        ensures AllFinished(SlotIncludes(content[i], true), env)
      {
        assert forall s | s in SlotIncludes(content[i], true) :: s in Includes(n);
      }
      ItemsFinished(content, env);
      NoSlotsSequence(tag, GraftItems(content, env));
    case Alias(target) =>
      FinishedGraft(target, env);
    case Zero =>
    case Scalar(_, _) =>
  }

  lemma {:induction false} ItemsUnchanged(content: seq<Node>, env: Loads)
    requires NoSlots(content)
    ensures GraftItems(content, env) == content
    decreases content
  {
    if content != [] {
      ItemsUnchanged(content[1..], env);
      ChildUnchanged(content[0], true, env);
      assert GraftItem(content[0], env) == [content[0]];
    }
  }

  lemma {:induction false} ChildUnchanged(child: Node, item: bool, env: Loads)
    requires SlotIncludes(child, item) == {}
    ensures !child.IsInclude() && GraftValue(child, env) == child
    decreases child, 1
  {
    assert child.IsInclude() ==> (item, child.Value()) in SlotIncludes(child, item);
    WalkedAgain(child, env);
  }

  /** Walking a tree that has no include position changes nothing. */
  lemma {:induction false} WalkedAgain(n: Node, env: Loads)
    requires Includes(n) == {}
    ensures Graft(n, env) == n
    decreases n, 0
  {
    match n
    case Document(content) =>
      forall i | 0 <= i < |content|
        ensures Graft(content[i], env) == content[i]
      {
        assert forall s | s in Includes(content[i]) :: s in Includes(n);
        WalkedAgain(content[i], env);
      }
      assert Graft(n, env).content == content;
    case Mapping(_, content) =>
      forall i | 0 <= i < |content| && i % 2 == 1
        ensures GraftValue(content[i], env) == content[i]
      {
        assert forall s | s in SlotIncludes(content[i], false) :: s in Includes(n);
        ChildUnchanged(content[i], false, env);
      }
      assert Graft(n, env).content == content;
    case Sequence(tag, content) =>
      NoSlotsSequence(tag, content);
      ItemsUnchanged(content, env);
    case Alias(target) =>
      WalkedAgain(target, env);
    case Zero =>
    case Scalar(_, _) =>
  }

  /** No file that `f` leads to has the tag at its root. */
  ghost predicate PlainRoots(fs: Store, f: Path) {
    forall h | fs.Loadable(h) && Reaches(IncludeGraph(fs), f, h) :: !Root(fs, h).IsInclude()
  }

  lemma PlainRootsStep(fs: Store, f: Path, s: Slot)
    requires fs.Loadable(f) && PlainRoots(fs, f) && s in Includes(fs.files[f].doc)
    ensures PlainRoots(fs, fs.Named(s.1, f)) && !Root(fs, f).IsInclude()
  {
    var g := IncludeGraph(fs);
    assert s.1 in Paths(fs.files[f].doc) && fs.Named(s.1, f) in g.deps(f);
    forall h
      ensures Reaches(g, fs.Named(s.1, f), h) ==> Reaches(g, f, h)
    {
      ReachesStep(g, f, h);
    }
    ReachesStep(g, f, f);
  }

  lemma {:induction false} PlainFinished(fs: Store, f: Path, visited: set<Path>)
    requires ParserShape(fs) && Allowed(IncludeGraph(fs), f, visited) && PlainRoots(fs, f)
    ensures Finished(Guarded(IncludeGraph(fs), f, visited))
    decreases |IncludeGraph(fs).files - visited|
  {
    var env := LoadsOf(fs, fs.dir(f), visited + {f});
    OneVisited(IncludeGraph(fs).files, f, visited);
    LoadRoot(fs, f, visited);
    forall s | s in Includes(fs.files[f].doc)
      ensures Finished(env(s.1))
    {
      Included(fs, f, visited, s);
      PlainRootsStep(fs, f, s);
      PlainFinished(fs, fs.Named(s.1, f), visited + {f});
    }
    FinishedGraft(Root(fs, f), env);
    GraftRoot(Root(fs, f), env);
    ReachesStep(IncludeGraph(fs), f, f);
  }

  /** In the files that `f` leads to, no file that an aliased tree leads to has the tag at its root. */
  ghost predicate QuietAliases(fs: Store, f: Path) {
    forall h | fs.Loadable(h) && Reaches(IncludeGraph(fs), f, h) :: QuietFile(fs, h)
  }

  ghost predicate QuietFile(fs: Store, h: Path)
    requires fs.Loadable(h)
  {
    forall t, s | t in AliasTargets(fs.files[h].doc) && s in Includes(t) :: PlainRoots(fs, fs.Named(s.1, h))
  }

  /** There the walks after the first one, of a tree that is anchored and aliased, change nothing and load nothing. */
  lemma WalkedOnce(fs: Store, f: Path, visited: set<Path>, t: Node, env': Loads)
    requires ParserShape(fs) && Allowed(IncludeGraph(fs), f, visited) && QuietFile(fs, f)
    requires t in AliasTargets(fs.files[f].doc)
    ensures var r := Graft(t, LoadsOf(fs, fs.dir(f), visited + {f})); Includes(r) == {} && Graft(r, env') == r
  {
    var env := LoadsOf(fs, fs.dir(f), visited + {f});
    forall s | s in Includes(t)
      ensures Finished(env(s.1))
    {
      AliasIncludes(fs.files[f].doc, t, s);
      Included(fs, f, visited, s);
      PlainFinished(fs, fs.Named(s.1, f), visited + {f});
    }
    FinishedGraft(t, env);
    WalkedAgain(Graft(t, env), env');
  }

  /** Elsewhere a second walk may find what the first one brought along: here the include at the root of `a`. */
  lemma WalkedTwice()
    ensures var t := Mapping("", [Scalar("", "k"), Scalar(INCLUDE, "a")]);
      var r := Graft(t, (p: string) => Scalar(INCLUDE, "b"));
      Includes(t) == {(false, "a")} && Includes(r) == {(false, "b")}
  {
    var t := Mapping("", [Scalar("", "k"), Scalar(INCLUDE, "a")]);
    var r := Graft(t, (p: string) => Scalar(INCLUDE, "b"));
    assert SlotIncludes(t.content[1], false) == {(false, "a")};
    assert r.content[1] == Scalar(INCLUDE, "b") && SlotIncludes(r.content[1], false) == {(false, "b")};
  }

  /**
   A resolved file is free of include tags iff it leaves none of its own and no
   file it leads to includes one that leaves some: one whose root is an include
   (the resolver never looks at roots), unless it is a sequence that is spliced,
   or with an include in a key or behind an alias. Aliases must be quiet: else
   the source may go on to resolve what a first walk brought along.
   */
  lemma Settles(fs: Store, f: Path, visited: set<Path>)
    requires ParserShape(fs) && Allowed(IncludeGraph(fs), f, visited) && QuietAliases(fs, f)
    ensures !Tagged(Guarded(IncludeGraph(fs), f, visited)) <==> !Left(Root(fs, f)) && Clean(fs, f)
    ensures forall t, env: Loads | t in AliasTargets(fs.files[f].doc) ::
      var r := Graft(t, LoadsOf(fs, fs.dir(f), visited + {f})); Graft(r, env) == r
  {
    IncludesSettle(fs, f, visited);
    FileSettled(fs, f, visited, false);
    ReachesStep(IncludeGraph(fs), f, f);
    forall t, env: Loads | t in AliasTargets(fs.files[f].doc)
      ensures var r := Graft(t, LoadsOf(fs, fs.dir(f), visited + {f})); Graft(r, env) == r
    {
      WalkedOnce(fs, f, visited, t, env);
    }
  }

  /** A store of the file `main` and a file `a`, which includes nothing. */
  function Beside(main: Node, a: Node): Store {
    Store(map["main" := Parsed(Document([main])), "a" := Parsed(Document([a]))], (p: string, dir: Path) => p, (f: Path) => "")
  }

  lemma BesideAllowed(main: Node, a: Node)
    requires !main.Document? && !a.Document? && Paths(main) <= {"a"} && Includes(a) == {}
    ensures var fs := Beside(main, a); ParserShape(fs) && Allowed(IncludeGraph(fs), "main", {})
  {
    var fs := Beside(main, a);
    var g := IncludeGraph(fs);
    DocumentIncludes(main);
    DocumentIncludes(a);
    assert g.deps("a") == {};
    assert Allowed(g, "a", {} + {"main"});
    assert g.deps("main") <= {"a"};
  }

  lemma DocumentAliases(root: Node, t: Node)
    ensures t in AliasTargets(Document([root])) ==> t in AliasTargets(root)
  {
  }

  /** In such a store aliases of trees without include positions are quiet. */
  lemma BesideQuiet(main: Node, a: Node)
    requires forall t | t in AliasTargets(main) || t in AliasTargets(a) :: Includes(t) == {}
    ensures QuietAliases(Beside(main, a), "main")
  {
    var fs := Beside(main, a);
    forall h | fs.Loadable(h)
      ensures QuietFile(fs, h)
    {
      forall t | t in AliasTargets(fs.files[h].doc)
        ensures Includes(t) == {}
      {
        DocumentAliases(main, t);
        DocumentAliases(a, t);
      }
    }
  }

  lemma DocumentIncludes(root: Node)
    ensures Includes(Document([root])) == Includes(root)
  {
    assert [root][0] == root;
  }

  /** The root of `main` is an include: it is not resolved. */
  lemma MainRootStays()
    ensures var fs := Beside(Scalar(INCLUDE, "a"), Scalar("", "text"));
      Allowed(IncludeGraph(fs), "main", {}) && Tagged(Guarded(IncludeGraph(fs), "main", {}))
  {
    BesideAllowed(Scalar(INCLUDE, "a"), Scalar("", "text"));
    BesideQuiet(Scalar(INCLUDE, "a"), Scalar("", "text"));
    Settles(Beside(Scalar(INCLUDE, "a"), Scalar("", "text")), "main", {});
  }

  /** `main` includes `a`, whose root is an include of `b`: the include in `a` stays unresolved. */
  lemma IncludeRootStays()
    ensures var fs := Beside(Sequence("", [Scalar(INCLUDE, "a")]), Scalar(INCLUDE, "b"));
      Allowed(IncludeGraph(fs), "main", {}) && Tagged(Guarded(IncludeGraph(fs), "main", {}))
  {
    var main := Sequence("", [Scalar(INCLUDE, "a")]);
    var fs := Beside(main, Scalar(INCLUDE, "b"));
    assert SlotIncludes(main.content[0], true) == {(true, "a")};
    assert Includes(main) == {(true, "a")};
    BesideAllowed(main, Scalar(INCLUDE, "b"));
    DocumentIncludes(main);
    assert AliasTargets(main) == {};
    BesideQuiet(main, Scalar(INCLUDE, "b"));
    Settles(fs, "main", {});
    assert (true, "a") in Includes(fs.files["main"].doc) && LeftAt(fs, "a", true);
    CleanStep(fs, "main");
  }

  lemma AliasAlone(main: Node)
    requires main == Mapping("", [Scalar("", "k"), Scalar(INCLUDE, "a"), Scalar("", "l"), Alias(Scalar(INCLUDE, "a"))])
    ensures forall t | t in AliasTargets(main) :: Includes(t) == {}
  {
    forall t | t in AliasTargets(main)
      ensures Includes(t) == {}
    {
      var i :| 0 <= i < 4 && i % 2 == 1 && !main.content[i].IsInclude() && t in AliasTargets(main.content[i]);
      assert i == 3;
    }
  }

  /** An anchored include is resolved where the anchor stands, and not behind an alias of it. */
  lemma AliasStays()
    ensures var main := Mapping("", [Scalar("", "k"), Scalar(INCLUDE, "a"), Scalar("", "l"), Alias(Scalar(INCLUDE, "a"))]);
      var fs := Beside(main, Scalar("", "text"));
      Allowed(IncludeGraph(fs), "main", {}) && Tagged(Guarded(IncludeGraph(fs), "main", {}))
  {
    var main := Mapping("", [Scalar("", "k"), Scalar(INCLUDE, "a"), Scalar("", "l"), Alias(Scalar(INCLUDE, "a"))]);
    assert SlotIncludes(main.content[1], false) == {(false, "a")};
    assert SlotIncludes(main.content[3], false) == {};
    assert Paths(main) <= {"a"};
    BesideAllowed(main, Scalar("", "text"));
    AliasAlone(main);
    BesideQuiet(main, Scalar("", "text"));
    assert LeftInSlot(main.content[3]);
    Settles(Beside(main, Scalar("", "text")), "main", {});
  }

  // -------------------------------------------------------------- LoadConfig

  /** What `LoadConfig` promises. */
  ghost predicate LoadedRight(fs: Store, root: Path, r: Result) {
    var g := IncludeGraph(fs);
    && (r.Ok? <==> exists d: nat :: Ends(g, root, d))
    && (r.Ok? <==> SoundChains(g, root))
    && (r.Ok? ==> forall d: nat | Ends(g, root, d) :: Plain(g, root, d) == r.node.Unwrap())
    && (r.Ok? ==> fs.Loadable(root) && (!Tagged(r.node.Unwrap()) <==> !Left(Root(fs, root)) && Clean(fs, root)))
    && (r.Err? ==> Justified(fs, root, {}, r.error))
  }

  lemma LoadedOk(fs: Store, root: Path, node: Node)
    requires ParserShape(fs) && QuietAliases(fs, root) && Allowed(IncludeGraph(fs), root, {})
    requires node.Unwrap() == Guarded(IncludeGraph(fs), root, {})
    ensures LoadedRight(fs, root, Ok(node))
  {
    GuardedIffPlain(IncludeGraph(fs), root);
    AllowedIffSoundChains(IncludeGraph(fs), root);
    Settles(fs, root, {});
  }

  lemma LoadedErr(fs: Store, root: Path, error: Error)
    requires !Allowed(IncludeGraph(fs), root, {}) && Justified(fs, root, {}, error)
    ensures LoadedRight(fs, root, Err(error))
  {
    GuardedIffPlain(IncludeGraph(fs), root);
    AllowedIffSoundChains(IncludeGraph(fs), root);
  }

  /** A tree that is loaded rightly is the one the file stands for. */
  lemma RightMeaning(fs: Store, root: Path, r: Result)
    requires LoadedRight(fs, root, r)
    ensures LoadsMeaning(fs, root, r)
  {
    if r.Ok? {
      var d: nat :| Ends(IncludeGraph(fs), root, d);
      LoadedMeans(fs, root, r, d);
    } else {
      FailedMeans(fs, root, r);
    }
  }

  /**
   `LoadConfig` up to decoding, on every store in which what is walked again
   through an alias has settled by then. It succeeds exactly when the plain
   expansion of the root file ends, that is, when every file included on the way
   can be read and parsed and no include chain repeats a file; it then gives the
   same tree, the one that the file stands for (`IncludeMeaning.FileMeans`), which
   is free of include tags under the condition of `Settles`.
   Otherwise it blames a file that the includes really lead to.
   */
  method LoadConfig(fs: Store, root: Path) returns (r: Result)
    ensures ParserShape(fs) && QuietAliases(fs, root) ==> LoadedRight(fs, root, r) && LoadsMeaning(fs, root, r)
  {
    if root !in fs.files {
      JustifiedHere(fs, root, {}, Unreadable(root));
      LoadedErr(fs, root, Unreadable(root));
      RightMeaning(fs, root, Err(Unreadable(root)));
      return Err(Unreadable(root));
    }
    if fs.files[root].Malformed? {
      JustifiedHere(fs, root, {}, Unparsable(root));
      LoadedErr(fs, root, Unparsable(root));
      RightMeaning(fs, root, Err(Unparsable(root)));
      return Err(Unparsable(root));
    }
    ExpandFile(fs, root, {});
    assert {} + {root} == {root};
    var resolver := new Resolver(fs, root);
    r := resolver.ResolveIncludes(fs.files[root].doc, fs.dir(root));
    if r.Err? {
      JustifiedFurther(fs, root, {}, r.error);
      LoadedErr(fs, root, r.error);
      RightMeaning(fs, root, r);
    } else if ParserShape(fs) && QuietAliases(fs, root) {
      LoadedOk(fs, root, r.node);
      RightMeaning(fs, root, r);
    }
  }
}
