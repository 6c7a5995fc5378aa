/**
 Sorting tables by their foreign keys (pkg/schema/schema.go), and the orders of
 the scripts generated from the sorted tables (pkg/schema/generate.go).
 */
module Schema {
  import opened Strings

  /** A column; `ref` is a foreign key in the form `table.column`, or empty. */
  datatype Column = Column(name: string, ref: string)

  datatype Table = Table(name: string, createStmt: string, columns: seq<Column>)

  function RefTable(ref: string): string {
    Split(ref, '.')[0]
  }

  /** A reference is to the table named in front of the first point. */
  lemma RefTableIs(table: string, rest: string)
    requires Lacks(table, '.')
    ensures RefTable(table) == table && RefTable(table + "." + rest) == table
  {
    SplitHead(table, rest, '.');
  }

  function Names(tables: seq<Table>): set<string> {
    set t | t in tables :: t.name
  }

  // ----------------------------------------------------------- foreign keys

  /** A foreign key from a child table to a different parent table: (parent, child). */
  type Edge = (string, string)

  function ColumnEdges(name: string, columns: seq<Column>): seq<Edge> {
    if columns == [] then []
    else
      var ref := columns[0].ref;
      (if ref == "" || RefTable(ref) == name then [] else [(RefTable(ref), name)])
      + ColumnEdges(name, columns[1..])
  }

  /** All foreign keys but the self-references; two columns may give the same edge twice. */
  function Edges(tables: seq<Table>): seq<Edge> {
    if tables == [] then [] else ColumnEdges(tables[0].name, tables[0].columns) + Edges(tables[1..])
  }

  /** The tables a table refers to, itself excepted. */
  function Parents(t: Table): set<string> {
    set c | c in t.columns && c.ref != "" && RefTable(c.ref) != t.name :: RefTable(c.ref)
  }

  lemma {:induction false} ColumnEdgesExact(name: string, columns: seq<Column>, e: Edge)
    ensures e in ColumnEdges(name, columns) <==>
      e.1 == name && exists c | c in columns :: c.ref != "" && RefTable(c.ref) != name && RefTable(c.ref) == e.0
  {
    if columns != [] {
      ColumnEdgesExact(name, columns[1..], e);
      assert forall c | c in columns :: c == columns[0] || c in columns[1..];
    }
  }

  lemma {:induction false} EdgesExact(tables: seq<Table>, e: Edge)
    ensures e in Edges(tables) <==> exists t | t in tables :: t.name == e.1 && e.0 in Parents(t)
  {
    if tables != [] {
      EdgesExact(tables[1..], e);
      ColumnEdgesExact(tables[0].name, tables[0].columns, e);
      assert forall t | t in tables :: t == tables[0] || t in tables[1..];
    }
  }

  // ---------------------------------------------------------- what is promised

  predicate DistinctNames(tables: seq<Table>) {
    forall i, j | 0 <= i < j < |tables| :: tables[i].name != tables[j].name
  }

  /** Every foreign key names a table of the list. */
  predicate RefsListed(tables: seq<Table>) {
    forall t | t in tables :: Parents(t) <= Names(tables)
  }

  predicate Walk(edges: seq<Edge>, w: seq<string>) {
    forall i | 0 <= i < |w| - 1 :: (w[i], w[i + 1]) in edges
  }

  predicate Cycle(edges: seq<Edge>, w: seq<string>) {
    |w| > 1 && Walk(edges, w) && w[0] == w[|w| - 1]
  }

  ghost predicate Acyclic(edges: seq<Edge>) {
    forall w :: !Cycle(edges, w)
  }

  /** Each table comes after all tables it refers to. */
  predicate ParentsFirst(tables: seq<Table>) {
    forall i | 0 <= i < |tables| :: Parents(tables[i]) <= Names(tables[..i])
  }

  datatype SortResult = Sorted(tables: seq<Table>) | CyclicDependency

  // ------------------------------------------------------- counting the edges

  /** Number of foreign keys of `child` to tables not in `done`. */
  function InDegree(edges: seq<Edge>, child: string, done: set<string>): nat {
    if edges == [] then 0
    else (if edges[0].1 == child && edges[0].0 !in done then 1 else 0) + InDegree(edges[1..], child, done)
  }

  /** The children of `parent`, once per foreign key. */
  function Children(edges: seq<Edge>, parent: string): seq<string> {
    if edges == [] then []
    else (if edges[0].0 == parent then [edges[0].1] else []) + Children(edges[1..], parent)
  }

  function Count(s: seq<string>, x: string): nat {
    if s == [] then 0 else (if s[0] == x then 1 else 0) + Count(s[1..], x)
  }

  lemma {:induction false} InDegreeSnoc(edges: seq<Edge>, e: Edge, child: string, done: set<string>)
    ensures InDegree(edges + [e], child, done)
         == InDegree(edges, child, done) + (if e.1 == child && e.0 !in done then 1 else 0)
  {
    if edges != [] {
      assert (edges + [e])[1..] == edges[1..] + [e];
      InDegreeSnoc(edges[1..], e, child, done);
    }
  }

  lemma {:induction false} ChildrenSnoc(edges: seq<Edge>, e: Edge, parent: string)
    ensures Children(edges + [e], parent) == Children(edges, parent) + (if e.0 == parent then [e.1] else [])
  {
    if edges != [] {
      assert (edges + [e])[1..] == edges[1..] + [e];
      ChildrenSnoc(edges[1..], e, parent);
    }
  }

  lemma {:induction false} CountSnoc(s: seq<string>, y: string, x: string)
    ensures Count(s + [y], x) == Count(s, x) + (if y == x then 1 else 0)
  {
    if s != [] {
      assert (s + [y])[1..] == s[1..] + [y];
      CountSnoc(s[1..], y, x);
    }
  }

  lemma {:induction false} CountConcat(a: seq<string>, b: seq<string>, x: string)
    ensures Count(a + b, x) == Count(a, x) + Count(b, x)
  {
    if a == [] {
      assert a + b == b;
    } else {
      assert (a + b)[1..] == a[1..] + b;
      CountConcat(a[1..], b, x);
    }
  }

  /** Finishing a table takes its edges off the in-degrees of its children. */
  lemma {:induction false} InDegreeFinish(edges: seq<Edge>, child: string, done: set<string>, parent: string)
    requires parent !in done
    ensures InDegree(edges, child, done)
         == InDegree(edges, child, done + {parent}) + Count(Children(edges, parent), child)
  {
    if edges != [] {
      InDegreeFinish(edges[1..], child, done, parent);
      var head := if edges[0].0 == parent then [edges[0].1] else [];
      CountConcat(head, Children(edges[1..], parent), child);
      assert Count(head, child) == if edges[0] == (parent, child) then 1 else 0;
    }
  }

  lemma {:induction false} InDegreeZero(edges: seq<Edge>, child: string, done: set<string>)
    ensures InDegree(edges, child, done) == 0 <==> forall e | e in edges && e.1 == child :: e.0 in done
  {
    if edges != [] {
      InDegreeZero(edges[1..], child, done);
      assert forall e | e in edges :: e == edges[0] || e in edges[1..];
    }
  }

  lemma {:induction false} ChildrenExact(edges: seq<Edge>, parent: string)
    ensures forall c | c in Children(edges, parent) :: (parent, c) in edges
  {
    if edges != [] {
      ChildrenExact(edges[1..], parent);
    }
  }

  // ---------------------------------------------------------------- the sort

  /** Reading a missing key of `dependencies` gives no dependents. */
  function Dependents(dependencies: map<string, seq<string>>, parent: string): seq<string> {
    if parent in dependencies then dependencies[parent] else []
  }

  /** The maps agree with the edges. */
  ghost predicate Counts(edges: seq<Edge>, dependencies: map<string, seq<string>>, inDegree: map<string, int>) {
    && (forall p :: Dependents(dependencies, p) == Children(edges, p))
    && (forall c | c in inDegree :: inDegree[c] == InDegree(edges, c, {}))
  }

  /** The first half of `SortTables`: who depends on whom, and on how many. */
  method CountDependencies(tables: seq<Table>)
    returns (dependencies: map<string, seq<string>>, inDegree: map<string, int>)
    ensures Counts(Edges(tables), dependencies, inDegree)
    ensures inDegree.Keys == Names(tables)
  {
    dependencies := map[];
    inDegree := ZeroDegrees(tables);
    ghost var done: seq<Edge> := [];
    assert tables[0..] == tables;
    for i := 0 to |tables|
      invariant inDegree.Keys == Names(tables)
      invariant Counts(done, dependencies, inDegree)
      invariant done + Edges(tables[i..]) == Edges(tables)
    {
      var table := tables[i];
      assert tables[i..][0] == table && tables[i..][1..] == tables[i + 1..];
      assert table in tables;
      dependencies, inDegree := CountColumns(table.name, table.columns, done, dependencies, inDegree);
      EdgesConcat(done, ColumnEdges(table.name, table.columns), Edges(tables[i + 1..]));
      done := done + ColumnEdges(table.name, table.columns);
    }
    assert done + [] == done;
  }

  /** In-degree zero for every table. */
  method ZeroDegrees(tables: seq<Table>) returns (inDegree: map<string, int>)
    ensures inDegree.Keys == Names(tables)
    ensures forall c | c in inDegree :: inDegree[c] == 0
  {
    inDegree := map[];
    for i := 0 to |tables|
      invariant inDegree.Keys == Names(tables[..i])
      invariant forall c | c in inDegree :: inDegree[c] == 0
    {
      inDegree := inDegree[tables[i].name := 0];
      assert tables[..i + 1] == tables[..i] + [tables[i]];
      assert Names(tables[..i + 1]) == Names(tables[..i]) + {tables[i].name};
    }
    assert tables[..|tables|] == tables;
  }

  /** The columns of one table; `done` are the edges counted before. */
  method CountColumns(name: string, columns: seq<Column>, ghost done: seq<Edge>,
                      dependencies0: map<string, seq<string>>, inDegree0: map<string, int>)
    returns (dependencies: map<string, seq<string>>, inDegree: map<string, int>)
    requires Counts(done, dependencies0, inDegree0) && name in inDegree0
    ensures Counts(done + ColumnEdges(name, columns), dependencies, inDegree)
    ensures inDegree.Keys == inDegree0.Keys
  {
    dependencies, inDegree := dependencies0, inDegree0;
    ghost var now := done;
    assert columns[0..] == columns;
    for j := 0 to |columns|
      invariant inDegree.Keys == inDegree0.Keys
      invariant Counts(now, dependencies, inDegree)
      invariant now + ColumnEdges(name, columns[j..]) == done + ColumnEdges(name, columns)
    {
      var col := columns[j];
      ghost var more := ColumnEdges(name, columns[j + 1..]);
      assert columns[j..][0] == col && columns[j..][1..] == columns[j + 1..];
      if col.ref == "" {
        assert [] + more == more;
        continue;
      }
      var refTable := Split(col.ref, '.')[0];
      if refTable == name {
        assert [] + more == more;
        continue;
      }
      CountsSnoc(now, (refTable, name), dependencies, inDegree);
      EdgesConcat(now, [(refTable, name)], more);
      dependencies := dependencies[refTable := Dependents(dependencies, refTable) + [name]];
      inDegree := inDegree[name := inDegree[name] + 1];
      now := now + [(refTable, name)];
    }
    assert now + [] == now;
  }

  lemma EdgesConcat(a: seq<Edge>, b: seq<Edge>, c: seq<Edge>)
    ensures a + (b + c) == (a + b) + c
  {
  }

  lemma CountsSnoc(done: seq<Edge>, e: Edge, dependencies: map<string, seq<string>>, inDegree: map<string, int>)
    requires Counts(done, dependencies, inDegree) && e.1 in inDegree
    ensures Counts(done + [e], dependencies[e.0 := Dependents(dependencies, e.0) + [e.1]],
                   inDegree[e.1 := inDegree[e.1] + 1])
  {
    var dependencies' := dependencies[e.0 := Dependents(dependencies, e.0) + [e.1]];
    forall p
      ensures Dependents(dependencies', p) == Children(done + [e], p)
    {
      ChildrenSnoc(done, e, p);
    }
    forall c | c in inDegree
      ensures inDegree[e.1 := inDegree[e.1] + 1][c] == InDegree(done + [e], c, {})
    {
      InDegreeSnoc(done, e, c, {});
    }
  }

  predicate NoRepeat(s: seq<string>) {
    forall i, j | 0 <= i < j < |s| :: s[i] != s[j]
  }

  /** The tables with in-degree zero, in the arbitrary order of a map iteration. */
  method InitialQueue(inDegree: map<string, int>) returns (queue: seq<string>)
    ensures NoRepeat(queue)
    ensures forall c :: c in queue <==> c in inDegree && inDegree[c] == 0
  {
    queue := [];
    var left := inDegree.Keys;
    while left != {}
      invariant left <= inDegree.Keys
      invariant NoRepeat(queue)
      invariant forall c :: c in queue <==> c in inDegree && c !in left && inDegree[c] == 0
      decreases left
    {
      var table :| table in left;
      if inDegree[table] == 0 {
        queue := queue + [table];
      }
      left := left - {table};
    }
  }

  /** What releasing the dependents of a table does to the in-degrees and the queue. */
  ghost predicate Released(dependents: seq<string>, inDegree: map<string, int>, queue: seq<string>,
                           inDegree': map<string, int>, queue': seq<string>) {
    && inDegree'.Keys == inDegree.Keys
    && (forall c | c in inDegree :: inDegree'[c] == inDegree[c] - Count(dependents, c))
    && NoRepeat(queue')
    && (forall c :: c in queue' <==> c in queue || (c in inDegree && inDegree[c] > 0 && inDegree'[c] == 0))
  }

  /** The inner loop: decrease the in-degrees of the dependents, and enqueue those that reach zero. */
  method Release(dependents: seq<string>, inDegree0: map<string, int>, queue0: seq<string>)
    returns (inDegree: map<string, int>, queue: seq<string>)
    requires forall d | d in dependents :: d in inDegree0
    requires forall c | c in inDegree0 :: inDegree0[c] >= Count(dependents, c)
    requires NoRepeat(queue0) && forall c | c in queue0 :: c in inDegree0 && inDegree0[c] == 0
    ensures Released(dependents, inDegree0, queue0, inDegree, queue)
  {
    inDegree, queue := inDegree0, queue0;
    for k := 0 to |dependents|
      invariant inDegree.Keys == inDegree0.Keys
      invariant forall c | c in inDegree0 :: inDegree[c] == inDegree0[c] - Count(dependents[..k], c)
      invariant NoRepeat(queue)
      invariant forall c :: c in queue <==> c in queue0 || (c in inDegree0 && inDegree0[c] > 0 && inDegree[c] == 0)
    {
      var d := dependents[k];
      assert d in dependents;
      assert dependents[..k + 1] == dependents[..k] + [d];
      forall c
        ensures Count(dependents[..k + 1], c) == Count(dependents[..k], c) + (if c == d then 1 else 0)
      {
        CountSnoc(dependents[..k], d, c);
      }
      assert dependents == dependents[..k + 1] + dependents[k + 1..];
      CountConcat(dependents[..k + 1], dependents[k + 1..], d);
      inDegree := inDegree[d := inDegree[d] - 1];
      if inDegree[d] == 0 {
        queue := queue + [d];
      }
    }
    assert dependents[..|dependents|] == dependents;
  }

  /** The first table of the given name. */
  method FindTable(tables: seq<Table>, name: string) returns (table: Table)
    requires name in Names(tables)
    ensures table in tables && table.name == name
  {
    var i := 0;
    while tables[i].name != name
      invariant i < |tables|
      invariant forall k | 0 <= k < i :: tables[k].name != name
      decreases |tables| - i
    {
      assert exists t | t in tables :: t.name == name;
      i := i + 1;
    }
    return tables[i];
  }

  /** The in-degrees and the queue of the main loop; `done` are the names already sorted. */
  ghost predicate Kahn(tables: seq<Table>, done: set<string>, queue: seq<string>, inDegree: map<string, int>) {
    && inDegree.Keys == Names(tables)
    && (forall c | c in inDegree :: inDegree[c] == InDegree(Edges(tables), c, done))
    && NoRepeat(queue)
    && (forall c :: c in queue <==> c in inDegree && c !in done && inDegree[c] == 0)
    && (forall c | c in done :: c in inDegree && inDegree[c] == 0)
  }

  /** The tables sorted so far: none twice, and each after those it refers to. */
  ghost predicate InOrder(tables: seq<Table>, sorted: seq<Table>) {
    && DistinctNames(sorted)
    && (forall t | t in sorted :: t in tables)
    && (forall i, e | 0 <= i < |sorted| && e in Edges(tables) && e.1 == sorted[i].name :: e.0 in Names(sorted[..i]))
  }

  lemma Releasable(tables: seq<Table>, done: set<string>, queue: seq<string>, inDegree: map<string, int>)
    requires Kahn(tables, done, queue, inDegree) && queue != []
    ensures var d := Children(Edges(tables), queue[0]);
      && (forall c | c in d :: c in inDegree)
      && (forall c | c in inDegree :: inDegree[c] >= Count(d, c))
      && NoRepeat(queue[1..]) && (forall c | c in queue[1..] :: c in inDegree && inDegree[c] == 0)
  {
    var edges := Edges(tables);
    ChildrenExact(edges, queue[0]);
    forall c | c in Children(edges, queue[0])
      ensures c in inDegree
    {
      EdgesExact(tables, (queue[0], c));
    }
    forall c | c in inDegree
      ensures inDegree[c] >= Count(Children(edges, queue[0]), c)
    {
      InDegreeFinish(edges, c, done, queue[0]);
    }
  }

  /** One round of the main loop keeps its invariants. */
  lemma KahnStep(tables: seq<Table>, done: set<string>, queue: seq<string>, inDegree: map<string, int>,
                 inDegree': map<string, int>, queue': seq<string>)
    requires Kahn(tables, done, queue, inDegree) && queue != []
    requires Released(Children(Edges(tables), queue[0]), inDegree, queue[1..], inDegree', queue')
    ensures Kahn(tables, done + {queue[0]}, queue', inDegree')
  {
    var edges, name := Edges(tables), queue[0];
    assert name in queue;
    forall c | c in inDegree
      ensures inDegree'[c] == InDegree(edges, c, done + {name})
    {
      InDegreeFinish(edges, c, done, name);
    }
    QueueStep(queue, done, inDegree, Children(edges, name), inDegree', queue');
  }

  lemma OrderStep(tables: seq<Table>, sorted: seq<Table>, queue: seq<string>, inDegree: map<string, int>, table: Table)
    requires Kahn(tables, Names(sorted), queue, inDegree) && queue != []
    requires InOrder(tables, sorted) && table in tables && table.name == queue[0]
    ensures InOrder(tables, sorted + [table]) && Names(sorted + [table]) == Names(sorted) + {queue[0]}
  {
    assert queue[0] in queue;
    InDegreeZero(Edges(tables), table.name, Names(sorted));
    var sorted' := sorted + [table];
    forall i, e | 0 <= i < |sorted'| && e in Edges(tables) && e.1 == sorted'[i].name
      ensures e.0 in Names(sorted'[..i])
    {
      assert sorted'[..i] == sorted[..i];
      assert sorted[..|sorted|] == sorted;
    }
    forall i | 0 <= i < |sorted|
      ensures sorted[i].name != table.name
    {
      assert sorted[i] in sorted;
    }
  }

  lemma QueueStep(queue: seq<string>, done: set<string>, inDegree: map<string, int>, dependents: seq<string>,
                  inDegree': map<string, int>, queue': seq<string>)
    requires queue != [] && NoRepeat(queue)
    requires forall c :: c in queue <==> c in inDegree && c !in done && inDegree[c] == 0
    requires forall c | c in done :: c in inDegree && inDegree[c] == 0
    requires forall c | c in inDegree' :: inDegree'[c] >= 0
    requires Released(dependents, inDegree, queue[1..], inDegree', queue')
    ensures forall c :: c in queue' <==> c in inDegree' && c !in done + {queue[0]} && inDegree'[c] == 0
    ensures forall c | c in done + {queue[0]} :: c in inDegree' && inDegree'[c] == 0
  {
    assert queue[0] in queue;
    assert forall c :: c in queue <==> c == queue[0] || c in queue[1..];
    assert queue[0] !in queue[1..];
  }

  /** When the queue is empty, a table is left out iff it refers to one that is left out or not listed. */
  lemma LeftOut(tables: seq<Table>, done: set<string>, inDegree: map<string, int>)
    requires Kahn(tables, done, [], inDegree)
    ensures forall c | c in Names(tables) - done :: exists e | e in Edges(tables) :: e.1 == c && e.0 !in done
  {
    forall c | c in Names(tables) - done
      ensures exists e | e in Edges(tables) :: e.1 == c && e.0 !in done
    {
      InDegreeZero(Edges(tables), c, done);
    }
  }

  predicate HasParentIn(edges: seq<Edge>, among: set<string>, x: string) {
    exists e | e in edges :: e.1 == x && e.0 in among
  }

  lemma WalkCons(edges: seq<Edge>, x: string, w: seq<string>)
    requires w != [] && Walk(edges, w) && (x, w[0]) in edges
    ensures Walk(edges, [x] + w)
  {
    assert forall i | 0 < i < |[x] + w| :: ([x] + w)[i] == w[i - 1];
  }

  /** A set of tables each of which refers to one in the set holds a cycle. */
  lemma {:induction false} BackwardWalk(edges: seq<Edge>, left: set<string>, w: seq<string>) returns (c: seq<string>)
    requires forall x {:trigger HasParentIn(edges, left, x)} | x in left :: HasParentIn(edges, left, x)
    requires w != [] && Walk(edges, w) && w[0] in left
    ensures Cycle(edges, c)
    decreases left - (set x | x in w)
  {
    assert HasParentIn(edges, left, w[0]);
    var e :| e in edges && e.1 == w[0] && e.0 in left;
    var w' := [e.0] + w;
    WalkCons(edges, e.0, w);
    if e.0 in w {
      c := CloseCycle(edges, e.0, w);
    } else {
      assert (set x | x in w') == (set x | x in w) + {e.0};
      c := BackwardWalk(edges, left, w');
    }
  }

  lemma CloseCycle(edges: seq<Edge>, x: string, w: seq<string>) returns (c: seq<string>)
    requires x in w && Walk(edges, [x] + w)
    ensures Cycle(edges, c)
  {
    var w' := [x] + w;
    var k :| 0 <= k < |w| && w[k] == x;
    c := w'[..k + 2];
    assert forall i | 0 <= i < |c| :: c[i] == w'[i];
  }

  /** Along a walk every table stands before the next one. */
  lemma {:induction false} WalkForward(tables: seq<Table>, sorted: seq<Table>, w: seq<string>, i: nat, j: nat)
    requires InOrder(tables, sorted) && |w| > 1 && Walk(Edges(tables), w)
    requires i < |sorted| && j < |sorted| && sorted[i].name == w[0] && sorted[j].name == w[|w| - 1]
    requires forall x | x in w :: x in Names(sorted)
    ensures i < j
    decreases |w|
  {
    var last := w[|w| - 2];
    assert (last, w[|w| - 1]) in Edges(tables);
    var t :| t in sorted[..j] && t.name == last;
    var k :| 0 <= k < j && sorted[k] == t;
    if |w| == 2 {
      assert i <= k by {
        assert sorted[i].name == sorted[k].name;
      }
    } else {
      WalkForward(tables, sorted, w[..|w| - 1], i, k);
    }
  }

  /** All tables sorted: there is no cycle. */
  lemma NoCycle(tables: seq<Table>, sorted: seq<Table>)
    requires InOrder(tables, sorted) && Names(sorted) == Names(tables) && RefsListed(tables)
    ensures Acyclic(Edges(tables))
  {
    forall w
      ensures !Cycle(Edges(tables), w)
    {
      if Cycle(Edges(tables), w) {
        forall x | x in w
          ensures x in Names(sorted)
        {
          var i :| 0 <= i < |w| && w[i] == x;
          var e := if i == 0 then (w[0], w[1]) else (w[i - 1], w[i]);
          assert e in Edges(tables);
          EdgesExact(tables, e);
        }
        assert w[0] in w;
        var t :| t in sorted && t.name == w[0];
        var i :| 0 <= i < |sorted| && sorted[i] == t;
        WalkForward(tables, sorted, w, i, i);
      }
    }
  }

  lemma DistinctTail(tables: seq<Table>)
    requires tables != []
    ensures DistinctNames(tables) <==> DistinctNames(tables[1..]) && tables[0].name !in Names(tables[1..])
  {
    assert forall j | 0 < j < |tables| :: tables[j] == tables[1..][j - 1] && tables[j] in tables[1..];
    if t :| t in tables[1..] && t.name == tables[0].name {
      var i :| 0 <= i < |tables[1..]| && tables[1..][i] == t;
      assert tables[i + 1].name == tables[0].name;
    }
  }

  lemma NamesTail(tables: seq<Table>)
    requires tables != []
    ensures Names(tables) == {tables[0].name} + Names(tables[1..])
  {
  }

  lemma {:induction false} CountNames(tables: seq<Table>)
    ensures |Names(tables)| <= |tables|
    ensures |Names(tables)| == |tables| <==> DistinctNames(tables)
  {
    if tables != [] {
      CountNames(tables[1..]);
      NamesTail(tables);
      DistinctTail(tables);
      if tables[0].name in Names(tables[1..]) {
        assert Names(tables) == Names(tables[1..]);
      }
    }
  }

  lemma {:induction false} OnceEach(tables: seq<Table>, t: Table)
    requires DistinctNames(tables)
    ensures multiset(tables)[t] == if t in tables then 1 else 0
  {
    if tables != [] {
      OnceEach(tables[1..], t);
      assert tables == [tables[0]] + tables[1..];
      forall x | x in tables[1..]
        ensures x != tables[0]
      {
        var i :| 0 <= i < |tables[1..]| && tables[1..][i] == x;
        assert tables[i + 1].name != tables[0].name;
      }
    }
  }

  /** Lists of the same tables, each with distinct names, are permutations of each other. */
  lemma Permutation(sorted: seq<Table>, tables: seq<Table>)
    requires DistinctNames(sorted) && DistinctNames(tables) && Names(sorted) == Names(tables)
    requires forall t | t in sorted :: t in tables
    ensures multiset(sorted) == multiset(tables)
    ensures forall t | t in tables :: t in sorted
  {
    forall t | t in tables
      ensures t in sorted
    {
      assert t.name in Names(sorted);
      var t' :| t' in sorted && t'.name == t.name;
      var i, j :| 0 <= i < |tables| && 0 <= j < |tables| && tables[i] == t && tables[j] == t';
    }
    forall t
      ensures multiset(sorted)[t] == multiset(tables)[t]
    {
      OnceEach(sorted, t);
      OnceEach(tables, t);
    }
  }

  /** All names sorted: everything is promised. */
  lemma AllSorted(tables: seq<Table>, sorted: seq<Table>)
    requires InOrder(tables, sorted) && Names(sorted) == Names(tables) && DistinctNames(tables)
    ensures RefsListed(tables) && ParentsFirst(sorted) && Acyclic(Edges(tables))
    ensures multiset(sorted) == multiset(tables)
  {
    Permutation(sorted, tables);
    forall i, p | 0 <= i < |sorted| && p in Parents(sorted[i])
      ensures p in Names(sorted[..i])
    {
      assert sorted[i] in sorted;
      EdgesExact(tables, (p, sorted[i].name));
    }
    forall t | t in tables
      ensures Parents(t) <= Names(tables)
    {
      var i :| 0 <= i < |sorted| && sorted[i] == t;
      assert Parents(sorted[i]) <= Names(sorted[..i]) <= Names(sorted);
    }
    NoCycle(tables, sorted);
  }

  /** Nothing stands in the way: all names get sorted. */
  lemma NothingLeft(tables: seq<Table>, done: set<string>, inDegree: map<string, int>)
    requires Kahn(tables, done, [], inDegree)
    requires RefsListed(tables) && Acyclic(Edges(tables))
    ensures Names(tables) <= done
  {
    var left := Names(tables) - done;
    LeftOut(tables, done, inDegree);
    forall x | x in left
      ensures HasParentIn(Edges(tables), left, x)
    {
      var e :| e in Edges(tables) && e.1 == x && e.0 !in done;
      EdgesExact(tables, e);
    }
    if x :| x in left {
      var c := BackwardWalk(Edges(tables), left, [x]);
      assert false;
    }
    assert forall x | x in Names(tables) && x !in done :: x in left;
  }

  /** What the length of the sorted list tells. */
  lemma Verdict(tables: seq<Table>, sorted: seq<Table>, inDegree: map<string, int>)
    requires Kahn(tables, Names(sorted), [], inDegree) && InOrder(tables, sorted)
    ensures |sorted| == |tables| <==> DistinctNames(tables) && RefsListed(tables) && Acyclic(Edges(tables))
    ensures |sorted| == |tables| ==> multiset(sorted) == multiset(tables) && ParentsFirst(sorted)
  {
    CountNames(tables);
    CountNames(sorted);
    var done := Names(sorted);
    assert done <= Names(tables);
    if |sorted| == |tables| {
      Covers(done, Names(tables));
      AllSorted(tables, sorted);
    } else if RefsListed(tables) && Acyclic(Edges(tables)) {
      NothingLeft(tables, done, inDegree);
      assert done == Names(tables);
    }
  }

  lemma Covers(a: set<string>, b: set<string>)
    requires a <= b && |a| >= |b|
    ensures a == b
  {
    if x :| x in b - a {
      assert a <= b - {x} && |b - {x}| == |b| - 1;
      Smaller(a, b - {x});
      assert false;
    } else {
      assert forall x | x in b :: x !in b - a;
    }
  }

  lemma {:induction false} Smaller(a: set<string>, b: set<string>)
    requires a <= b
    ensures |a| <= |b|
  {
    if x :| x in a {
      Smaller(a - {x}, b - {x});
    }
  }

  /** `SortTables` */
  method SortTables(tables: seq<Table>) returns (r: SortResult)
    ensures r.Sorted? <==> DistinctNames(tables) && RefsListed(tables) && Acyclic(Edges(tables))
    ensures r.Sorted? ==> multiset(r.tables) == multiset(tables) && ParentsFirst(r.tables)
  {
    var dependencies, inDegree := CountDependencies(tables);
    var sortedTables: seq<Table> := [];
    var queue := InitialQueue(inDegree);
    assert Names(sortedTables) == {};
    while |queue| > 0
      invariant Kahn(tables, Names(sortedTables), queue, inDegree)
      invariant InOrder(tables, sortedTables)
      decreases Names(tables) - Names(sortedTables)
    {
      var currentTable := queue[0];
      assert currentTable in queue;
      var table := FindTable(tables, currentTable);
      Releasable(tables, Names(sortedTables), queue, inDegree);
      OrderStep(tables, sortedTables, queue, inDegree, table);
      ghost var queue0, inDegree0 := queue, inDegree;
      queue := queue[1..];
      inDegree, queue := Release(Dependents(dependencies, currentTable), inDegree, queue);
      KahnStep(tables, Names(sortedTables), queue0, inDegree0, inDegree, queue);
      sortedTables := sortedTables + [table];
    }
    Verdict(tables, sortedTables, inDegree);
    if |sortedTables| != |tables| {
      return CyclicDependency;
    }
    return Sorted(sortedTables);
  }
}
