/**
 The up, deseed and down scripts generated from sorted tables
 (pkg/schema/generate.go): they can be executed in the order they are written.
 */
module Scripts {
  import opened Schema
  import opened Strings
  import opened Wrappers

  /** What a generated query does; the wording of each driver is not modelled. */
  datatype Statement =
    | Create(table: Table)
    | Delete(name: string)
    | Truncate(name: string, cascade: bool)
    | Drop(name: string)

  datatype InitQuery = InitQuery(name: string, statement: Statement)

  /** `deseedVerb` */
  function DeseedVerb(driver: string): string {
    if driver in {"pgx", "dsql", "oracle"} then "truncate" else "delete"
  }

  // ----------------------------------------------------- executing a script

  /** The tables that exist, and those of them that hold rows. */
  datatype Database = Database(tables: set<Table>, filled: set<Table>)

  predicate Refers(t: Table, name: string) { name in Parents(t) }

  function Without(tables: set<Table>, name: string): set<Table> {
    set u | u in tables && u.name != name
  }

  /** A chain of references leads from `u` to the table `name`. */
  ghost predicate Dependent(tables: set<Table>, name: string, u: Table) {
    exists chain: seq<Table> ::
      && chain != [] && chain[0].name == name && chain[|chain| - 1] == u
      && forall k | 0 < k < |chain| :: chain[k] in tables && Refers(chain[k], chain[k - 1].name)
  }

  /**
   The database after a statement; `None` when a foreign key forbids it. Rows
   cannot be deleted while another table that holds rows refers to theirs; a
   table cannot be truncated or dropped while another table refers to it,
   whether that one holds rows or not, unless truncating cascades to the tables
   that depend on it.
   */
  ghost function Execute(s: Statement, db: Database): Option<Database> {
    match s
    case Create(t) =>
      if forall p | p in Parents(t) :: exists u | u in db.tables :: u.name == p
      then Some(db.(tables := db.tables + {t})) else None
    case Delete(name) =>
      if exists u | u in db.filled :: Refers(u, name) then None
      else Some(db.(filled := Without(db.filled, name)))
    case Truncate(name, cascade) =>
      if cascade then Some(db.(filled := set u | u in db.filled && !Dependent(db.tables, name, u)))
      else if exists u | u in db.tables :: Refers(u, name) then None
      else Some(db.(filled := Without(db.filled, name)))
    case Drop(name) =>
      if exists u | u in db.tables :: Refers(u, name) then None
      else Some(Database(Without(db.tables, name), Without(db.filled, name)))
  }

  ghost function ExecuteAll(queries: seq<InitQuery>, db: Database): Option<Database> {
    if queries == [] then Some(db)
    else
      match Execute(queries[0].statement, db)
      case None => None
      case Some(db') => ExecuteAll(queries[1..], db')
  }

  lemma {:induction false} ExecuteSnoc(queries: seq<InitQuery>, q: InitQuery, db: Database)
    ensures ExecuteAll(queries + [q], db) ==
      match ExecuteAll(queries, db) case None => None case Some(db') => Execute(q.statement, db')
  {
    if queries == [] {
      assert queries + [q] == [q];
    } else {
      assert (queries + [q])[0] == queries[0] && (queries + [q])[1..] == queries[1..] + [q];
      match Execute(queries[0].statement, db)
      case None =>
      case Some(db') => ExecuteSnoc(queries[1..], q, db');
    }
  }

  function SetOf(tables: seq<Table>): set<Table> {
    set t | t in tables
  }

  // ------------------------------------------------------------- the builders

  /** `buildUp`: every prefix of the script runs, and leaves exactly the tables created so far. */
  method BuildUp(tables: seq<Table>) returns (queries: seq<InitQuery>)
    ensures |queries| == |tables|
    ensures forall i | 0 <= i < |tables| :: queries[i] == InitQuery("create_" + tables[i].name, Create(tables[i]))
    ensures ParentsFirst(tables) ==> ExecuteAll(queries, Database({}, {})) == Some(Database(SetOf(tables), {}))
  {
    queries := [];
    assert SetOf(tables[..0]) == {};
    for i := 0 to |tables|
      invariant |queries| == i
      invariant forall k | 0 <= k < i :: queries[k] == InitQuery("create_" + tables[k].name, Create(tables[k]))
      invariant ParentsFirst(tables) ==> ExecuteAll(queries, Database({}, {})) == Some(Database(SetOf(tables[..i]), {}))
    {
      var t := tables[i];
      var q := InitQuery("create_" + t.name, Create(t));
      if ParentsFirst(tables) {
        ExecuteSnoc(queries, q, Database({}, {}));
        forall p | p in Parents(t)
          ensures exists u | u in SetOf(tables[..i]) :: u.name == p
        {
          assert p in Names(tables[..i]);
          var u :| u in tables[..i] && u.name == p;
          assert u in SetOf(tables[..i]);
        }
        assert tables[..i + 1] == tables[..i] + [t];
        assert SetOf(tables[..i + 1]) == SetOf(tables[..i]) + {t};
      }
      queries := queries + [q];
    }
    assert tables[..|tables|] == tables;
  }

  /** Nothing refers to the last of the remaining tables, and taking it away leaves the others. */
  lemma RemoveLast(tables: seq<Table>, i: nat)
    requires ParentsFirst(tables) && DistinctNames(tables) && i < |tables|
    ensures forall u | u in SetOf(tables[..i + 1]) :: !Refers(u, tables[i].name)
    ensures Without(SetOf(tables[..i + 1]), tables[i].name) == SetOf(tables[..i])
  {
    forall u | u in SetOf(tables[..i + 1])
      ensures !Refers(u, tables[i].name)
    {
      var k :| 0 <= k <= i && tables[k] == u;
      assert Parents(tables[k]) <= Names(tables[..k]);
      forall v | v in tables[..k]
        ensures v.name != tables[i].name
      {
        var l :| 0 <= l < k && tables[l] == v;
      }
    }
    assert tables[..i + 1] == tables[..i] + [tables[i]];
    forall u | u in SetOf(tables[..i])
      ensures u.name != tables[i].name
    {
      var k :| 0 <= k < i && tables[k] == u;
    }
  }

  /** The statement that empties table `i`. */
  function Empty(tables: seq<Table>, driver: string, i: nat): Statement
    requires i < |tables|
  {
    if driver in {"pgx", "dsql"} then Truncate(tables[i].name, i == 0)
    else if driver == "oracle" then Truncate(tables[i].name, false)
    else Delete(tables[i].name)
  }

  /** It is not refused where the tables after `i` have been emptied. */
  predicate EmptyAllowed(tables: seq<Table>, driver: string, i: nat)
    requires i < |tables|
  {
    match Empty(tables, driver, i)
    case Truncate(name, false) => forall u | u in tables :: !Refers(u, name)
    case _ => true
  }

  predicate DeseedAllowed(tables: seq<Table>, driver: string, from: nat) {
    forall i | from <= i < |tables| :: EmptyAllowed(tables, driver, i)
  }

  /** The database when the tables from `i` on are empty; `filled` held rows at first. */
  function Emptied(tables: seq<Table>, filled: set<Table>, i: nat): Database
    requires i <= |tables|
  {
    Database(SetOf(tables), filled * SetOf(tables[..i]))
  }

  lemma EmptiedLess(tables: seq<Table>, filled: set<Table>, i: nat)
    requires ParentsFirst(tables) && DistinctNames(tables) && i < |tables|
    ensures forall u | u in Emptied(tables, filled, i + 1).filled :: !Refers(u, tables[i].name)
    ensures Without(Emptied(tables, filled, i + 1).filled, tables[i].name) == Emptied(tables, filled, i).filled
  {
    RemoveLast(tables, i);
    assert Without(filled * SetOf(tables[..i + 1]), tables[i].name) == filled * SetOf(tables[..i]);
  }

  lemma OnlyFirst(tables: seq<Table>, filled: set<Table>)
    requires tables != []
    ensures forall u | u in Emptied(tables, filled, 1).filled :: Dependent(SetOf(tables), tables[0].name, u)
  {
    forall u | u in Emptied(tables, filled, 1).filled
      ensures Dependent(SetOf(tables), tables[0].name, u)
    {
      assert [u][0] == tables[0];
    }
  }

  /** Emptying table `i` when those after it are empty. */
  lemma EmptyOne(tables: seq<Table>, driver: string, filled: set<Table>, i: nat)
    requires ParentsFirst(tables) && DistinctNames(tables) && i < |tables|
    ensures Execute(Empty(tables, driver, i), Emptied(tables, filled, i + 1))
         == if EmptyAllowed(tables, driver, i) then Some(Emptied(tables, filled, i)) else None
  {
    EmptiedLess(tables, filled, i);
    var db := Emptied(tables, filled, i + 1);
    match Empty(tables, driver, i)
    case Truncate(name, cascade) =>
      if cascade {
        OnlyFirst(tables, filled);
        assert (set u | u in db.filled && !Dependent(db.tables, name, u)) == {} == Emptied(tables, filled, 0).filled;
      } else if u :| u in tables && Refers(u, name) {
        assert u in db.tables;
      }
    case Delete(name) =>
  }

  /** `buildDeseed`: from the last table to the first. */
  method BuildDeseed(tables: seq<Table>, driver: string) returns (queries: seq<InitQuery>)
    ensures |queries| == |tables|
    ensures forall i | 0 <= i < |tables| ::
      queries[|tables| - 1 - i] == InitQuery(DeseedVerb(driver) + "_" + tables[i].name, Empty(tables, driver, i))
    ensures ParentsFirst(tables) && DistinctNames(tables) ==>
      forall filled | filled <= SetOf(tables) ::
        ExecuteAll(queries, Database(SetOf(tables), filled))
        == if DeseedAllowed(tables, driver, 0) then Some(Database(SetOf(tables), {})) else None
  {
    queries := [];
    for i := |tables| downto 0
      invariant |queries| == |tables| - i
      invariant forall k | i <= k < |tables| ::
        queries[|tables| - 1 - k] == InitQuery(DeseedVerb(driver) + "_" + tables[k].name, Empty(tables, driver, k))
      invariant ParentsFirst(tables) && DistinctNames(tables) ==> DeseededTo(queries, tables, driver, i)
    {
      var q := InitQuery(DeseedVerb(driver) + "_" + tables[i].name, Empty(tables, driver, i));
      if ParentsFirst(tables) && DistinctNames(tables) {
        DeseedNext(queries, tables, driver, i, q);
      }
      queries := queries + [q];
    }
    if ParentsFirst(tables) && DistinctNames(tables) {
      DeseedDone(queries, tables, driver);
    }
  }

  /** What the statements for the tables from `i` on do. */
  ghost predicate DeseededTo(queries: seq<InitQuery>, tables: seq<Table>, driver: string, i: nat)
    requires i <= |tables|
  {
    forall filled | filled <= SetOf(tables) ::
      ExecuteAll(queries, Emptied(tables, filled, |tables|))
      == if DeseedAllowed(tables, driver, i) then Some(Emptied(tables, filled, i)) else None
  }

  lemma DeseedNext(queries: seq<InitQuery>, tables: seq<Table>, driver: string, i: nat, q: InitQuery)
    requires ParentsFirst(tables) && DistinctNames(tables) && i < |tables|
    requires DeseededTo(queries, tables, driver, i + 1) && q.statement == Empty(tables, driver, i)
    ensures DeseededTo(queries + [q], tables, driver, i)
  {
    assert DeseedAllowed(tables, driver, i) <==> EmptyAllowed(tables, driver, i) && DeseedAllowed(tables, driver, i + 1);
    forall filled | filled <= SetOf(tables)
      ensures ExecuteAll(queries + [q], Emptied(tables, filled, |tables|))
           == if DeseedAllowed(tables, driver, i) then Some(Emptied(tables, filled, i)) else None
    {
      ExecuteSnoc(queries, q, Emptied(tables, filled, |tables|));
      EmptyOne(tables, driver, filled, i);
    }
  }

  lemma DeseedDone(queries: seq<InitQuery>, tables: seq<Table>, driver: string)
    requires DeseededTo(queries, tables, driver, 0)
    ensures forall filled | filled <= SetOf(tables) ::
      ExecuteAll(queries, Database(SetOf(tables), filled))
      == if DeseedAllowed(tables, driver, 0) then Some(Database(SetOf(tables), {})) else None
  {
    forall filled | filled <= SetOf(tables)
      ensures Emptied(tables, filled, |tables|) == Database(SetOf(tables), filled)
      ensures Emptied(tables, filled, 0) == Database(SetOf(tables), {})
    {
      assert tables[..|tables|] == tables;
    }
  }

  /** The verb in the name of a query is that of its statement. */
  lemma VerbExact(tables: seq<Table>, driver: string, i: nat)
    requires i < |tables|
    ensures Empty(tables, driver, i).Truncate? <==> DeseedVerb(driver) == "truncate"
    ensures Empty(tables, driver, i).Delete? <==> DeseedVerb(driver) == "delete"
  {
  }

  /**
   When a deseed script runs through: where it deletes, always; where it
   truncates and cascades at the end, if all references are to the first table;
   where it only truncates, if there are no references.
   */
  lemma DeseedRuns(tables: seq<Table>, driver: string)
    requires ParentsFirst(tables) && DistinctNames(tables)
    ensures driver !in {"pgx", "dsql", "oracle"} ==> DeseedAllowed(tables, driver, 0)
    ensures driver in {"pgx", "dsql"} ==>
      (DeseedAllowed(tables, driver, 0) <==> forall u, p | u in tables && Refers(u, p) :: p == tables[0].name)
    ensures driver == "oracle" ==>
      (DeseedAllowed(tables, driver, 0) <==> forall u | u in tables :: Parents(u) == {})
  {
    forall u, p | u in tables && Refers(u, p)
      ensures exists i :: 0 <= i < |tables| && tables[i].name == p
    {
      var k :| 0 <= k < |tables| && tables[k] == u;
      assert p in Names(tables[..k]);
    }
    forall i | 0 <= i < |tables|
      ensures EmptyAllowed(tables, driver, i) <==>
        driver !in {"pgx", "dsql", "oracle"} || (driver != "oracle" && i == 0) || forall u | u in tables :: !Refers(u, tables[i].name)
    {
    }
  }

  lemma ChainRefused(a: Table, b: Table, c: Table, driver: string)
    requires driver in {"pgx", "dsql", "oracle"} && Parents(a) == {} && Parents(b) == {a.name} && Parents(c) == {b.name}
    ensures ParentsFirst([a, b, c]) && !DeseedAllowed([a, b, c], driver, 0)
  {
    var tables := [a, b, c];
    assert tables[..1][0] == a && tables[..2][1] == b;
    assert a.name in Names(tables[..1]) && b.name in Names(tables[..2]);
    assert c in tables && Refers(c, b.name);
    assert !EmptyAllowed(tables, driver, 1);
  }

  /** Three tables in a chain: the second statement, which truncates the table in the middle, is refused. */
  lemma ChainNotTruncated(driver: string)
    requires driver in {"pgx", "dsql", "oracle"}
    ensures var a, b, c := Table("a", "", []), Table("b", "", [Column("x", "a.id")]), Table("c", "", [Column("y", "b.id")]);
      ParentsFirst([a, b, c]) && DistinctNames([a, b, c]) && !DeseedAllowed([a, b, c], driver, 0)
  {
    var a, b, c := Table("a", "", []), Table("b", "", [Column("x", "a.id")]), Table("c", "", [Column("y", "b.id")]);
    OneParent(b, Column("x", "a.id"), "a", "id");
    OneParent(c, Column("y", "b.id"), "b", "id");
    ChainRefused(a, b, c, driver);
  }

  lemma OneParent(t: Table, c: Column, parent: string, column: string)
    requires t.columns == [c] && c.ref == parent + ['.'] + column && Lacks(parent, '.') && parent != t.name
    ensures Parents(t) == {parent}
  {
    SplitHead(parent, column, '.');
    assert c in t.columns;
  }

  /** `buildDown`: from the last table to the first. */
  method BuildDown(tables: seq<Table>) returns (queries: seq<InitQuery>)
    ensures |queries| == |tables|
    ensures forall i | 0 <= i < |tables| ::
      queries[|tables| - 1 - i] == InitQuery("drop_" + tables[i].name, Drop(tables[i].name))
    ensures ParentsFirst(tables) && DistinctNames(tables) ==>
      forall filled | filled <= SetOf(tables) ::
        ExecuteAll(queries, Database(SetOf(tables), filled)) == Some(Database({}, {}))
  {
    queries := [];
    DropBegin(tables);
    for i := |tables| downto 0
      invariant |queries| == |tables| - i
      invariant forall k | i <= k < |tables| ::
        queries[|tables| - 1 - k] == InitQuery("drop_" + tables[k].name, Drop(tables[k].name))
      invariant ParentsFirst(tables) && DistinctNames(tables) ==> DroppedTo(queries, tables, i)
    {
      var q := InitQuery("drop_" + tables[i].name, Drop(tables[i].name));
      if ParentsFirst(tables) && DistinctNames(tables) {
        DropNext(queries, tables, i, q);
      }
      queries := queries + [q];
    }
    if ParentsFirst(tables) && DistinctNames(tables) {
      DropDone(queries, tables);
    }
  }

  ghost predicate DroppedTo(queries: seq<InitQuery>, tables: seq<Table>, i: nat)
    requires i <= |tables|
  {
    forall filled | filled <= SetOf(tables) ::
      ExecuteAll(queries, Database(SetOf(tables), filled)) == Some(Database(SetOf(tables[..i]), filled * SetOf(tables[..i])))
  }

  lemma DropBegin(tables: seq<Table>)
    ensures DroppedTo([], tables, |tables|)
  {
    assert tables[..|tables|] == tables;
    assert forall filled | filled <= SetOf(tables) :: filled * SetOf(tables) == filled;
  }

  lemma DropDone(queries: seq<InitQuery>, tables: seq<Table>)
    requires DroppedTo(queries, tables, 0)
    ensures forall filled | filled <= SetOf(tables) ::
      ExecuteAll(queries, Database(SetOf(tables), filled)) == Some(Database({}, {}))
  {
    assert SetOf(tables[..0]) == {};
    assert forall filled | filled <= SetOf(tables) :: filled * {} == {};
  }

  lemma DropNext(queries: seq<InitQuery>, tables: seq<Table>, i: nat, q: InitQuery)
    requires ParentsFirst(tables) && DistinctNames(tables) && i < |tables|
    requires DroppedTo(queries, tables, i + 1) && q.statement == Drop(tables[i].name)
    ensures DroppedTo(queries + [q], tables, i)
  {
    RemoveLast(tables, i);
    forall filled | filled <= SetOf(tables)
      ensures ExecuteAll(queries + [q], Database(SetOf(tables), filled))
           == Some(Database(SetOf(tables[..i]), filled * SetOf(tables[..i])))
    {
      ExecuteSnoc(queries, q, Database(SetOf(tables), filled));
      assert Without(filled * SetOf(tables[..i + 1]), tables[i].name) == filled * SetOf(tables[..i]);
    }
  }

  lemma DistinctFromMultiset(sorted: seq<Table>, tables: seq<Table>)
    requires multiset(sorted) == multiset(tables) && DistinctNames(tables)
    ensures SetOf(sorted) == SetOf(tables) && DistinctNames(sorted)
  {
    assert forall t :: t in sorted <==> t in multiset(sorted);
    assert forall t :: t in tables <==> t in multiset(tables);
    CountNames(sorted);
    CountNames(tables);
    assert Names(sorted) == Names(tables);
    assert |sorted| == |multiset(sorted)| == |multiset(tables)| == |tables|;
  }

  /**
   The scripts of a schema whose tables can be sorted, in the order `sorted`:
   up creates all tables from nothing and down drops all of them, and no
   statement on the way violates a foreign key. Nor does deseed where it
   deletes; where it truncates, it is refused unless the references allow it.
   Which tables hold rows does not matter.
   */
  method GenerateScripts(tables: seq<Table>, driver: string)
    returns (ok: bool, up: seq<InitQuery>, deseed: seq<InitQuery>, down: seq<InitQuery>, ghost sorted: seq<Table>)
    ensures ok <==> DistinctNames(tables) && RefsListed(tables) && Acyclic(Edges(tables))
    ensures ok ==> multiset(sorted) == multiset(tables) && ParentsFirst(sorted) && DistinctNames(sorted)
    ensures ok ==> ExecuteAll(up, Database({}, {})) == Some(Database(SetOf(tables), {}))
    ensures ok ==> forall filled | filled <= SetOf(tables) ::
      && ExecuteAll(deseed, Database(SetOf(tables), filled))
         == (if DeseedAllowed(sorted, driver, 0) then Some(Database(SetOf(tables), {})) else None)
      && ExecuteAll(down, Database(SetOf(tables), filled)) == Some(Database({}, {}))
  {
    up, deseed, down, sorted := [], [], [], [];
    var r := SortTables(tables);
    ok := r.Sorted?;
    if ok {
      sorted := r.tables;
      DistinctFromMultiset(r.tables, tables);
      up := BuildUp(r.tables);
      deseed := BuildDeseed(r.tables, driver);
      down := BuildDown(r.tables);
    }
  }
}
