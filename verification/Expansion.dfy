/**
 Expanding a file that depends on other files, as a recursion over a finite
 dependency graph that may have cycles. `Plain` expands blindly to a given
 depth, `Guarded` keeps the set of files under expansion.
 */
module Expansion {

  /**
   The files that can be expanded, the files each one depends on, and how its
   expansion is built from theirs.
   */
  datatype Graph<!F(==), !N> = Graph(files: set<F>, deps: F -> set<F>, build: (F, map<F, N>) -> N)

  /** The expansion of `f` ends when dependencies may nest at most `d` deep; a cycle never gets small enough. */
  predicate Ends<F(==), N>(g: Graph<F, N>, f: F, d: nat) {
    d > 0 && f in g.files && forall h | h in g.deps(f) :: Ends(g, h, d - 1)
  }

  function Plain<F(==), N>(g: Graph<F, N>, f: F, d: nat): N
    requires Ends(g, f, d)
  {
    g.build(f, map h | h in g.deps(f) :: Plain(g, h, d - 1))
  }

  /** The expansion of `f` succeeds when the files in `visited` are being expanded already. */
  predicate Allowed<F(==), N>(g: Graph<F, N>, f: F, visited: set<F>)
    decreases g.files - visited
  {
    f !in visited && f in g.files && forall h | h in g.deps(f) :: Allowed(g, h, visited + {f})
  }

  function Guarded<F(==), N>(g: Graph<F, N>, f: F, visited: set<F>): N
    requires Allowed(g, f, visited)
    decreases g.files - visited
  {
    g.build(f, map h | h in g.deps(f) :: Guarded(g, h, visited + {f}))
  }

  /** A deeper allowance changes nothing once the expansion ends. */
  lemma {:induction false} EndsMonotone<F, N>(g: Graph<F, N>, f: F, d: nat, d': nat)
    requires Ends(g, f, d) && d <= d'
    ensures Ends(g, f, d')
    decreases d
  {
    forall h | h in g.deps(f)
      ensures Ends(g, h, d' - 1)
    {
      EndsMonotone(g, h, d - 1, d' - 1);
    }
  }

  lemma {:induction false} PlainMonotone<F, N>(g: Graph<F, N>, f: F, d: nat, d': nat)
    requires Ends(g, f, d) && d <= d'
    ensures Ends(g, f, d') && Plain(g, f, d') == Plain(g, f, d)
    decreases d
  {
    EndsMonotone(g, f, d, d');
    forall h | h in g.deps(f)
      ensures Plain(g, h, d' - 1) == Plain(g, h, d - 1)
    {
      PlainMonotone(g, h, d - 1, d' - 1);
    }
    assert (map h | h in g.deps(f) :: Plain(g, h, d' - 1)) == (map h | h in g.deps(f) :: Plain(g, h, d - 1));
  }

  /** One level of both expansions. */
  lemma SameLevel<F, N>(g: Graph<F, N>, f: F, visited: set<F>, d: nat)
    requires f in g.files && f !in visited
    requires forall h | h in g.deps(f) ::
      Allowed(g, h, visited + {f}) && Ends(g, h, d) && Guarded(g, h, visited + {f}) == Plain(g, h, d)
    ensures Allowed(g, f, visited) && Ends(g, f, d + 1) && Guarded(g, f, visited) == Plain(g, f, d + 1)
  {
    assert (map h | h in g.deps(f) :: Guarded(g, h, visited + {f})) == (map h | h in g.deps(f) :: Plain(g, h, d));
  }

  lemma OneVisited<F>(files: set<F>, f: F, visited: set<F>)
    requires f in files && f !in visited
    ensures |files - (visited + {f})| == |files - visited| - 1
  {
    assert files - (visited + {f}) == (files - visited) - {f};
  }

  /** What the guarded expansion reaches, the plain one reaches within as many steps as there are files. */
  lemma {:induction false} GuardedIsPlain<F, N>(g: Graph<F, N>, f: F, visited: set<F>, d: nat)
    requires Allowed(g, f, visited)
    requires d >= |g.files - visited|
    ensures Ends(g, f, d) && Plain(g, f, d) == Guarded(g, f, visited)
    decreases |g.files - visited|
  {
    OneVisited(g.files, f, visited);
    forall h | h in g.deps(f)
      ensures Ends(g, h, d - 1) && Guarded(g, h, visited + {f}) == Plain(g, h, d - 1)
    {
      GuardedIsPlain(g, h, visited + {f}, d - 1);
    }
    SameLevel(g, f, visited, d - 1);
  }

  /** The least allowance with which a file can be expanded. */
  lemma {:induction false} Least<F, N>(g: Graph<F, N>, f: F, d: nat) returns (m: nat)
    requires Ends(g, f, d)
    ensures 0 < m <= d && Ends(g, f, m) && !Ends(g, f, m - 1)
  {
    if Ends(g, f, d - 1) {
      m := Least(g, f, d - 1);
    } else {
      m := d;
    }
  }

  /** Files that cannot be expanded within `d` cannot be expanded within less. */
  lemma StillNone<F, N>(g: Graph<F, N>, visited: set<F>, d: nat, m: nat)
    requires m <= d && forall v | v in visited :: !Ends(g, v, d)
    ensures forall v | v in visited :: !Ends(g, v, m)
  {
    forall v | v in visited
      ensures !Ends(g, v, m)
    {
      if Ends(g, v, m) {
        EndsMonotone(g, v, m, d);
      }
    }
  }

  /**
   Where the plain expansion ends, the guard stops nothing: the files under
   expansion need a larger allowance than any file still to come.
   */
  lemma {:induction false} PlainIsGuarded<F, N>(g: Graph<F, N>, f: F, visited: set<F>, d: nat)
    requires Ends(g, f, d)
    requires forall v | v in visited :: !Ends(g, v, d)
    ensures Allowed(g, f, visited) && Guarded(g, f, visited) == Plain(g, f, d)
    decreases d
  {
    var m := Least(g, f, d);
    StillNone(g, visited, d, m - 1);
    forall h | h in g.deps(f)
      ensures Ends(g, h, m - 1) && Allowed(g, h, visited + {f})
      ensures Guarded(g, h, visited + {f}) == Plain(g, h, m - 1)
    {
      PlainIsGuarded(g, h, visited + {f}, m - 1);
    }
    SameLevel(g, f, visited, m - 1);
    PlainMonotone(g, f, m, d);
  }

  /** The guard changes neither whether an expansion ends nor what it gives, on every graph. */
  lemma GuardedIffPlain<F, N>(g: Graph<F, N>, f: F)
    ensures Allowed(g, f, {}) <==> exists d: nat :: Ends(g, f, d)
    ensures forall d: nat | Ends(g, f, d) :: Plain(g, f, d) == Guarded(g, f, {})
  {
    if Allowed(g, f, {}) {
      GuardedIsPlain(g, f, {}, |g.files - {}|);
      assert Ends(g, f, |g.files - {}|);
    }
    forall d: nat | Ends(g, f, d)
      ensures Allowed(g, f, {}) && Plain(g, f, d) == Guarded(g, f, {})
    {
      PlainIsGuarded(g, f, {}, d);
    }
  }

  // ------------------------------------------------------------------ chains

  /** File `f` depends on file `h`. */
  predicate Step<F, N>(g: Graph<F, N>, f: F, h: F) {
    f in g.files && h in g.deps(f)
  }

  predicate Chain<F, N>(g: Graph<F, N>, c: seq<F>) {
    c != [] && forall i | 0 <= i < |c| - 1 :: Step(g, c[i], c[i + 1])
  }

  predicate Distinct<F(==)>(c: seq<F>) {
    forall i, j | 0 <= i < j < |c| :: c[i] != c[j]
  }

  function Last<F>(c: seq<F>): F
    requires c != []
  {
    c[|c| - 1]
  }

  lemma ChainCons<F, N>(g: Graph<F, N>, f: F, c: seq<F>)
    requires Chain(g, c) && Step(g, f, c[0])
    ensures Chain(g, [f] + c) && Last([f] + c) == Last(c)
  {
    forall i | 0 <= i < |c|
      ensures Step(g, ([f] + c)[i], ([f] + c)[i + 1])
    {
      if i > 0 {
        assert Step(g, c[i - 1], c[i]);
      }
    }
  }

  lemma ChainTail<F, N>(g: Graph<F, N>, c: seq<F>)
    requires Chain(g, c) && |c| > 1
    ensures Chain(g, c[1..]) && Last(c[1..]) == Last(c) && Step(g, c[0], c[1])
  {
    forall i | 0 <= i < |c[1..]| - 1
      ensures Step(g, c[1..][i], c[1..][i + 1])
    {
      assert Step(g, c[i + 1], c[i + 2]);
    }
  }

  /** What stops an expansion is a chain that repeats a file or meets one that cannot be expanded. */
  lemma {:induction false} Culprit<F, N>(g: Graph<F, N>, f: F, visited: set<F>) returns (c: seq<F>)
    requires !Allowed(g, f, visited)
    ensures Chain(g, c) && c[0] == f
    ensures Last(c) in visited || Last(c) !in g.files || !Distinct(c)
    decreases |g.files - visited|
  {
    if f in visited || f !in g.files {
      c := [f];
    } else {
      OneVisited(g.files, f, visited);
      var h :| h in g.deps(f) && !Allowed(g, h, visited + {f});
      var c' := Culprit(g, h, visited + {f});
      ChainCons(g, f, c');
      c := [f] + c';
      if Last(c') == f {
        assert c[0] == c[|c| - 1];
      } else if !Distinct(c') {
        var i, j :| 0 <= i < j < |c'| && c'[i] == c'[j];
        assert c[i + 1] == c[j + 1];
      }
    }
  }

  /** No chain from a file that expands meets a visited file, repeats one or leads to one that cannot be expanded. */
  lemma {:induction false} NoCulprit<F, N>(g: Graph<F, N>, f: F, visited: set<F>, c: seq<F>)
    requires Allowed(g, f, visited)
    requires Chain(g, c) && c[0] == f
    ensures forall h | h in c :: h !in visited
    ensures Distinct(c) && Last(c) in g.files
    decreases |c|
  {
    if |c| > 1 {
      ChainTail(g, c);
      NoCulprit(g, c[1], visited + {f}, c[1..]);
      assert forall j | 0 < j < |c| :: c[j] == c[1..][j - 1] && c[j] in c[1..];
    }
  }

  /** Every chain from `f` is free of repetitions and ends at a file that can be expanded. */
  ghost predicate SoundChains<F(!new), N>(g: Graph<F, N>, f: F) {
    forall c: seq<F> | Chain(g, c) && c[0] == f :: Distinct(c) && Last(c) in g.files
  }

  /** The guarded expansion succeeds iff nothing on the way is missing and no chain repeats a file. */
  lemma AllowedIffSoundChains<F(!new), N>(g: Graph<F, N>, f: F)
    ensures Allowed(g, f, {}) <==> SoundChains(g, f)
  {
    if Allowed(g, f, {}) {
      forall c: seq<F> | Chain(g, c) && c[0] == f
        ensures Distinct(c) && Last(c) in g.files
      {
        NoCulprit(g, f, {}, c);
      }
    } else {
      var c := Culprit(g, f, {});
    }
  }

  ghost predicate Reaches<F(!new), N>(g: Graph<F, N>, f: F, h: F) {
    exists c: seq<F> | Chain(g, c) && c[0] == f :: Last(c) == h
  }

  /** A file reaches itself and what the files it depends on reach. */
  lemma ReachesStep<F(!new), N>(g: Graph<F, N>, f: F, x: F)
    requires f in g.files
    ensures Reaches(g, f, x) <==> x == f || exists h | h in g.deps(f) :: Reaches(g, h, x)
  {
    assert Chain(g, [f]) && Last([f]) == f;
    if Reaches(g, f, x) && x != f {
      var c :| Chain(g, c) && c[0] == f && Last(c) == x;
      ChainTail(g, c);
      assert c[1..][0] == c[1];
    }
    forall h | h in g.deps(f) && Reaches(g, h, x)
      ensures Reaches(g, f, x)
    {
      var c :| Chain(g, c) && c[0] == h && Last(c) == x;
      ChainCons(g, f, c);
      assert ([f] + c)[0] == f;
    }
  }
}
