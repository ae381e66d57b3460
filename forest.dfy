/**
 * Ranked graphs: the well-foundedness the hierarchical tokens of
 * dist/index.js rely on without checking it. Three relations between tokens
 * are walked recursively there: a token's recorded parent (the ancestor walk
 * of `isParentTo`), the token an `active` getter delegates to, and a token's
 * `children` list (the `cancel` cascade). Each walk terminates because the
 * relation admits a ranking: every edge leads to a node of strictly lower
 * rank. A graph is a map from a node to the set of its successors.
 */
module Forest {

  /** Every node with edges is ranked, and every edge leads to a node of strictly lower rank. */
  ghost predicate Ranked<T>(E: map<T, set<T>>, r: map<T, nat>)
  {
    && (forall x :: x in E ==> x in r)
    && (forall x, y {:trigger y in E[x]} :: x in E && y in E[x] ==> y in r && r[y] < r[x])
  }

  /** `y` can be reached from `x` along zero or more edges. */
  ghost predicate Reaches<T>(E: map<T, set<T>>, r: map<T, nat>, x: T, y: T)
    requires Ranked(E, r) && x in r
    decreases r[x]
  {
    x == y || (x in E && exists z :: z in E[x] && Reaches(E, r, z, y))
  }

  /** An edge followed by a path is a path. */
  lemma ReachesStep<T>(E: map<T, set<T>>, r: map<T, nat>, x: T, z: T, y: T)
    requires Ranked(E, r) && x in E && z in E[x] && Reaches(E, r, z, y)
    ensures x in r && Reaches(E, r, x, y)
  {
  }

  /** Ranks strictly decrease along every non-empty path, so no path returns to its start. */
  lemma {:induction false} ReachesLowers<T>(E: map<T, set<T>>, r: map<T, nat>, x: T, y: T)
    requires Ranked(E, r) && x in r && Reaches(E, r, x, y)
    ensures y in r && r[y] <= r[x]
    ensures x != y ==> r[y] < r[x]
    decreases r[x]
  {
    if x != y {
      var z :| z in E[x] && Reaches(E, r, z, y);
      ReachesLowers(E, r, z, y);
    }
  }

  /** A path followed by an edge is a path. */
  lemma {:induction false} ReachesExtend<T>(E: map<T, set<T>>, r: map<T, nat>, x: T, y: T, z: T)
    requires Ranked(E, r) && x in r && Reaches(E, r, x, y) && y in E && z in E[y]
    ensures Reaches(E, r, x, z)
    decreases r[x]
  {
    if x == y {
      assert Reaches(E, r, z, z);
    } else {
      var w :| w in E[x] && Reaches(E, r, w, y);
      ReachesExtend(E, r, w, y, z);
    }
  }

  /**
   * The ranking after the edge `a -> b` is added: every node from which `a`
   * can be reached moves up, above `b`.
   */
  ghost function Lift<T>(E: map<T, set<T>>, r: map<T, nat>, a: T, b: T): (r': map<T, nat>)
    requires Ranked(E, r) && b in r
    ensures r'.Keys == r.Keys
  {
    map x | x in r :: if Reaches(E, r, x, a) then r[x] + r[b] + 1 else r[x]
  }

  /**
   * Adding the edge `a -> b` (and dropping any number of edges) keeps a graph
   * ranked exactly when it closes no cycle, that is when `a` cannot already
   * be reached from `b`.
   */
  lemma AddEdge<T>(E: map<T, set<T>>, r: map<T, nat>, a: T, b: T, E': map<T, set<T>>)
    requires Ranked(E, r) && a in r && b in r && !Reaches(E, r, b, a)
    requires forall x :: x in E' ==>
               x in r && forall y :: y in E'[x] ==> (x in E && y in E[x]) || (x == a && y == b)
    ensures Ranked(E', Lift(E, r, a, b))
  {
    var r' := Lift(E, r, a, b);
    forall x | x in E'
      ensures x in r' && forall y :: y in E'[x] ==> y in r' && r'[y] < r'[x]
    {
      forall y | y in E'[x]
        ensures y in r' && r'[y] < r'[x]
      {
        if x in E && y in E[x] {
          if Reaches(E, r, y, a) {
            ReachesStep(E, r, x, y, a);
          }
        } else {
          assert Reaches(E, r, a, a);
        }
      }
    }
  }

  /** A graph with the edge `a -> b` cannot stay ranked when `b` already reaches `a`. */
  lemma CycleUnranked<T>(E: map<T, set<T>>, r: map<T, nat>, a: T, b: T, E': map<T, set<T>>, r': map<T, nat>)
    requires Ranked(E, r) && b in r && Reaches(E, r, b, a)
    requires forall x :: x in E ==> x in E' && E[x] <= E'[x]
    requires a in E' && b in E'[a]
    ensures !Ranked(E', r')
  {
    if Ranked(E', r') {
      PathSurvives(E, r, E', r', b, a);
      ReachesLowers(E', r', b, a);
    }
  }

  /** A path of a graph is a path of every graph with more edges. */
  lemma {:induction false} PathSurvives<T>(E: map<T, set<T>>, r: map<T, nat>, E': map<T, set<T>>, r': map<T, nat>, x: T, y: T)
    requires Ranked(E, r) && Ranked(E', r') && x in r && x in r' && Reaches(E, r, x, y)
    requires forall z :: z in E ==> z in E' && E[z] <= E'[z]
    ensures Reaches(E', r', x, y)
    decreases r[x]
  {
    if x != y {
      var z :| z in E[x] && Reaches(E, r, z, y);
      PathSurvives(E, r, E', r', z, y);
    }
  }

  /** A node without edges reaches only itself. */
  lemma Isolated<T>(E: map<T, set<T>>, r: map<T, nat>, x: T, y: T)
    requires Ranked(E, r) && x in r && (x in E ==> E[x] == {})
    ensures Reaches(E, r, x, y) <==> x == y
  {
  }

  /** A fresh node whose edges lead below its rank keeps a graph ranked. */
  lemma AddLeaf<T>(E: map<T, set<T>>, r: map<T, nat>, n: T, S: set<T>, k: nat)
    requires Ranked(E, r) && n !in r && forall y :: y in S ==> y in r && r[y] < k
    ensures Ranked(E[n := S], r[n := k])
  {
  }

  /** Replacing the edges of a ranked node by edges that lead below it keeps a graph ranked. */
  lemma Shrink<T>(E: map<T, set<T>>, r: map<T, nat>, n: T, S: set<T>)
    requires Ranked(E, r) && n in r && forall y :: y in S ==> y in r && r[y] < r[n]
    ensures Ranked(E[n := S], r)
  {
  }

  /** Replacing the edges of `a` by the single edge `a -> b` keeps a graph ranked when `b` does not reach `a`. */
  lemma Redirect<T>(E: map<T, set<T>>, r: map<T, nat>, a: T, b: T)
    requires Ranked(E, r) && a in r && b in r && !Reaches(E, r, b, a)
    ensures Ranked(E[a := {b}], Lift(E, r, a, b))
  {
    AddEdge(E, r, a, b, E[a := {b}]);
  }

  /** Adding the edge `a -> b` next to the edges of `a` keeps a graph ranked when `b` does not reach `a`. */
  lemma Extend<T>(E: map<T, set<T>>, r: map<T, nat>, a: T, b: T)
    requires Ranked(E, r) && a in E && b in r && !Reaches(E, r, b, a)
    ensures Ranked(E[a := E[a] + {b}], Lift(E, r, a, b))
  {
    AddEdge(E, r, a, b, E[a := E[a] + {b}]);
  }
}
