/**
 * The hierarchical `Cancellable` of dist/index.js.
 *
 * The bundle keeps each token's cancellation state, activation state and
 * parent in three module-level WeakMaps, DISPOSE_STATE, ACTIVE_STATE and
 * PARENT, next to the lazily built shared root BASIC_PARENT; the `Registry`
 * class holds these four. A state slot holds either one of the constant
 * objects CANCELLED, NOT_CANCELLED, ACTIVE and INACTIVE, or another token
 * whose getter is then read in turn: a created token's `cancelled` reads the
 * root's until the token is cancelled, and its `active` reads whichever token
 * it delegates to. Each token's listener registry `events` and its
 * `children` list are held by the `Registry` too, keyed by token, so that
 * every field the invariant speaks about is a field of one object.
 *
 * None of the recursive walks (`cancelled`, `active`, `isParentTo`, the
 * `cancel` cascade) is guarded against cycles. `Registry.Valid` keeps a
 * ranking of each of the three relations as ghost state; the only two ways
 * the code can close a cycle (re-parenting leaves the token in its previous
 * parent's `children`, and `remove` does not undo an `active` delegation)
 * are excluded by the preconditions of `SetParent` and `Enable`.
 */
module Hierarchy {
  import opened Base
  import Forest

  const EnableKey: string := "enable"
  const DisableKey: string := "disable"
  const CancelKey: string := "cancel"

  /** The registry the constructor builds: the three event keys, no listener. */
  function NewEvents(): map<string, seq<nat>>
  {
    map[EnableKey := [], DisableKey := [], CancelKey := []]
  }

  /** What a DISPOSE_STATE or ACTIVE_STATE slot holds. */
  datatype Holder = Constant(flag: bool) | Delegate(to: Cancellable)

  const CancelledState: Holder := Constant(true)
  const NotCancelledState: Holder := Constant(false)
  const ActiveState: Holder := Constant(true)
  const InactiveState: Holder := Constant(false)

  /** One call of listener `id`, registered under `key` on `source`. */
  datatype Fired = Fired(source: Cancellable, key: string, id: nat)

  /** The calls `dispatch(s, key)` makes when `s` has `listeners` under `key`. */
  function Notified(s: Cancellable, key: string, listeners: seq<nat>): seq<Fired>
  {
    seq(|listeners|, i requires 0 <= i < |listeners| => Fired(s, key, listeners[i]))
  }

  /** A second write to the same key replaces the first. */
  lemma Overwrite<K, V>(m: map<K, V>, k: K, v1: V, v2: V)
    ensures m[k := v1][k := v2] == m[k := v2]
  {
  }

  /** `Array.prototype.filter(x => x !== c)`. */
  function Without<T(==)>(s: seq<T>, c: T): seq<T>
  {
    if s == [] then []
    else if s[0] == c then Without(s[1..], c)
    else [s[0]] + Without(s[1..], c)
  }

  /** The filter drops every occurrence of `c` and keeps every other element, as often as it occurs. */
  lemma {:induction false} WithoutSpec<T>(s: seq<T>, c: T)
    ensures forall x :: x in Without(s, c) <==> x in s && x != c
    ensures |Without(s, c)| == |s| - Count(s, c)
    ensures forall x :: x != c ==> Count(Without(s, c), x) == Count(s, x)
  {
    if s != [] {
      WithoutSpec(s[1..], c);
      assert s == [s[0]] + s[1..];
      forall x ensures Count(s, x) == (if s[0] == x then 1 else 0) + Count(s[1..], x) {
      }
      if s[0] != c {
        forall x ensures Count([s[0]] + Without(s[1..], c), x) == (if s[0] == x then 1 else 0) + Count(Without(s[1..], c), x) {
          assert ([s[0]] + Without(s[1..], c))[1..] == Without(s[1..], c);
        }
      }
    }
  }

  /** An element that survives the filter was in the list and is not `c`. */
  lemma {:induction false} WithoutMember<T>(s: seq<T>, c: T, x: T)
    requires x in Without(s, c)
    ensures x in s && x != c
  {
    WithoutSpec(s, c);
  }

  // ---------------------------------------------------------------------------
  // The getters, as functions of the WeakMap contents

  /** `t` has a DISPOSE_STATE slot, and a token it delegates to holds a constant itself. */
  ghost predicate Resolves(dispose: map<Cancellable, Holder>, t: Cancellable)
  {
    t in dispose && (dispose[t].Delegate? ==> dispose[t].to in dispose && dispose[dispose[t].to].Constant?)
  }

  /** `get cancelled()`: `DISPOSE_STATE.get(this).cancelled`. */
  predicate Cancelled(dispose: map<Cancellable, Holder>, t: Cancellable)
    requires Resolves(dispose, t)
    decreases if dispose[t].Constant? then 0 else 1
  {
    match dispose[t]
    case Constant(b) => b
    case Delegate(u) => Cancelled(dispose, u)
  }

  /** The delegation relation of ACTIVE_STATE: each token points to the token it reads `active` from. */
  ghost function DelegationGraph(active: map<Cancellable, Holder>): map<Cancellable, set<Cancellable>>
  {
    map t | t in active :: if active[t].Delegate? then {active[t].to} else {}
  }

  ghost predicate DelegationRanked(active: map<Cancellable, Holder>, rank: map<Cancellable, nat>)
  {
    && Forest.Ranked<Cancellable>(DelegationGraph(active), rank)
    && rank.Keys == active.Keys
  }

  /** `get active()`: `ACTIVE_STATE.get(this).active`, read through the chain of delegates. */
  predicate Active(active: map<Cancellable, Holder>, ghost rank: map<Cancellable, nat>, t: Cancellable)
    requires DelegationRanked(active, rank) && t in active
    decreases rank[t]
  {
    match active[t]
    case Constant(b) => b
    case Delegate(u) =>
      assert u in DelegationGraph(active)[t];
      Active(active, rank, u)
  }

  /**
   * `active` is the flag of the constant that ends the chain of delegates:
   * true exactly when an ACTIVE constant can be reached from `t`.
   */
  lemma {:induction false} ActiveAtChainEnd(active: map<Cancellable, Holder>, rank: map<Cancellable, nat>, t: Cancellable)
    requires DelegationRanked(active, rank) && t in active
    ensures Active(active, rank, t) <==>
              exists u :: u in active && active[u] == ActiveState
                          && Forest.Reaches<Cancellable>(DelegationGraph(active), rank, t, u)
    decreases rank[t]
  {
    var G := DelegationGraph(active);
    match active[t]
    case Constant(b) =>
      assert G[t] == {};
      if b {
        assert Forest.Reaches<Cancellable>(G, rank, t, t);
      }
      forall u | u in active && Forest.Reaches<Cancellable>(G, rank, t, u)
        ensures u == t
      {
      }
    case Delegate(w) =>
      assert G[t] == {w} && w in G[t];
      assert w in active && rank[w] < rank[t];
      ActiveAtChainEnd(active, rank, w);
      if Active(active, rank, w) {
        var u :| u in active && active[u] == ActiveState && Forest.Reaches<Cancellable>(G, rank, w, u);
        Forest.ReachesStep<Cancellable>(G, rank, t, w, u);
      }
      forall u | u in active && active[u] == ActiveState && Forest.Reaches<Cancellable>(G, rank, t, u)
        ensures Forest.Reaches<Cancellable>(G, rank, w, u)
      {
      }
  }

  /**
   * Rewriting the delegation of `a` leaves the `active` of every token that
   * does not delegate to `a`, directly or through others, as it was.
   */
  lemma {:induction false} ActiveFrame(A: map<Cancellable, Holder>, r: map<Cancellable, nat>,
                                       A': map<Cancellable, Holder>, r': map<Cancellable, nat>,
                                       a: Cancellable, x: Cancellable)
    requires DelegationRanked(A, r) && DelegationRanked(A', r') && x in A
    requires forall y :: y in A && y != a ==> y in A' && A'[y] == A[y]
    requires !Forest.Reaches<Cancellable>(DelegationGraph(A), r, x, a)
    ensures x in A' && Active(A', r', x) == Active(A, r, x)
    decreases r[x]
  {
    if A[x].Delegate? {
      var u := A[x].to;
      assert u in DelegationGraph(A)[x];
      if Forest.Reaches<Cancellable>(DelegationGraph(A), r, u, a) {
        Forest.ReachesStep<Cancellable>(DelegationGraph(A), r, x, u, a);
      }
      ActiveFrame(A, r, A', r', a, u);
    }
  }

  /** The relation PARENT: each token points to its recorded parent. */
  ghost function ParentGraph(parent: map<Cancellable, Cancellable>): map<Cancellable, set<Cancellable>>
  {
    map c | c in parent :: {parent[c]}
  }

  /**
   * `t.isParentTo(c)`: walk PARENT upward from `c` and answer whether `t`
   * turns up before the walk reaches the root or a token without a parent.
   */
  predicate IsParentTo(parent: map<Cancellable, Cancellable>, root: Cancellable?, ghost rank: map<Cancellable, nat>,
                       t: Cancellable, c: Cancellable): (ok: bool)
    requires Forest.Ranked<Cancellable>(ParentGraph(parent), rank)
    decreases if c in rank then rank[c] else 0
    ensures ok ==> c in parent && c in rank && t in rank && rank[t] < rank[c]
  {
    c in parent
    && assert parent[c] in ParentGraph(parent)[c];
       (parent[c] == t || (parent[c] != root && IsParentTo(parent, root, rank, t, parent[c])))
  }

  /**
   * For any token other than the root, `isParentTo(c)` holds exactly when
   * the token is a proper ancestor of `c`: it can be reached from `c` by
   * following PARENT at least once.
   */
  lemma {:induction false} IsParentToIsAncestor(parent: map<Cancellable, Cancellable>, root: Cancellable,
                                                rank: map<Cancellable, nat>, t: Cancellable, c: Cancellable)
    requires Forest.Ranked<Cancellable>(ParentGraph(parent), rank) && c in rank && root !in parent && t != root
    ensures IsParentTo(parent, root, rank, t, c) <==> c != t && Forest.Reaches<Cancellable>(ParentGraph(parent), rank, c, t)
    decreases rank[c]
  {
    var G: map<Cancellable, set<Cancellable>> := ParentGraph(parent);
    if c in parent {
      var p := parent[c];
      assert G[c] == {p} && rank[p] < rank[c];
      IsParentToIsAncestor(parent, root, rank, t, p);
      if p == t {
        assert Forest.Reaches<Cancellable>(G, rank, t, t);
        Forest.ReachesStep<Cancellable>(G, rank, c, p, t);
      } else {
        if Forest.Reaches<Cancellable>(G, rank, p, t) {
          Forest.ReachesStep<Cancellable>(G, rank, c, p, t);
          Forest.ReachesLowers<Cancellable>(G, rank, p, t);
        }
        if c != t && Forest.Reaches<Cancellable>(G, rank, c, t) {
          assert Forest.Reaches<Cancellable>(G, rank, p, t);
        }
      }
    } else {
      Forest.Isolated<Cancellable>(G, rank, c, t);
    }
  }

  // ---------------------------------------------------------------------------
  // The `cancel` cascade, as a function of the children lists

  /** The part of the heap the `cancel` cascade reads: children lists, `cancel` listeners, and a ranking. */
  datatype Cascade = Cascade(kids: map<Cancellable, seq<Cancellable>>,
                             listeners: map<Cancellable, seq<nat>>,
                             rank: map<Cancellable, nat>)

  ghost function ChildGraph(kids: map<Cancellable, seq<Cancellable>>): map<Cancellable, set<Cancellable>>
  {
    map t | t in kids :: set c | c in kids[t]
  }

  ghost predicate WellFormed(s: Cascade)
  {
    && Forest.Ranked<Cancellable>(ChildGraph(s.kids), s.rank)
    && (forall t :: t in s.kids ==> t in s.listeners)
    && (forall t, j :: t in s.kids && 0 <= j < |s.kids[t]| ==> s.kids[t][j] in s.rank)
    && s.rank.Keys <= s.kids.Keys
  }

  /** In a ranked children relation every listed child is ranked. */
  lemma KidsRanked(kids: map<Cancellable, seq<Cancellable>>, rank: map<Cancellable, nat>)
    requires Forest.Ranked<Cancellable>(ChildGraph(kids), rank)
    ensures forall t, j :: t in kids && 0 <= j < |kids[t]| ==> kids[t][j] in rank
  {
    forall t, j | t in kids && 0 <= j < |kids[t]|
      ensures kids[t][j] in rank
    {
      assert kids[t][j] in ChildGraph(kids)[t];
    }
  }

  /** Every child of a cancelled token is cancelled. */
  ghost predicate DownClosed(kids: map<Cancellable, seq<Cancellable>>, done: set<Cancellable>)
  {
    forall t :: t in done && t in kids ==> forall c :: c in kids[t] ==> c in done
  }

  /**
   * `t.cancel()` when the tokens in `done` are already cancelled: the calls it
   * makes, and the cancelled tokens afterwards. A live token dispatches its
   * own `cancel` listeners, then cancels its children in list order, then
   * flips its own state.
   */
  ghost function CancelSpec(s: Cascade, t: Cancellable, done: set<Cancellable>): (seq<Fired>, set<Cancellable>)
    requires WellFormed(s) && t in s.kids
    decreases s.rank[t], |s.kids[t]| + 1
  {
    if t in done then ([], done)
    else
      var rest := CascadeSpec(s, t, 0, done);
      (Notified(t, CancelKey, s.listeners[t]) + rest.0, rest.1 + {t})
  }

  /** `t.children.forEach(x => x.cancel())` from index `k` on. */
  ghost function CascadeSpec(s: Cascade, t: Cancellable, k: nat, done: set<Cancellable>): (seq<Fired>, set<Cancellable>)
    requires WellFormed(s) && t in s.kids && k <= |s.kids[t]|
    decreases s.rank[t], |s.kids[t]| - k
  {
    if k == |s.kids[t]| then ([], done)
    else
      var c := s.kids[t][k];
      assert c in ChildGraph(s.kids)[t];
      var first := CancelSpec(s, c, done);
      var rest := CascadeSpec(s, t, k + 1, first.1);
      (first.0 + rest.0, rest.1)
  }

  /**
   * Cancelling a token cancels exactly the tokens it reaches through the
   * children lists, on top of those already cancelled, and keeps every child
   * of a cancelled token cancelled.
   */
  lemma {:induction false} CancelReachesDescendants(s: Cascade, t: Cancellable, done: set<Cancellable>)
    requires WellFormed(s) && t in s.kids && DownClosed(s.kids, done)
    ensures forall x :: x in CancelSpec(s, t, done).1 <==> x in done || Forest.Reaches<Cancellable>(ChildGraph(s.kids), s.rank, t, x)
    ensures DownClosed(s.kids, CancelSpec(s, t, done).1)
    decreases s.rank[t], |s.kids[t]| + 1
  {
    var G: map<Cancellable, set<Cancellable>> := ChildGraph(s.kids);
    if t in done {
      forall x: Cancellable | Forest.Reaches<Cancellable>(G, s.rank, t, x)
        ensures x in done
      {
        ReachClosed(s, done, t, x);
      }
    } else {
      CascadeReaches(s, t, 0, done);
      forall x
        ensures Forest.Reaches<Cancellable>(G, s.rank, t, x) <==> x == t || exists j :: 0 <= j < |s.kids[t]| && Forest.Reaches<Cancellable>(G, s.rank, s.kids[t][j], x)
      {
        if Forest.Reaches<Cancellable>(G, s.rank, t, x) && x != t {
          var z :| z in G[t] && Forest.Reaches<Cancellable>(G, s.rank, z, x);
          var j :| 0 <= j < |s.kids[t]| && s.kids[t][j] == z;
        }
        if exists j :: 0 <= j < |s.kids[t]| && Forest.Reaches<Cancellable>(G, s.rank, s.kids[t][j], x) {
          var j :| 0 <= j < |s.kids[t]| && Forest.Reaches<Cancellable>(G, s.rank, s.kids[t][j], x);
          Forest.ReachesStep<Cancellable>(G, s.rank, t, s.kids[t][j], x);
        }
      }
      forall c | c in s.kids[t]
        ensures c in CancelSpec(s, t, done).1
      {
        var j :| 0 <= j < |s.kids[t]| && s.kids[t][j] == c;
        assert Forest.Reaches<Cancellable>(G, s.rank, c, c);
      }
    }
  }

  /** The cascade over the children from index `k` on cancels what those children reach. */
  lemma {:induction false} CascadeReaches(s: Cascade, t: Cancellable, k: nat, done: set<Cancellable>)
    requires WellFormed(s) && t in s.kids && k <= |s.kids[t]| && DownClosed(s.kids, done)
    ensures forall x :: x in CascadeSpec(s, t, k, done).1 <==>
              x in done || exists j :: k <= j < |s.kids[t]| && Forest.Reaches<Cancellable>(ChildGraph(s.kids), s.rank, s.kids[t][j], x)
    ensures DownClosed(s.kids, CascadeSpec(s, t, k, done).1)
    decreases s.rank[t], |s.kids[t]| - k
  {
    if k < |s.kids[t]| {
      var c := s.kids[t][k];
      assert c in ChildGraph(s.kids)[t];
      CancelReachesDescendants(s, c, done);
      var first := CancelSpec(s, c, done);
      CascadeReaches(s, t, k + 1, first.1);
      forall x
        ensures (exists j :: k <= j < |s.kids[t]| && Forest.Reaches<Cancellable>(ChildGraph(s.kids), s.rank, s.kids[t][j], x))
                <==> Forest.Reaches<Cancellable>(ChildGraph(s.kids), s.rank, c, x)
                     || exists j :: k + 1 <= j < |s.kids[t]| && Forest.Reaches<Cancellable>(ChildGraph(s.kids), s.rank, s.kids[t][j], x)
      {
      }
    }
  }

  /**
   * Once the children of a live `t` are cancelled in turn, every child is
   * cancelled and `t` itself is not yet: no child reaches its parent.
   */
  lemma CascadeCovers(s: Cascade, t: Cancellable, done: set<Cancellable>)
    requires WellFormed(s) && t in s.kids && DownClosed(s.kids, done) && t !in done
    ensures t !in CascadeSpec(s, t, 0, done).1
    ensures forall c :: c in s.kids[t] ==> c in CascadeSpec(s, t, 0, done).1
  {
    var G: map<Cancellable, set<Cancellable>> := ChildGraph(s.kids);
    CascadeReaches(s, t, 0, done);
    forall j | 0 <= j < |s.kids[t]|
      ensures !Forest.Reaches<Cancellable>(G, s.rank, s.kids[t][j], t)
    {
      assert s.kids[t][j] in G[t];
      if Forest.Reaches<Cancellable>(G, s.rank, s.kids[t][j], t) {
        Forest.ReachesLowers<Cancellable>(G, s.rank, s.kids[t][j], t);
      }
    }
    forall c | c in s.kids[t]
      ensures c in CascadeSpec(s, t, 0, done).1
    {
      var j :| 0 <= j < |s.kids[t]| && s.kids[t][j] == c;
      assert c in G[t];
      assert Forest.Reaches<Cancellable>(G, s.rank, c, c);
    }
  }

  /** The cascade of `t` from index 0 on ran up to index `i`: it made the calls `tail` and left `done` cancelled. */
  ghost predicate CascadeSoFar(s: Cascade, t: Cancellable, i: nat, start: set<Cancellable>,
                               tail: seq<Fired>, done: set<Cancellable>)
    requires WellFormed(s) && t in s.kids && i <= |s.kids[t]|
  {
    var rest := CascadeSpec(s, t, i, done);
    CascadeSpec(s, t, 0, start) == (tail + rest.0, rest.1)
  }

  /** Cancelling the child at index `i` advances the cascade by one child. */
  lemma CascadeNext(s: Cascade, t: Cancellable, i: nat, start: set<Cancellable>, tail: seq<Fired>,
                    done: set<Cancellable>, f: seq<Fired>, done': set<Cancellable>)
    requires WellFormed(s) && t in s.kids && i < |s.kids[t]| && CascadeSoFar(s, t, i, start, tail, done)
    requires s.kids[t][i] in s.kids && (f, done') == CancelSpec(s, s.kids[t][i], done)
    ensures CascadeSoFar(s, t, i + 1, start, tail + f, done')
  {
    var rest := CascadeSpec(s, t, i + 1, done');
    assert tail + f + rest.0 == tail + (f + rest.0);
  }

  /** Once every child is cancelled, the token's own calls and state complete `t.cancel()`. */
  lemma CancelFinish(s: Cascade, t: Cancellable, start: set<Cancellable>, tail: seq<Fired>, done: set<Cancellable>)
    requires WellFormed(s) && t in s.kids && t !in start && CascadeSoFar(s, t, |s.kids[t]|, start, tail, done)
    ensures CancelSpec(s, t, start) == (Notified(t, CancelKey, s.listeners[t]) + tail, done + {t})
  {
    var end := CascadeSpec(s, t, |s.kids[t]|, done);
    assert end == ([], done) && tail + end.0 == tail;
  }

  /** Before the first child, the cascade has made no call and cancelled nothing more. */
  lemma CascadeBegin(s: Cascade, t: Cancellable, start: set<Cancellable>)
    requires WellFormed(s) && t in s.kids
    ensures CascadeSoFar(s, t, 0, start, [], start)
  {
    assert [] + CascadeSpec(s, t, 0, start).0 == CascadeSpec(s, t, 0, start).0;
  }

  /** A cancelled token's descendants are cancelled when the cancelled set is closed downward. */
  lemma {:induction false} ReachClosed(s: Cascade, done: set<Cancellable>, t: Cancellable, x: Cancellable)
    requires WellFormed(s) && t in s.kids && DownClosed(s.kids, done) && t in done
    requires Forest.Reaches<Cancellable>(ChildGraph(s.kids), s.rank, t, x)
    ensures x in done
    decreases s.rank[t]
  {
    if x != t {
      var G: map<Cancellable, set<Cancellable>> := ChildGraph(s.kids);
      assert Forest.Reaches<Cancellable>(G, s.rank, t, x);
      var z :| z in G[t] && Forest.Reaches<Cancellable>(G, s.rank, z, x);
      ReachClosed(s, done, z, x);
    }
  }

  // ---------------------------------------------------------------------------
  // The registry as a value

  /**
   * What the three WeakMaps and BASIC_PARENT hold, with the ghost bookkeeping
   * beside them: the tokens `create` has returned, a copy of each one's
   * children list, and a ranking of each of PARENT, the `active` delegation
   * and the children lists.
   */
  datatype World = World(dispose: map<Cancellable, Holder>, active: map<Cancellable, Holder>,
                         parent: map<Cancellable, Cancellable>, root: Cancellable?,
                         created: set<Cancellable>, kids: map<Cancellable, seq<Cancellable>>,
                         prank: map<Cancellable, nat>, arank: map<Cancellable, nat>,
                         crank: map<Cancellable, nat>, events: map<Cancellable, map<string, seq<nat>>>)

  /** The tokens with state slots: the created ones and, once built, the root. */
  ghost function NodesOf(w: World): set<Cancellable>
  {
    if w.root == null then {} else w.created + {w.root}
  }

  /**
   * The root is NOT_CANCELLED, and every created token is either CANCELLED or
   * reads its `cancelled` from the root.
   */
  ghost predicate DisposeShaped(dispose: map<Cancellable, Holder>, root: Cancellable?, created: set<Cancellable>)
  {
    && (root != null ==> root in dispose && dispose[root] == NotCancelledState)
    && (forall t :: t in created ==>
          t in dispose && (dispose[t] == CancelledState || (root != null && dispose[t] == Delegate(root))))
  }

  /** The created tokens whose `cancelled` is true. */
  ghost function CancelledOf(dispose: map<Cancellable, Holder>, root: Cancellable?, created: set<Cancellable>): set<Cancellable>
    requires DisposeShaped(dispose, root, created)
  {
    set t | t in created && Resolves(dispose, t) && Cancelled(dispose, t)
  }

  /** Every state slot belongs to a token of the registry, and every token has its slots. */
  ghost predicate Slots(w: World)
  {
    && (w.root == null ==> w.created == {})
    && (w.root != null ==> w.root !in w.created)
    && w.dispose.Keys == NodesOf(w) && w.active.Keys == NodesOf(w)
    && w.parent.Keys == w.created && w.kids.Keys == w.created
    && w.prank.Keys == NodesOf(w) && w.arank.Keys == NodesOf(w) && w.crank.Keys == w.created
    && w.events.Keys == NodesOf(w)
  }

  /** Every listener registry has exactly the three keys the constructor gives it. */
  ghost predicate EventsShaped(events: map<Cancellable, map<string, seq<nat>>>)
  {
    forall t :: t in events ==> events[t].Keys == NewEvents().Keys
  }

  /**
   * The WeakMaps, the root and the rankings fit together: the root exists
   * once a token does, is never cancelled, always active and has no parent;
   * a created token is either CANCELLED or reads its `cancelled` from the
   * root; parents and children are tokens; the three relations are ranked;
   * and the children of a cancelled token are cancelled.
   */
  ghost predicate Inv(w: World)
  {
    && Slots(w)
    && DisposeShaped(w.dispose, w.root, w.created)
    && Forest.Ranked<Cancellable>(ParentGraph(w.parent), w.prank)
    && DelegationRanked(w.active, w.arank)
    && Forest.Ranked<Cancellable>(ChildGraph(w.kids), w.crank)
    && DownClosed(w.kids, CancelledOf(w.dispose, w.root, w.created))
    && (w.root != null ==> w.active[w.root] == ActiveState && w.prank[w.root] == 0)
    && EventsShaped(w.events)
  }

  /** Setting one PARENT entry sets one node's edges of the parent relation. */
  lemma ParentGraphSet(parent: map<Cancellable, Cancellable>, c: Cancellable, p: Cancellable)
    ensures ParentGraph(parent[c := p]) == ParentGraph(parent)[c := {p}]
  {
  }

  /** Setting one ACTIVE_STATE slot sets one node's edges of the delegation relation. */
  lemma DelegationGraphSet(active: map<Cancellable, Holder>, t: Cancellable, h: Holder)
    ensures DelegationGraph(active[t := h]) == DelegationGraph(active)[t := if h.Delegate? then {h.to} else {}]
  {
  }

  /** Setting one children list sets one node's edges of the child relation. */
  lemma ChildGraphSet(kids: map<Cancellable, seq<Cancellable>>, t: Cancellable, s: seq<Cancellable>)
    ensures ChildGraph(kids[t := s]) == ChildGraph(kids)[t := set c | c in s]
  {
  }

  /** A children list may change freely under a live token, and only to cancelled tokens under a cancelled one. */
  lemma SetKidsClosed(kids: map<Cancellable, seq<Cancellable>>, done: set<Cancellable>, t: Cancellable, s: seq<Cancellable>)
    requires DownClosed(kids, done) && (t in done ==> forall c :: c in s ==> c in done)
    ensures DownClosed(kids[t := s], done)
  {
  }

  /** The registry before the first `create`. */
  lemma EmptyInv()
    ensures Inv(World(map[], map[], map[], null, {}, map[], map[], map[], map[], map[]))
  {
  }

  /** Building BASIC_PARENT: NOT_CANCELLED, ACTIVE, no parent. */
  lemma RootInv(b: Cancellable)
    ensures Inv(World(map[b := NotCancelledState], map[b := ActiveState], map[], b, {}, map[],
                      map[b := 0], map[b := 0], map[], map[b := NewEvents()]))
  {
    var w' := World(map[b := NotCancelledState], map[b := ActiveState], map[], b, {}, map[],
                    map[b := 0], map[b := 0], map[], map[b := NewEvents()]);
    RootGraphs(b);
    assert NodesOf(w') == {b};
  }

  lemma RootGraphs(b: Cancellable)
    ensures DelegationGraph(map[b := ActiveState]) == map[b := {}]
    ensures ParentGraph(map[]) == map[] && ChildGraph(map[]) == map[]
  {
    assert DelegationGraph(map[b := ActiveState]).Keys == {b};
  }

  /**
   * `create` on a built root: the fresh token reads its `cancelled` and its
   * `active` from the root, has the root as parent and no children.
   */
  lemma CreateInv(w: World, t: Cancellable)
    requires Inv(w) && w.root != null && t !in NodesOf(w)
    ensures Inv(Created(w, t))
    ensures CancelledOf(Created(w, t).dispose, w.root, Created(w, t).created) == CancelledOf(w.dispose, w.root, w.created)
  {
    var r: Cancellable := w.root;
    CreateSlots(w, t);
    CreateShaped(w.dispose, r, w.created, t);
    CreateRanked(w.parent, w.prank, w.active, w.arank, w.kids, w.crank, r, t);
    SetKidsClosed(w.kids, CancelledOf(w.dispose, r, w.created), t, []);
    EventsSet(w.events, t, NewEvents());
    assert t != r;
  }

  /** Giving one token a registry with the three keys keeps every registry shaped. */
  lemma EventsSet(events: map<Cancellable, map<string, seq<nat>>>, t: Cancellable, e: map<string, seq<nat>>)
    requires EventsShaped(events) && e.Keys == NewEvents().Keys
    ensures EventsShaped(events[t := e])
  {
  }

  /** The state after `create` adds `t` with the root as its parent, its delegate and its `cancelled` source. */
  ghost function Created(w: World, t: Cancellable): World
    requires w.root != null && w.root in w.arank
  {
    var r: Cancellable := w.root;
    World(w.dispose[t := Delegate(r)], w.active[t := Delegate(r)], w.parent[t := r], r,
          w.created + {t}, w.kids[t := []], w.prank[t := 1],
          w.arank[t := w.arank[r] + 1], w.crank[t := 0], w.events[t := NewEvents()])
  }

  /** A token that reads both its states from the root is live and active. */
  lemma RootReader(w: World, t: Cancellable)
    requires Inv(w) && t in w.created && w.dispose[t] == Delegate(w.root) && w.active[t] == Delegate(w.root)
    ensures !Cancelled(w.dispose, t) && Active(w.active, w.arank, t)
  {
    assert w.root in DelegationGraph(w.active)[t];
  }

  /** A fresh token with the root as parent and delegate, and no children, keeps all three relations ranked. */
  lemma CreateRanked(parent: map<Cancellable, Cancellable>, prank: map<Cancellable, nat>,
                     active: map<Cancellable, Holder>, arank: map<Cancellable, nat>,
                     kids: map<Cancellable, seq<Cancellable>>, crank: map<Cancellable, nat>,
                     r: Cancellable, t: Cancellable)
    requires Forest.Ranked<Cancellable>(ParentGraph(parent), prank) && r in prank && prank[r] == 0 && t !in prank
    requires DelegationRanked(active, arank) && r in arank && t !in arank
    requires Forest.Ranked<Cancellable>(ChildGraph(kids), crank) && t !in crank
    ensures Forest.Ranked<Cancellable>(ParentGraph(parent[t := r]), prank[t := 1])
    ensures DelegationRanked(active[t := Delegate(r)], arank[t := arank[r] + 1])
    ensures Forest.Ranked<Cancellable>(ChildGraph(kids[t := []]), crank[t := 0])
  {
    ParentGraphSet(parent, t, r);
    Forest.AddLeaf<Cancellable>(ParentGraph(parent), prank, t, {r}, 1);
    DelegationGraphSet(active, t, Delegate(r));
    Forest.AddLeaf<Cancellable>(DelegationGraph(active), arank, t, {r}, arank[r] + 1);
    ChildGraphSet(kids, t, []);
    var none: seq<Cancellable> := [];
    assert (set c | c in none) == {};
    Forest.AddLeaf<Cancellable>(ChildGraph(kids), crank, t, {}, 0);
  }

  lemma CreateSlots(w: World, t: Cancellable)
    requires Slots(w) && w.root != null && w.root in w.arank && t !in NodesOf(w)
    ensures Slots(Created(w, t))
  {
    CreateNodeSlots(w, t);
    var r: Cancellable := w.root;
    KeysGrow(w.parent, w.created, t, r);
    KeysGrow(w.kids, w.created, t, []);
    KeysGrow(w.crank, w.created, t, 0);
  }

  lemma CreateNodeSlots(w: World, t: Cancellable)
    requires Slots(w) && w.root != null && w.root in w.arank && t !in NodesOf(w)
    ensures var w' := Created(w, t);
            && w'.dispose.Keys == NodesOf(w') && w'.active.Keys == NodesOf(w') && w'.events.Keys == NodesOf(w')
            && w'.prank.Keys == NodesOf(w') && w'.arank.Keys == NodesOf(w')
  {
    CreateNodes(w, t);
    var r: Cancellable := w.root;
    var nodes := NodesOf(w);
    KeysGrow(w.dispose, nodes, t, Delegate(r));
    KeysGrow(w.active, nodes, t, Delegate(r));
    KeysGrow(w.prank, nodes, t, 1);
    KeysGrow(w.arank, nodes, t, w.arank[r] + 1);
    KeysGrow(w.events, nodes, t, NewEvents());
  }

  lemma CreateNodes(w: World, t: Cancellable)
    requires w.root != null && w.root in w.arank
    ensures NodesOf(Created(w, t)) == NodesOf(w) + {t}
  {
  }

  /** A map whose keys are `nodes` gains the key `t`. */
  lemma KeysGrow<V>(m: map<Cancellable, V>, nodes: set<Cancellable>, t: Cancellable, v: V)
    requires m.Keys == nodes
    ensures m[t := v].Keys == nodes + {t}
  {
  }

  lemma CreateShaped(dispose: map<Cancellable, Holder>, r: Cancellable, created: set<Cancellable>, t: Cancellable)
    requires DisposeShaped(dispose, r, created) && t !in dispose && r != t
    ensures DisposeShaped(dispose[t := Delegate(r)], r, created + {t})
    ensures CancelledOf(dispose[t := Delegate(r)], r, created + {t}) == CancelledOf(dispose, r, created)
  {
    forall x | x in created
      ensures Cancelled(dispose[t := Delegate(r)], x) == Cancelled(dispose, x)
    {
    }
    assert !Cancelled(dispose[t := Delegate(r)], t);
  }

  /** DISPOSE_STATE of `t` becomes CANCELLED once all its children are cancelled. */
  lemma FlipInv(w: World, t: Cancellable)
    requires Inv(w) && t in w.created && t !in CancelledOf(w.dispose, w.root, w.created)
    requires forall c :: c in w.kids[t] ==> c in CancelledOf(w.dispose, w.root, w.created)
    ensures var w' := w.(dispose := w.dispose[t := CancelledState]);
            Inv(w') && CancelledOf(w'.dispose, w.root, w.created) == CancelledOf(w.dispose, w.root, w.created) + {t}
  {
    var w' := w.(dispose := w.dispose[t := CancelledState]);
    FlipShaped(w.dispose, w.root, w.created, t);
    FlipClosed(w.kids, CancelledOf(w.dispose, w.root, w.created), t);
    assert w'.dispose.Keys == w.dispose.Keys;
  }

  lemma FlipShaped(dispose: map<Cancellable, Holder>, root: Cancellable?, created: set<Cancellable>, t: Cancellable)
    requires DisposeShaped(dispose, root, created) && t in created && root !in created
    ensures DisposeShaped(dispose[t := CancelledState], root, created)
    ensures CancelledOf(dispose[t := CancelledState], root, created) == CancelledOf(dispose, root, created) + {t}
  {
    forall x | x in created
      ensures Cancelled(dispose[t := CancelledState], x) == (x == t || Cancelled(dispose, x))
    {
    }
  }

  /** Adding a token whose children are all in a downward-closed set keeps it closed. */
  lemma FlipClosed(kids: map<Cancellable, seq<Cancellable>>, done: set<Cancellable>, t: Cancellable)
    requires DownClosed(kids, done) && t in kids && forall c :: c in kids[t] ==> c in done
    ensures DownClosed(kids, done + {t})
  {
  }

  /**
   * ACTIVE_STATE of `t` becomes `h`. A delegate that does not already read
   * from `t` closes no cycle; every token that does not read from `t` keeps
   * its `active`.
   */
  lemma SetActiveInv(w: World, t: Cancellable, h: Holder) returns (rank: map<Cancellable, nat>)
    requires Inv(w) && t in w.created
    requires h.Delegate? ==> h.to in NodesOf(w) && !Forest.Reaches<Cancellable>(DelegationGraph(w.active), w.arank, h.to, t)
    ensures Inv(w.(active := w.active[t := h], arank := rank))
    ensures forall x :: x in w.active && !Forest.Reaches<Cancellable>(DelegationGraph(w.active), w.arank, x, t) ==>
              x in w.active[t := h] && Active(w.active[t := h], rank, x) == Active(w.active, w.arank, x)
  {
    rank := SetDelegation(w.active, w.arank, t, h);
    SetActiveKeeps(w, t, h, rank);
  }

  lemma SetActiveKeeps(w: World, t: Cancellable, h: Holder, rank: map<Cancellable, nat>)
    requires Inv(w) && t in w.created && DelegationRanked(w.active[t := h], rank)
    ensures Inv(w.(active := w.active[t := h], arank := rank))
  {
    SetActiveSlots(w, t, h, rank);
  }

  /** Rewriting the ACTIVE_STATE slot of `t` keeps delegation ranked and changes no `active` that does not read from `t`. */
  lemma SetDelegation(A: map<Cancellable, Holder>, r: map<Cancellable, nat>, t: Cancellable, h: Holder)
    returns (rank: map<Cancellable, nat>)
    requires DelegationRanked(A, r) && t in A
    requires h.Delegate? ==> h.to in A && !Forest.Reaches<Cancellable>(DelegationGraph(A), r, h.to, t)
    ensures DelegationRanked(A[t := h], rank)
    ensures forall x :: x in A && !Forest.Reaches<Cancellable>(DelegationGraph(A), r, x, t) ==>
              x in A[t := h] && Active(A[t := h], rank, x) == Active(A, r, x)
  {
    var G: map<Cancellable, set<Cancellable>> := DelegationGraph(A);
    DelegationGraphSet(A, t, h);
    if h.Delegate? {
      Forest.Redirect<Cancellable>(G, r, t, h.to);
      rank := Forest.Lift<Cancellable>(G, r, t, h.to);
    } else {
      Forest.Shrink<Cancellable>(G, r, t, {});
      rank := r;
    }
    forall x | x in A && !Forest.Reaches<Cancellable>(G, r, x, t)
      ensures x in A[t := h] && Active(A[t := h], rank, x) == Active(A, r, x)
    {
      ActiveFrame(A, r, A[t := h], rank, t, x);
    }
  }

  lemma SetActiveSlots(w: World, t: Cancellable, h: Holder, rank: map<Cancellable, nat>)
    requires Slots(w) && t in w.created && rank.Keys == w.active[t := h].Keys
    ensures Slots(w.(active := w.active[t := h], arank := rank))
  {
  }

  /** PARENT of `t` becomes `p`, and `t` is appended to `p`'s children. */
  lemma AttachInv(w: World, t: Cancellable, p: Cancellable) returns (pr: map<Cancellable, nat>, cr: map<Cancellable, nat>)
    requires Inv(w) && t in w.created && p in w.created && t != p
    requires !Forest.Reaches<Cancellable>(ParentGraph(w.parent), w.prank, p, t)
    requires !Forest.Reaches<Cancellable>(ChildGraph(w.kids), w.crank, t, p)
    requires p !in CancelledOf(w.dispose, w.root, w.created)
    ensures Inv(w.(parent := w.parent[t := p], kids := w.kids[p := w.kids[p] + [t]], prank := pr, crank := cr))
  {
    pr := AttachParent(w.parent, w.prank, w.root, t, p);
    cr := AttachChild(w.kids, w.crank, t, p);
    SetKidsClosed(w.kids, CancelledOf(w.dispose, w.root, w.created), p, w.kids[p] + [t]);
    AttachSlots(w, t, p, pr, cr);
  }

  /** Recording `p` as the parent of `t` keeps PARENT ranked, and the root at rank 0, when `t` is not above `p`. */
  lemma AttachParent(parent: map<Cancellable, Cancellable>, rank: map<Cancellable, nat>, root: Cancellable?,
                     t: Cancellable, p: Cancellable) returns (pr: map<Cancellable, nat>)
    requires Forest.Ranked<Cancellable>(ParentGraph(parent), rank) && t in parent && p in rank
    requires !Forest.Reaches<Cancellable>(ParentGraph(parent), rank, p, t)
    requires root != null ==> root in rank && root !in parent && rank[root] == 0
    ensures Forest.Ranked<Cancellable>(ParentGraph(parent[t := p]), pr) && pr.Keys == rank.Keys
    ensures root != null ==> pr[root] == 0
  {
    var PG: map<Cancellable, set<Cancellable>> := ParentGraph(parent);
    ParentGraphSet(parent, t, p);
    Forest.Redirect<Cancellable>(PG, rank, t, p);
    pr := Forest.Lift<Cancellable>(PG, rank, t, p);
    if root != null {
      Forest.Isolated<Cancellable>(PG, rank, root, t);
    }
  }

  /** Appending `t` to the children of `p` keeps the children lists ranked when `t` does not reach `p`. */
  lemma AttachChild(kids: map<Cancellable, seq<Cancellable>>, rank: map<Cancellable, nat>, t: Cancellable, p: Cancellable)
    returns (cr: map<Cancellable, nat>)
    requires Forest.Ranked<Cancellable>(ChildGraph(kids), rank) && p in kids && t in rank
    requires !Forest.Reaches<Cancellable>(ChildGraph(kids), rank, t, p)
    ensures Forest.Ranked<Cancellable>(ChildGraph(kids[p := kids[p] + [t]]), cr) && cr.Keys == rank.Keys
  {
    var CG: map<Cancellable, set<Cancellable>> := ChildGraph(kids);
    ChildGraphSet(kids, p, kids[p] + [t]);
    assert (set c | c in kids[p] + [t]) == CG[p] + {t};
    Forest.Extend<Cancellable>(CG, rank, p, t);
    cr := Forest.Lift<Cancellable>(CG, rank, p, t);
  }

  lemma AttachSlots(w: World, t: Cancellable, p: Cancellable, pr: map<Cancellable, nat>, cr: map<Cancellable, nat>)
    requires Slots(w) && t in w.created && p in w.created && pr.Keys == w.prank.Keys && cr.Keys == w.crank.Keys
    ensures Slots(w.(parent := w.parent[t := p], kids := w.kids[p := w.kids[p] + [t]], prank := pr, crank := cr))
  {
  }

  /** `t` drops `c` from its children, and PARENT of `c` becomes the root. */
  lemma DetachInv(w: World, t: Cancellable, c: Cancellable)
    requires Inv(w) && t in w.created && c in w.created && t !in CancelledOf(w.dispose, w.root, w.created) && w.parent[c] == t
    ensures Inv(w.(parent := w.parent[c := w.root], kids := w.kids[t := Without(w.kids[t], c)]))
  {
    DetachParent(w.parent, w.prank, w.root, t, c);
    DetachChild(w.kids, w.crank, t, c);
    WithoutSpec(w.kids[t], c);
    SetKidsClosed(w.kids, CancelledOf(w.dispose, w.root, w.created), t, Without(w.kids[t], c));
    DetachSlots(w, t, c);
  }

  /** Moving `c` under the root keeps PARENT ranked, since the root sits at rank 0. */
  lemma DetachParent(parent: map<Cancellable, Cancellable>, rank: map<Cancellable, nat>, root: Cancellable,
                     t: Cancellable, c: Cancellable)
    requires Forest.Ranked<Cancellable>(ParentGraph(parent), rank) && c in parent && parent[c] == t
    requires root in rank && rank[root] == 0
    ensures Forest.Ranked<Cancellable>(ParentGraph(parent[c := root]), rank)
  {
    var PG: map<Cancellable, set<Cancellable>> := ParentGraph(parent);
    assert t in PG[c];
    ParentGraphSet(parent, c, root);
    Forest.Shrink<Cancellable>(PG, rank, c, {root});
  }

  /** Filtering `c` out of the children of `t` keeps the children lists ranked. */
  lemma DetachChild(kids: map<Cancellable, seq<Cancellable>>, rank: map<Cancellable, nat>, t: Cancellable, c: Cancellable)
    requires Forest.Ranked<Cancellable>(ChildGraph(kids), rank) && t in kids
    ensures Forest.Ranked<Cancellable>(ChildGraph(kids[t := Without(kids[t], c)]), rank)
  {
    var CG: map<Cancellable, set<Cancellable>> := ChildGraph(kids);
    var s := Without(kids[t], c);
    ChildGraphSet(kids, t, s);
    assert t in CG;
    forall x | x in s
      ensures x in CG[t]
    {
      WithoutMember(kids[t], c, x);
    }
    Forest.Shrink<Cancellable>(CG, rank, t, set x | x in s);
  }

  lemma DetachSlots(w: World, t: Cancellable, c: Cancellable)
    requires Slots(w) && t in w.created && c in w.created && w.root != null
    ensures Slots(w.(parent := w.parent[c := w.root], kids := w.kids[t := Without(w.kids[t], c)]))
  {
  }

  /** `addEventListener` and `removeEventListener` keep the three keys of a registry. */
  lemma ListenInv(w: World, t: Cancellable, e: map<string, seq<nat>>)
    requires Inv(w) && t in w.events && e.Keys == w.events[t].Keys
    ensures Inv(w.(events := w.events[t := e]))
  {
    EventsSet(w.events, t, e);
    assert w.events[t := e].Keys == w.events.Keys;
  }

  // ---------------------------------------------------------------------------
  // The heap

  /**
   * `dispatch(s, key)` with `listeners` the array under `key`: every listener
   * is called once, in registration order. Listeners are opaque and change
   * nothing.
   */
  method Dispatch(s: Cancellable, key: string, listeners: seq<nat>) returns (fired: seq<Fired>)
    ensures fired == Notified(s, key, listeners)
  {
    fired := [];
    var k := 0;
    while k < |listeners|
      invariant 0 <= k <= |listeners| && fired == Notified(s, key, listeners[..k])
    {
      assert listeners[..k + 1] == listeners[..k] + [listeners[k]];
      fired := fired + [Fired(s, key, listeners[k])];
      k := k + 1;
    }
    assert listeners[..k] == listeners;
  }

  class Cancellable {
    /**
     * `new Cancellable()`: NOT_CANCELLED, ACTIVE, a listener registry with
     * the three keys and no listener, and no children.
     */
    constructor (reg: Registry)
      modifies reg
      ensures reg.dispose == old(reg.dispose)[this := NotCancelledState]
      ensures reg.active == old(reg.active)[this := ActiveState]
      ensures reg.events == old(reg.events)[this := NewEvents()]
      ensures reg.children == old(reg.children)[this := []]
      ensures reg.parent == old(reg.parent) && reg.root == old(reg.root) && reg.created == old(reg.created)
      ensures reg.prank == old(reg.prank) && reg.arank == old(reg.arank) && reg.crank == old(reg.crank)
    {
      new;
      reg.dispose, reg.active := reg.dispose[this := NotCancelledState], reg.active[this := ActiveState];
      reg.events, reg.children := reg.events[this := NewEvents()], reg.children[this := []];
    }

    /**
     * `cancel()`: a live token dispatches its `cancel` listeners, cancels its
     * children in list order, and only then flips its own state to CANCELLED;
     * it returns true. A cancelled token returns false and does nothing.
     */
    method Cancel(reg: Registry) returns (r: bool, fired: seq<Fired>)
      requires reg.Valid() && this in reg.created
      modifies reg
      decreases reg.crank[this], 1
      ensures reg.Valid() && reg.Kept()
      ensures r == !old(reg.IsCancelled(this)) && reg.IsCancelled(this)
      ensures (fired, reg.CancelledSet()) == old(reg.CancelOutcome(this))
    {
      ghost var s := reg.Snapshot();
      ghost var start := reg.CancelledSet();
      if reg.IsCancelled(this) {
        assert this in start;
        return false, [];
      }
      var own := Dispatch(this, CancelKey, reg.events[this][CancelKey]);
      var tail := CancelChildren(reg);
      CascadeCovers(s, this, start);
      CancelFinish(s, this, start, tail, reg.CancelledSet());
      reg.Flip(this);
      r, fired := true, own + tail;
    }

    /** `this.children.forEach(x => x.cancel())`: the calls made, in order. */
    method CancelChildren(reg: Registry) returns (fired: seq<Fired>)
      requires reg.Valid() && this in reg.created
      modifies reg
      decreases reg.crank[this], 0
      ensures reg.Valid() && reg.Kept()
      ensures CascadeSoFar(old(reg.Snapshot()), this, |old(reg.children[this])|, old(reg.CancelledSet()), fired, reg.CancelledSet())
    {
      ghost var s := reg.Snapshot();
      ghost var start := reg.CancelledSet();
      var kids := reg.children[this];
      fired := [];
      var i := 0;
      CascadeBegin(s, this, start);
      while i < |kids|
        invariant 0 <= i <= |kids| && kids == s.kids[this]
        invariant reg.Valid() && reg.Kept() && reg.Snapshot() == s
        invariant CascadeSoFar(s, this, i, start, fired, reg.CancelledSet())
      {
        assert kids[i] in ChildGraph(s.kids)[this];
        ghost var before := reg.CancelledSet();
        var _, f := kids[i].Cancel(reg);
        CascadeNext(s, this, i, start, fired, before, f, reg.CancelledSet());
        fired := fired + f;
        i := i + 1;
      }
    }

    /**
     * `enable()`: a live, inactive token rebinds its `active` to read its
     * current parent's, dispatches `enable` and returns true. Every token that
     * does not read its `active` through this one keeps its `active`.
     */
    method Enable(reg: Registry) returns (r: bool, fired: seq<Fired>)
      requires reg.Valid() && this in reg.created
      requires !reg.IsCancelled(this) && !reg.IsActive(this) ==>
                 !reg.DelegatesTo(reg.ParentOf(this), this)
      modifies reg
      ensures reg.Valid() && reg.ActiveOnlyChanged()
      ensures r == (!old(reg.IsCancelled(this)) && !old(reg.IsActive(this)))
      ensures r ==> reg.active == old(reg.active)[this := Delegate(reg.parent[this])]
                    && reg.IsActive(this) == reg.IsActive(reg.ParentOf(this))
                    && fired == Notified(this, EnableKey, reg.events[this][EnableKey])
      ensures !r ==> unchanged(reg) && fired == []
      ensures forall x :: x in old(reg.active) && !old(reg.DelegatesTo(x, this)) ==>
                x in reg.active && reg.IsActive(x) == old(reg.IsActive(x))
    {
      if !(reg.IsCancelled(this) || reg.IsActive(this)) {
        reg.SetActive(this, Delegate(reg.ParentOf(this)));
        fired := Dispatch(this, EnableKey, reg.events[this][EnableKey]);
        r := true;
      } else {
        r, fired := false, [];
      }
    }

    /**
     * `disable()`: a live, active token pins its `active` to INACTIVE,
     * dispatches `disable` and returns true. Every token that does not read
     * its `active` through this one, its children included, keeps its `active`.
     */
    method Disable(reg: Registry) returns (r: bool, fired: seq<Fired>)
      requires reg.Valid() && this in reg.created
      modifies reg
      ensures reg.Valid() && reg.ActiveOnlyChanged()
      ensures r == (!old(reg.IsCancelled(this)) && old(reg.IsActive(this)))
      ensures r ==> reg.active == old(reg.active)[this := InactiveState]
                    && !reg.IsActive(this)
                    && fired == Notified(this, DisableKey, reg.events[this][DisableKey])
      ensures !r ==> unchanged(reg) && fired == []
      ensures forall x :: x in old(reg.active) && !old(reg.DelegatesTo(x, this)) ==>
                x in reg.active && reg.IsActive(x) == old(reg.IsActive(x))
    {
      if !reg.IsCancelled(this) && reg.IsActive(this) {
        reg.SetActive(this, InactiveState);
        fired := Dispatch(this, DisableKey, reg.events[this][DisableKey]);
        r := true;
      } else {
        r, fired := false, [];
      }
    }

    /**
     * `setParent(c)`: rejects a non-token, this token itself and any token
     * this one is already an ancestor of. A cancelled candidate cancels this
     * token instead; otherwise the candidate is recorded as the parent and
     * this token is appended to its children. The token stays in a previous
     * parent's children.
     */
    method SetParent(reg: Registry, other: Option<Cancellable>) returns (r: bool, fired: seq<Fired>)
      requires reg.Valid() && this in reg.created && (other.Some? ==> other.value in reg.created)
      requires reg.Accepts(this, other) && !reg.IsCancelled(other.value) ==> !reg.Descends(this, other.value)
      modifies reg
      ensures reg.Valid() && reg.root == old(reg.root) && reg.created == old(reg.created)
      ensures reg.active == old(reg.active) && reg.arank == old(reg.arank) && reg.events == old(reg.events)
      ensures r <==> old(reg.Accepts(this, other)) && !old(reg.IsCancelled(other.value))
      ensures r ==> && reg.parent == old(reg.parent)[this := other.value]
                    && reg.children == old(reg.children)[other.value := old(reg.children[other.value]) + [this]]
                    && reg.dispose == old(reg.dispose) && fired == []
      ensures old(reg.Accepts(this, other)) && old(reg.IsCancelled(other.value)) ==>
                && reg.parent == old(reg.parent) && this in reg.CancelledSet()
                && (fired, reg.CancelledSet()) == old(reg.CancelOutcome(this))
                && reg.children == old(reg.children)
      ensures !old(reg.Accepts(this, other)) ==>
                unchanged(reg) && fired == []
    {
      if reg.Accepts(this, other) {
        var candidate := other.value;
        if reg.IsCancelled(candidate) {
          var cancelledNow;
          cancelledNow, fired := Cancel(reg);
          r := false;
        } else {
          reg.Attach(this, candidate);
          r, fired := true, [];
        }
      } else {
        r, fired := false, [];
      }
    }

    /** `add(c)`: `c.setParent(this)`. */
    method Add(reg: Registry, c: Cancellable) returns (r: bool, fired: seq<Fired>)
      requires reg.Valid() && this in reg.created && c in reg.created
      requires reg.Accepts(c, Some(this)) && !reg.IsCancelled(this) ==> !reg.Descends(c, this)
      modifies reg
      ensures reg.Valid() && reg.root == old(reg.root) && reg.created == old(reg.created)
      ensures reg.active == old(reg.active) && reg.arank == old(reg.arank) && reg.events == old(reg.events)
      ensures r <==> old(reg.Accepts(c, Some(this))) && !old(reg.IsCancelled(this))
      ensures r ==> && reg.parent == old(reg.parent)[c := this]
                    && reg.children == old(reg.children)[this := old(reg.children[this]) + [c]]
                    && reg.dispose == old(reg.dispose) && fired == []
      ensures old(reg.Accepts(c, Some(this))) && old(reg.IsCancelled(this)) ==>
                && reg.parent == old(reg.parent) && c in reg.CancelledSet()
                && (fired, reg.CancelledSet()) == old(reg.CancelOutcome(c))
                && reg.children == old(reg.children)
      ensures !old(reg.Accepts(c, Some(this))) ==> unchanged(reg) && fired == []
    {
      r, fired := c.SetParent(reg, Some(this));
    }

    /**
     * `remove(c)`: a live token that is `c`'s recorded parent drops every
     * occurrence of `c` from its children and resets `c`'s parent to the root.
     */
    method Remove(reg: Registry, other: Option<Cancellable>) returns (r: bool)
      requires reg.Valid() && this in reg.created && (other.Some? ==> other.value in reg.created)
      modifies reg
      ensures reg.Valid() && reg.root == old(reg.root) && reg.created == old(reg.created)
      ensures reg.dispose == old(reg.dispose) && reg.active == old(reg.active) && reg.arank == old(reg.arank)
      ensures reg.events == old(reg.events)
      ensures r <==> !old(reg.IsCancelled(this)) && other.Some? && old(reg.parent[other.value]) == this
      ensures r ==> && reg.children == old(reg.children)[this := Without(old(reg.children[this]), other.value)]
                    && other.value !in reg.children[this]
                    && reg.parent == old(reg.parent)[other.value := reg.root]
      ensures !r ==> unchanged(reg)
    {
      if !reg.IsCancelled(this) && other.Some? && reg.parent[other.value] == this {
        reg.Detach(this, other.value);
        r := true;
      } else {
        r := false;
      }
    }

    /** `removeParent(c)`: `c.remove(this)`. */
    method RemoveParent(reg: Registry, c: Cancellable) returns (r: bool)
      requires reg.Valid() && this in reg.created && c in reg.created
      modifies reg
      ensures reg.Valid() && reg.root == old(reg.root) && reg.created == old(reg.created)
      ensures reg.dispose == old(reg.dispose) && reg.active == old(reg.active) && reg.arank == old(reg.arank)
      ensures reg.events == old(reg.events)
      ensures r <==> !old(reg.IsCancelled(c)) && old(reg.parent[this]) == c
      ensures r ==> && reg.children == old(reg.children)[c := Without(old(reg.children[c]), this)]
                    && this !in reg.children[c] && reg.parent == old(reg.parent)[this := reg.root]
      ensures !r ==> unchanged(reg)
    {
      r := c.Remove(reg, Some(this));
    }

    /** `addEventListener(ev, fn)`, with `None` for a value that is not a function. */
    method AddEventListener(reg: Registry, ev: string, listener: Option<nat>)
      requires reg.Valid() && this in reg.created
      modifies reg
      ensures reg.Valid() && reg.EventsOnlyChanged()
      ensures reg.events == old(reg.events)[this := AddListener(old(reg.events[this]), old(reg.IsCancelled(this)), ev, listener)]
    {
      reg.Listen(this, AddListener(reg.events[this], reg.IsCancelled(this), ev, listener));
    }

    /** `removeEventListener(ev, fn)`, with `None` for a value that is not a function. */
    method RemoveEventListener(reg: Registry, ev: string, listener: Option<nat>)
      requires reg.Valid() && this in reg.created
      modifies reg
      ensures reg.Valid() && reg.EventsOnlyChanged()
      ensures reg.events == old(reg.events)[this := RemoveListener(old(reg.events[this]), old(reg.IsCancelled(this)), ev, listener)]
    {
      reg.Listen(this, RemoveListener(reg.events[this], reg.IsCancelled(this), ev, listener));
    }
  }

  /** What the `cancel` cascade reads: the children lists, the `cancel` listeners of their owners, a ranking. */
  ghost function CascadeOf(kids: map<Cancellable, seq<Cancellable>>, events: map<Cancellable, map<string, seq<nat>>>,
                           rank: map<Cancellable, nat>): (s: Cascade)
    requires Forest.Ranked<Cancellable>(ChildGraph(kids), rank) && rank.Keys <= kids.Keys
    requires kids.Keys <= events.Keys && EventsShaped(events)
    ensures WellFormed(s) && s.kids == kids && s.rank == rank
    ensures forall t :: t in kids ==> s.listeners[t] == events[t][CancelKey]
  {
    KidsRanked(kids, rank);
    Cascade(kids, map t | t in kids :: events[t][CancelKey], rank)
  }

  /** The module-level state of the bundle: the three WeakMaps and BASIC_PARENT. */
  class Registry {
    var dispose: map<Cancellable, Holder>
    var active: map<Cancellable, Holder>
    var parent: map<Cancellable, Cancellable>
    var root: Cancellable?
    /** The tokens `create` has returned. */
    ghost var created: set<Cancellable>
    /** The `children` list of every created token. */
    var children: map<Cancellable, seq<Cancellable>>
    /** The listener registry `events` of every token. */
    var events: map<Cancellable, map<string, seq<nat>>>
    /** Rankings of PARENT, of the `active` delegation and of the children lists. */
    ghost var prank: map<Cancellable, nat>
    ghost var arank: map<Cancellable, nat>
    ghost var crank: map<Cancellable, nat>

    /** Before the first `create` there is no token at all. */
    constructor ()
      ensures Valid() && root == null && created == {}
    {
      dispose := map[];
      active := map[];
      parent := map[];
      root := null;
      created := {};
      children := map[];
      events := map[];
      prank := map[];
      arank := map[];
      crank := map[];
      new;
      EmptyInv();
    }

    ghost function W(): World
      reads this
    {
      World(dispose, active, parent, root, created, children, prank, arank, crank, events)
    }

    ghost function CancelledSet(): set<Cancellable>
      reads this
      requires Inv(W())
    {
      CancelledOf(dispose, root, created)
    }

    /** The registry is consistent: slots, rankings and the cancelled set closed downwards. */
    ghost predicate Valid()
      reads this
    {
      Inv(W())
    }

    /** What the `cancel` cascade reads. */
    ghost function Snapshot(): (s: Cascade)
      reads this
      requires Valid()
      ensures WellFormed(s) && s.kids == children && s.rank == crank
      ensures forall t :: t in children ==> s.listeners[t] == events[t][CancelKey]
    {
      CascadeOf(children, events, crank)
    }

    /** What `t.cancel()` does from this state: the listener calls, and the cancelled tokens afterwards. */
    ghost function CancelOutcome(t: Cancellable): (seq<Fired>, set<Cancellable>)
      reads this
      requires Valid() && t in created
    {
      CancelSpec(Snapshot(), t, CancelledSet())
    }

    /** Only DISPOSE_STATE may have changed. */
    twostate predicate Kept()
      reads this
    {
      && root == old(root) && created == old(created) && parent == old(parent) && active == old(active)
      && children == old(children) && prank == old(prank) && arank == old(arank) && crank == old(crank)
      && events == old(events)
    }

    /** Only ACTIVE_STATE (and its ranking) may have changed. */
    twostate predicate ActiveOnlyChanged()
      reads this
    {
      && root == old(root) && created == old(created) && parent == old(parent) && dispose == old(dispose)
      && children == old(children) && prank == old(prank) && crank == old(crank) && events == old(events)
    }

    /** Only the listener registries may have changed. */
    twostate predicate EventsOnlyChanged()
      reads this
    {
      && root == old(root) && created == old(created) && parent == old(parent) && dispose == old(dispose)
      && active == old(active) && children == old(children) && prank == old(prank) && arank == old(arank)
      && crank == old(crank)
    }

    /** `c` can be reached from `t` through children lists, stale entries included. */
    ghost predicate Descends(t: Cancellable, c: Cancellable)
      reads this
      requires Inv(W()) && t in created
    {
      Forest.Reaches<Cancellable>(ChildGraph(children), crank, t, c)
    }

    /** `t` reads its `active` from `u`, directly or through other tokens. */
    ghost predicate DelegatesTo(t: Cancellable, u: Cancellable)
      reads this
      requires Inv(W())
    {
      t in active && Forest.Reaches<Cancellable>(DelegationGraph(active), arank, t, u)
    }

    /** `t.cancelled`, read through DISPOSE_STATE. */
    function IsCancelled(t: Cancellable): (c: bool)
      reads this
      requires Valid() && t in created
      ensures c == (t in CancelledSet())
      ensures c <==> dispose[t] == CancelledState
      ensures !c <==> dispose[t] == Delegate(root) && dispose[root] == NotCancelledState
    {
      assert DisposeShaped(dispose, root, created) by { assert W().dispose == dispose && W().root == root; }
      assert dispose[t] != CancelledState ==> !Cancelled(dispose, root);
      Cancelled(dispose, t)
    }

    /**
     * `t.active`, read through ACTIVE_STATE: the flag of the constant at the
     * end of `t`'s chain of delegates.
     */
    function IsActive(t: Cancellable): (a: bool)
      reads this
      requires Valid() && t in active
      ensures a <==> exists u :: u in active && active[u] == ActiveState
                                 && Forest.Reaches<Cancellable>(DelegationGraph(active), arank, t, u)
    {
      ActiveAtChainEnd(active, arank, t);
      Active(active, arank, t)
    }

    /** `PARENT.get(t)` of a created token is a token with state slots. */
    function ParentOf(t: Cancellable): (p: Cancellable)
      reads this
      requires Inv(W()) && t in created
      ensures p == parent[t] && p in NodesOf(W()) && p in active && p in dispose
    {
      assert parent[t] in ParentGraph(parent)[t];
      parent[t]
    }

    /**
     * The guard of `t.setParent(c)`: a token, not `t`, and not one `t` is
     * already an ancestor of. For created tokens: `c` is not `t` and `t`
     * cannot be reached from `c` through PARENT.
     */
    predicate Accepts(t: Cancellable, other: Option<Cancellable>): (ok: bool)
      reads this
      requires Inv(W())
      ensures t in created && other.Some? && other.value in created ==>
                (ok <==> other.value != t
                         && !Forest.Reaches<Cancellable>(ParentGraph(parent), prank, other.value, t))
    {
      assert W().root == root && W().created == created && W().parent == parent && W().prank == prank;
      if t in parent && other.Some? && other.value in parent then
        var r: Cancellable := root;
        IsParentToIsAncestor(parent, r, prank, t, other.value);
        other.value != t && !IsParentTo(parent, root, prank, t, other.value)
      else
        other.Some? && other.value != t && !IsParentTo(parent, root, prank, t, other.value)
    }

    /**
     * `Cancellable.create()`: builds the shared root on the first call only,
     * then a token whose cancellation and activation state both read the
     * root's and whose parent is the root. No other token changes.
     */
    method Create() returns (t: Cancellable)
      requires Valid()
      modifies this
      ensures Valid() && fresh(t) && created == old(created) + {t}
      ensures old(root) != null ==> root == old(root)
      ensures old(root) == null ==> fresh(root)
      ensures root != null && children == old(children)[t := []]
      ensures events == (if old(root) == null then map[root := NewEvents()] else old(events))[t := NewEvents()]
      ensures dispose == (if old(root) == null then map[root := NotCancelledState] else old(dispose))[t := Delegate(root)]
      ensures active == (if old(root) == null then map[root := ActiveState] else old(active))[t := Delegate(root)]
      ensures parent == old(parent)[t := root]
    {
      if root == null {
        MakeRoot();
      }
      t := AddToken();
    }

    /** The part of `create` after BASIC_PARENT exists. */
    method AddToken() returns (t: Cancellable)
      requires Valid() && root != null
      modifies this
      ensures Valid() && fresh(t) && created == old(created) + {t} && root == old(root)
      ensures children == old(children)[t := []] && events == old(events)[t := NewEvents()]
      ensures dispose == old(dispose)[t := Delegate(root)] && active == old(active)[t := Delegate(root)]
      ensures parent == old(parent)[t := root]
    {
      var r: Cancellable, d, a, p, k, e := root, dispose, active, parent, children, events;
      ghost var w := W();
      t := new Cancellable(this);
      Register(t, d, a, p, r, k, e, w);
    }

    /**
     * The writes of `create` once the constructor has run: `t`'s slots and
     * parent are bound to the root, its registry and children list are empty;
     * `d`, `a`, `p`, `r`, `k`, `e` are the state before the constructor ran.
     */
    method Register(t: Cancellable, d: map<Cancellable, Holder>, a: map<Cancellable, Holder>,
                    p: map<Cancellable, Cancellable>, r: Cancellable, k: map<Cancellable, seq<Cancellable>>,
                    e: map<Cancellable, map<string, seq<nat>>>, ghost w: World)
      requires Inv(w) && t !in NodesOf(w)
      requires w.dispose == d && w.active == a && w.parent == p && w.root == r && w.kids == k && w.events == e
      modifies this
      ensures Valid() && created == w.created + {t} && root == r
      ensures children == k[t := []] && events == e[t := NewEvents()] && parent == p[t := r]
      ensures dispose == d[t := Delegate(r)] && active == a[t := Delegate(r)]
    {
      CreateInv(w, t);
      Put(d[t := Delegate(r)], a[t := Delegate(r)], p[t := r], r, k[t := []], e[t := NewEvents()], Created(w, t));
    }

    method MakeRoot()
      requires Valid() && root == null
      modifies this
      ensures Valid() && root != null && fresh(root) && created == {}
      ensures dispose == map[root := NotCancelledState] && active == map[root := ActiveState]
      ensures events == map[root := NewEvents()] && parent == old(parent) && children == old(children)
    {
      var p, k := parent, children;
      var b := new Cancellable(this);
      RootInv(b);
      Put(map[b := NotCancelledState], map[b := ActiveState], p, b, k, map[b := NewEvents()],
          World(map[b := NotCancelledState], map[b := ActiveState], map[], b, {}, map[],
                map[b := 0], map[b := 0], map[], map[b := NewEvents()]));
    }

    /** Replaces the whole state of the registry at once. */
    method Put(d: map<Cancellable, Holder>, a: map<Cancellable, Holder>, p: map<Cancellable, Cancellable>, b: Cancellable?,
               k: map<Cancellable, seq<Cancellable>>, e: map<Cancellable, map<string, seq<nat>>>, ghost w: World)
      requires w.dispose == d && w.active == a && w.parent == p && w.root == b && w.kids == k && w.events == e
      modifies this
      ensures W() == w
    {
      dispose, active, parent, root, children, events := d, a, p, b, k, e;
      created, prank, arank, crank := w.created, w.prank, w.arank, w.crank;
    }

    /** `DISPOSE_STATE.set(t, CANCELLED)`, once every child of `t` is cancelled. */
    method Flip(t: Cancellable)
      requires Valid() && t in created && t !in CancelledSet()
      requires forall c :: c in children[t] ==> c in CancelledSet()
      modifies this
      ensures Valid() && Kept()
      ensures dispose == old(dispose)[t := CancelledState]
      ensures CancelledSet() == old(CancelledSet()) + {t}
    {
      ghost var w := W();
      FlipInv(w, t);
      Put(dispose[t := CancelledState], active, parent, root, children, events, w.(dispose := w.dispose[t := CancelledState]));
    }

    /** `ACTIVE_STATE.set(t, h)`, where a delegate closes no delegation cycle. */
    method SetActive(t: Cancellable, h: Holder)
      requires Valid() && t in created
      requires h.Delegate? ==> h.to in NodesOf(W()) && !DelegatesTo(h.to, t)
      modifies this
      ensures Valid() && ActiveOnlyChanged()
      ensures active == old(active)[t := h]
      ensures forall x :: x in old(active) && !old(DelegatesTo(x, t)) ==>
                x in active && Active(active, arank, x) == old(Active(active, arank, x))
    {
      ghost var w := W();
      ghost var rank := SetActiveInv(w, t, h);
      Put(dispose, active[t := h], parent, root, children, events, w.(active := w.active[t := h], arank := rank));
    }

    /** `PARENT.set(t, p)` and `p.children.push(t)`. */
    method Attach(t: Cancellable, p: Cancellable)
      requires Valid() && t in created && p in created && t != p
      requires !IsParentTo(parent, root, prank, t, p) && p !in CancelledSet() && !Descends(t, p)
      modifies this
      ensures Valid() && root == old(root) && created == old(created)
      ensures dispose == old(dispose) && active == old(active) && arank == old(arank) && events == old(events)
      ensures parent == old(parent)[t := p] && children == old(children)[p := old(children[p]) + [t]]
    {
      ghost var w := W();
      var r: Cancellable := root;
      IsParentToIsAncestor(parent, r, prank, t, p);
      Forest.Isolated<Cancellable>(ParentGraph(parent), prank, r, t);
      ghost var pr, cr := AttachInv(w, t, p);
      Put(dispose, active, parent[t := p], root, children[p := children[p] + [t]], events,
          w.(parent := w.parent[t := p], kids := w.kids[p := w.kids[p] + [t]], prank := pr, crank := cr));
    }

    /** `t.children = t.children.filter(x => x !== c)` and `PARENT.set(c, BASIC_PARENT)`. */
    method Detach(t: Cancellable, c: Cancellable)
      requires Valid() && t in created && c in created && t !in CancelledSet() && parent[c] == t
      modifies this
      ensures Valid() && root == old(root) && created == old(created)
      ensures dispose == old(dispose) && active == old(active) && arank == old(arank) && events == old(events)
      ensures prank == old(prank) && crank == old(crank)
      ensures parent == old(parent)[c := root] && children == old(children)[t := Without(old(children[t]), c)]
      ensures c !in children[t]
    {
      ghost var w := W();
      WithoutSpec(children[t], c);
      DetachInv(w, t, c);
      Put(dispose, active, parent[c := root], root, children[t := Without(children[t], c)], events,
          w.(parent := w.parent[c := w.root], kids := w.kids[t := Without(w.kids[t], c)]));
    }

    /** The write of `addEventListener` or `removeEventListener`: `t`'s registry becomes `e`, with the same keys. */
    method Listen(t: Cancellable, e: map<string, seq<nat>>)
      requires Valid() && t in created && e.Keys == events[t].Keys
      modifies this
      ensures Valid() && EventsOnlyChanged() && events == old(events)[t := e]
    {
      ghost var w := W();
      ListenInv(w, t, e);
      Put(dispose, active, parent, root, children, events[t := e], w.(events := w.events[t := e]));
    }
  }
}
