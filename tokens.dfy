/**
 * The concrete tokens of src/: BooleanCancellable (src/boolean.js),
 * CompositeCancellable (src/composite.js) and LinkedCancellable
 * (src/linked.js), together with the two sentinels used as tokens.
 *
 * The three kinds live in one module because their `cancel` methods call
 * each other: a composite cancels its members, a Boolean token dispatches to
 * its listeners, and the only listener with behaviour is the subscription a
 * linked token installs on its peer, which cancels the linked token.
 *
 * `U` is the ghost set of tokens a program has built so far. `Closed(U)` says
 * that every token reachable from one in `U` (members, peers, origins,
 * subscription owners) is in `U` as well, so that every cascade stays inside
 * `Objs(U)`. A cascade terminates because it only ever shrinks `Live(U)`:
 * Boolean tokens that can still flip, composites with a non-empty buffer and
 * linked tokens that still hold a link.
 */
module Tokens {
  import opened Base
  import Sentinels

  /** The closure `() => this.cancel()` a linked token installs on its peer; one fresh object per `link`. */
  class Subscription {
    const owner: LinkedCancellable

    constructor (owner: LinkedCancellable)
      ensures this.owner == owner
    {
      this.owner := owner;
    }
  }

  /** A listener function: an opaque callback, or a linked token's subscription. */
  datatype Listener = Callback(id: nat) | Subscribe(sub: Subscription)

  /** A value that passes `instanceof Cancellable`. */
  datatype Token =
    | Fixed(sentinel: Sentinels.Sentinel)
    | Boolean(b: BooleanCancellable)
    | Composite(c: CompositeCancellable)
    | Linked(l: LinkedCancellable)

  /** One call of an opaque callback registered on token `source`. */
  datatype Fired = Fired(source: Token, id: nat)

  const CancelKey: string := "cancel"

  /** The registry the base constructor builds: only the `cancel` key, with no listener. */
  function NewEvents(): map<string, seq<Listener>>
  {
    map[CancelKey := []]
  }

  class BooleanCancellable {
    var events: map<string, seq<Listener>>
    var state: Sentinels.Sentinel

    /** A fresh token holds the uncancelled sentinel, so it is not cancelled. */
    constructor ()
      ensures events == NewEvents() && state == Sentinels.Uncancelled
      ensures !IsCancelled(Boolean(this))
    {
      events := NewEvents();
      state := Sentinels.Uncancelled;
    }

    /**
     * `cancel()`: the first call swaps in the cancelled sentinel and only then
     * dispatches `cancel`, so every listener already sees the token cancelled.
     * Each registered callback fires exactly once, in registration order, and
     * every subscribed linked token ends up cancelled. Later calls do nothing.
     */
    method Cancel(ghost U: set<Token>) returns (r: bool, ghost fired: seq<Fired>)
      requires Boolean(this) in U && Closed(U)
      modifies Objs(U)
      decreases Live(U), 2
      ensures Closed(U) && Follows(old(Snap(U)), Snap(U))
      ensures r == !old(IsCancelled(Boolean(this)))
      ensures state == Sentinels.Cancelled
      ensures !r ==> fired == [] && unchanged(Objs(U))
      ensures NewlyCancelled(fired, old(CancelledIn(U)), CancelledIn(U))
      ensures r ==> IdsBy(fired, Boolean(this)) == CallbackIds(old(CancelListeners(Boolean(this))))
      ensures r ==> SubscribersCancelled(old(CancelListeners(Boolean(this))), CancelledIn(U))
      ensures CancelListeners(Boolean(this)) == old(CancelListeners(Boolean(this)))
      ensures r && OnlyCallbacks(old(CancelListeners(Boolean(this)))) ==>
                fired == CallbackFires(Boolean(this), old(CancelListeners(Boolean(this))))
                && OthersUnchanged(U, Boolean(this))
    {
      if !IsCancelled(Boolean(this)) {
        state := Sentinels.Cancelled;
        FlipBoolean(Update(U, Boolean(this)));
        ghost var mid := Snap(U);
        assert mid.frozen[Boolean(this)] == old(CancelListeners(Boolean(this)));
        fired := Dispatch(Boolean(this), U);
        FollowsTransitive(old(Snap(U)), mid, Snap(U));
        DispatchTrace(fired, Boolean(this), old(CancelledIn(U)), mid.cancelled, CancelledIn(U));
        assert Snap(U).frozen[Boolean(this)] == mid.frozen[Boolean(this)];
        r := true;
      } else {
        r := false;
        fired := [];
      }
    }
  }

  class CompositeCancellable {
    var events: map<string, seq<Listener>>
    var buffer: seq<Token>
    var state: Sentinels.Sentinel

    /** A fresh composite is not cancelled and holds nothing. */
    constructor ()
      ensures events == NewEvents() && buffer == [] && state == Sentinels.Uncancelled
      ensures !IsCancelled(Composite(this))
    {
      events := NewEvents();
      buffer := [];
      state := Sentinels.Uncancelled;
    }

    /**
     * `cancel()`: the first call swaps in an empty buffer, cancels every
     * captured member in buffer order and then sets the flag. It never fires
     * the composite's own listeners: no callback in the trace belongs to a
     * composite. For a buffer of sentinels and Boolean tokens with callbacks
     * only, the trace is exactly `QuietTrace` of the buffer.
     */
    method Cancel(ghost U: set<Token>)
      returns (r: bool, ghost fired: seq<Fired>, ghost parts: seq<seq<Fired>>, ghost steps: seq<set<Token>>)
      requires Composite(this) in U && Closed(U)
      modifies Objs(U)
      decreases Live(U), 4
      ensures Closed(U) && Follows(old(Snap(U)), Snap(U))
      ensures r == !old(IsCancelled(Composite(this)))
      ensures state == Sentinels.Cancelled && buffer == []
      ensures !r ==> fired == [] && unchanged(Objs(U))
      ensures r ==> forall m :: m in old(buffer) && m != Fixed(Sentinels.Uncancelled) ==> m in CancelledIn(U)
      ensures NewlyCancelled(fired, old(CancelledIn(U)), CancelledIn(U))
      ensures r ==> InOrder(old(buffer), parts, steps) && fired == Concat(parts)
                    && steps[0] == old(CancelledIn(U))
                    && CancelledIn(U) == steps[|old(buffer)|] + {Composite(this)}
      ensures r && Quiet(old(buffer), old(ListsOf(buffer))) ==>
                fired == QuietTrace(old(buffer), old(CancelledIn(U)), old(ListsOf(buffer)))
    {
      fired := [];
      parts := [];
      steps := [];
      if !IsCancelled(Composite(this)) {
        var members := Swap(U);
        ghost var drained := Snap(U);
        fired, parts, steps := CancelMembers(members, U, old(Live(U)));
        FollowsTransitive(old(Snap(U)), drained, Snap(U));
        ghost var settled := Snap(U);
        Flip(U);
        FollowsTransitive(old(Snap(U)), settled, Snap(U));
        r := true;
      } else {
        r := false;
        ClosedCancelledComposite(U, this);
      }
    }

    /** The swap that opens `cancel`: the captured members are taken and an empty buffer is put in their place. */
    method Swap(ghost U: set<Token>) returns (members: seq<Token>)
      requires Composite(this) in U && Closed(U) && !IsCancelled(Composite(this))
      modifies this
      ensures members == old(buffer) && buffer == [] && state == old(state) && events == old(events)
      ensures Closed(U) && Follows(old(Snap(U)), Snap(U)) && CancelledIn(U) == old(CancelledIn(U))
      ensures Live(U) == old(Live(U)) - {Composite(this)}
      ensures (forall m :: m in members ==> m in U) && ListsOf(members) == old(ListsOf(members))
    {
      members := buffer;
      assert Wired(Composite(this), U);
      buffer := [];
      DrainComposite(Update(U, Composite(this)));
    }

    /** The last step of `cancel`: the flag is set on a drained composite. */
    method Flip(ghost U: set<Token>)
      requires Composite(this) in U && Closed(U) && buffer == []
      modifies this
      ensures state == Sentinels.Cancelled && buffer == [] && events == old(events)
      ensures Closed(U) && Follows(old(Snap(U)), Snap(U))
      ensures CancelledIn(U) == old(CancelledIn(U)) + {Composite(this)}
    {
      state := Sentinels.Cancelled;
      FlipComposite(Update(U, Composite(this)));
    }

    /**
     * `add(cancellable)`: a live composite appends the token (duplicates
     * allowed); a cancelled one cancels the token instead of storing it. A
     * non-token or the composite itself is refused with no change.
     */
    method Add(other: Option<Token>, ghost U: set<Token>) returns (r: bool)
      requires Composite(this) in U && Closed(U)
      requires other.Some? ==> other.value in U
      modifies Objs(U)
      ensures Closed(U)
      ensures r <==> other.Some? && other.value != Composite(this) && !old(IsCancelled(Composite(this)))
      ensures r ==> buffer == old(buffer) + [other.value] && state == old(state) && events == old(events)
                    && unchanged(Objs(U) - {this})
      ensures other.None? || other == Some(Composite(this)) ==> unchanged(Objs(U))
      ensures (other.Some? && other.value != Composite(this) && old(IsCancelled(Composite(this))))
                ==> buffer == [] && (other.value != Fixed(Sentinels.Uncancelled) ==> IsCancelled(other.value))
                    && Follows(old(Snap(U)), Snap(U))
    {
      if other.Some? && other.value != Composite(this) {
        if IsCancelled(Composite(this)) {
          ClosedCancelledComposite(U, this);
          assert Composite(this) in CancelledIn(U);
          var _, _ := CancelToken(other.value, U);
          assert Composite(this) in CancelledIn(U);
          ClosedCancelledComposite(U, this);
        } else {
          assert Wired(Composite(this), U);
          label Before:
          buffer := buffer + [other.value];
          assert Wired(Composite(this), U);
          OnlyThisChanged@Before(Update(U, Composite(this)));
          return true;
        }
      }
      return false;
    }

    /**
     * `remove(cancellable)`: deletes the first occurrence of the token and
     * then dispatches the composite's own `cancel` listeners, although the
     * composite is not cancelled by this. A non-token, the composite itself or
     * an absent token is refused with no change.
     */
    method Remove(other: Option<Token>, ghost U: set<Token>) returns (r: bool, ghost fired: seq<Fired>)
      requires Composite(this) in U && Closed(U)
      modifies Objs(U)
      ensures Closed(U)
      ensures r <==> other.Some? && other.value != Composite(this) && other.value in old(buffer)
      ensures !r ==> fired == [] && unchanged(Objs(U))
      ensures r ==> buffer == RemoveFirst(old(buffer), other.value) || buffer == []
      ensures r ==> Settles(old(Snap(U)), Snap(U))
      ensures (r && OnlyCallbacks(old(CancelListeners(Composite(this)))))
                ==> buffer == RemoveFirst(old(buffer), other.value) && state == old(state)
                    && events == old(events) && OthersUnchanged(U, Composite(this))
                    && (forall f :: f in fired ==> f.source == Composite(this))
                    && IdsBy(fired, Composite(this)) == CallbackIds(old(CancelListeners(Composite(this))))
    {
      fired := [];
      if other.Some? && other.value != Composite(this) {
        var index := IndexOf(buffer, other.value);
        if index != -1 {
          fired := DropAt(index, U);
          return true, fired;
        }
      }
      return false, fired;
    }

    /** The rest of a successful `remove`: the splice, then the dispatch of `cancel`. */
    method DropAt(index: nat, ghost U: set<Token>) returns (ghost fired: seq<Fired>)
      requires Composite(this) in U && Closed(U) && index < |buffer|
      modifies Objs(U)
      ensures Closed(U) && Settles(old(Snap(U)), Snap(U))
      ensures buffer == old(buffer[..index] + buffer[index + 1..]) || buffer == []
      ensures OnlyCallbacks(old(CancelListeners(Composite(this)))) ==>
                && buffer == old(buffer[..index] + buffer[index + 1..]) && state == old(state)
                && events == old(events) && OthersUnchanged(U, Composite(this))
                && (forall f :: f in fired ==> f.source == Composite(this))
                && IdsBy(fired, Composite(this)) == CallbackIds(old(CancelListeners(Composite(this))))
    {
      Splice(index, U);
      ghost var removed := Snap(U);
      fired := Dispatch(Composite(this), U);
      SettlesThenFollows(old(Snap(U)), removed, Snap(U));
      assert Composite(this) in Snap(U).buffers;
    }

    /** The `splice(index, 1)` of `remove`, on a live composite. */
    method Splice(index: nat, ghost U: set<Token>)
      requires Composite(this) in U && Closed(U) && index < |buffer|
      modifies this
      ensures Closed(U) && Settles(old(Snap(U)), Snap(U))
      ensures buffer == old(buffer[..index] + buffer[index + 1..])
      ensures state == old(state) && events == old(events)
      ensures Composite(this) in Snap(U).buffers && Snap(U).buffers[Composite(this)] == buffer
      ensures CancelledIn(U) == old(CancelledIn(U))
    {
      assert Wired(Composite(this), U);
      label Before:
      buffer := buffer[..index] + buffer[index + 1..];
      assert Wired(Composite(this), U) by {
        forall m | m in buffer ensures m in old(buffer) {
        }
      }
      OnlyThisChanged@Before(Update(U, Composite(this)));
      Untouched@Before(Update(U, Composite(this)));
    }
  }

  /**
   * The `for…of` loop of a composite's `cancel`: cancels the captured
   * members in buffer order. `bound` is the set of live tokens when the
   * composite's `cancel` began; draining the buffer already made the
   * cascade smaller than that.
   */
  method CancelMembers(members: seq<Token>, ghost U: set<Token>, ghost bound: set<Token>)
    returns (ghost fired: seq<Fired>, ghost parts: seq<seq<Fired>>, ghost steps: seq<set<Token>>)
    requires Closed(U) && forall m :: m in members ==> m in U
    requires members != [] ==> Live(U) < bound
    modifies Objs(U)
    decreases bound, 3
    ensures Closed(U) && Follows(old(Snap(U)), Snap(U))
    ensures forall m :: m in members && m != Fixed(Sentinels.Uncancelled) ==> m in CancelledIn(U)
    ensures NewlyCancelled(fired, old(CancelledIn(U)), CancelledIn(U))
    ensures InOrder(members, parts, steps) && fired == Concat(parts)
    ensures steps[0] == old(CancelledIn(U)) && steps[|members|] == CancelledIn(U)
    ensures Quiet(members, old(ListsOf(members))) ==>
              fired == QuietTrace(members, old(CancelledIn(U)), old(ListsOf(members)))
  {
    fired := [];
    parts := [];
    steps := [CancelledIn(U)];
    ghost var start := Snap(U);
    ghost var lists := ListsOf(members);
    ghost var quiet := Quiet(members, lists);
    assert quiet ==> QuietSoFar(members, 0, start.cancelled, lists);
    var i := 0;
    while i < |members|
      invariant 0 <= i <= |members|
      invariant Closed(U) && Follows(start, Snap(U))
      invariant members != [] ==> Live(U) < bound
      invariant forall j :: 0 <= j < i && members[j] != Fixed(Sentinels.Uncancelled)
                  ==> members[j] in CancelledIn(U)
      invariant NewlyCancelled(fired, start.cancelled, CancelledIn(U))
      invariant InOrder(members[..i], parts, steps) && fired == Concat(parts)
      invariant steps[0] == start.cancelled && steps[i] == CancelledIn(U)
      invariant quiet ==> QuietSoFar(members, i, start.cancelled, lists)
                          && fired == QuietTrace(members[..i], start.cancelled, lists)
    {
      fired, parts, steps := CancelMember(members, i, U, bound, start, fired, parts, steps, quiet, lists);
      i := i + 1;
    }
    assert members[..i] == members;
  }

  /**
   * One iteration of the `for…of` in a composite's `cancel`: cancels
   * `members[i]` and extends the trace by what that call fired.
   */
  method CancelMember(members: seq<Token>, i: nat, ghost U: set<Token>, ghost bound: set<Token>,
                      ghost start: Snapshot, ghost fired: seq<Fired>, ghost parts: seq<seq<Fired>>,
                      ghost steps: seq<set<Token>>, ghost quiet: bool, ghost lists: map<Token, seq<Listener>>)
    returns (ghost fired': seq<Fired>, ghost parts': seq<seq<Fired>>, ghost steps': seq<set<Token>>)
    requires i < |members| && Closed(U) && forall m :: m in members ==> m in U
    requires Live(U) < bound && Follows(start, Snap(U))
    requires forall j :: 0 <= j < i && members[j] != Fixed(Sentinels.Uncancelled) ==> members[j] in CancelledIn(U)
    requires NewlyCancelled(fired, start.cancelled, CancelledIn(U))
    requires InOrder(members[..i], parts, steps) && fired == Concat(parts)
    requires steps[0] == start.cancelled && steps[i] == CancelledIn(U)
    requires quiet ==> Quiet(members, lists) && QuietSoFar(members, i, start.cancelled, lists)
                       && fired == QuietTrace(members[..i], start.cancelled, lists)
    modifies Objs(U)
    decreases bound, 2
    ensures Closed(U) && Live(U) < bound && Follows(start, Snap(U))
    ensures forall j :: 0 <= j < i + 1 && members[j] != Fixed(Sentinels.Uncancelled) ==> members[j] in CancelledIn(U)
    ensures NewlyCancelled(fired', start.cancelled, CancelledIn(U))
    ensures InOrder(members[..i + 1], parts', steps') && fired' == Concat(parts')
    ensures steps'[0] == start.cancelled && steps'[i + 1] == CancelledIn(U)
    ensures parts' == parts + [parts'[i]] && steps' == steps + [CancelledIn(U)] && fired' == fired + parts'[i]
    ensures quiet ==> QuietSoFar(members, i + 1, start.cancelled, lists)
                      && fired' == QuietTrace(members[..i + 1], start.cancelled, lists)
  {
    ghost var before := Snap(U);
    var _, f := CancelAt(members, i, U, bound, quiet, lists, start.cancelled);
    if quiet {
      assert members[..i + 1][..i] == members[..i] && members[..i + 1][i] == members[i];
    }
    FollowsTransitive(start, before, Snap(U));
    NewlyCancelledConcat(fired, f, start.cancelled, before.cancelled, CancelledIn(U));
    CancelledPrefix(members, i, before.cancelled, CancelledIn(U));
    InOrderSnoc(members[..i], parts, steps, members[i], f, CancelledIn(U));
    assert members[..i + 1] == members[..i] + [members[i]];
    fired' := fired + f;
    parts' := parts + [f];
    steps' := steps + [CancelledIn(U)];
    assert parts'[..|parts'| - 1] == parts;
  }

  /**
   * `members[i].cancel()` inside the loop; for a quiet buffer, the member's
   * part of the trace and the lists and flags it leaves behind.
   */
  method CancelAt(members: seq<Token>, i: nat, ghost U: set<Token>, ghost bound: set<Token>,
                  ghost quiet: bool, ghost lists: map<Token, seq<Listener>>, ghost cancelled: set<Token>)
    returns (ok: bool, ghost f: seq<Fired>)
    requires i < |members| && Closed(U) && (forall m :: m in members ==> m in U) && Live(U) < bound
    requires quiet ==> Quiet(members, lists) && QuietSoFar(members, i, cancelled, lists)
    modifies Objs(U)
    decreases bound, 1
    ensures Closed(U) && Follows(old(Snap(U)), Snap(U))
    ensures ok == (!members[i].Fixed? && members[i] !in old(CancelledIn(U)))
    ensures members[i] != Fixed(Sentinels.Uncancelled) ==> members[i] in CancelledIn(U)
    ensures NewlyCancelled(f, old(CancelledIn(U)), CancelledIn(U)) && (!ok ==> f == [])
    ensures quiet ==> QuietSoFar(members, i + 1, cancelled, lists)
                      && f == QuietPart(members[i], members[..i], cancelled, lists)
  {
    label Before:
    ok, f := CancelToken(members[i], U);
    if quiet && ok {
      QuietStep@Before(MemberCall(members, i, U, lists, cancelled, ok, f));
    } else if quiet {
      QuietSkip@Before(MemberCall(members, i, U, lists, cancelled, ok, f));
    }
  }

  /** Every member is a sentinel or a Boolean token whose `cancel` list in `lists` holds callbacks only. */
  ghost predicate Quiet(members: seq<Token>, lists: map<Token, seq<Listener>>)
  {
    forall m :: m in members ==> m.Fixed? || (m.Boolean? && m in lists && OnlyCallbacks(lists[m]))
  }

  /** The current `cancel` lists of the Boolean members. */
  ghost function ListsOf(members: seq<Token>): map<Token, seq<Listener>>
    reads set m | m in members && m.Boolean? :: m.b
  {
    map m | m in members && m.Boolean? :: CancelListeners(m)
  }

  /** A Boolean member is cancelled exactly when it was at the start or it comes before index `i`. */
  ghost predicate QuietCancelled(members: seq<Token>, i: nat, cancelled: set<Token>)
    reads set m | m in members && m.Boolean? :: m.b
  {
    i <= |members|
    && forall j :: 0 <= j < |members| && members[j].Boolean? ==>
         (IsCancelled(members[j]) <==> members[j] in cancelled || members[j] in members[..i])
  }

  /** The lists are still `lists`, and exactly the members before index `i` have been cancelled since `cancelled`. */
  ghost predicate QuietSoFar(members: seq<Token>, i: nat, cancelled: set<Token>, lists: map<Token, seq<Listener>>)
    reads set m | m in members && m.Boolean? :: m.b
  {
    ListsOf(members) == lists && QuietCancelled(members, i, cancelled)
  }

  /** What member `m` fires when it is reached after `earlier`: its callbacks, if it is a Boolean token cancelled for the first time. */
  function QuietPart(m: Token, earlier: seq<Token>, cancelled: set<Token>, lists: map<Token, seq<Listener>>): seq<Fired>
  {
    if m.Boolean? && m !in cancelled && m !in earlier && m in lists then CallbackFires(m, lists[m]) else []
  }

  /**
   * What cancelling a quiet buffer fires, member by member in buffer order: a
   * Boolean member not yet cancelled fires its callbacks, in list order, at
   * its first occurrence; a sentinel, a repeat or a member already cancelled
   * fires nothing.
   */
  ghost function QuietTrace(members: seq<Token>, cancelled: set<Token>, lists: map<Token, seq<Listener>>): seq<Fired>
  {
    if members == [] then []
    else
      var n := |members| - 1;
      QuietTrace(members[..n], cancelled, lists) + QuietPart(members[n], members[..n], cancelled, lists)
  }

  /** Every callback of a member's part belongs to that member, and only a first occurrence has a part. */
  lemma QuietPartShape(m: Token, earlier: seq<Token>, cancelled: set<Token>, lists: map<Token, seq<Listener>>)
    ensures forall f :: f in QuietPart(m, earlier, cancelled, lists) ==> f.source == m
    ensures QuietPart(m, earlier, cancelled, lists) != [] ==> m !in earlier
  {
    if m in lists {
      CallbackFiresSources(m, lists[m]);
    }
  }

  lemma {:induction false} CallbackFiresSources(t: Token, listeners: seq<Listener>)
    ensures forall f :: f in CallbackFires(t, listeners) ==> f.source == t
    decreases |listeners|
  {
    if listeners != [] {
      CallbackFiresSources(t, listeners[..|listeners| - 1]);
    }
  }

  /** Every callback of a quiet trace belongs to a member of the buffer. */
  lemma {:induction false} QuietTraceSources(members: seq<Token>, cancelled: set<Token>, lists: map<Token, seq<Listener>>)
    ensures forall f :: f in QuietTrace(members, cancelled, lists) ==> f.source in members
    decreases |members|
  {
    if members != [] {
      var n := |members| - 1;
      QuietTraceSources(members[..n], cancelled, lists);
      QuietPartShape(members[n], members[..n], cancelled, lists);
      forall f | f in QuietTrace(members, cancelled, lists)
        ensures f.source in members
      {
        if f in QuietTrace(members[..n], cancelled, lists) {
          assert f.source in members[..n];
        }
      }
    }
  }

  /**
   * Buffer order: once the trace holds a callback of `members[i]`, no
   * earlier position holds a callback of a later member `members[j]` that
   * first occurs at index `j`. Member `i` is done before member `j` starts.
   */
  lemma {:induction false} QuietTraceOrder(members: seq<Token>, cancelled: set<Token>, lists: map<Token, seq<Listener>>,
                                           i: nat, j: nat, k1: nat, k2: nat)
    requires i < j < |members| && members[j] !in members[..j]
    requires k1 < k2 < |QuietTrace(members, cancelled, lists)|
    requires QuietTrace(members, cancelled, lists)[k2].source == members[i]
    ensures QuietTrace(members, cancelled, lists)[k1].source != members[j]
    decreases |members|
  {
    var n := |members| - 1;
    var T := QuietTrace(members, cancelled, lists);
    var P := QuietTrace(members[..n], cancelled, lists);
    var tail := QuietPart(members[n], members[..n], cancelled, lists);
    assert T == P + tail;
    QuietPartShape(members[n], members[..n], cancelled, lists);
    forall k | |P| <= k < |T|
      ensures T[k] == tail[k - |P|] && T[k].source == members[n] && members[n] !in members[..n]
    {
      assert tail[k - |P|] in tail;
    }
    assert members[i] != members[j] by {
      assert members[..j][i] == members[i];
    }
    if j < n {
      assert members[i] in members[..n] by {
        assert members[..n][i] == members[i];
      }
      assert k2 < |P|;
      assert members[..n][..j] == members[..j];
      QuietTraceOrder(members[..n], cancelled, lists, i, j, k1, k2);
      assert T[k1] == P[k1];
    } else {
      assert k1 < |P|;
      QuietTraceSources(members[..n], cancelled, lists);
      assert T[k1] == P[k1] && P[k1] in P;
    }
  }

  /**
   * Two live Boolean members with one callback each: the composite's trace
   * is the first member's callback, then the second's, and never the reverse.
   */
  lemma TwoMembersInOrder(b0: BooleanCancellable, b1: BooleanCancellable, cancelled: set<Token>)
    requires b0 != b1 && Boolean(b0) !in cancelled && Boolean(b1) !in cancelled
    ensures var lists := map[Boolean(b0) := [Callback(3)], Boolean(b1) := [Callback(7)]];
            var trace := QuietTrace([Boolean(b0), Boolean(b1)], cancelled, lists);
            trace == [Fired(Boolean(b0), 3), Fired(Boolean(b1), 7)]
            && trace != [Fired(Boolean(b1), 7), Fired(Boolean(b0), 3)]
  {
    var lists := map[Boolean(b0) := [Callback(3)], Boolean(b1) := [Callback(7)]];
    var members := [Boolean(b0), Boolean(b1)];
    assert members[..1] == [Boolean(b0)] && members[..1][..0] == [];
    assert CallbackFires(Boolean(b0), [Callback(3)]) == [Fired(Boolean(b0), 3)] by {
      assert [Callback(3)][..0] == [];
    }
    assert CallbackFires(Boolean(b1), [Callback(7)]) == [Fired(Boolean(b1), 7)] by {
      assert [Callback(7)][..0] == [];
    }
    assert QuietTrace(members[..1], cancelled, lists) == [Fired(Boolean(b0), 3)] by {
      assert QuietTrace(members[..1][..0], cancelled, lists) == [];
      assert QuietPart(Boolean(b0), [], cancelled, lists) == [Fired(Boolean(b0), 3)];
    }
    assert QuietPart(Boolean(b1), members[..1], cancelled, lists) == [Fired(Boolean(b1), 7)];
  }

  /** One call of a member's `cancel` in a quiet buffer, packed as one argument for `QuietStep`. */
  datatype MemberCall = MemberCall(members: seq<Token>, i: nat, universe: set<Token>,
                                   lists: map<Token, seq<Listener>>, cancelled: set<Token>, ok: bool, part: seq<Fired>)

  /** A member of a quiet buffer that fires nothing leaves the lists and the cancelled members as they were. */
  twostate lemma QuietSkip(c: MemberCall)
    requires c.i < |c.members| && forall m :: m in c.members ==> m in c.universe
    requires Quiet(c.members, c.lists) && old(QuietSoFar(c.members, c.i, c.cancelled, c.lists))
    requires !c.ok && c.ok == (!c.members[c.i].Fixed? && !old(IsCancelled(c.members[c.i])))
    requires c.part == [] && NoneChanged(c.universe)
    ensures QuietSoFar(c.members, c.i + 1, c.cancelled, c.lists)
    ensures c.part == QuietPart(c.members[c.i], c.members[..c.i], c.cancelled, c.lists)
  {
    var members, i, U := c.members, c.i, c.universe;
    assert members[..i + 1] == members[..i] + [members[i]];
    forall j | 0 <= j < |members| && members[j].Boolean?
      ensures members[j].b in Objs(U)
    {
      assert members[j] in U;
    }
    ListsOfKept(c);
  }

  /** One member of a quiet buffer is cancelled: the lists stay and the trace grows by that member's part. */
  twostate lemma QuietStep(c: MemberCall)
    requires c.i < |c.members| && forall m :: m in c.members ==> m in c.universe
    requires Quiet(c.members, c.lists) && old(QuietSoFar(c.members, c.i, c.cancelled, c.lists))
    requires c.ok && c.ok == (!c.members[c.i].Fixed? && !old(IsCancelled(c.members[c.i])))
    requires IsCancelled(c.members[c.i])
    requires CancelListeners(c.members[c.i]) == old(CancelListeners(c.members[c.i]))
    requires OnlyCallbacks(old(CancelListeners(c.members[c.i]))) ==>
               c.part == CallbackFires(c.members[c.i], old(CancelListeners(c.members[c.i])))
               && OthersUnchanged(c.universe, c.members[c.i])
    ensures QuietSoFar(c.members, c.i + 1, c.cancelled, c.lists)
    ensures c.part == QuietPart(c.members[c.i], c.members[..c.i], c.cancelled, c.lists)
  {
    var members, i, U := c.members, c.i, c.universe;
    var m := members[i];
    assert members[..i + 1] == members[..i] + [m];
    assert m.Boolean? && m in c.lists;
    forall j | 0 <= j < |members| && members[j].Boolean? && members[j] != m
      ensures CancelListeners(members[j]) == old(CancelListeners(members[j]))
      ensures IsCancelled(members[j]) == old(IsCancelled(members[j]))
    {
      assert members[j] in U;
      assert members[j].b in Objs(U) - Obj(m);
    }
    ListsOfKept(c);
  }

  /** Lists that every Boolean member of the call kept give back the map they were read from. */
  twostate lemma ListsOfKept(c: MemberCall)
    requires old(ListsOf(c.members)) == c.lists
    requires forall j :: 0 <= j < |c.members| && c.members[j].Boolean? ==>
               CancelListeners(c.members[j]) == old(CancelListeners(c.members[j]))
    ensures ListsOf(c.members) == c.lists
  {
    forall x | x in ListsOf(c.members)
      ensures ListsOf(c.members)[x] == c.lists[x]
    {
      var j :| 0 <= j < |c.members| && c.members[j] == x;
    }
  }

  /** The callbacks fired by each part of a trace, in order. */
  function Concat(parts: seq<seq<Fired>>): (r: seq<Fired>)
    ensures |r| == if parts == [] then 0 else |Concat(parts[..|parts| - 1])| + |parts[|parts| - 1]|
  {
    if parts == [] then [] else Concat(parts[..|parts| - 1]) + parts[|parts| - 1]
  }

  /**
   * A split of a trace into one part per member of a buffer: `steps[i]` is a
   * set of cancelled tokens before part `i`, and `parts[i]` a run of
   * callbacks. Every callback of `parts[i]` belongs to a token that is
   * cancelled between `steps[i]` and `steps[i + 1]`, member `i` is cancelled
   * by `steps[i + 1]`, and a member already cancelled (or a sentinel) has an
   * empty part. The split is chosen by whoever builds it, so it does not by
   * itself fix the order of the trace; `QuietTrace` does, for quiet buffers.
   */
  ghost predicate InOrder(members: seq<Token>, parts: seq<seq<Fired>>, steps: seq<set<Token>>)
  {
    && |parts| == |members| && |steps| == |members| + 1
    && forall i :: 0 <= i < |members| ==>
         && steps[i] <= steps[i + 1]
         && NewlyCancelled(parts[i], steps[i], steps[i + 1])
         && (members[i] != Fixed(Sentinels.Uncancelled) ==> members[i] in steps[i + 1])
         && (members[i] in steps[i] || members[i].Fixed? ==> parts[i] == [])
  }

  /**
   * The step-by-step trace adds up to the whole: every callback of the
   * concatenated trace belongs to a token cancelled between the first and
   * the last step, and every member that can be cancelled ends cancelled.
   */
  lemma {:induction false} InOrderCovers(members: seq<Token>, parts: seq<seq<Fired>>, steps: seq<set<Token>>)
    requires InOrder(members, parts, steps)
    ensures steps[0] <= steps[|members|]
    ensures NewlyCancelled(Concat(parts), steps[0], steps[|members|])
    ensures forall m :: m in members && m != Fixed(Sentinels.Uncancelled) ==> m in steps[|members|]
  {
    if members != [] {
      var n := |members| - 1;
      var ms, ps, ss := members[..n], parts[..n], steps[..n + 1];
      assert InOrder(ms, ps, ss) by {
        forall i | 0 <= i < n
          ensures ss[i] <= ss[i + 1] && NewlyCancelled(ps[i], ss[i], ss[i + 1])
          ensures ms[i] != Fixed(Sentinels.Uncancelled) ==> ms[i] in ss[i + 1]
          ensures ms[i] in ss[i] || ms[i].Fixed? ==> ps[i] == []
        {
          assert ms[i] == members[i] && ps[i] == parts[i] && ss[i] == steps[i] && ss[i + 1] == steps[i + 1];
        }
      }
      InOrderCovers(ms, ps, ss);
      assert steps[n] <= steps[n + 1];
      forall f | f in Concat(parts)
        ensures NewlyCancelledAt(f, steps[0], steps[n + 1])
      {
        if f in Concat(ps) {
        } else {
          assert f in parts[n];
        }
      }
      forall m | m in members && m != Fixed(Sentinels.Uncancelled)
        ensures m in steps[n + 1]
      {
        if m !in ms {
          assert m == members[n];
        } else {
          var i :| 0 <= i < n && ms[i] == m;
          assert members[i] == m;
          assert m in ss[n];
        }
      }
    }
  }

  lemma InOrderSnoc(members: seq<Token>, parts: seq<seq<Fired>>, steps: seq<set<Token>>,
                    m: Token, f: seq<Fired>, after: set<Token>)
    requires InOrder(members, parts, steps) && steps[|members|] <= after
    requires NewlyCancelled(f, steps[|members|], after)
    requires m != Fixed(Sentinels.Uncancelled) ==> m in after
    requires m in steps[|members|] || m.Fixed? ==> f == []
    ensures InOrder(members + [m], parts + [f], steps + [after])
  {
    var ms, ps, ss := members + [m], parts + [f], steps + [after];
    forall i | 0 <= i < |ms|
      ensures ss[i] <= ss[i + 1] && NewlyCancelled(ps[i], ss[i], ss[i + 1])
      ensures ms[i] != Fixed(Sentinels.Uncancelled) ==> ms[i] in ss[i + 1]
      ensures ms[i] in ss[i] || ms[i].Fixed? ==> ps[i] == []
    {
      if i < |members| {
        assert ms[i] == members[i] && ps[i] == parts[i] && ss[i] == steps[i] && ss[i + 1] == steps[i + 1];
      }
    }
  }

  /** Members cancelled before stay cancelled, and the one just cancelled joins them. */
  lemma CancelledPrefix(members: seq<Token>, i: nat, before: set<Token>, after: set<Token>)
    requires i < |members| && before <= after
    requires forall j :: 0 <= j < i && members[j] != Fixed(Sentinels.Uncancelled) ==> members[j] in before
    requires members[i] != Fixed(Sentinels.Uncancelled) ==> members[i] in after
    ensures forall j :: 0 <= j < i + 1 && members[j] != Fixed(Sentinels.Uncancelled) ==> members[j] in after
  {
  }

  class LinkedCancellable {
    var events: map<string, seq<Listener>>
    const origin: BooleanCancellable
    var link: Token
    var listener: Option<Subscription>

    /** A fresh linked token owns a fresh Boolean origin and is unlinked: `link == origin`. */
    constructor ()
      ensures events == NewEvents() && fresh(origin)
      ensures origin.events == NewEvents() && origin.state == Sentinels.Uncancelled
      ensures link == Boolean(origin) && listener == None
      ensures !IsCancelled(Linked(this))
    {
      events := NewEvents();
      var created := new BooleanCancellable();
      origin := created;
      link := Boolean(created);
      listener := None;
    }

    /**
     * `cancel()`: the first call drops the link (taking the subscription off
     * the peer, so the peer's dispatch does not come back here), cancels the
     * peer, cancels the origin and dispatches its own `cancel` listeners.
     *
     * A cascade can re-enter a linked token between the unlink and the flip of
     * its origin, and the token's listeners then run twice; what is promised
     * is that the trace ends with one full run of its final listener list.
     */
    method Cancel(ghost U: set<Token>) returns (r: bool, ghost fired: seq<Fired>)
      requires Linked(this) in U && Closed(U)
      modifies Objs(U)
      decreases Live(U), 4
      ensures Closed(U) && Follows(old(Snap(U)), Snap(U))
      ensures r == !old(IsCancelled(Linked(this)))
      ensures IsCancelled(Linked(this))
      ensures !r ==> fired == [] && unchanged(Objs(U))
      ensures r ==> link == Boolean(origin) && listener == None
      ensures r && old(link) != Fixed(Sentinels.Uncancelled) ==> old(link) in CancelledIn(U)
      ensures NewlyCancelled(fired, old(CancelledIn(U)), CancelledIn(U))
      ensures r ==> IsSuffix(CallbackIds(CancelListeners(Linked(this))), IdsBy(fired, Linked(this)))
      ensures r ==> SubscribersCancelled(CancelListeners(Linked(this)), CancelledIn(U))
      ensures r && old(link).Boolean? && old(link) != Boolean(origin) ==>
                old(listener).Some?
                && CancelListeners(old(link))
                   == (if old(IsCancelled(link)) then old(CancelListeners(link))
                       else RemoveFirst(old(CancelListeners(link)), Subscribe(old(listener).value)))
    {
      if !IsCancelled(Linked(this)) {
        var peer := link;
        fired := [];
        assert Wired(Linked(this), U);
        assert Boolean(origin) in old(Live(U));
        if Boolean(origin) != peer {
          var _ := Unlink(U);
          ghost var unlinked := Snap(U);
          ghost var dropped := CancelListeners(peer);
          var _, f := CancelToken(peer, U);
          ghost var peerFrozen := Snap(U);
          if peer.Boolean? {
            assert peerFrozen.frozen[peer] == dropped;
          }
          FollowsTransitive(old(Snap(U)), unlinked, Snap(U));
          NewlyCancelledConcat(fired, f, old(CancelledIn(U)), unlinked.cancelled, CancelledIn(U));
          fired := f;
          // `LINK.set(this, origin)`: the link already is the origin, since
          // `unlink` reset it and nothing in a cascade links again.
          assert Linked(this) !in Live(U);
          assert Wired(Linked(this), U);
        }
        ghost var peerDone := Snap(U);
        var _, f1 := origin.Cancel(U);
        FollowsTransitive(old(Snap(U)), peerDone, Snap(U));
        NewlyCancelledConcat(fired, f1, old(CancelledIn(U)), peerDone.cancelled, CancelledIn(U));
        fired := fired + f1;
        assert Boolean(origin) !in Live(U);
        ghost var flipped := Snap(U);
        var f2 := Dispatch(Linked(this), U);
        FollowsTransitive(old(Snap(U)), flipped, Snap(U));
        if old(link).Boolean? && old(link) != Boolean(origin) {
          assert flipped.frozen[old(link)] == peerDone.frozen[old(link)];
          assert Snap(U).frozen[old(link)] == flipped.frozen[old(link)];
        }
        DispatchTrace(f2, Linked(this), old(CancelledIn(U)), flipped.cancelled, CancelledIn(U));
        NewlyCancelledConcat(fired, f2, old(CancelledIn(U)), old(CancelledIn(U)), CancelledIn(U));
        IdsBySuffix(fired, f2, Linked(this));
        fired := fired + f2;
        assert Linked(this) !in Live(U);
        assert Wired(Linked(this), U);
        r := true;
      } else {
        r := false;
        fired := [];
      }
    }

    /**
     * `link(cancellable)`: refuses a non-token or itself; if this token is
     * cancelled it cancels the argument, if the argument is cancelled it
     * cancels this token (both report false); otherwise it drops the previous
     * link, records the new peer and subscribes exactly once on it.
     * The origin is private to the token, so it is never the argument.
     */
    method Link(other: Option<Token>, ghost U: set<Token>) returns (r: bool)
      requires Linked(this) in U && Closed(U)
      requires other.Some? ==> other.value in U && other.value != Boolean(origin)
      modifies Objs(U)
      ensures Closed(U)
      ensures r <==> other.Some? && other.value != Linked(this)
                     && !old(IsCancelled(Linked(this))) && !old(IsCancelled(other.value))
      ensures other.None? || other == Some(Linked(this)) ==> unchanged(Objs(U))
      ensures (other.Some? && other.value != Linked(this) && old(IsCancelled(Linked(this)))
                && other.value != Fixed(Sentinels.Uncancelled)) ==> IsCancelled(other.value)
      ensures (other.Some? && other.value != Linked(this) && old(IsCancelled(other.value)))
                ==> IsCancelled(Linked(this))
      ensures !r ==> Follows(old(Snap(U)), Snap(U))
      ensures r ==> link == other.value && listener.Some? && fresh(listener.value)
                    && listener.value.owner == this && events == old(events)
                    && CancelledIn(U) == old(CancelledIn(U))
                    && unchanged(Objs(U) - {this} - Obj(old(link)) - Obj(other.value))
      ensures r && old(link) != other.value && old(link) != Boolean(origin) && !old(link).Fixed? ==>
                old(listener).Some?
                && CancelListeners(old(link))
                   == (if old(IsCancelled(link)) then old(CancelListeners(link))
                       else RemoveFirst(old(CancelListeners(link)), Subscribe(old(listener).value)))
      ensures r && !other.value.Fixed? ==>
                CancelListeners(other.value) ==
                  (if old(link) == other.value && old(listener).Some?
                   then RemoveFirst(old(CancelListeners(other.value)), Subscribe(old(listener).value))
                   else old(CancelListeners(other.value)))
                  + [Subscribe(listener.value)]
    {
      if other.Some? && other.value != Linked(this) {
        var peer := other.value;
        if IsCancelled(Linked(this)) {
          var _, _ := CancelToken(peer, U);
        } else if IsCancelled(peer) {
          var _, _ := Cancel(U);
        } else {
          assert Wired(Linked(this), U);
          Relink(peer, U);
          return true;
        }
      }
      return false;
    }

    /**
     * The successful branch of `link`: drop the previous link, record the
     * peer, and subscribe a fresh `() => this.cancel()` on it. Only this
     * token, its previous peer and the new peer are touched.
     */
    method Relink(peer: Token, ghost U: set<Token>)
      requires Linked(this) in U && Closed(U) && peer in U
      requires peer != Linked(this) && peer != Boolean(origin)
      requires !IsCancelled(Linked(this)) && !IsCancelled(peer)
      modifies this, Obj(link), Obj(peer)
      ensures Closed(U) && CancelledIn(U) == old(CancelledIn(U))
      ensures link == peer && listener.Some? && fresh(listener.value) && listener.value.owner == this
      ensures events == old(events)
      ensures old(link) != peer && old(link) != Boolean(origin) && !old(link).Fixed? ==>
                old(listener).Some?
                && CancelListeners(old(link))
                   == (if old(IsCancelled(link)) then old(CancelListeners(link))
                       else RemoveFirst(old(CancelListeners(link)), Subscribe(old(listener).value)))
      ensures !peer.Fixed? ==>
                CancelListeners(peer) ==
                  (if old(link) == peer && old(listener).Some?
                   then RemoveFirst(old(CancelListeners(peer)), Subscribe(old(listener).value))
                   else old(CancelListeners(peer)))
                  + [Subscribe(listener.value)]
    {
      ghost var kept := if link == peer && listener.Some?
                        then RemoveFirst(CancelListeners(peer), Subscribe(listener.value))
                        else CancelListeners(peer);
      ghost var previous := link;
      assert Wired(Linked(this), U);
      assert events.Keys == {CancelKey} && SubscribersIn(events[CancelKey], U);
      assert peer !in CancelledIn(U);
      label Start:
      var sub := new Subscription(this);
      NothingChanged@Start(U);
      var _ := Unlink(U);
      assert !peer.Fixed? ==> CancelListeners(peer) == kept;
      assert peer !in CancelledIn(U);
      assert link == Boolean(origin) && listener.None?;
      Attach(peer, sub, U);
    }

    /**
     * The end of a successful `link`, once the previous link is dropped:
     * record the peer and append the subscription to the peer's `cancel`
     * listeners.
     */
    method Attach(peer: Token, sub: Subscription, ghost U: set<Token>)
      requires Linked(this) in U && Closed(U) && peer in U && peer != Linked(this) && peer != Boolean(origin)
      requires !IsCancelled(peer) && link == Boolean(origin) && listener.None? && sub.owner == this
      modifies this, Obj(peer)
      ensures Closed(U) && CancelledIn(U) == old(CancelledIn(U))
      ensures link == peer && listener == Some(sub) && events == old(events)
      ensures !peer.Fixed? ==> CancelListeners(peer) == old(CancelListeners(peer)) + [Subscribe(sub)]
      ensures forall t {:trigger CancelListeners(t)} :: t in U && t != peer && t != Linked(this) ==>
                CancelListeners(t) == old(CancelListeners(t))
    {
      assert Wired(Linked(this), U);
      assert events.Keys == {CancelKey} && SubscribersIn(events[CancelKey], U);
      label Start:
      AddEventListener(peer, CancelKey, Some(Subscribe(sub)), U);
      forall t | t in U && t != peer
        ensures CancelListeners(t) == old(CancelListeners(t))
      {
        ObjsDisjoint(peer, t);
      }
      assert events == old(events);
      label Subscribed:
      link := peer;
      listener := Some(sub);
      assert Wired(Linked(this), U);
      OnlyThisChanged@Subscribed(Update(U, Linked(this)));
      LinkFieldsKeepCancelled@Subscribed(Update(U, Linked(this)));
    }

    /**
     * `unlink()`: refused when cancelled or unlinked; otherwise takes the
     * subscription off the peer and resets `link` to the origin.
     */
    method Unlink(ghost U: set<Token>) returns (r: bool)
      requires Linked(this) in U && Closed(U)
      modifies this, Obj(link)
      ensures Closed(U) && Follows(old(Snap(U)), Snap(U))
      ensures CancelledIn(U) == old(CancelledIn(U))
      ensures r <==> !old(IsCancelled(Linked(this))) && old(link) != Boolean(origin)
      ensures !r ==> unchanged(this, Obj(old(link)))
      ensures r ==> link == Boolean(origin) && listener == None && events == old(events)
                    && Live(U) == old(Live(U)) - {Linked(this)}
      ensures r && !old(link).Fixed? ==>
                old(listener).Some?
                && CancelListeners(old(link))
                   == (if old(IsCancelled(link)) then old(CancelListeners(link))
                       else RemoveFirst(old(CancelListeners(link)), Subscribe(old(listener).value)))
      ensures forall t {:trigger CancelListeners(t)} :: t in U && t != old(link) && t != Linked(this) ==>
                CancelListeners(t) == old(CancelListeners(t))
    {
      if !IsCancelled(Linked(this)) {
        var peer := link;
        if Boolean(origin) != peer {
          Detach(U);
          return true;
        }
      }
      return false;
    }

    /** The successful branch of `unlink`. */
    method Detach(ghost U: set<Token>)
      requires Linked(this) in U && Closed(U)
      requires !IsCancelled(Linked(this)) && link != Boolean(origin)
      modifies this, Obj(link)
      ensures Closed(U) && Follows(old(Snap(U)), Snap(U))
      ensures CancelledIn(U) == old(CancelledIn(U))
      ensures link == Boolean(origin) && listener == None && events == old(events)
      ensures Live(U) == old(Live(U)) - {Linked(this)}
      ensures !old(link).Fixed? ==>
                old(listener).Some?
                && CancelListeners(old(link))
                   == (if old(IsCancelled(link)) then old(CancelListeners(link))
                       else RemoveFirst(old(CancelListeners(link)), Subscribe(old(listener).value)))
      ensures forall t {:trigger CancelListeners(t)} :: t in U && t != old(link) && t != Linked(this) ==>
                CancelListeners(t) == old(CancelListeners(t))
    {
      var peer := link;
      assert Wired(Linked(this), U);
      var sub := listener.value;
      RemoveEventListener(peer, CancelKey, Some(Subscribe(sub)), U);
      forall t | t in U && t != peer
        ensures CancelListeners(t) == old(CancelListeners(t))
      {
        ObjsDisjoint(peer, t);
      }
      label Removed:
      listener := None;
      link := Boolean(origin);
      UnlinkFields@Removed(Update(U, Linked(this)));
      OnlyThisChanged@Removed(Update(U, Linked(this)));
      FollowsTransitive(old(Snap(U)), old@Removed(Snap(U)), Snap(U));
    }
  }

  /**
   * `c.link(b); b.cancel()` with `b` a Boolean token: when the link
   * succeeds, the peer's `cancel` succeeds and its dispatch runs the
   * subscription, so the linked token ends cancelled. When the link fails
   * because one side is already cancelled, the other side is cancelled by
   * `link` itself. Either way both end cancelled.
   */
  method LinkThenCancelPeer(c: LinkedCancellable, b: BooleanCancellable, ghost U: set<Token>)
    returns (linked: bool, peerCancelled: bool)
    requires Linked(c) in U && Boolean(b) in U && Closed(U) && b != c.origin
    modifies Objs(U)
    ensures Closed(U)
    ensures linked <==> !old(IsCancelled(Linked(c))) && !old(IsCancelled(Boolean(b)))
    ensures linked ==> peerCancelled
    ensures IsCancelled(Linked(c)) && IsCancelled(Boolean(b))
  {
    ghost var before := CancelledIn(U);
    linked := c.Link(Some(Boolean(b)), U);
    if linked {
      assert Boolean(b) !in before && Boolean(b) !in CancelledIn(U);
    }
    ghost var subscribed := CancelListeners(Boolean(b));
    ghost var sub := c.listener;
    if linked {
      assert Subscribe(sub.value) in subscribed;
    }
    ghost var mid := Snap(U);
    ghost var fired;
    peerCancelled, fired := b.Cancel(U);
    if !linked {
      assert Linked(c) in mid.cancelled;
      FollowsSticky(mid, Snap(U), Linked(c));
    }
  }

  /**
   * `link` is not a cascade step: linking an unlinked token makes it live
   * again, which no `cancel` ever does.
   */
  method LinkRevives(c: LinkedCancellable, peer: Token, ghost U: set<Token>) returns (linked: bool)
    requires Linked(c) in U && peer in U && Closed(U) && peer != Boolean(c.origin)
    requires c.link == Boolean(c.origin)
    modifies Objs(U)
    ensures linked <==> peer != Linked(c) && !old(IsCancelled(Linked(c))) && !old(IsCancelled(peer))
    ensures linked ==> Linked(c) in Live(U) && Linked(c) !in old(Live(U)) && !Follows(old(Snap(U)), Snap(U))
  {
    linked := c.Link(Some(peer), U);
  }

  // ---------------------------------------------------------------------
  // Reading a token, as the `cancelled` getters do
  // ---------------------------------------------------------------------

  /** The token's own object; a sentinel has none that changes. */
  function Obj(t: Token): set<object>
  {
    match t
    case Fixed(_) => {}
    case Boolean(b) => {b}
    case Composite(c) => {c}
    case Linked(l) => {l}
  }

  /** The object whose state answers `cancelled`: a linked token asks its origin. */
  function StateObj(t: Token): set<object>
  {
    match t
    case Fixed(_) => {}
    case Boolean(b) => {b}
    case Composite(c) => {c}
    case Linked(l) => {l.origin}
  }

  /**
   * The `cancelled` getter of each kind of token: a sentinel's fixed answer,
   * whether the state sentinel is CANCELLED, and for a linked token the
   * answer of its private origin.
   */
  function IsCancelled(t: Token): (c: bool)
    reads StateObj(t)
    ensures t.Fixed? ==> (c <==> t.sentinel == Sentinels.Cancelled)
    ensures t.Boolean? ==> (c <==> !IsLive(t))
    ensures t.Composite? ==> (c <==> t.c.state == Sentinels.Cancelled)
    ensures t.Linked? ==> (c <==> t.l.origin.state == Sentinels.Cancelled)
  {
    match t
    case Fixed(s) => Sentinels.IsCancelled(s)
    case Boolean(b) => Sentinels.IsCancelled(b.state)
    case Composite(c) => Sentinels.IsCancelled(c.state)
    case Linked(l) => Sentinels.IsCancelled(l.origin.state)
  }

  /** The token's `events` map; the sentinels' registries are not stored. */
  function EventsOf(t: Token): map<string, seq<Listener>>
    reads Obj(t)
  {
    match t
    case Fixed(_) => NewEvents()
    case Boolean(b) => b.events
    case Composite(c) => c.events
    case Linked(l) => l.events
  }

  /** `events.cancel`. */
  function CancelListeners(t: Token): seq<Listener>
    reads Obj(t)
  {
    var events := EventsOf(t);
    if CancelKey in events then events[CancelKey] else []
  }

  // ---------------------------------------------------------------------
  // The base class's listener methods, on each kind of token
  // ---------------------------------------------------------------------

  /** `addEventListener(ev, listener)` on token `t`, guarded by `t`'s own `cancelled` getter. */
  method AddEventListener(t: Token, ev: string, listener: Option<Listener>, ghost U: set<Token>)
    requires t in U && Closed(U)
    requires listener.Some? && listener.value.Subscribe? ==> Linked(listener.value.sub.owner) in U
    modifies Obj(t)
    ensures Closed(U) && Follows(old(Snap(U)), Snap(U))
    ensures Live(U) == old(Live(U)) && CancelledIn(U) == old(CancelledIn(U))
    ensures !t.Fixed? ==> EventsOf(t) == AddListener(old(EventsOf(t)), old(IsCancelled(t)), ev, listener)
    ensures (!t.Fixed? && ev == CancelKey && listener.Some? && !old(IsCancelled(t))) ==>
              CancelListeners(t) == old(CancelListeners(t)) + [listener.value]
    ensures t.Fixed? || old(IsCancelled(t)) ==> unchanged(Obj(t))
    ensures OnlyEventsChanged(t)
  {
    assert Wired(t, U);
    match t {
      case Fixed(_) =>
      case Boolean(b) => b.events := AddListener(b.events, IsCancelled(t), ev, listener);
      case Composite(c) => c.events := AddListener(c.events, IsCancelled(t), ev, listener);
      case Linked(l) => l.events := AddListener(l.events, IsCancelled(t), ev, listener);
    }
    EventsChanged(Update(U, t));
  }

  /** `removeEventListener(ev, listener)` on token `t`. */
  method RemoveEventListener(t: Token, ev: string, listener: Option<Listener>, ghost U: set<Token>)
    requires t in U && Closed(U)
    modifies Obj(t)
    ensures Closed(U) && Follows(old(Snap(U)), Snap(U))
    ensures Live(U) == old(Live(U)) && CancelledIn(U) == old(CancelledIn(U))
    ensures !t.Fixed? ==> EventsOf(t) == RemoveListener(old(EventsOf(t)), old(IsCancelled(t)), ev, listener)
    ensures (!t.Fixed? && ev == CancelKey && listener.Some? && !old(IsCancelled(t))) ==>
              CancelListeners(t) == RemoveFirst(old(CancelListeners(t)), listener.value)
    ensures t.Fixed? || old(IsCancelled(t)) ==> unchanged(Obj(t))
    ensures OnlyEventsChanged(t)
  {
    assert Wired(t, U);
    match t {
      case Fixed(_) =>
      case Boolean(b) => b.events := RemoveListener(b.events, IsCancelled(t), ev, listener);
      case Composite(c) => c.events := RemoveListener(c.events, IsCancelled(t), ev, listener);
      case Linked(l) => l.events := RemoveListener(l.events, IsCancelled(t), ev, listener);
    }
    EventsChanged(Update(U, t));
  }

  // ---------------------------------------------------------------------
  // Cancelling any token, and dispatching
  // ---------------------------------------------------------------------

  /**
   * `t.cancel()` on a token of any kind: true exactly for the call that
   * makes the token cancelled; a sentinel never transitions; afterwards every
   * token but UNCANCELLED answers `cancelled`.
   */
  method CancelToken(t: Token, ghost U: set<Token>) returns (r: bool, ghost fired: seq<Fired>)
    requires t in U && Closed(U)
    modifies Objs(U)
    decreases Live(U), 5
    ensures Closed(U) && Follows(old(Snap(U)), Snap(U))
    ensures r == (!t.Fixed? && !old(IsCancelled(t)))
    ensures t != Fixed(Sentinels.Uncancelled) ==> IsCancelled(t)
    ensures !r ==> fired == [] && unchanged(Objs(U))
    ensures NewlyCancelled(fired, old(CancelledIn(U)), CancelledIn(U))
    ensures t.Boolean? ==> CancelListeners(t) == old(CancelListeners(t))
    ensures t.Boolean? && r && OnlyCallbacks(old(CancelListeners(t))) ==>
              fired == CallbackFires(t, old(CancelListeners(t))) && OthersUnchanged(U, t)
  {
    match t
    case Fixed(s) =>
      r := Sentinels.Cancel(s).0;
      fired := [];
    case Boolean(b) =>
      r, fired := b.Cancel(U);
    case Composite(c) =>
      ghost var parts, steps;
      r, fired, parts, steps := c.Cancel(U);
    case Linked(l) =>
      r, fired := l.Cancel(U);
  }

  /**
   * `dispatch(t, 'cancel')`: `forEach` over the token's `cancel` list, which
   * visits the indices below the length the list had at the start and reads
   * each entry from the list as it is at that moment.
   */
  method Dispatch(t: Token, ghost U: set<Token>) returns (ghost fired: seq<Fired>)
    requires t in U && Closed(U) && !t.Fixed?
    modifies Objs(U)
    decreases Live(U), 10
    ensures Closed(U) && Follows(old(Snap(U)), Snap(U))
    ensures forall f :: f in fired ==> f.source == t || NewlyCancelledAt(f, old(CancelledIn(U)), CancelledIn(U))
    ensures old(IsCancelled(t)) || OnlyCallbacks(old(CancelListeners(t))) ==>
              IdsBy(fired, t) == CallbackIds(old(CancelListeners(t)))
    ensures old(IsCancelled(t)) ==> SubscribersCancelled(old(CancelListeners(t)), CancelledIn(U))
    ensures OnlyCallbacks(old(CancelListeners(t))) ==>
              Snap(U) == old(Snap(U)) && CancelListeners(t) == old(CancelListeners(t)) && NoneChanged(U)
              && fired == CallbackFires(t, old(CancelListeners(t)))
  {
    var listeners := CancelListeners(t);
    ghost var start := Snap(U);
    ghost var wasCancelled := IsCancelled(t);
    if wasCancelled {
      SnapFrozen(U, t);
    }
    fired := DispatchLoop(t, listeners, U, start, wasCancelled, OnlyCallbacks(listeners));
  }

  /** The loop of `dispatch` over the list `listeners` it found, from the state `start`. */
  method DispatchLoop(t: Token, listeners: seq<Listener>, ghost U: set<Token>, ghost start: Snapshot,
                      ghost wasCancelled: bool, ghost pure: bool)
    returns (ghost fired: seq<Fired>)
    requires t in U && Closed(U) && !t.Fixed? && start == Snap(U)
    requires wasCancelled ==> t in start.frozen && start.frozen[t] == listeners
    requires pure == OnlyCallbacks(listeners)
    requires pure ==> CancelListeners(t) == listeners
    modifies Objs(U)
    decreases Live(U), 9
    ensures Closed(U) && Follows(start, Snap(U))
    ensures forall f :: f in fired ==> f.source == t || NewlyCancelledAt(f, start.cancelled, CancelledIn(U))
    ensures wasCancelled || pure ==> IdsBy(fired, t) == CallbackIds(listeners)
    ensures wasCancelled ==> SubscribersCancelled(listeners, CancelledIn(U))
    ensures pure ==> Snap(U) == start && CancelListeners(t) == listeners && NoneChanged(U)
                     && fired == CallbackFires(t, listeners)
  {
    var n := |listeners|;
    fired := [];
    var k := 0;
    while k < n
      invariant 0 <= k <= n
      invariant Closed(U) && Follows(start, Snap(U))
      invariant forall f :: f in fired ==> f.source == t || NewlyCancelledAt(f, start.cancelled, CancelledIn(U))
      invariant wasCancelled ==> IdsBy(fired, t) == CallbackIds(listeners[..k])
      invariant wasCancelled ==> SubscribersCancelled(listeners[..k], CancelledIn(U))
      invariant pure ==> Snap(U) == start && CancelListeners(t) == listeners && NoneChanged(U)
                         && fired == CallbackFires(t, listeners[..k])
    {
      fired := DispatchStep(t, listeners, k, U, start, wasCancelled, pure, fired);
      k := k + 1;
    }
    assert listeners[..n] == listeners;
    if pure {
      IdsByCallbackFires(t, listeners);
    }
  }

  /**
   * One iteration of the `forEach` in `dispatch`: the list is re-read and a
   * listener that is still at index `k` is applied. `listeners` is the list
   * as the dispatch found it; `fired` is the trace so far. A cancelled token's
   * list is frozen, and so is a list of callbacks only, which change nothing.
   */
  method DispatchStep(t: Token, listeners: seq<Listener>, k: nat, ghost U: set<Token>, ghost start: Snapshot,
                      ghost wasCancelled: bool, ghost pure: bool, ghost fired: seq<Fired>)
    returns (ghost next: seq<Fired>)
    requires t in U && Closed(U) && !t.Fixed? && k < |listeners| && Follows(start, Snap(U))
    requires forall f :: f in fired ==> f.source == t || NewlyCancelledAt(f, start.cancelled, CancelledIn(U))
    requires wasCancelled ==> t in start.frozen && start.frozen[t] == listeners
    requires wasCancelled ==> IdsBy(fired, t) == CallbackIds(listeners[..k])
    requires wasCancelled ==> SubscribersCancelled(listeners[..k], CancelledIn(U))
    requires pure == OnlyCallbacks(listeners)
    requires pure ==> Snap(U) == start && CancelListeners(t) == listeners && fired == CallbackFires(t, listeners[..k])
    modifies Objs(U)
    decreases Live(U), 8
    ensures Closed(U) && Follows(start, Snap(U))
    ensures forall f :: f in next ==> f.source == t || NewlyCancelledAt(f, start.cancelled, CancelledIn(U))
    ensures wasCancelled ==> IdsBy(next, t) == CallbackIds(listeners[..k + 1])
    ensures wasCancelled ==> SubscribersCancelled(listeners[..k + 1], CancelledIn(U))
    ensures pure ==> Snap(U) == start && CancelListeners(t) == listeners && NoneChanged(U)
                     && next == CallbackFires(t, listeners[..k + 1])
  {
    // Both branches make the same call; a list of callbacks only is proved apart.
    if OnlyCallbacks(listeners) {
      next := CallbackStep(t, listeners, k, U, fired);
      CallbacksSubscribeNobody(listeners, k + 1, CancelledIn(U));
      if wasCancelled {
        IdsByCallbackFires(t, listeners[..k + 1]);
      }
      return;
    }
    next := NotifyStep(t, listeners, k, U, start, wasCancelled, fired);
  }

  /**
   * A step of a dispatch whose list may hold subscriptions: the list is
   * re-read, and the listener still at index `k`, if any, is notified.
   */
  method NotifyStep(t: Token, listeners: seq<Listener>, k: nat, ghost U: set<Token>, ghost start: Snapshot,
                    ghost wasCancelled: bool, ghost fired: seq<Fired>)
    returns (ghost next: seq<Fired>)
    requires t in U && Closed(U) && !t.Fixed? && k < |listeners| && Follows(start, Snap(U))
    requires forall f :: f in fired ==> f.source == t || NewlyCancelledAt(f, start.cancelled, CancelledIn(U))
    requires wasCancelled ==> t in start.frozen && start.frozen[t] == listeners
    requires wasCancelled ==> IdsBy(fired, t) == CallbackIds(listeners[..k])
    requires wasCancelled ==> SubscribersCancelled(listeners[..k], CancelledIn(U))
    modifies Objs(U)
    decreases Live(U), 7
    ensures Closed(U) && Follows(start, Snap(U))
    ensures forall f :: f in next ==> f.source == t || NewlyCancelledAt(f, start.cancelled, CancelledIn(U))
    ensures wasCancelled ==> IdsBy(next, t) == CallbackIds(listeners[..k + 1])
    ensures wasCancelled ==> SubscribersCancelled(listeners[..k + 1], CancelledIn(U))
  {
    if wasCancelled {
      FrozenKept(U, t, start);
    }
    var current := CancelListeners(t);
    if k < |current| {
      assert Wired(t, U) && current[k] in current;
      ghost var before := Snap(U);
      var f := Notify(t, current[k], U);
      FollowsTransitive(start, before, Snap(U));
      if wasCancelled {
        assert current[k] == listeners[k];
        assert t in before.cancelled;
        StepIds(t, listeners, k, fired, f, before.cancelled, CancelledIn(U));
        SubscribersCancelledGrow(listeners, k, before.cancelled, CancelledIn(U));
      }
      TraceGrows(t, fired, f, start.cancelled, before.cancelled, CancelledIn(U));
      next := fired + f;
    } else {
      assert !wasCancelled;
      next := fired;
    }
  }

  /**
   * A step of a dispatch whose list holds callbacks only: the callback at
   * index `k` is recorded, and nothing in the heap changes.
   */
  method CallbackStep(t: Token, listeners: seq<Listener>, k: nat, ghost U: set<Token>, ghost fired: seq<Fired>)
    returns (ghost next: seq<Fired>)
    requires t in U && Closed(U) && k < |listeners|
    requires OnlyCallbacks(listeners) && CancelListeners(t) == listeners
    requires fired == CallbackFires(t, listeners[..k])
    modifies Objs(U)
    decreases Live(U), 7
    ensures Closed(U) && NoneChanged(U) && Snap(U) == old(Snap(U)) && CancelListeners(t) == listeners
    ensures next == fired + [Fired(t, listeners[k].id)]
    ensures next == CallbackFires(t, listeners[..k + 1])
  {
    var current := CancelListeners(t);
    assert current[k] in listeners;
    var f := Notify(t, current[k], U);
    next := fired + f;
    assert listeners[..k + 1] == listeners[..k] + [listeners[k]];
    CallbackFiresSnoc(t, listeners[..k], listeners[k]);
  }

  /** The listener at index `k` adds its own id to the calls made by `t`, or, cancelling another token, none. */
  lemma StepIds(t: Token, listeners: seq<Listener>, k: nat, fired: seq<Fired>, f: seq<Fired>,
                before: set<Token>, after: set<Token>)
    requires k < |listeners| && IdsBy(fired, t) == CallbackIds(listeners[..k])
    requires listeners[k].Callback? ==> f == [Fired(t, listeners[k].id)]
    requires listeners[k].Subscribe? ==> NewlyCancelled(f, before, after) && t in before
    ensures IdsBy(fired + f, t) == CallbackIds(listeners[..k + 1])
  {
    assert listeners[..k + 1] == listeners[..k] + [listeners[k]];
    CallbackIdsSnoc(listeners[..k], listeners[k]);
    if listeners[k].Callback? {
      IdsBySnoc(fired, Fired(t, listeners[k].id), t);
    } else {
      NotNewlyCancelled(f, before, after, t);
      IdsByOthers(fired, f, t);
    }
  }

  /**
   * One step of the dispatch, `f.apply(s)`: a callback is recorded in the
   * trace; a subscription cancels its linked token.
   */
  method Notify(t: Token, x: Listener, ghost U: set<Token>) returns (ghost fired: seq<Fired>)
    requires t in U && Closed(U)
    requires x.Subscribe? ==> Linked(x.sub.owner) in U
    modifies Objs(U)
    decreases Live(U), 6
    ensures Closed(U) && Follows(old(Snap(U)), Snap(U))
    ensures x.Callback? ==> fired == [Fired(t, x.id)] && unchanged(Objs(U))
    ensures x.Subscribe? ==> Linked(x.sub.owner) in CancelledIn(U)
                             && NewlyCancelled(fired, old(CancelledIn(U)), CancelledIn(U))
  {
    match x
    case Callback(id) =>
      fired := [Fired(t, id)];
    case Subscribe(sub) =>
      var _, f := CancelToken(Linked(sub.owner), U);
      fired := f;
  }

  // ---------------------------------------------------------------------
  // The universe of tokens and what a cascade may do to it
  // ---------------------------------------------------------------------

  /** The objects of the tokens in `U`, and the origins of its linked tokens. */
  ghost function Objs(U: set<Token>): set<object>
  {
    (set t | t in U && t.Boolean? :: t.b as object)
    + (set t | t in U && t.Composite? :: t.c as object)
    + (set t | t in U && t.Linked? :: t.l as object)
    + (set t | t in U && t.Linked? :: t.l.origin as object)
  }

  /** Everything a token points at is in `U`, and its fields agree with each other. */
  ghost predicate Wired(t: Token, U: set<Token>)
    reads Obj(t)
  {
    match t
    case Fixed(_) => true
    case Boolean(b) =>
      b.events.Keys == {CancelKey} && SubscribersIn(b.events[CancelKey], U)
    case Composite(c) =>
      && c.events.Keys == {CancelKey} && SubscribersIn(c.events[CancelKey], U)
      && (forall m :: m in c.buffer ==> m in U)
      && (c.state == Sentinels.Cancelled ==> c.buffer == [])
    case Linked(l) =>
      && l.events.Keys == {CancelKey} && SubscribersIn(l.events[CancelKey], U)
      && Boolean(l.origin) in U && l.link in U && l.link != Linked(l)
      && (l.link == Boolean(l.origin) <==> l.listener.None?)
  }

  ghost predicate SubscribersIn(listeners: seq<Listener>, U: set<Token>)
  {
    forall x :: x in listeners && x.Subscribe? ==> Linked(x.sub.owner) in U
  }

  ghost predicate Closed(U: set<Token>)
    reads Objs(U)
  {
    forall t {:trigger Wired(t, U)} :: t in U ==> Wired(t, U)
  }

  /** A token that a cascade can still make progress on. */
  predicate IsLive(t: Token)
    reads Obj(t)
  {
    match t
    case Fixed(_) => false
    case Boolean(b) => b.state == Sentinels.Uncancelled
    case Composite(c) => c.buffer != []
    case Linked(l) => l.link != Boolean(l.origin)
  }

  ghost function Live(U: set<Token>): set<Token>
    reads Objs(U)
  {
    set t | t in U && IsLive(t)
  }

  ghost function CancelledIn(U: set<Token>): set<Token>
    reads Objs(U)
  {
    set t | t in U && IsCancelled(t)
  }

  /** What a cascade is allowed to change, as values. */
  datatype Snapshot = Snapshot(
    live: set<Token>,
    cancelled: set<Token>,
    frozen: map<Token, seq<Listener>>,
    buffers: map<Token, seq<Token>>)

  ghost function Snap(U: set<Token>): Snapshot
    reads Objs(U)
  {
    Snapshot(
      Live(U),
      CancelledIn(U),
      map t | t in U && IsCancelled(t) :: CancelListeners(t),
      map t | t in U && t.Composite? :: t.c.buffer)
  }

  /**
   * `after` can follow `before` in a cascade: nothing becomes live again,
   * cancellation is monotonic, a cancelled token's listener list is frozen,
   * and a buffer is either untouched or drained.
   */
  ghost predicate Follows(before: Snapshot, after: Snapshot)
  {
    && after.live <= before.live
    && before.cancelled <= after.cancelled
    && (forall t :: t in before.frozen ==> t in after.frozen && after.frozen[t] == before.frozen[t])
    && (forall t :: t in before.buffers ==>
          t in after.buffers && (after.buffers[t] == before.buffers[t] || after.buffers[t] == []))
  }

  /**
   * The part of `Follows` that holds for any step, buffers aside: nothing
   * becomes live again, cancellation is monotonic and frozen lists stay.
   */
  ghost predicate Settles(before: Snapshot, after: Snapshot)
  {
    && after.live <= before.live
    && before.cancelled <= after.cancelled
    && (forall t :: t in before.frozen ==> t in after.frozen && after.frozen[t] == before.frozen[t])
  }

  lemma SettlesThenFollows(a: Snapshot, b: Snapshot, c: Snapshot)
    requires Settles(a, b) && Follows(b, c)
    ensures Settles(a, c)
  {
  }

  /** No object of `U` changed. */
  twostate predicate NoneChanged(U: set<Token>)
    reads Objs(U)
  {
    unchanged(Objs(U))
  }

  /** No object of `U` changed except those of `t`. */
  twostate predicate OthersUnchanged(U: set<Token>, t: Token)
    reads Objs(U)
  {
    unchanged(Objs(U) - Obj(t))
  }

  lemma FollowsSticky(a: Snapshot, b: Snapshot, t: Token)
    requires Follows(a, b) && t in a.cancelled
    ensures t in b.cancelled
  {
  }

  lemma FollowsTransitive(a: Snapshot, b: Snapshot, c: Snapshot)
    requires Follows(a, b) && Follows(b, c)
    ensures Follows(a, c)
  {
  }

  /** Which fields other than `events` a registry call must leave alone. */
  twostate predicate OnlyEventsChanged(t: Token)
    reads Obj(t)
  {
    match t
    case Fixed(_) => true
    case Boolean(b) => b.state == old(b.state)
    case Composite(c) => c.buffer == old(c.buffer) && c.state == old(c.state)
    case Linked(l) => l.link == old(l.link) && l.listener == old(l.listener)
  }

  // ---------------------------------------------------------------------
  // Traces
  // ---------------------------------------------------------------------

  /** The callback's token was cancelled by this call, and it is not a composite. */
  ghost predicate NewlyCancelledAt(f: Fired, before: set<Token>, after: set<Token>)
  {
    f.source !in before && f.source in after && !f.source.Composite?
  }

  /** Every callback in the trace belongs to a token this call cancelled (never to a composite). */
  ghost predicate NewlyCancelled(fired: seq<Fired>, before: set<Token>, after: set<Token>)
  {
    forall f :: f in fired ==> NewlyCancelledAt(f, before, after)
  }

  ghost predicate SubscribersCancelled(listeners: seq<Listener>, cancelled: set<Token>)
  {
    forall x :: x in listeners && x.Subscribe? ==> Linked(x.sub.owner) in cancelled
  }

  predicate OnlyCallbacks(listeners: seq<Listener>)
  {
    forall x :: x in listeners ==> x.Callback?
  }

  /** The ids of the callbacks in a listener list, in order. */
  function CallbackIds(listeners: seq<Listener>): seq<nat>
  {
    if listeners == [] then []
    else
      var last := listeners[|listeners| - 1];
      CallbackIds(listeners[..|listeners| - 1]) + (if last.Callback? then [last.id] else [])
  }

  /** The trace a dispatch leaves when its list holds callbacks only. */
  function CallbackFires(t: Token, listeners: seq<Listener>): seq<Fired>
  {
    if listeners == [] then []
    else
      var last := listeners[|listeners| - 1];
      CallbackFires(t, listeners[..|listeners| - 1]) + (if last.Callback? then [Fired(t, last.id)] else [])
  }

  /** The ids of token `t`'s callbacks in a trace, in order. */
  function IdsBy(fired: seq<Fired>, t: Token): seq<nat>
  {
    if fired == [] then []
    else
      var last := fired[|fired| - 1];
      IdsBy(fired[..|fired| - 1], t) + (if last.source == t then [last.id] else [])
  }

  lemma CallbackIdsSnoc(listeners: seq<Listener>, x: Listener)
    ensures CallbackIds(listeners + [x]) == CallbackIds(listeners) + (if x.Callback? then [x.id] else [])
  {
    assert (listeners + [x])[..|listeners|] == listeners;
  }

  lemma CallbackFiresSnoc(t: Token, listeners: seq<Listener>, x: Listener)
    ensures CallbackFires(t, listeners + [x]) == CallbackFires(t, listeners) + (if x.Callback? then [Fired(t, x.id)] else [])
  {
    assert (listeners + [x])[..|listeners|] == listeners;
  }

  /** The ids a callbacks-only trace records for its token are the list's callback ids. */
  lemma {:induction false} IdsByCallbackFires(t: Token, listeners: seq<Listener>)
    ensures IdsBy(CallbackFires(t, listeners), t) == CallbackIds(listeners)
    decreases |listeners|
  {
    if listeners != [] {
      var n := |listeners| - 1;
      var last := listeners[n];
      var tail := if last.Callback? then [Fired(t, last.id)] else [];
      IdsByCallbackFires(t, listeners[..n]);
      IdsByAppend(CallbackFires(t, listeners[..n]), tail, t);
      if last.Callback? {
        IdsBySnoc([], Fired(t, last.id), t);
      }
    }
  }

  lemma IdsBySnoc(fired: seq<Fired>, x: Fired, t: Token)
    ensures IdsBy(fired + [x], t) == IdsBy(fired, t) + (if x.source == t then [x.id] else [])
  {
    assert (fired + [x])[..|fired|] == fired;
  }

  predicate IsSuffix<T(==)>(s: seq<T>, of: seq<T>)
  {
    |s| <= |of| && of[|of| - |s|..] == s
  }

  lemma SnapFrozen(U: set<Token>, t: Token)
    requires t in U && IsCancelled(t)
    ensures t in Snap(U).frozen && Snap(U).frozen[t] == CancelListeners(t)
  {
  }

  /** A token frozen in an earlier snapshot is still cancelled, with the same listener list. */
  lemma FrozenKept(U: set<Token>, t: Token, a: Snapshot)
    requires t in a.frozen && Follows(a, Snap(U))
    ensures t in U && IsCancelled(t) && CancelListeners(t) == a.frozen[t]
  {
    assert t in Snap(U).frozen;
  }

  lemma CallbacksSubscribeNobody(listeners: seq<Listener>, j: nat, cancelled: set<Token>)
    requires OnlyCallbacks(listeners) && j <= |listeners|
    ensures SubscribersCancelled(listeners[..j], cancelled)
  {
    forall x | x in listeners[..j] ensures x.Callback? {
      assert x in listeners;
    }
  }

  lemma SubscribersCancelledGrow(listeners: seq<Listener>, k: nat, c1: set<Token>, c2: set<Token>)
    requires k < |listeners| && SubscribersCancelled(listeners[..k], c1) && c1 <= c2
    requires listeners[k].Subscribe? ==> Linked(listeners[k].sub.owner) in c2
    ensures SubscribersCancelled(listeners[..k + 1], c2)
  {
    assert listeners[..k + 1] == listeners[..k] + [listeners[k]];
  }

  lemma NewlyCancelledConcat(a: seq<Fired>, b: seq<Fired>, c0: set<Token>, c1: set<Token>, c2: set<Token>)
    requires c0 <= c1 <= c2
    requires NewlyCancelled(a, c0, c1) || NewlyCancelled(a, c0, c2)
    requires NewlyCancelled(b, c1, c2)
    ensures NewlyCancelled(a + b, c0, c2)
  {
  }

  /** A dispatch of a token cancelled by the enclosing call only adds to what that call newly cancelled. */
  lemma DispatchTrace(fired: seq<Fired>, t: Token, c0: set<Token>, c1: set<Token>, c2: set<Token>)
    requires c0 <= c1 <= c2 && t !in c0 && t in c1 && !t.Composite?
    requires forall f :: f in fired ==> f.source == t || NewlyCancelledAt(f, c1, c2)
    ensures NewlyCancelled(fired, c0, c2)
  {
  }

  /** A token that was already cancelled contributes nothing to a trace of newly cancelled tokens. */
  /** A trace of `t` and newly cancelled tokens stays one when a later step's part is appended. */
  lemma TraceGrows(t: Token, fired: seq<Fired>, part: seq<Fired>, c0: set<Token>, c1: set<Token>, c2: set<Token>)
    requires c0 <= c1 <= c2
    requires forall f :: f in fired ==> f.source == t || NewlyCancelledAt(f, c0, c1)
    requires forall f :: f in part ==> f.source == t || NewlyCancelledAt(f, c1, c2)
    ensures forall f :: f in fired + part ==> f.source == t || NewlyCancelledAt(f, c0, c2)
  {
  }

  lemma NotNewlyCancelled(fired: seq<Fired>, before: set<Token>, after: set<Token>, t: Token)
    requires NewlyCancelled(fired, before, after) && t in before
    ensures forall f :: f in fired ==> f.source != t
  {
  }

  lemma {:induction false} IdsByOthers(a: seq<Fired>, b: seq<Fired>, t: Token)
    requires forall f :: f in b ==> f.source != t
    ensures IdsBy(a + b, t) == IdsBy(a, t)
    decreases |b|
  {
    if b == [] {
      assert a + b == a;
    } else {
      var b' := b[..|b| - 1];
      assert (a + b)[..|a + b| - 1] == a + b';
      assert b[|b| - 1] in b;
      IdsByOthers(a, b', t);
    }
  }

  lemma {:induction false} IdsByAppend(a: seq<Fired>, b: seq<Fired>, t: Token)
    ensures IdsBy(a + b, t) == IdsBy(a, t) + IdsBy(b, t)
    decreases |b|
  {
    if b == [] {
      assert a + b == a;
    } else {
      var b' := b[..|b| - 1];
      assert (a + b)[..|a + b| - 1] == a + b';
      IdsByAppend(a, b', t);
    }
  }

  lemma IdsBySuffix(a: seq<Fired>, b: seq<Fired>, t: Token)
    ensures IsSuffix(IdsBy(b, t), IdsBy(a + b, t))
  {
    IdsByAppend(a, b, t);
  }

  // ---------------------------------------------------------------------
  // Frame lemmas for single updates
  // ---------------------------------------------------------------------

  lemma ObjsDisjoint(t: Token, x: Token)
    requires t != x
    ensures Obj(t) !! Obj(x)
  {
  }

  /**
   * A single update: the universe, and the token whose own object changed.
   * (The frame lemmas below take it as one argument.)
   */
  datatype Update = Update(universe: set<Token>, target: Token)

  /** When only the target's own object changed, every other token reads as before. */
  twostate lemma Untouched(u: Update)
    requires u.target in u.universe && old(Closed(u.universe))
    requires unchanged(Objs(u.universe) - Obj(u.target))
    ensures forall t {:trigger Wired(t, u.universe)} :: t in u.universe && t != u.target ==> Wired(t, u.universe)
    ensures forall t {:trigger IsLive(t)} :: t in u.universe && t != u.target ==> IsLive(t) == old(IsLive(t))
    ensures forall t {:trigger CancelListeners(t)} :: t in u.universe && t != u.target ==>
              CancelListeners(t) == old(CancelListeners(t))
    ensures forall t {:trigger t.c.buffer} :: t in u.universe && t != u.target && t.Composite? ==>
              t.c.buffer == old(t.c.buffer)
    ensures forall t {:trigger IsCancelled(t)} :: t in u.universe && StateObj(t) !! Obj(u.target) ==>
              IsCancelled(t) == old(IsCancelled(t))
  {
    forall t | t in u.universe && t != u.target
      ensures && Wired(t, u.universe) && IsLive(t) == old(IsLive(t))
              && CancelListeners(t) == old(CancelListeners(t))
              && (t.Composite? ==> t.c.buffer == old(t.c.buffer))
    {
      ObjsDisjoint(t, u.target);
      assert old(Wired(t, u.universe));
    }
  }

  twostate lemma OnlyThisChanged(u: Update)
    requires u.target in u.universe && old(Closed(u.universe))
    requires unchanged(Objs(u.universe) - Obj(u.target)) && Wired(u.target, u.universe)
    ensures Closed(u.universe)
    ensures forall t {:trigger CancelListeners(t)} :: t in u.universe && t != u.target ==>
              CancelListeners(t) == old(CancelListeners(t))
  {
    Untouched(u);
  }

  twostate lemma FlipBoolean(u: Update)
    requires u.target in u.universe && u.target.Boolean? && old(Closed(u.universe))
    requires unchanged(Objs(u.universe) - Obj(u.target))
    requires old(u.target.b.state) == Sentinels.Uncancelled && u.target.b.state == Sentinels.Cancelled
    requires u.target.b.events == old(u.target.b.events)
    ensures Closed(u.universe) && Follows(old(Snap(u.universe)), Snap(u.universe))
    ensures Live(u.universe) == old(Live(u.universe)) - {u.target}
  {
    Untouched(u);
    assert old(Wired(u.target, u.universe));
  }

  twostate lemma DrainComposite(u: Update)
    requires u.target in u.universe && u.target.Composite? && old(Closed(u.universe))
    requires unchanged(Objs(u.universe) - Obj(u.target))
    requires u.target.c.buffer == [] && u.target.c.events == old(u.target.c.events)
    requires u.target.c.state == old(u.target.c.state)
    ensures Closed(u.universe) && Follows(old(Snap(u.universe)), Snap(u.universe))
    ensures Live(u.universe) == old(Live(u.universe)) - {u.target}
    ensures CancelledIn(u.universe) == old(CancelledIn(u.universe))
  {
    Untouched(u);
    assert old(Wired(u.target, u.universe));
  }

  twostate lemma FlipComposite(u: Update)
    requires u.target in u.universe && u.target.Composite? && old(Closed(u.universe))
    requires unchanged(Objs(u.universe) - Obj(u.target))
    requires u.target.c.buffer == [] && old(u.target.c.buffer) == []
    requires u.target.c.events == old(u.target.c.events) && u.target.c.state == Sentinels.Cancelled
    ensures Closed(u.universe) && Follows(old(Snap(u.universe)), Snap(u.universe))
    ensures CancelledIn(u.universe) == old(CancelledIn(u.universe)) + {u.target}
  {
    Untouched(u);
    assert old(Wired(u.target, u.universe));
  }

  twostate lemma UnlinkFields(u: Update)
    requires u.target in u.universe && u.target.Linked? && old(Closed(u.universe))
    requires unchanged(Objs(u.universe) - Obj(u.target))
    requires old(u.target.l.link) != Boolean(u.target.l.origin)
    requires u.target.l.link == Boolean(u.target.l.origin) && u.target.l.listener.None?
    requires u.target.l.events == old(u.target.l.events)
    ensures Closed(u.universe) && Follows(old(Snap(u.universe)), Snap(u.universe))
    ensures CancelledIn(u.universe) == old(CancelledIn(u.universe))
    ensures Live(u.universe) == old(Live(u.universe)) - {u.target}
    ensures forall t {:trigger CancelListeners(t)} :: t in u.universe && t != u.target ==>
              CancelListeners(t) == old(CancelListeners(t))
  {
    Untouched(u);
    UnlinkTarget(u);
  }

  /** The target of an unlink: no longer live, as cancelled as before, same listeners. */
  twostate lemma UnlinkTarget(u: Update)
    requires u.target in u.universe && u.target.Linked? && old(Closed(u.universe))
    requires unchanged(Objs(u.universe) - Obj(u.target))
    requires old(u.target.l.link) != Boolean(u.target.l.origin)
    requires u.target.l.link == Boolean(u.target.l.origin) && u.target.l.listener.None?
    requires u.target.l.events == old(u.target.l.events)
    ensures Wired(u.target, u.universe) && old(IsLive(u.target)) && !IsLive(u.target)
    ensures IsCancelled(u.target) == old(IsCancelled(u.target))
    ensures CancelListeners(u.target) == old(CancelListeners(u.target))
  {
    assert old(Wired(u.target, u.universe));
    assert u.target.l.origin in Objs(u.universe) - Obj(u.target);
  }

  /** Rewriting a linked token's own `link` and `listener` slots cancels no token and revives none. */
  twostate lemma LinkFieldsKeepCancelled(u: Update)
    requires u.target in u.universe && u.target.Linked? && old(Closed(u.universe))
    requires unchanged(Objs(u.universe) - Obj(u.target))
    ensures CancelledIn(u.universe) == old(CancelledIn(u.universe))
  {
    Untouched(u);
  }

  twostate lemma EventsChanged(u: Update)
    requires u.target in u.universe && old(Closed(u.universe))
    requires unchanged(Objs(u.universe) - Obj(u.target)) && OnlyEventsChanged(u.target)
    requires EventsOf(u.target).Keys == old(EventsOf(u.target)).Keys
    requires SubscribersIn(CancelListeners(u.target), u.universe)
    requires old(IsCancelled(u.target)) ==> EventsOf(u.target) == old(EventsOf(u.target))
    ensures Closed(u.universe) && Follows(old(Snap(u.universe)), Snap(u.universe))
    ensures Live(u.universe) == old(Live(u.universe)) && CancelledIn(u.universe) == old(CancelledIn(u.universe))
  {
    EventsChangedTokens(u);
    var U := u.universe;
    assert Live(U) == old(Live(U));
    assert CancelledIn(U) == old(CancelledIn(U));
    assert forall x :: x in old(Snap(U)).frozen ==> x in Snap(U).frozen && Snap(U).frozen[x] == old(Snap(U)).frozen[x];
    assert forall x :: x in old(Snap(U)).buffers ==> x in Snap(U).buffers && Snap(U).buffers[x] == old(Snap(U)).buffers[x];
  }

  /** The token-by-token half of `EventsChanged`. */
  twostate lemma EventsChangedTokens(u: Update)
    requires u.target in u.universe && old(Closed(u.universe))
    requires unchanged(Objs(u.universe) - Obj(u.target)) && OnlyEventsChanged(u.target)
    requires EventsOf(u.target).Keys == old(EventsOf(u.target)).Keys
    requires SubscribersIn(CancelListeners(u.target), u.universe)
    requires old(IsCancelled(u.target)) ==> EventsOf(u.target) == old(EventsOf(u.target))
    ensures Closed(u.universe)
    ensures forall x {:trigger IsLive(x)} :: x in u.universe ==> IsLive(x) == old(IsLive(x))
    ensures forall x {:trigger IsCancelled(x)} :: x in u.universe ==> IsCancelled(x) == old(IsCancelled(x))
    ensures forall x {:trigger x.c.buffer} :: x in u.universe && x.Composite? ==> x.c.buffer == old(x.c.buffer)
    ensures forall x {:trigger CancelListeners(x)} :: x in u.universe && old(IsCancelled(x)) ==>
              CancelListeners(x) == old(CancelListeners(x))
  {
    var U, t := u.universe, u.target;
    Untouched(u);
    TargetEventsOnly(u);
  }

  /** The target of a registry call keeps everything but its listeners. */
  twostate lemma TargetEventsOnly(u: Update)
    requires u.target in u.universe && old(Closed(u.universe))
    requires unchanged(Objs(u.universe) - Obj(u.target)) && OnlyEventsChanged(u.target)
    requires EventsOf(u.target).Keys == old(EventsOf(u.target)).Keys
    requires SubscribersIn(CancelListeners(u.target), u.universe)
    requires old(IsCancelled(u.target)) ==> EventsOf(u.target) == old(EventsOf(u.target))
    ensures Wired(u.target, u.universe)
    ensures IsLive(u.target) == old(IsLive(u.target)) && IsCancelled(u.target) == old(IsCancelled(u.target))
    ensures u.target.Composite? ==> u.target.c.buffer == old(u.target.c.buffer)
  {
    assert old(Wired(u.target, u.universe));
    if u.target.Linked? {
      assert u.target.l.origin in Objs(u.universe) - Obj(u.target);
    }
  }

  /** A step that touched no token's object (an allocation, say) keeps everything a token reads. */
  twostate lemma NothingChanged(U: set<Token>)
    requires old(Closed(U)) && unchanged(Objs(U))
    ensures Closed(U) && Snap(U) == old(Snap(U))
  {
  }

  lemma ClosedCancelledComposite(U: set<Token>, c: CompositeCancellable)
    requires Composite(c) in U && Closed(U) && IsCancelled(Composite(c))
    ensures c.buffer == []
  {
    assert Wired(Composite(c), U);
  }
}
