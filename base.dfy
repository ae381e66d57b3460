/**
 * The listener registry every token inherits from the abstract base class
 * (src/cancellable.js, duplicated in the bundle dist/index.js).
 *
 * A token's `events` field maps an event key to its listener list. The key set
 * is closed: it is fixed when the token is built, and registering under any
 * other key is ignored. The two base methods are modelled as the value the
 * `events` field has after the call; the concrete token classes reassign their
 * field with these functions.
 */
module Base {

  datatype Option<T> = None | Some(value: T)

  /** Number of occurrences of `x` in `s`. */
  function Count<T(==)>(s: seq<T>, x: T): nat
  {
    if s == [] then 0 else (if s[0] == x then 1 else 0) + Count(s[1..], x)
  }

  /**
   * `Array.prototype.indexOf`: the position of the first occurrence of `x`,
   * or -1 when there is none.
   */
  function IndexOf<T(==)>(s: seq<T>, x: T): (r: int)
    ensures -1 <= r < |s|
    ensures r == -1 <==> x !in s
    ensures r >= 0 ==> s[r] == x && x !in s[..r]
  {
    if s == [] then -1
    else if s[0] == x then 0
    else
      var k := IndexOf(s[1..], x);
      assert s[1..][..if k < 0 then 0 else k] == s[1..1 + if k < 0 then 0 else k];
      if k == -1 then -1 else k + 1
  }

  /**
   * The list after `removeEventListener` found the listener with `indexOf`
   * and spliced it out; an absent listener leaves the list as it was.
   */
  function RemoveFirst<T(==)>(s: seq<T>, x: T): seq<T>
  {
    var i := IndexOf(s, x);
    if i == -1 then s else s[..i] + s[i + 1..]
  }

  /** An independent, element-by-element definition of "delete the first occurrence". */
  function DeleteFirst<T(==)>(s: seq<T>, x: T): seq<T>
  {
    if s == [] then []
    else if s[0] == x then s[1..]
    else [s[0]] + DeleteFirst(s[1..], x)
  }

  lemma {:induction false} CountAppend<T>(s: seq<T>, t: seq<T>, x: T)
    ensures Count(s + t, x) == Count(s, x) + Count(t, x)
  {
    if s == [] {
      assert s + t == t;
    } else {
      assert (s + t)[1..] == s[1..] + t;
      CountAppend(s[1..], t, x);
    }
  }

  /** The splice of `indexOf`'s answer is exactly the element-by-element deletion. */
  lemma {:induction false} RemoveFirstIsDeleteFirst<T>(s: seq<T>, x: T)
    ensures RemoveFirst(s, x) == DeleteFirst(s, x)
  {
    if s != [] && s[0] != x {
      RemoveFirstIsDeleteFirst(s[1..], x);
      var k := IndexOf(s[1..], x);
      if k != -1 {
        assert s[..k + 1] == [s[0]] + s[1..][..k];
        assert s[k + 2..] == s[1..][k + 1..];
      }
    }
  }

  /**
   * Removing deletes exactly one occurrence when there is one, keeps the
   * relative order of everything else, and is a no-op for an absent listener.
   */
  lemma {:induction false} RemoveFirstSpec<T>(s: seq<T>, x: T)
    ensures x !in s ==> RemoveFirst(s, x) == s
    ensures x in s ==> |RemoveFirst(s, x)| == |s| - 1
    ensures x in s ==> Count(RemoveFirst(s, x), x) == Count(s, x) - 1
    ensures forall y :: y != x ==> Count(RemoveFirst(s, x), y) == Count(s, y)
    ensures x in s ==> exists i :: 0 <= i < |s| && s[i] == x && x !in s[..i]
                        && RemoveFirst(s, x) == s[..i] + s[i + 1..]
  {
    var i := IndexOf(s, x);
    if i != -1 {
      assert s == s[..i] + [x] + s[i + 1..];
      forall y
        ensures Count(s, y) == Count(s[..i], y) + (if x == y then 1 else 0) + Count(s[i + 1..], y)
      {
        CountAppend(s[..i] + [x], s[i + 1..], y);
        CountAppend(s[..i], [x], y);
        assert [x][1..] == [];
      }
      forall y ensures Count(RemoveFirst(s, x), y) == Count(s[..i], y) + Count(s[i + 1..], y) {
        CountAppend(s[..i], s[i + 1..], y);
      }
    }
  }

  /** The body of `addEventListener`: `listener` is `None` for a non-function. */
  function AddListener<L>(events: map<string, seq<L>>, cancelled: bool, ev: string, listener: Option<L>)
    : (r: map<string, seq<L>>)
    ensures r.Keys == events.Keys
  {
    if listener.None? then events
    else if cancelled then events
    else if ev in events then events[ev := events[ev] + [listener.value]]
    else events
  }

  /** The body of `removeEventListener`, under the same guards as `addEventListener`. */
  function RemoveListener<L(==)>(events: map<string, seq<L>>, cancelled: bool, ev: string, listener: Option<L>)
    : (r: map<string, seq<L>>)
    ensures r.Keys == events.Keys
  {
    if listener.None? then events
    else if cancelled then events
    else if ev in events then events[ev := RemoveFirst(events[ev], listener.value)]
    else events
  }

  /**
   * The registry ignores a non-function, a cancelled token and a key outside
   * its closed key set, for both add and remove.
   */
  lemma IgnoredCalls<L>(events: map<string, seq<L>>, cancelled: bool, ev: string, listener: Option<L>)
    ensures AddListener(events, cancelled, ev, listener) == events
            <==> listener.None? || cancelled || ev !in events
    ensures listener.None? || cancelled || ev !in events ==>
              RemoveListener(events, cancelled, ev, listener) == events
  {
    if listener.Some? && !cancelled && ev in events {
      var s := events[ev];
      assert |s + [listener.value]| != |s|;
      assert AddListener(events, cancelled, ev, listener)[ev] != s;
    }
  }

  /**
   * A successful add appends at the end without de-duplication: the listener
   * gains one more occurrence and the earlier entries keep their places.
   */
  lemma {:induction false} AddAppends<L>(events: map<string, seq<L>>, ev: string, l: L)
    requires ev in events
    ensures var after := AddListener(events, false, ev, Some(l))[ev];
            |after| == |events[ev]| + 1 && after[..|events[ev]|] == events[ev] && after[|events[ev]|] == l
            && Count(after, l) == Count(events[ev], l) + 1
    ensures forall k :: k in events && k != ev ==> AddListener(events, false, ev, Some(l))[k] == events[k]
  {
    CountAppend(events[ev], [l], l);
    assert [l][1..] == [];
  }

  /** Adding the same listener twice registers it twice. */
  lemma {:induction false} AddTwiceCountsTwice<L>(events: map<string, seq<L>>, ev: string, l: L)
    requires ev in events
    ensures var twice := AddListener(AddListener(events, false, ev, Some(l)), false, ev, Some(l));
            Count(twice[ev], l) == Count(events[ev], l) + 2
  {
    AddAppends(events, ev, l);
    AddAppends(AddListener(events, false, ev, Some(l)), ev, l);
  }

  /** Removing a listener that was just added for the first time restores the registry. */
  lemma {:induction false} RemoveUndoesAdd<L>(events: map<string, seq<L>>, ev: string, l: L)
    requires ev in events && l !in events[ev]
    ensures RemoveListener(AddListener(events, false, ev, Some(l)), false, ev, Some(l)) == events
  {
    var s := events[ev];
    assert (s + [l])[|s|] == l;
    var i := IndexOf(s + [l], l);
    assert i == |s|;
    assert (s + [l])[..|s|] == s && (s + [l])[|s| + 1..] == [];
    assert RemoveFirst(s + [l], l) == s;
    assert events[ev := s] == events;
  }
}
