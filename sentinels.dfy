/**
 * The two shared fixed-answer tokens (src/cancelled.js, src/uncancelled.js).
 *
 * Each file builds exactly one instance of its class and exports it; the
 * concrete tokens use them as their "state value" and swap one for the other.
 * A sentinel has no state of its own that any operation changes, so it is a
 * value here: the two constructors of `Sentinel` are the two instances.
 */
module Sentinels {
  import Base

  /** `CANCELLED` and `UNCANCELLED`. */
  datatype Sentinel = Cancelled | Uncancelled

  /** The `cancelled` getter of each sentinel. */
  function IsCancelled(s: Sentinel): bool
  {
    match s
    case Cancelled => true
    case Uncancelled => false
  }

  /**
   * `cancel()` on a sentinel: what it returns, and the sentinel that answers
   * `cancelled` afterwards.
   */
  function Cancel(s: Sentinel): (result: (bool, Sentinel))
  {
    (false, s)
  }

  /** The sentinel that answers after `n` consecutive `cancel()` calls. */
  function CancelTimes(s: Sentinel, n: nat): Sentinel
  {
    if n == 0 then s else CancelTimes(Cancel(s).1, n - 1)
  }

  /**
   * Neither sentinel ever transitions: `cancel()` reports failure, and any
   * number of calls leaves `cancelled` as it was (false for UNCANCELLED, true
   * for CANCELLED).
   */
  lemma {:induction false} SentinelsNeverTransition(s: Sentinel, n: nat)
    ensures !Cancel(s).0
    ensures IsCancelled(CancelTimes(s, n)) == IsCancelled(s)
  {
    if n > 0 {
      SentinelsNeverTransition(s, n - 1);
    }
  }

  /**
   * CANCELLED is terminal: its `cancel()` fails however often it is called,
   * and because its `cancelled` is true the inherited `addEventListener`
   * never registers a listener.
   */
  lemma CancelledIsTerminal<L>(n: nat, events: map<string, seq<L>>, ev: string, listener: Base.Option<L>)
    ensures !Cancel(Cancelled).0 && IsCancelled(CancelTimes(Cancelled, n))
    ensures Base.AddListener(events, IsCancelled(Cancelled), ev, listener) == events
  {
    SentinelsNeverTransition(Cancelled, n);
  }
}
