# rx-cancellable, modelled in Dafny

This project models the cancellation tokens of rx-cancellable. A token flips once, from
not-cancelled to cancelled. When it flips, it calls the listeners registered under its `cancel`
event. The library offers two families of tokens:

- **The tokens of `src/`.** They share a listener registry, the abstract base class in
  `src/cancellable.js`. Module `Base` models that registry.
  - Module `Sentinels` models the two shared fixed-answer tokens `CANCELLED` and `UNCANCELLED`.
  - Module `Tokens` models three concrete classes:
    - `BooleanCancellable`: a state slot that swaps one sentinel for the other.
    - `CompositeCancellable`: a buffer of member tokens. They are cancelled together.
    - `LinkedCancellable`: a private Boolean origin, and a link to a peer token. The link
      subscribes a `() => this.cancel()` listener on the peer.

  Their `cancel` methods call each other, through composite members and linked subscriptions.
  So they are modelled as classes over one heap. A ghost set `U` holds the tokens built so far.
  `Closed(U)` states how they are wired together. A cascade terminates because every nested
  `cancel` shrinks the set `Live(U)`. That set holds the Boolean tokens that can still flip, the
  composites with a non-empty buffer, and the linked tokens that still hold a link.

- **The hierarchical `Cancellable` of `dist/index.js`** (module `Hierarchy`). Tokens built by
  `create()` have:
  - a parent, which defaults to a lazily built shared root;
  - a `children` list;
  - an `active` flag that is separate from `cancelled`;
  - three event keys: `enable`, `disable` and `cancel`.

  The bundle keeps each token's state in module-level WeakMaps. The model keeps them as maps in
  class `Registry`, with ghost rankings of three relations: PARENT, the `active` delegation and
  the `children` lists. Nothing in the source guards its recursive walks against cycles. The
  rankings are the well-foundedness those walks depend on. Module `Forest` proves the generic
  facts about ranked relations.
  - The `cancel` cascade is specified by the function `CancelSpec`: dispatch, then the children
    in list order, then the flip.
  - `Cancellable.Cancel` is proved to produce exactly `CancelSpec`'s listener calls and final
    cancelled set.
  - `CancelReachesDescendants` proves that the cancelled set is exactly what the token reaches
    through its children lists.

Listeners are opaque ids. A dispatch returns, or records in a ghost trace, the sequence of
listener calls it makes. A value that fails an `instanceof` or `typeof` guard is modelled as
`None` of an `Option` argument.

## Model

| member | source | states |
|---|---|---|
| Base.IndexOf | src/cancellable.js:77 | `indexOf` gives -1 exactly when the listener is absent, and otherwise the first position that holds it |
| Base.AddListener | src/cancellable.js:46-57 | `addEventListener` never changes the registry's key set |
| Base.RemoveListener | src/cancellable.js:68-82 | `removeEventListener` never changes the registry's key set |
| Base.IgnoredCalls | src/cancellable.js:47-54 | An add changes nothing exactly when the listener is not a function, the token is cancelled or the key is unknown. A remove changes nothing in each of those cases |
| Base.AddAppends | src/cancellable.js:55 | A successful add appends exactly one entry, the listener, at the end. Earlier entries keep their places, the listener gains one occurrence, and other keys are untouched |
| Base.AddTwiceCountsTwice | src/cancellable.js:55 | There is no de-duplication: adding the same listener twice registers it twice |
| Base.RemoveFirstSpec | src/cancellable.js:76-80 | A remove deletes exactly one occurrence, the first one. It keeps the count of every other listener. An absent listener changes nothing |
| Base.RemoveFirstIsDeleteFirst | src/cancellable.js:77-80 | `indexOf` followed by `splice` equals an independent, element-by-element deletion of the first occurrence |
| Base.RemoveUndoesAdd | src/cancellable.js:46-82 | Removing a listener that was just added for the first time restores the registry |
| Sentinels.CancelledIsTerminal | src/cancelled.js:12-21 | `CANCELLED.cancel()` returns false, any number of calls leaves `cancelled` true, and the inherited `addEventListener` never registers a listener on it |
| Sentinels.SentinelsNeverTransition | src/uncancelled.js:12-21 | `cancel()` on either sentinel returns false, and any number of calls leaves its `cancelled` as it was |
| Forest.ReachesLowers | dist/index.js:130-134 | Along a ranked relation every step lowers the rank, so no walk returns to where it started |
| Forest.AddEdge | dist/index.js:144-151 | Adding the edge a -> b keeps a relation ranked when b does not already reach a |
| Forest.CycleUnranked | dist/index.js:145-146 | With the edge a -> b, a relation in which b already reaches a can no longer be ranked |
| Tokens.BooleanCancellable.constructor | src/boolean.js:13-20 | A fresh token holds UNCANCELLED, so it is not cancelled. Its registry has only `cancel`, with no listener |
| Tokens.BooleanCancellable.Cancel | src/boolean.js:35-43 | Returns true exactly on the first call, and the state is CANCELLED afterwards. Each callback fires once, in registration order. Every subscribed linked token ends cancelled. Its own `cancel` list ends as it was. When that list holds callbacks only, the trace is exactly those callbacks and no other object changes. A later call fires nothing and changes nothing |
| Tokens.CompositeCancellable.constructor | src/composite.js:22-27 | A fresh composite is not cancelled and has an empty buffer |
| Tokens.CompositeCancellable.Cancel | src/composite.js:42-55 | Returns true exactly on the first call. Every captured member other than UNCANCELLED ends cancelled, and the trace is a concatenation of one part per member (`InOrder`). When every member is a sentinel or a Boolean token whose `cancel` list holds callbacks only, the trace is exactly `QuietTrace` of the buffer: each member not yet cancelled fires its callbacks, in buffer order. Afterwards the buffer is empty and the composite is cancelled, and nothing else was cancelled. A later call changes nothing |
| Tokens.CompositeCancellable.Swap | src/composite.js:44-45 | `BUFFERS.set(this, [])`: the captured members are the old buffer, the buffer is empty, and no token's cancellation or `cancel` list changes |
| Tokens.CompositeCancellable.Flip | src/composite.js:51 | `CANCEL_STATE.set(this, CANCELLED)` on a drained composite adds exactly the composite to the cancelled tokens |
| Tokens.CancelMembers | src/composite.js:47-49 | The `for…of` over the captured buffer: every member other than UNCANCELLED ends cancelled, and the trace is a concatenation of one part per member. For a buffer of sentinels and Boolean tokens with callbacks only, the trace is exactly `QuietTrace` of the buffer |
| Tokens.CancelMember | src/composite.js:48 | One iteration: cancels member i. The parts, the steps and the trace each grow by exactly that call, and the earlier entries stay. For a quiet buffer the trace is `QuietTrace` of the members reached so far |
| Tokens.CancelAt | src/composite.js:48 | `i.cancel()` on member i: returns true exactly when the member is not a sentinel and was live. Afterwards the member is cancelled unless it is UNCANCELLED. For a quiet buffer the call fires exactly `QuietPart` of the member |
| Tokens.QuietTraceOrder | src/composite.js:47-49 | In a quiet buffer's trace, no callback of a later member (at its first occurrence) comes before a callback of an earlier member |
| Tokens.QuietTraceSources | src/composite.js:47-49 | Every callback in a quiet buffer's trace belongs to one of its members |
| Tokens.TwoMembersInOrder | src/composite.js:47-49 | For two live Boolean members with one callback each, the trace is the first member's callback, then the second's, and never the reverse |
| Tokens.QuietStep | src/composite.js:48 | When a quiet buffer's member flips, the other members keep their lists and their cancellation, and the call fires exactly the member's callbacks |
| Tokens.QuietSkip | src/composite.js:48 | A quiet buffer's member that is a sentinel or already cancelled fires nothing and changes no member |
| Tokens.InOrderCovers | src/composite.js:47-49 | A per-member trace in buffer order adds up to the whole loop: every callback in it belongs to a token cancelled by the loop, and every member other than UNCANCELLED ends cancelled |
| Tokens.CompositeCancellable.Add | src/composite.js:64-74 | Returns true exactly for a token other than itself, on a live composite. It then appends the token and changes nothing else. A non-token or itself changes nothing. On a cancelled composite it cancels the token instead of storing it, and the state only winds down (`Follows`) |
| Tokens.CompositeCancellable.Remove | src/composite.js:82-96 | Returns true exactly for a token other than itself that is in the buffer. It then deletes the first occurrence and dispatches the composite's own `cancel` list without cancelling it: no token becomes live again, none is un-cancelled, frozen lists stay. When that list holds callbacks only, they fire in order, and no other object, nor the composite's state or registry, changes. Otherwise nothing changes |
| Tokens.CompositeCancellable.DropAt | src/composite.js:89-91 | The splice at the found index followed by the dispatch, with the same guarantees as `Remove` in terms of that index |
| Tokens.CompositeCancellable.Splice | src/composite.js:89 | `splice(index, 1)` deletes exactly that entry and changes no state, registry or cancellation |
| Tokens.ClosedCancelledComposite | src/composite.js:44-51 | A cancelled composite holds an empty buffer |
| Tokens.LinkedCancellable.constructor | src/linked.js:27-33 | A fresh linked token owns a fresh Boolean origin, is unlinked (`link == origin`) and is not cancelled |
| Tokens.LinkedCancellable.Cancel | src/linked.js:48-62 | Returns true exactly on the first call. It then drops the link and the subscription, and leaves the previous peer and itself cancelled. A Boolean peer ends with exactly its subscription removed. Its trace ends with one full run of its `cancel` callbacks |
| Tokens.LinkedCancellable.Link | src/linked.js:70-88 | Returns true exactly for another token, when neither side is cancelled. It then records the peer, removes the old subscription from a different old peer, and appends one fresh subscription to the new peer; no token's cancellation changes, nor this token's registry, and no object but this token, the old peer and the new peer changes. If this token is cancelled, the argument ends cancelled. If the argument is cancelled, this token does. A non-token or itself changes nothing |
| Tokens.LinkedCancellable.Relink | src/linked.js:77-83 | The successful branch of `link`: the old subscription is removed from the old peer, exactly one fresh one is appended on the new peer, and no token's cancellation changes |
| Tokens.LinkedCancellable.Attach | src/linked.js:79-83 | The peer is recorded and the subscription appended to its `cancel` listeners. No token's cancellation, nor this token's registry, nor any other token's `cancel` list changes |
| Tokens.LinkedCancellable.Unlink | src/linked.js:95-109 | Returns true exactly when the token is live and linked. It then takes its subscription off the peer and resets `link` to the origin. No token's cancellation, and no other token's `cancel` list, changes |
| Tokens.LinkedCancellable.Detach | src/linked.js:100-105 | The successful branch of `unlink`: the subscription is removed from the peer, `link` becomes the origin again, and no other token's `cancel` list changes |
| Tokens.LinkThenCancelPeer | test/linked.js:72-79 | After `c.link(b)` on a Boolean `b`, `b.cancel()` succeeds whenever the link did, and both tokens end cancelled in every case |
| Tokens.LinkRevives | src/linked.js:77-84 | A successful `link` of an unlinked token makes it hold a link again, so it re-enters the set of live tokens; `link` is therefore not a step that only winds a cascade down |
| Tokens.AddEventListener | src/cancellable.js:46-57 | On any kind of token, the registry becomes `Base.AddListener` of the old one, guarded by that token's own `cancelled`. A sentinel registers nothing. Cancellation and liveness do not change |
| Tokens.RemoveEventListener | src/cancellable.js:68-82 | On any kind of token, the registry becomes `Base.RemoveListener` of the old one. Cancellation and liveness do not change |
| Tokens.CancelToken | src/composite.js:48 | `cancel()` on any token returns true exactly when the token is not a sentinel and was live. Afterwards every token but UNCANCELLED is cancelled, and a Boolean token's `cancel` list is as it was. A Boolean token whose list holds callbacks only fires exactly those callbacks and changes no other object |
| Tokens.IsCancelled | src/boolean.js:26-28 | The `cancelled` getter of each class: a sentinel answers by its kind, a Boolean token exactly when it is no longer live, a composite or linked token exactly when its state slot (src/composite.js:33-35, src/linked.js:39-41) holds CANCELLED |
| Tokens.Dispatch | dist/index.js:5 | `forEach` over the `cancel` list: with callbacks only, the trace is exactly those callbacks, in order, and no object changes. On a cancelled token the list is frozen, its callbacks each fire once in order, and every subscriber ends cancelled |
| Tokens.DispatchLoop | dist/index.js:5 | The loop of `forEach` over the list found at the start: with callbacks only, the trace is exactly those callbacks and no object changes. On a cancelled token the callback ids are the list's, and every subscriber ends cancelled |
| Tokens.IdsByCallbackFires | dist/index.js:5 | The ids in a trace of callbacks fired by a token are exactly the ids of the list they came from |
| Tokens.DispatchStep | dist/index.js:5 | One `forEach` iteration extends the callback ids in the trace by exactly the listener at that index. With callbacks only, the trace grows by exactly that callback |
| Tokens.NotifyStep | dist/index.js:5 | An iteration over a list with subscriptions re-reads the list. On a cancelled token it applies exactly the listener at that index, and every subscriber reached so far ends cancelled |
| Tokens.CallbackStep | dist/index.js:5 | An iteration over a list of callbacks only appends exactly the callback at that index to the trace and changes no object |
| Tokens.Notify | src/linked.js:81 | A callback is recorded once. A subscription leaves its linked token cancelled |
| Hierarchy.Dispatch | dist/index.js:5 | Calls every listener under the key once, in registration order |
| Hierarchy.WithoutSpec | dist/index.js:195 | `filter(x => x !== c)` drops every occurrence of `c` and keeps each other element as often as it occurred |
| Hierarchy.IsParentToIsAncestor | dist/index.js:130-134 | `isParentTo(c)` holds exactly when the token is a proper ancestor of `c` along PARENT |
| Hierarchy.IsParentTo | dist/index.js:130-134 | `isParentTo(c)` holds only when `c` has a parent and this token ranks strictly below `c` along PARENT |
| Hierarchy.ActiveAtChainEnd | dist/index.js:85-87 | A token is active exactly when its chain of `active` delegations ends at a slot that holds ACTIVE |
| Hierarchy.ActiveFrame | dist/index.js:85-87 | Rewriting one `active` slot leaves the `active` of every token that does not read through it unchanged |
| Hierarchy.CancelReachesDescendants | dist/index.js:209-217 | `cancel` leaves cancelled exactly the previously cancelled tokens plus everything reachable through children lists. The children of a cancelled token stay cancelled |
| Hierarchy.CascadeCovers | dist/index.js:211-213 | After the `forEach`, every child is cancelled and the token itself is not yet |
| Hierarchy.ReachClosed | dist/index.js:209-217 | When the children of cancelled tokens are cancelled, everything below a cancelled token is cancelled |
| Hierarchy.RootInv | dist/index.js:59-61 | Building BASIC_PARENT (NOT_CANCELLED, ACTIVE, no parent) establishes the registry invariant |
| Hierarchy.CreateInv | dist/index.js:63-69 | A created token bound to the root keeps the invariant, and cancels no one |
| Hierarchy.RootReader | dist/index.js:63-67 | A token that reads both its states from the root is not cancelled and is active |
| Hierarchy.FlipInv | dist/index.js:213 | Setting DISPOSE_STATE to CANCELLED once all children are cancelled keeps the invariant, and adds exactly this token to the cancelled set |
| Hierarchy.SetActiveInv | dist/index.js:96-122 | Rewriting ACTIVE_STATE without a delegation cycle keeps the invariant. Every token not reading through this one keeps its `active` |
| Hierarchy.AttachInv | dist/index.js:150-151 | Recording the parent and pushing onto its children keeps the invariant, when no cycle is closed and the parent is live |
| Hierarchy.DetachInv | dist/index.js:195-196 | Filtering the child out and re-parenting it to the root keeps the invariant |
| Hierarchy.ListenInv | dist/index.js:229-267 | A registry change that keeps the three keys keeps the invariant |
| Hierarchy.Cancellable.constructor | dist/index.js:36-51 | A new token is NOT_CANCELLED and ACTIVE, with the three event keys and no children |
| Hierarchy.Cancellable.Cancel | dist/index.js:209-217 | Returns true exactly when the token was live, and it is cancelled afterwards. Its listener calls and final cancelled set are exactly `CancelSpec`: its own `cancel` listeners, then the children's cascades in list order |
| Hierarchy.Cancellable.CancelChildren | dist/index.js:212 | The `forEach` over the children performs exactly the cascade `CancelSpec` prescribes for them |
| Hierarchy.Cancellable.Enable | dist/index.js:96-104 | Returns true exactly when the token is live and inactive. It then reads its `active` from its current parent and fires `enable`. No other token's `active` changes unless it reads through this one |
| Hierarchy.Cancellable.Disable | dist/index.js:114-122 | Returns true exactly when the token is live and active. It then pins `active` to INACTIVE and fires `disable`. A child keeps its `active` unless it reads through this token |
| Hierarchy.Cancellable.SetParent | dist/index.js:144-156 | Returns true exactly for a token other than itself that it is not an ancestor of and that is live. It then records the parent and appends itself to the parent's children. For a cancelled candidate it runs its own `cancel` and returns false. A rejected call changes nothing. Listener registries never change |
| Hierarchy.Cancellable.Add | dist/index.js:182-184 | `add(c)` is `c.setParent(this)`: on success `c` is appended to this token's children, records this parent, and nothing is cancelled or fired. On a cancelled token, `c` runs its own `cancel`, with exactly `CancelSpec`'s calls and cancelled set. A rejected call changes nothing. Listener registries never change |
| Hierarchy.Cancellable.Remove | dist/index.js:193-200 | Returns true exactly when the token is live and is `c`'s recorded parent. It then removes every occurrence of `c` from the children and re-parents `c` to the root. Otherwise nothing changes. Listener registries never change |
| Hierarchy.Cancellable.RemoveParent | dist/index.js:164-166 | `removeParent(c)` is `c.remove(this)`: on success `c`'s children lose every occurrence of this token, which is re-parented to the root. Listener registries never change |
| Hierarchy.Cancellable.AddEventListener | dist/index.js:229-240 | Only this token's registry changes, to `Base.AddListener` of the old one |
| Hierarchy.Cancellable.RemoveEventListener | dist/index.js:253-267 | Only this token's registry changes, to `Base.RemoveListener` of the old one |
| Hierarchy.Registry.constructor | dist/index.js:23-27 | Before the first `create`, the WeakMaps are empty and there is no root |
| Hierarchy.Registry.IsCancelled | dist/index.js:77-79 | The `cancelled` getter is true exactly when the token's DISPOSE_STATE slot holds CANCELLED, and false exactly when it delegates to the root, which is NOT_CANCELLED |
| Hierarchy.Registry.IsActive | dist/index.js:85-87 | The `active` getter is true exactly when the token reaches, through `active` delegations, a slot that holds ACTIVE |
| Hierarchy.Registry.Accepts | dist/index.js:145-146 | The guard of `setParent`: for created tokens it accepts exactly another token that this token is not an ancestor of along PARENT |
| Hierarchy.Registry.ParentOf | dist/index.js:98 | `PARENT.get(t)` of a created token is a token with state slots |
| Hierarchy.Registry.Create | dist/index.js:58-70 | Builds the root on the first call only. The new token reads `cancelled` and `active` from the root, has the root as parent and no children. The invariant is kept |
| Hierarchy.Registry.AddToken | dist/index.js:63-69 | The writes of `create` once the root exists |
| Hierarchy.Registry.MakeRoot | dist/index.js:59-61 | The first `create` builds a fresh NOT_CANCELLED, ACTIVE root |
| Hierarchy.Registry.Flip | dist/index.js:213 | `DISPOSE_STATE.set(this, CANCELLED)` adds exactly this token to the cancelled set |
| Hierarchy.Registry.SetActive | dist/index.js:98 | Only ACTIVE_STATE changes. Tokens not reading through this one keep their `active` |
| Hierarchy.Registry.Attach | dist/index.js:150-151 | PARENT is set and the token is pushed onto the parent's children. DISPOSE_STATE, ACTIVE_STATE and listener registries are unchanged |
| Hierarchy.Registry.Detach | dist/index.js:195-196 | The child is filtered out of the children, no occurrence is left, and it is re-parented to the root. DISPOSE_STATE, ACTIVE_STATE and listener registries are unchanged |
| Hierarchy.Registry.Listen | dist/index.js:229-267 | Only this token's registry changes, and its keys stay the same |

## Left out

- `index.js` (the CommonJS bundle of `src/`) is not modelled separately; its logic is the same as `src/`.
- `src/index.js`, an earlier draft of the hierarchical token, is not modelled. It cannot work: `create` returns nothing and `children` is never initialised. `dist/index.js` is modelled instead.
- The `dispatch` helper of `src/utils` is not part of this model. It is modelled from the identical one-line body at `dist/index.js:5`.
- The base class's abstract `cancelled` getter and `cancel` method (`src/cancellable.js:25-36`) are not modelled. Every concrete class overrides both, so no token runs them. UNCANCELLED answers exactly like them.
- Listener bodies are opaque ids. A listener that throws, or that adds or removes listeners during a dispatch, is not modelled. The one exception is Linked's subscription, which cancels its owner.
- The registry key set is closed. JavaScript's `ev in events` also accepts prototype keys such as `toString`; that is not modelled.
- UNCANCELLED's listener registry is not stored. Listeners can be added to it, but nothing ever dispatches them, so they are unobservable.
- In `dist/index.js`, each token's `events` and `children` live on the token object. The model keeps them in `Registry` maps keyed by token. Nothing else holds a reference to those arrays, so nothing changes.
- The root's `children` list is not stored. No code path can append to it, because the root is never a `setParent` argument.
- Hierarchical tokens built with `new Cancellable()` instead of `create()` are not modelled. They have no parent, and `enable` would store `undefined`. Only the root is built that way.
- Tokens.LinkedCancellable.Cancel: states only that the trace ends with one full run of its final `cancel` callbacks. When a cascade re-enters the token between its unlink and its flip, the callbacks can run twice.
- Tokens.CompositeCancellable.Remove: states the callback order only when the composite's `cancel` listeners are all callbacks. A subscription in that list can cancel tokens during the dispatch, and then the buffer is only known to be the spliced one or empty.
- Hierarchy.Cancellable.SetParent: requires that the candidate is not already reachable through this token's children lists. `setParent` never takes the token out of a previous parent's `children`, so without this requirement `a.setParent(b); a.setParent(c); b.setParent(a)` passes the `isParentTo` check. That makes the children lists cyclic, and `cancel` would never end. The same requirement is on Hierarchy.Cancellable.Add.
- Hierarchy.Cancellable.Enable: requires that the parent does not already read its `active` through this token. `remove` does not undo an `active` delegation, so otherwise the getter could loop forever.
- Hierarchy.Registry.IsCancelled: is defined for created tokens only. The root is never cancelled, and user code cannot reach it.
- The documentation of `add` (`dist/index.js:174`) says a child cannot have more than one parent. The code (`dist/index.js:144-156`) accepts a second `setParent`, records the new parent and leaves the token in the old parent's children. The model follows the code.
- Tokens.LinkedCancellable.Cancel: states the previous peer's final `cancel` list only for a Boolean peer. A composite or linked peer can have its list changed again by the cascade its own `cancel` starts, before it counts as cancelled.
- Hierarchy.Cancellable.Add: takes a token. The source calls `setParent` on the argument (`dist/index.js:183`), so a null or non-token argument throws a TypeError; that case is not modelled.
- Hierarchy.Cancellable.RemoveParent: takes a token. The source calls `remove` on the argument (`dist/index.js:165`), so a null or non-token argument throws a TypeError; that case is not modelled.
- Tokens.CompositeCancellable.Cancel: states the exact buffer-order trace (`QuietTrace`) only for a buffer of sentinels and Boolean tokens whose `cancel` lists hold callbacks only. For other buffers it states only that the trace splits into one part per member (`InOrder`); that split is not fixed by the contract, so it does not by itself pin down the order. A composite or linked member, or a subscription, can cancel later members during an earlier member's `cancel`, so their callbacks then belong to that earlier step.
- Tokens.CancelMembers: the same restriction as `CompositeCancellable.Cancel`: the exact trace is stated only for a buffer of sentinels and Boolean tokens with callbacks only.
