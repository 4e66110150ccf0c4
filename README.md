# Hookr callback engine, modelled in Dafny

Hookr lets a Ruby object expose named extension points (hooks) to which callbacks
are attached and which are later fired with an event. This project models the
engine underneath the hook DSL. The behaviour followed is what the RSpec suite
`spec/hookr_spec.rb` asserts. The library sources under `lib/` are not part of
this model.

- **Events** (`events.dfy`): `Hookr::Event`, the source, name and arguments of
  one firing. `ToArgs` is `Event#to_args`: it projects the event onto the
  parameter list a callback declares, or fails with an arity mismatch.
- **Callbacks** (`callbacks.dfy`): `Hookr::Callback` and its three kinds.
  - An external callback is a block called with the projected arguments.
  - An internal callback is a zero-parameter block run with the event source as self.
  - A method callback is an instance method bound to the source.
  - `Compare` is `Callback#<=>`. `NewInternalCallback` is the arity check of
    `InternalCallback.new`. `Call` is `Callback#call`, which produces an
    `Invocation` record: the handle, the event, the receiver and the arguments.
- **CallbackSets** (`callback_set.dfy`): `Hookr::CallbackSet`, a class over a
  `seq<Callback>` kept in ascending index order.
  - `<<` is `Add`; `[]` is `Lookup`; removal is `Remove`; `to_a` is the `items` field.
  - Each operation is proved against a specification function
    (`InsertByIndex`, `Without`), and those functions' properties are proved
    as lemmas.
- **Hooks** (`hooks.dfy`): `Hookr::Hook`, a class holding its name, its parent
  and its own set.
  - A `null` parent stands for `NullHook`. The `Repr` footprint and `Valid()`
    keep the parent chain acyclic.
  - `Run` is the meaning of `execute_callbacks`: call the chain's callbacks in
    order and stop at the first failure. It is stated one callback at a time,
    the way the loop proceeds.
  - `ExecuteCallbacks` recurses into the parent and then loops over its own
    callbacks (`CallEach`). Both are proved equal to `Run` over `Chain()`.
- **SizeIndexing** (`size_indexing.dfy`): the own-count rule the engine
  follows to assign indices: a new callback's index is the own set's current
  size. The suite fixes indices only on hooks nothing was removed from. On a
  hook with nothing removed and no ready-made callback that moved the counter
  (`appendOnly`), this rule and the hook's counter agree
  (`AddNextAgreesWithSizeRule`). After a removal they part, as shown under
  "Findings".
- **Scenarios** (`scenarios.dfy`): the examples of the test suite, replayed on
  the model with their expected results as postconditions. Four of them replay
  no test. `ReadyMadeHandleMovesCounter` shows the departure admitted under
  `Hooks.Hook.AddCallback`. `BuildAfterRemoval`, `AfterRemovalRuns` and
  `IndexNeverReused` show the corrected counter of the Finding on an add after
  a removal, which the suite never performs.

## Model

| member | source | states |
|---|---|---|
| Events.ToArgs | spec/hookr_spec.rb:757-801 | succeeds exactly for arity -1, N or N+1 with N arguments. Arity N gives the arguments unchanged; -1 and N+1 give the event followed by the arguments. Any other arity fails with ArityMismatch(arity, N) |
| Events.ToArgsWithThreeArguments | spec/hookr_spec.rb:757-801 | with three arguments: -1 and 4 give [event, a1, a2, a3], 3 gives [a1, a2, a3], 2 and 5 fail |
| Callbacks.Compare | spec/hookr_spec.rb:630-655 | the result is -1, 0 or 1. Equal handles compare 0 whatever the indices; otherwise the sign follows index order in both directions |
| Callbacks.CompareAntisymmetric | spec/hookr_spec.rb:636-649 | Compare(a, b) == -Compare(b, a) for all callbacks |
| Callbacks.CompareNotTransitiveOnSharedHandles | spec/hookr_spec.rb:651-654 | equal handles break transitivity: :cb1@0 < :cb2@1 < :cb1@2, yet :cb1@0 equals :cb1@2. This is why handles are kept unique within a set |
| Callbacks.CompareExamples | spec/hookr_spec.rb:636-654 | :cb1@1 compares +1 with index 0, -1 with index 2, 0 with index 1, and 0 with :cb1@2 |
| Callbacks.NewInternalCallback | spec/hookr_spec.rb:713-720 | succeeds exactly when the block declares 0 parameters. Otherwise it fails with an arity mismatch |
| Callbacks.Call | spec/hookr_spec.rb:668-753 | external and method callbacks get the arguments to_args gives for their arity, and fail exactly when to_args fails. A method is bound to the source; an internal callback runs with the source as self and no arguments |
| Callbacks.InternalCallbackAlwaysRuns | spec/hookr_spec.rb:696-711 | an internal callback that construction accepted never fails on any event |
| Callbacks.ExternalCallbackReceivesEventFirst | spec/hookr_spec.rb:247-285 | a callback declaring N+1 parameters gets the event followed by the N arguments; one declaring 1 fails on a two-argument event |
| CallbackSets.Matches | spec/hookr_spec.rb:612-626 | the dual key rule of `[]` and removal: an Integer key names an index, a Symbol key a handle. For an anonymous callback, whose handle is its index, the two readings agree |
| CallbackSets.InsertHoldsAll | spec/hookr_spec.rb:601-609 | `<<` holds the old callbacks plus the new one, as a multiset |
| CallbackSets.InsertMembers | spec/hookr_spec.rb:601-609 | after `<<` a callback is present exactly when it was present before or is the new one |
| CallbackSets.InsertKeepsWellFormed | spec/hookr_spec.rb:601-609 | `<<` of a callback with a new index and handle keeps the set strictly index-ordered with distinct handles |
| CallbackSets.InsertAboveAllAppends | spec/hookr_spec.rb:523-531 | a callback whose index exceeds every present index goes last, so callbacks added in index order run in order of addition |
| CallbackSets.WithoutMembers | spec/hookr_spec.rb:385-401 | removal keeps exactly the callbacks the key does not match; an Integer key matches an index, a Symbol key a handle |
| CallbackSets.WithoutKeepsWellFormed | spec/hookr_spec.rb:385-401 | removal keeps the set ordered with distinct handles |
| CallbackSets.WithoutSize | spec/hookr_spec.rb:354-357 | removal drops exactly one callback when the key is present and none otherwise |
| CallbackSets.AtMostOneMatch | spec/hookr_spec.rb:612-626 | in a well-formed set a key matches at most one callback |
| CallbackSets.OrderedIsUnique | spec/hookr_spec.rb:601-609 | two index-ordered sequences holding the same callbacks are equal |
| CallbackSets.InsertAllWellFormed | spec/hookr_spec.rb:601-609 | inserting distinct callbacks one by one yields a well-formed set holding exactly them |
| CallbackSets.InsertionOrderIrrelevant | spec/hookr_spec.rb:601-609 | any two insertion orders of the same callbacks give the same iteration order |
| CallbackSets.OrderAgreesWithCompare | spec/hookr_spec.rb:630-655 | in a well-formed set, an earlier position compares -1 with a later one under `<=>`, and the reverse +1 |
| CallbackSets.CallbackSet.constructor | spec/hookr_spec.rb:593-599 | a new set is empty and well-formed |
| CallbackSets.CallbackSet.Add | spec/hookr_spec.rb:601-609 | `<<` leaves the set equal to InsertByIndex of the old contents, and keeps it well-formed |
| CallbackSets.CallbackSet.Lookup | spec/hookr_spec.rb:612-626 | `[]` returns a present callback matching the key (index for an Integer, handle for a Symbol), and returns nil exactly when none matches |
| CallbackSets.CallbackSet.Remove | spec/hookr_spec.rb:385-401 | the set becomes Without(old contents, key) and stays well-formed |
| Hooks.Run | spec/hookr_spec.rb:523-531 | the meaning of execute_callbacks over a list: each callback is called in order with the same event, and the first failure ends the run with its error. No contract of its own; the Run lemmas below state its properties |
| Hooks.RunStopsAtFirstFailure | spec/hookr_spec.rb:523-531 | the trace is the calls of a prefix of the list, in list order. The run is complete exactly when nothing failed; otherwise the error is that of the next callback |
| Hooks.RunWithoutFailure | spec/hookr_spec.rb:523-531 | when every callback can be called, the run is complete and the i-th entry of the trace is the i-th call |
| Hooks.RunWhenAritiesFit | spec/hookr_spec.rb:523-531 | callbacks that are internal, variadic, or declare as many parameters as the event has arguments all run, in order, each with the same event |
| Hooks.RunSnoc | spec/hookr_spec.rb:523-531 | one more callback at the end runs only if the run so far did not fail. Its invocation is appended, or its error ends the run |
| Hooks.RunAppendAfterFailure | spec/hookr_spec.rb:560-564 | once a list has failed, callbacks after it never run |
| Hooks.RunAppend | spec/hookr_spec.rb:560-564 | running a + b runs a, then b only if a completed; the traces concatenate |
| Hooks.RunStepSucceeds | spec/hookr_spec.rb:523-531 | a successful call of own callback i extends the run by exactly its invocation |
| Hooks.RunStepFails | spec/hookr_spec.rb:523-531 | a failing call of own callback i ends the whole run with its error |
| Hooks.CallEach | spec/hookr_spec.rb:523-531 | the loop over the own callbacks continues a run of `before` into exactly Run(before + own) |
| Hooks.HookName | spec/hookr_spec.rb:443-447 | a name is accepted exactly when it is a Symbol; otherwise the precondition check fails |
| Hooks.Hook.constructor | spec/hookr_spec.rb:535-542 | the new hook has the given name and parent (null, that is NullHook, when none is given), an empty own set and a counter at 0 |
| Hooks.Hook.TotalCallbacks | spec/hookr_spec.rb:566-568 | total_callbacks is the length of the whole chain: the parent's total plus the own count, 0 at NullHook |
| Hooks.Hook.AddCallback | spec/hookr_spec.rb:467-471 | returns the added callback's handle and inserts it by index. The counter moves past its index and Integer handle, so neither is handed out again. The hook keeps counter == own count exactly when the counter did not move past it |
| Hooks.Hook.AddNext | spec/hookr_spec.rb:502-513 | the new callback gets the next index. Its handle is the given name, or that index when anonymous. It is appended last and the counter advances by one. On a hook with nothing removed and no ready-made callback that moved the counter (`appendOnly`), that index is the own count |
| Hooks.Hook.AddExternalCallback | spec/hookr_spec.rb:485-490 | appends an external callback with the next index. Returns its name, or its index when anonymous |
| Hooks.Hook.AddInternalCallback | spec/hookr_spec.rb:491-496 | appends an internal callback when the block declares no parameters. Otherwise it fails with an arity mismatch and leaves the hook unchanged |
| Hooks.Hook.AddMethodCallback | spec/hookr_spec.rb:497-512 | appends a method callback whose handle, and return value, is the method name |
| Hooks.Hook.RemoveCallback | spec/hookr_spec.rb:385-401 | removes by index or handle from the own set only. The parent chain and the counter are unchanged, and the total drops by the number removed |
| Hooks.Hook.ExecuteCallbacks | spec/hookr_spec.rb:523-531 | the outcome is Run over the parent chain's callbacks, root first, followed by the own callbacks in index order |
| Hooks.Hook.Dup | spec/hookr_spec.rb:571-590 | a fresh hook with the same name whose parent is the original, whose own set is empty and whose counter is 0. Its chain and total equal the original's |
| Hooks.NewHook | spec/hookr_spec.rb:443-447 | Hook.new fails with an assertion failure exactly when the name is not a Symbol. Otherwise it builds a fresh hook with a fresh empty set and a counter at 0 |
| Hooks.ParentRunsFirst | spec/hookr_spec.rb:560-564 | a failing parent chain stops everything; otherwise the parent's trace comes before the own callbacks' trace |
| Hooks.CompleteRunInvokesTotal | spec/hookr_spec.rb:560-568 | a run nothing stopped invokes exactly total_callbacks callbacks |
| Hooks.Hook.Equals | spec/hookr_spec.rb:460-465 | `==` and eql?: two hooks are equal exactly when their names are. No contract of its own; EqualityIsByName states its properties |
| Hooks.EqualityIsByName | spec/hookr_spec.rb:460-465 | `==`/eql? holds exactly when the names are equal, whatever the parents and callbacks, and is an equivalence |
| SizeIndexing.AddNextAgreesWithSizeRule | spec/hookr_spec.rb:502-513 | on a hook with nothing removed and no ready-made callback that moved the counter, the next add builds exactly the callback the own-count rule builds, and returns its handle |
| SizeIndexing.TwoAnonymousAdds | spec/hookr_spec.rb:502-505 | two anonymous adds under the size rule give indices and handles 0 and 1 |
| SizeIndexing.ThreeAnonymousAdds | spec/hookr_spec.rb:502-505 | three anonymous adds give 0, 1 and 2 |
| SizeIndexing.SizeIndexCollidesAfterRemoval | spec/hookr_spec.rb:385-388 | after two adds and the removal of index 0, the size rule builds index 1 and handle 1, which the survivor already holds |
| SizeIndexing.SizeIndexReordersAfterRemoval | spec/hookr_spec.rb:523-531 | after three adds and the removal of 0 and 1, the size rule's next callback gets index 1 and runs before the one added earlier |
| Scenarios.InsertThree | spec/hookr_spec.rb:601-609 | inserting indices 1, 3, 2 yields them in order 1, 2, 3 |
| Scenarios.BuildThree | spec/hookr_spec.rb:601-606 | the set given :cb1, :cb3, :cb2 holds [cb1, cb2, cb3] |
| Scenarios.ThreeCallbacksSorted | spec/hookr_spec.rb:608-610 | to_a is [cb1, cb2, cb3], each comparing -1 with every later one |
| Scenarios.LocateByIndex | spec/hookr_spec.rb:612-620 | [1], [2] and [3] find :cb1, :cb2 and :cb3; [4] is nil |
| Scenarios.LocateByHandle | spec/hookr_spec.rb:622-626 | [:cb1], [:cb2] and [:cb3] find their callbacks |
| Scenarios.BuildSelection | spec/hookr_spec.rb:482-513 | the five add methods return 0, :my_external, 2, :my_internal and :my_method |
| Scenarios.SelectionOfCallbacks | spec/hookr_spec.rb:500-521 | the hook has 5 callbacks. `[]` with each returned handle finds a callback of kind external, external, internal, internal and method |
| Scenarios.SelectionRuns | spec/hookr_spec.rb:523-531 | the selection's run is complete, and its trace is the five invocations in order of addition |
| Scenarios.ExecuteSelection | spec/hookr_spec.rb:523-531 | execute_callbacks calls the five in order of addition, each with the event |
| Scenarios.BuildParentAndChild | spec/hookr_spec.rb:545-558 | the child's chain is the parent's callback followed by its own |
| Scenarios.ParentAndChildRun | spec/hookr_spec.rb:560-564 | the chain's run calls :parent, then :child |
| Scenarios.ParentCallbacksFirst | spec/hookr_spec.rb:560-568 | executing the child calls :parent before :child with the same event, and the total is 2 |
| Scenarios.Duplicated | spec/hookr_spec.rb:571-590 | the copy's parent is the original; the copy has 0 own callbacks and the original 1 |
| Scenarios.RemoveByIndexAndByHandle | spec/hookr_spec.rb:345-401 | removal by index 0, by :xyzzy and by :my_callback (a parameterless block, so an internal callback) each leaves 0 callbacks |
| Scenarios.EqualByName | spec/hookr_spec.rb:460-465 | :foo equals another :foo that has a parent, and does not equal :parent |
| Scenarios.NamesMustBeSymbols | spec/hookr_spec.rb:443-447 | Hook.new("foo") fails its Symbol check. A hook built without a parent has NullHook as parent and 0 callbacks |
| Scenarios.InternalWithParameterRefused | spec/hookr_spec.rb:713-720 | an internal callback from a one-parameter block is refused, and nothing is added |
| Scenarios.SignalWithTwoArguments | spec/hookr_spec.rb:247-285 | fired with (:purple, :grape), a three-parameter callback gets (event, :purple, :grape); a one-parameter callback fails with an arity error |
| Scenarios.ReadyMadeHandleMovesCounter | spec/hookr_spec.rb:467-471 | after add_callback of handle 123 at index 0 on a fresh hook, the next anonymous add returns 124, where the own-count rule gives 1 |
| Scenarios.BuildAfterRemoval | spec/hookr_spec.rb:502-513 | with the counter, adds return 0 and 1, and after removing 0 the next add returns 2 |
| Scenarios.AfterRemovalRuns | spec/hookr_spec.rb:523-531 | the remaining two callbacks run in the order they were added |
| Scenarios.IndexNeverReused | spec/hookr_spec.rb:523-531 | execution after the removal calls index 1 and then index 2 |

## Left out

- The library sources (`lib/hookr.rb`) are not part of this model. The behaviour modelled is the one the test suite asserts.
- Ruby reflection is modelled by a tag, not performed. This covers `instance_eval` on the source, `Method#bind`, `define_method` and `module_eval`. An invocation records its receiver (`BlockSelf`, `Source`, `Bound`) in the trace.
- Callback bodies are opaque. Their results, their side effects and any exception raised inside a body are not modelled. The only failures a run can meet are the arity mismatches of `to_args`.
- Method resolution (finding a method's arity from a class and a name) is an input to `AddMethodCallback`, not computed.
- The DSL layer is not modelled: `define_hook`, the generated `on_signal` macros, the per-class and per-instance hook registries, hook counts under subclassing, and wildcard callbacks. That includes the DSL choosing an internal callback for a zero-parameter block; the add methods take the kind explicitly.
- Callbacks.Call: a callback whose arity does not fit the hook fails when it is called, as `Event#to_args` does. The DSL macro refuses it when it is defined; that check belongs to the DSL layer.
- RSpec stubs and mocks are not modelled. The `FailFast` assertion library is reduced to the `AssertionFailure` error value.
- Hooks.Hook.AddCallback: a ready-made callback whose index or Integer handle is at or above the counter moves the counter past it, so that no index is ever handed out twice. The next anonymous add then departs from the own-count rule: after adding handle 123 at index 0 to a fresh hook it returns 124, not 1 (Scenarios.ReadyMadeHandleMovesCounter). Without such adds and without removals the two rules agree (SizeIndexing.AddNextAgreesWithSizeRule).
- Hooks.Hook.AddNext: requires a given name not to be a handle of the own set already, for the reason given under Hooks.Hook.AddCallback.
- Hooks.Hook.AddExternalCallback: requires the same uniqueness of a given name.
- Hooks.Hook.AddInternalCallback: requires the same uniqueness of a given name.
- Hooks.Hook.AddMethodCallback: requires the method name not to be a handle of the own set already, for the same reason.
- Hooks.Hook.AddCallback: requires the callback's index and handle to be new to the own set. The order of two callbacks sharing a handle is unspecified, since `<=>` then says 0 whatever the indices; the model keeps handles unique instead of inventing a tie-break.
- CallbackSets.CallbackSet.Add: requires the same uniqueness of index and handle, for the same reason.
- Hooks.Hook.Equals: `hash` is not modelled, only `==`/`eql?`.
- Callbacks.NewInternalCallback: accepts arity 0 only and refuses -1. Under Ruby 1.8 the block with no parameter list built at spec/hookr_spec.rb:700-702 reports arity -1, and the suite expects it to be accepted; the model takes such a block's arity to be 0.
- Concurrency (a single-writer discipline around `execute_callbacks`) is outside the sequential model.

## Findings

| source | as written | input that shows it | evidently intended | confidence | as-written member | corrected member |
|---|---|---|---|---|---|---|
| spec/hookr_spec.rb:502-513 | the engine assigns a new callback's index, and an anonymous handle, as the hook's own callback count at insertion. The cited tests fix indices only on a hook nothing was removed from, where that rule gives the values they expect | add two anonymous callbacks (0 and 1), remove index 0, add a third: it gets index 1 and handle 1, both still held by the survivor; after three adds and removals of 0 and 1, the next add gets index 1 and runs before the callback added earlier | indices are assigned once and never reused, so lookup by index is unambiguous and execution follows order of addition | not executed; the tests do not exercise an add after a removal, and the implementation is not available | SizeIndexing.SizeIndexCollidesAfterRemoval | Hooks.Hook.AddNext |
