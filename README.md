# A verified model of Xalia's UI DOM element core

Xalia exposes the accessibility tree of a desktop application as a tree of `UiDomElement`
objects. A rule sheet (GUDL: blocks of declarations under optional conditions, scanned
first-match-wins) is evaluated on each element. The result is a set of active declarations
together with the properties they depend on. The element watches those properties through
property change notifiers. When a property changes, a rule pass is queued on the idle loop
of every dependent element. Elements come alive when they are added to a live parent and are
torn down when they leave it. Children that come from the platform ("recurse method"
children) are reconciled against a fresh list of keys. Some properties are polled on a timer.

This project models that core in Dafny, together with two platform elements:

- `Win32TabControl`, a Win32 tab control that polls its selected index;
- `AtSpiObject` from gazelle, an AT-SPI accessible object that tracks its children over D-Bus.

The whole element tree is one arena, the class `UiDom.Dom`. Its fields are:

- `elems`: a map from element ids to per-element records (tree links, rule state, watchers,
  poll loops, tab-control state, tracked properties);
- `notifiers`: the property change notifiers;
- `idle`: the idle queue;
- `log`: every observable effect a provider or an outside handler can see;
- `watchCalls`, `nextElem` and `nextNotifier`.

`Dom.Valid()` is a single invariant over that state. It states that:

- the tree links are closed;
- every subscription is booked in exactly one notifier list;
- every pending rule pass is in the idle queue;
- the poll loops are well formed.

Which methods keep `Valid()`:

- The element's operations require and ensure `Valid()`: `CreateElement`, `SetAlive` (with
  `Awaken`, `Kill` and `Teardown`), `AddChild`, `RemoveChild`, `RecalculateChildIndices`,
  `IndexInParent`, `SyncRecurseMethodChildren`, `EvaluateRules`, `DeclarationsChanged`,
  `PropertiesChanged`, `RefreshDone`, `DelayDone`, `RefreshSelectionIndex` and
  `AssignProperty`. So do the steps they are built from, except for the helpers below.
- Some helper steps neither require nor ensure `Valid()`: `QueueEvaluateRules`,
  `PollProperty`, `EndPollProperty`, `ConsultProviders`, `WatchProperty`,
  `UnwatchProperty`, `AddPropertyChangeNotifier`, `NotifyPropertyChanged`,
  `RemovePropertyChangeNotifier`, `Dispose`, `CallHandlers`, `CallAllHandlers`,
  `SetDependencies`, `RegisterTrackedProperties`, `RegisterAll`, `Reindex`, `NotifyRemoved`
  and `LogWatcherDisposals`.
  - Each of them states its new state exactly, as a specification function of the old state.
  - Lemmas named `…Keeps` show that this new state keeps the invariant; the callers rely on
    them. Examples: `QueuedKeeps`, `PolledKeeps`, `NotifiedKeeps` and `UnsubscribedKeeps`.
- Three methods state only part of their new state: `Relink`, `SyncRecurseMethodChildren`
  and `EvaluateRules`. "## Left out" has a line for each.

Everywhere else the new state is stated through specification functions over the old state,
and lemmas give those functions their meaning.

Modules:

- `UiDomValues`: values, expressions and the element-kind datatypes.
- `Resolution`: the lookup order of `EvaluateIdentifierCore`, plus `GetDeclaration` and
  `AssignProperty` on values.
- `RuleCascade`: the block scan of `EvaluateRules` and the changed set of
  `DeclarationsChanged`.
- `Polling`: the poll loops of `PollProperty`, `DoPollProperty` and `EndPollProperty`.
- `Reconcile`: the key matching of `SyncRecurseMethodChildren`.
- `Win32TabControl`: the tab control's aliases, fixed identifiers and selection refresh.
- `UiDomState`, `UiDomSteps`, `UiDomDispatch`, `UiDomRebind`, `UiDomTree` and `UiDomLife`:
  the arena, its invariant, and the specification functions and preservation lemmas for each
  kind of step.
- `UiDom`: the class `Dom` with the element operations as methods.
- `AtSpi`: the class `AtSpiObject`.

Inputs that the elements get from outside are parameters of the model:

- the GUDL expression evaluator, a function `eval: Expr -> Lookup`;
- the providers' answers, fixed functions given to `Dom`'s constructor;
- the keys' ids;
- the result of `TCM_GETCURSEL`;
- the D-Bus replies.

## Model

| member | source | states |
|---|---|---|
| UiDom.Dom.CreateElement | xalia/UiDom/UiDomElement.cs:123-127 | a fresh id gets a new element that is not alive and has no parent; no existing element changes |
| UiDom.Dom.QueueEvaluateRules | xalia/UiDom/UiDomElement.cs:53-64 | a pass is queued exactly when the element is alive and has none pending; then the flag is set and one task joins the end of the idle queue, otherwise nothing changes |
| UiDom.Dom.SetAlive | xalia/UiDom/UiDomElement.cs:66-121 | afterwards the element is alive exactly as asked; coming alive registers the global providers' tracked properties and queues a rule pass; going dead is Kill, which queues no rule pass and calls no outside handler, and when no removal fails leaves every former child dead with no parent; the invariant is kept |
| UiDom.Dom.Awaken | xalia/UiDom/UiDomElement.cs:68-80 | alive first, then every global provider's tracked list registered in provider order, then one rule pass queued |
| UiDom.Dom.RegisterAll | xalia/UiDom/UiDomElement.cs:73-78 | the tracked lists joined are exactly those some global provider returns, in provider order |
| UiDom.Dom.RegisterTrackedProperties | xalia/UiDom/UiDomElement.cs:1044-1052 | the list joins the end of the tracked lists, and an update callback is queued only when none is pending |
| UiDom.Dom.Kill | xalia/Uia/Win32/Win32TabControl.cs:37-48 | the tab control releases its remote memory first, alive or not; a live element is then torn down; no element comes alive or gains a parent; the idle queue is unchanged and no outside handler is called; a negative recurse-method count makes the teardown fail; otherwise the list ends empty and every child it held ends dead with no parent |
| UiDom.Dom.ReleaseRemoteMemory | xalia/Uia/Win32/Win32TabControl.cs:39-46 | remote memory, if held, is released once (logged) and forgotten; nothing else changes |
| UiDom.Dom.Teardown | xalia/UiDom/UiDomElement.cs:81-119 | not alive; the element's providers and then the global ones are notified in order; the element ends disposing, with no watchers, no dependency notifiers, no polling and no pending pass; its children are removed, each ending dead with no parent, and its death is logged last; no rule pass is queued and no outside handler is called, so no "children" change is dispatched |
| UiDom.Dom.RemoveChildren | xalia/UiDom/UiDomElement.cs:110-118 | the two removal loops, then the death event: a negative recurse-method count fails; on success the list is empty, the count is what the loops leave, every former child ends dead with no parent, and the death is logged last; nothing is queued and no outside handler is called |
| UiDom.Dom.BeginTeardown | xalia/UiDom/UiDomElement.cs:83-90 | the element stops being alive and the log grows by exactly one removal notice per provider, local providers first |
| UiDom.Dom.DisposeWatchers | xalia/UiDom/UiDomElement.cs:91-96 | the element turns disposing, and each relationship watcher is disposed exactly once (in some order) and then forgotten |
| UiDom.Dom.Withdraw | xalia/UiDom/UiDomElement.cs:97-101 | every dependency notifier of the element is disposed and its rule state is unchanged |
| UiDom.Dom.Quiesce | xalia/UiDom/UiDomElement.cs:101-109 | the dependency map is cleared, polling is torn down (every live token cancelled) and the pending flag dropped |
| UiDom.Dom.TrimChildren | xalia/UiDom/UiDomElement.cs:110-113 | children beyond the recurse-method count are removed from the end as manual children: the count is kept, the list left is the first min(count, length) children of the old list, and each removed child ends dead with no parent; nothing is queued and no outside handler is called |
| UiDom.Dom.ClearChildren | xalia/UiDom/UiDomElement.cs:114-117 | the remaining children are removed from the end as recurse-method children, leaving none, the count lowered by their number, and each ending dead with no parent; nothing is queued and no outside handler is called |
| UiDom.Dom.AddChild | xalia/UiDom/UiDomElement.cs:141-166 | an out-of-range index or a child that already has a parent fails, with nothing changed; otherwise the table first becomes Linked: the child is inserted at index, gets its parent and cached index, raises the count if recurse-method, and comes alive if it was not, queuing its own tasks; then the parent's "children" announcement runs from there: nothing if the parent is dead, otherwise exactly the woken elements flagged, their passes queued and the outside handlers logged |
| UiDom.Dom.Link | xalia/UiDom/UiDomElement.cs:159-164 | the table becomes Linked (the child linked in as Joined says and made alive unless it already is), and the idle queue grows by exactly the tasks of that awakening |
| UiDom.Dom.Join | xalia/UiDom/UiDomElement.cs:159-165 | AddChild past its checks: Linked, then the "children" announcement on the parent, which keeps the new links and the child's tracked state |
| UiDom.Dom.RemoveChild | xalia/UiDom/UiDomElement.cs:186-210 | an out-of-range index for the kind of child fails with nothing changed; otherwise the child leaves the list, ends with no parent and dead, a recurse-method removal lowers the count, and from that table a live parent announces its children changed exactly as PropertiesChanged does, while a dead parent queues nothing and calls no handler |
| UiDom.Dom.Release | xalia/UiDom/UiDomElement.cs:203-205 | the child leaves the list and its parent, then is torn down; it ends dead with no parent; nothing is queued and no outside handler is called |
| UiDom.Dom.Finish | xalia/UiDom/UiDomElement.cs:206-209 | the count drops by one for a recurse-method removal, then the parent's "children" announcement runs from that table; a dead parent changes nothing more |
| UiDom.Dom.Detach | xalia/UiDom/UiDomElement.cs:203-204 | the table is exactly the parent cut at index with the child orphaned: the child loses its parent; no element changes liveness |
| UiDom.Dom.LowerCount | xalia/UiDom/UiDomElement.cs:206-207 | the parent's recurse-method count drops by one and nothing else changes |
| UiDom.Dom.RecalculateChildIndices | xalia/UiDom/UiDomElement.cs:1311-1316 | each child's cached index becomes a position at which the parent lists it; nothing else changes |
| UiDom.Dom.IndexInParent | xalia/UiDom/UiDomElement.cs:1296-1308 | -1 with no parent; otherwise a position at which the parent lists the element, recalculating only when the cache is stale |
| UiDom.Dom.SyncRecurseMethodChildren | xalia/UiDom/UiDomElement.cs:1193-1294 | nothing on a dead element; a repeated id fails with nothing changed; a count that does not fit the list fails; nothing changes when no old child moves and the count is the same; otherwise the list is rebuilt as Resynced says, and every old child whose id is gone is torn down and ends dead with no parent |
| UiDom.Dom.Resync | xalia/UiDom/UiDomElement.cs:1246-1293 | the rebuilt list keeps the matched old children in their new slots, fills the other slots with new elements and adopts them; unmatched old children end dead and with no parent |
| UiDom.Dom.MakeChildren | xalia/UiDom/UiDomElement.cs:1246-1254 | each slot no old child took gets a new element with its key's id; every slot is filled from old children or new elements |
| UiDom.Dom.AdoptAll | xalia/UiDom/UiDomElement.cs:1273-1280 | each new child that is not alive gets this parent and comes alive |
| UiDom.Dom.Relink | xalia/UiDom/UiDomElement.cs:1273-1293 | the new children are adopted, then the unmatched old children are torn down and end dead with no parent, and only then are the children announced |
| UiDom.Dom.DropAll | xalia/UiDom/UiDomElement.cs:1282-1289 | each old child whose id is gone loses its parent and is torn down, in list order, unless a teardown fails; each ends dead and with no parent |
| UiDom.Dom.Disown | xalia/UiDom/UiDomElement.cs:1286-1287 | the old child's parent is cleared, then it is torn down; it ends dead with no parent, and no element comes alive |
| Reconcile.IndexKeys | xalia/UiDom/UiDomElement.cs:1204-1217 | fails exactly when some non-null id occurs twice; otherwise the id-to-index map |
| Reconcile.IdIndex | xalia/UiDom/UiDomElement.cs:1204-1217 | every present id maps to an index holding it; without duplicates each id maps to its own index, and the map is injective |
| Reconcile.MatchOld | xalia/UiDom/UiDomElement.cs:1219-1238 | the slots are the Placement of the old ids, and changed holds exactly when some old child moves or leaves |
| Reconcile.MatchedLandAtNewIndex | xalia/UiDom/UiDomElement.cs:1222-1230 | with distinct old ids, an old child whose id survives lands in the slot of its id |
| Reconcile.UnfilledSlots | xalia/UiDom/UiDomElement.cs:1246-1254 | a slot is left for key_to_element exactly when no old child maps to it |
| Reconcile.UnchangedIsIdentity | xalia/UiDom/UiDomElement.cs:1240-1244 | the early return is sound: with nothing moved and the same count, the placement is the identity |
| Reconcile.PermutationNeedsNoNewElements | xalia/UiDom/UiDomElement.cs:1246-1254 | when the new ids reorder the old ones, every slot is filled from old children |
| UiDom.Dom.EvaluateRules | xalia/UiDom/UiDomElement.cs:602-653 | the pass at the head of the queue clears its flag; a dead element stops there; otherwise the sheet's cascade is installed by DeclarationsChanged; the root raises its declarations-changed event |
| UiDom.Dom.TakePass | xalia/UiDom/UiDomElement.cs:602-606 | the head of the idle queue is removed and its element's pending flag cleared |
| RuleCascade.EvaluateCascade | xalia/UiDom/UiDomElement.cs:607-649 | the loop computes the Cascade of the rules: the active declarations and the dependencies read |
| RuleCascade.ScanKeeps | xalia/UiDom/UiDomElement.cs:632-645 | first match wins: a property already resolved (other than stop) is never overwritten by a later block |
| RuleCascade.CascadeSound | xalia/UiDom/UiDomElement.cs:610-649 | every active declaration belongs to the sheet for its property and records the value of its expression |
| RuleCascade.CascadeWithin | xalia/UiDom/UiDomElement.cs:609-649 | the dependencies are only properties the evaluator read |
| RuleCascade.MatchingBlockResolves | xalia/UiDom/UiDomElement.cs:624-645 | a reached block whose condition is absent or true resolves every property it declares |
| RuleCascade.MatchingBlockRecordsStop | xalia/UiDom/UiDomElement.cs:624-648 | stop is re-evaluated in every matching block: a reached block that declares stop records its last stop declaration with that block's value, and a true one sets the flag, after which no later block is scanned |
| RuleCascade.StopEndsScan | xalia/UiDom/UiDomElement.cs:641-648 | once stop is set, blocks after it do not matter |
| RuleCascade.ResolvedBlockSkipped | xalia/UiDom/UiDomElement.cs:612-621 | a block declaring only already-resolved properties other than stop is passed over without evaluating its condition: the scan state is unchanged and the scan goes on at the next block |
| RuleCascade.FalsyBlockSkipped | xalia/UiDom/UiDomElement.cs:612-630 | a block with a falsy condition declares nothing: resolved properties and the stop flag are unchanged, and only the condition's reads are added, when the block could have contributed |
| RuleCascade.ButtonScenario | xalia/UiDom/UiDomElement.cs:610-649 | with a conditional block that stops and a default block, label resolves to the first block's value exactly when its condition holds |
| RuleCascade.Changed | xalia/UiDom/UiDomElement.cs:715-725 | the changed set holds exactly the properties removed, added, or whose declaration or value differs |
| RuleCascade.ChangedEmptyIffEqual | xalia/UiDom/UiDomElement.cs:715-725 | nothing is announced exactly when the declarations are the same |
| UiDom.Dom.DeclarationsChanged | xalia/UiDom/UiDomElement.cs:705-751 | nothing once the element is disposing; otherwise the declarations are installed, each dependency kept keeps its notifier, each new one gets a fresh notifier, each dropped one is disposed, and exactly the changed properties are announced |
| UiDom.Dom.Redeclare | xalia/UiDom/UiDomElement.cs:715-750 | the same for an element that is not disposing: Declared holds between the old and new arena |
| UiDom.Dom.InstallDeclarations | xalia/UiDom/UiDomElement.cs:715-748 | Installed holds and the returned set is Changed(old declarations, new declarations) |
| UiDom.Dom.Resubscribe | xalia/UiDom/UiDomElement.cs:729-743 | the new map has exactly the dependencies read, each renewed from the old map or freshly subscribed; the old map keeps exactly the dependencies no longer read |
| UiDom.Dom.DisposeDependencies | xalia/UiDom/UiDomElement.cs:744-747 | every notifier left in the old map is disposed; no other notifier and no element's rule state changes |
| UiDomRebind.RenewedRetires | xalia/UiDom/UiDomElement.cs:731-747 | disposing old notifiers does not touch the renewed map |
| UiDomRebind.ReleaseMeaning | xalia/UiDom/UiDomElement.cs:744-747 | each disposal keeps the earlier disposals and marks its own notifier disposed |
| UiDomRebind.InstalledMeaning | xalia/UiDom/UiDomElement.cs:715-748 | storing the declarations, the two loops and storing the new map together make up Installation |
| UiDomRebind.InstalledDeps | xalia/UiDom/UiDomElement.cs:744-748 | every dependency dropped from the old map ends with its notifier disposed |
| UiDomRebind.DeclaredAfter | xalia/UiDom/UiDomElement.cs:748-750 | announcing afterwards keeps what the installation did |
| UiDom.Dom.AddPropertyChangeNotifier | xalia/UiDom/UiDomElement.cs:801-815 | the notifier joins the end of its expression's list; only the first one creates the list and calls WatchProperty |
| UiDom.Dom.NotifyPropertyChanged | xalia/UiDom/UiDomElement.cs:817-820 | a fresh notifier id, subscribed as AddPropertyChangeNotifier says |
| UiDom.Dom.RemovePropertyChangeNotifier | xalia/UiDom/UiDomElement.cs:786-799 | the notifier leaves its list; the last one removes the list and calls UnwatchProperty |
| UiDom.Dom.Dispose | xalia/UiDom/UiDomElement.cs:776-783 | the notifier is removed the first time only; a second dispose changes nothing |
| UiDomSteps.Watched | xalia/UiDom/UiDomElement.cs:822-850 | watching adds at most the one relationship watcher, and only when not disposing and no provider claims the expression |
| UiDomSteps.Unwatched | xalia/UiDom/UiDomElement.cs:852-873 | unwatching only removes watchers; an expression still watched is one a provider claims or the element is disposing |
| UiDomSteps.UnwatchUndoesWatch | xalia/UiDom/UiDomElement.cs:822-873 | watching and then unwatching leaves the watchers as they were, with nothing polling the expression |
| UiDom.Dom.WatchProperty | xalia/Uia/Win32/Win32TabControl.cs:91-103 | the tab control starts polling its selection index, then the base watch runs; the new state and effects are Watched and WatchEffects |
| UiDom.Dom.UnwatchProperty | xalia/Uia/Win32/Win32TabControl.cs:105-118 | the tab control ends the poll and forgets the index, then the base unwatch runs; the new state and effects are Unwatched and UnwatchEffects |
| UiDom.Dom.ConsultProviders | xalia/UiDom/UiDomElement.cs:828-837 | the element's providers and then the global ones are asked in order, until one claims the expression |
| UiDom.Dom.PropertiesChanged | xalia/UiDom/UiDomElement.cs:893-925 | nothing on a dead element; otherwise every notifier subscribed to a changed property is called once: a dependency notifier queues its owner's rule pass, once per owner, and an outside handler is logged once, in any order of the properties |
| UiDom.Dom.CallHandlers | xalia/UiDom/UiDomElement.cs:902-921 | the handlers of one property's list are called in list order, over the list as it stood on entry |
| UiDom.Dom.CallAllHandlers | xalia/UiDom/UiDomElement.cs:897-924 | the properties are visited once each, in the order taken, and the result is Broadcast over that order |
| UiDomDispatch.DeliverMeaning | xalia/UiDom/UiDomElement.cs:902-921 | one list's delivery wakes exactly the owners, queues one pass per newly woken owner, and calls each outside notifier once |
| UiDomDispatch.BroadcastMeaning | xalia/UiDom/UiDomElement.cs:893-925 | the result does not depend on the order of the properties, only on their set |
| UiDom.Dom.PollProperty | xalia/UiDom/UiDomElement.cs:985-992 | the expression ends up polling; a loop starts only when it was not already polling |
| UiDom.Dom.EndPollProperty | xalia/UiDom/UiDomElement.cs:1022-1033 | the expression stops polling and its current token, if any, is cancelled |
| UiDom.Dom.RefreshDone | xalia/UiDom/UiDomElement.cs:999-1006 | after the refresh the loop ends if polling was ended, else it records a fresh token and starts its delay |
| UiDom.Dom.DelayDone | xalia/UiDom/UiDomElement.cs:1008-1019 | a cancelled delay ends the loop; an elapsed one restarts it (corrected) |
| Polling.Poll | xalia/UiDom/UiDomElement.cs:985-992 | afterwards the expression is polling; an already polling one is left as it is; otherwise one refreshing loop is added |
| Polling.EndPoll | xalia/UiDom/UiDomElement.cs:1022-1033 | the expression is no longer polling, its live token is cancelled, and no other expression changes |
| Polling.AfterRefresh | xalia/UiDom/UiDomElement.cs:1001-1006 | a loop whose polling ended finishes; otherwise it delays under a fresh token that is not cancelled |
| Polling.AfterDelayAsWritten | xalia/UiDom/UiDomElement.cs:1008-1019 | the delay ignores its token: the loop refreshes again whenever the expression is polling |
| Polling.AfterDelay | xalia/UiDom/UiDomElement.cs:1008-1019 | a delay whose token was cancelled finishes the loop; otherwise as written |
| Polling.Teardown | xalia/UiDom/UiDomElement.cs:102-108 | nothing polls and every live token is cancelled |
| Polling.PollEndTeardownPreserveValid | xalia/UiDom/UiDomElement.cs:985-1033 | Poll, EndPoll and Teardown keep the loops well formed |
| Polling.AfterRefreshPreservesValid | xalia/UiDom/UiDomElement.cs:1001-1006 | the refresh continuation keeps the loops well formed, with a live token when it goes on |
| Polling.AfterDelayPreservesValid | xalia/UiDom/UiDomElement.cs:1008-1019 | both delay continuations keep the loops well formed |
| Polling.EndPollIdempotent | xalia/UiDom/UiDomElement.cs:1022-1033 | ending twice is ending once |
| Polling.NoRefreshAfterEnd | xalia/UiDom/UiDomElement.cs:996-1002 | a loop whose expression is not polling finishes at its next step |
| Polling.RestartDuringDelayAsWritten | xalia/UiDom/UiDomElement.cs:1004-1019 | as written, ending and restarting polling during a delay leaves two loops refreshing |
| Polling.RestartDuringDelay | xalia/UiDom/UiDomElement.cs:1004-1019 | corrected, the same sequence leaves one loop refreshing |
| Polling.CancelledLoopStays | xalia/UiDom/UiDomElement.cs:1008-1016 | corrected, a cancelled loop finishes even if the expression polls again |
| Resolution.ResolveIsFirstAnswer | xalia/UiDom/UiDomElement.cs:255-439 | resolution is the first defined answer among the stages, in the source's order |
| Resolution.FirstAnswer | xalia/UiDom/UiDomElement.cs:255-439 | the first stage that answers decides; no answer gives undefined |
| Resolution.Consult | xalia/UiDom/UiDomElement.cs:257-269 | undefined exactly when every provider is; otherwise the answer of the first provider that answers |
| Resolution.ConsultFirstDefined | xalia/UiDom/UiDomElement.cs:258-263 | the first provider with a defined answer gives the value |
| Resolution.LocalProviderFirst | xalia/UiDom/UiDomElement.cs:258-263 | a local provider's early answer wins over everything after it |
| Resolution.Builtin | xalia/UiDom/UiDomElement.cs:270-415 | a built-in name always answers, so resolution stops there |
| Resolution.BuiltinAnswer | xalia/UiDom/UiDomElement.cs:316-392 | child queries depend on the element's children; sibling queries depend on the parent's children; without a parent they are undefined |
| Resolution.BuiltinShadowsDeclarations | xalia/UiDom/UiDomElement.cs:270-415 | declarations and assignments cannot change a built-in name |
| Resolution.ResolveRecordsOwnProperty | xalia/UiDom/UiDomElement.cs:416-438 | a name no earlier stage handles depends on the element's own property and resolves to its declaration; what the hook added to the dependencies before declining is kept |
| Resolution.IndexOf | xalia/UiDom/UiDomElement.cs:344-363 | the first index holding the element, or -1 exactly when it is absent |
| Resolution.GetDeclaration | xalia/UiDom/UiDomElement.cs:246-253 | a defined active declaration wins, then a defined assignment, else undefined |
| Resolution.AssignAsWritten | xalia/UiDom/UiDomElement.cs:222-244 | as written: undefined removes a present name; anything else not already stored is stored, undefined included; changed exactly when the map changes |
| Resolution.AssignUndefinedAnnouncesAsWritten | xalia/UiDom/UiDomElement.cs:224-241 | as written, assigning undefined to an absent name announces a change that GetDeclaration cannot see, and repeating it announces again |
| Resolution.Assign | xalia/UiDom/UiDomElement.cs:222-244 | corrected: undefined only removes; other names are kept; the map never holds undefined |
| Resolution.AssignThenGet | xalia/UiDom/UiDomElement.cs:222-253 | after Assign, GetDeclaration yields the value unless a declaration shadows it, other names are untouched, changed holds exactly when the visible value changes, and assigning again changes nothing |
| UiDom.Dom.AssignProperty | xalia/UiDom/UiDomElement.cs:222-244 | the assigned values become Assign's, and a change is announced to the identifier's notifiers exactly when Assign reports one |
| Win32TabControl.Resolve | xalia/Uia/Win32/Win32TabControl.cs:50-82 | the fixed names are true, role and control_type are the tab role, win32_selection_index is the cached index (with a dependency), selection_index falls back to it, and other names go to the base |
| Win32TabControl.RefreshAsWritten | xalia/Uia/Win32/Win32TabControl.cs:120-141 | as written: the state and the announcement, including a negative result leaving the old index cached |
| Win32TabControl.RefreshAsWrittenRepeatsAnnouncement | xalia/Uia/Win32/Win32TabControl.cs:125-139 | as written, two refreshes with no selection each announce undefined |
| Win32TabControl.RefreshCorrected | xalia/Uia/Win32/Win32TabControl.cs:120-141 | corrected: a non-negative result is stored, and a negative one leaves the index unknown |
| Win32TabControl.RefreshCorrectedAnnouncesChanges | xalia/Uia/Win32/Win32TabControl.cs:125-139 | corrected, an announcement happens exactly when the exposed value changes, and a repeated refresh announces nothing |
| UiDom.Dom.RefreshSelectionIndex | xalia/Uia/Win32/Win32TabControl.cs:120-141 | the cached selection takes the corrected refresh's state, and a change is announced to win32_selection_index's notifiers |
| UiDomLife.TrackedListsMeaning | xalia/UiDom/UiDomElement.cs:73-78 | a list is registered exactly when some global provider returns it |
| UiDomLife.InsertionKeepsPartition | xalia/UiDom/UiDomElement.cs:141-166 | insertion keeps the recurse-method prefix and the manual suffix apart |
| UiDomLife.RemovalKeepsPartition | xalia/UiDom/UiDomElement.cs:186-210 | removal keeps the same partition |
| UiDomTree.CutOverrunsCount | xalia/UiDom/UiDomElement.cs:203-207 | between RemoveAt and the decrement, a parent whose children were all recurse-method children counts one more than it holds; the decrement restores the bound |
| UiDomLife.IndexedMeaning | xalia/UiDom/UiDomElement.cs:1311-1316 | after the loop, each visited child's index points at its last position, and every other element is untouched |
| UiDomTree.TeardownChain | xalia/UiDom/UiDomElement.cs:81-109 | the teardown steps before the children are removed make up Prepared |
| UiDomValues.ToBool | xalia/UiDom/UiDomElement.cs:626-629 | undefined is false, a boolean is itself, an int is nonzero, a string is nonempty |
| AtSpi.AtSpiObject.constructor | gazelle/AtSpi/AtSpiObject.cs:27-34 | a new object with the given service and path, not alive, not watching, with no children |
| AtSpi.AtSpiObject.DebugId | gazelle/AtSpi/AtSpiObject.cs:17 | the service, a colon, then the path |
| AtSpi.DebugIdDetermines | gazelle/AtSpi/AtSpiObject.cs:17 | with colon-free paths, the debug id determines service and path |
| AtSpi.ToInt32 | gazelle/AtSpi/AtSpiObject.cs:105 | the (int) cast of a uint: the same value modulo 2^32, unchanged exactly below 2^31 |
| AtSpi.AtSpiObject.AddChild | gazelle/AtSpi/AtSpiObject.cs:58 | an index outside 0..count fails; otherwise the child is inserted there |
| AtSpi.AtSpiObject.WatchChildren | gazelle/AtSpi/AtSpiObject.cs:63-73 | nothing while watching; otherwise watching, children unknown, one subscription task started |
| AtSpi.AtSpiObject.UnwatchChildren | gazelle/AtSpi/AtSpiObject.cs:75-92 | nothing when not watching; otherwise not watching, the event disposed, all children removed |
| AtSpi.AtSpiObject.RemoveAllChildren | gazelle/AtSpi/AtSpiObject.cs:88-91 | the loop from the last index removes every child |
| AtSpi.AtSpiObject.SubscribedAsWritten | gazelle/AtSpi/AtSpiObject.cs:42-47 | as written: the subscription is stored even if watching has ended, disposing any earlier one |
| AtSpi.AtSpiObject.ChildrenFetchedAsWritten | gazelle/AtSpi/AtSpiObject.cs:49-60 | as written: unless children are known, the fetched children are inserted in front, even when no longer watching |
| AtSpi.AtSpiObject.Populate | gazelle/AtSpi/AtSpiObject.cs:54-60 | the fetched ids, in order, become new children in front of the old ones |
| AtSpi.AtSpiObject.Subscribed | gazelle/AtSpi/AtSpiObject.cs:42-47 | corrected: a subscription arriving after unwatching is disposed at once |
| AtSpi.AtSpiObject.ChildrenFetched | gazelle/AtSpi/AtSpiObject.cs:49-60 | corrected: children arriving after unwatching are dropped; otherwise the children are exactly the fetched ids |
| AtSpi.AtSpiObject.OnChildrenChanged | gazelle/AtSpi/AtSpiObject.cs:94-135 | ignored unless watching with known children; add inserts at the cast index; remove drops the first child with that service and path; other details are ignored |
| AtSpi.AtSpiObject.RemoveMatching | gazelle/AtSpi/AtSpiObject.cs:113-128 | the first child with that id is removed, or nothing if there is none |
| AtSpi.MatchIndex | gazelle/AtSpi/AtSpiObject.cs:113-128 | the index of the first matching child, or the count when there is none |
| AtSpi.RemoveFirstMeaning | gazelle/AtSpi/AtSpiObject.cs:113-128 | removing drops exactly the first match and keeps the others in order |
| AtSpi.AtSpiObject.SetAlive | gazelle/AtSpi/AtSpiObject.cs:137-149 | alive as asked; the root watches its children exactly when alive; other objects change nothing else |
| AtSpi.StaleChildrenAfterUnwatch | gazelle/AtSpi/AtSpiObject.cs:40-92 | as written, a root unwatched while it subscribes ends not watching, yet holding a subscription and a child |
| AtSpi.NoStaleChildrenAfterUnwatch | gazelle/AtSpi/AtSpiObject.cs:40-92 | corrected, the same sequence ends with no subscription, no children and the late one disposed |

## Left out

- UpdateTrackedProperties: the callback is queued, but its evaluation of the tracked properties is not modelled. The queued task is never run.
- key_to_element and key_to_id are inputs. A new element gets the key's id and a given kind.
- SyncRecurseMethodChildren: the count-mismatch exception is the failure outcome, not a distinct exception type.
- SyncRecurseMethodChildren: does not state that exactly one children-changed notice fires. After teardowns, the final state does not restate the adoption facts.
- EvaluateRules: does not state what the log contains beyond the effects of the steps it makes.
- PropertiesChanged: the retry of a handler list that changed during dispatch is not modelled. Handlers run over the list as it stood.
- The GUDL expression evaluator, the relationship watchers' internals and the providers' behaviour are parameters or opaque log entries.
- Debug output, DumpProperties and the debug conditions are not modelled.
- AddProvider and the provider lists' mutation are not modelled. Provider lists are fixed at construction.
- The gazelle UiDomObject base class is not part of this model. Its AddChild and RemoveChild are treated as plain list operations, and alive as a flag.
- The D-Bus proxies, RunTask and the awaits of WatchChildrenTask are modelled as counters and continuation methods called by the environment.
- The thread and timer behaviour of Task.Delay is modelled as the continuation methods RefreshDone and DelayDone.
- DelayDone: runs the corrected continuation Polling.AfterDelay, in which a cancelled delay ends its loop. As written the delay ignores its token; that behaviour is Polling.AfterDelayAsWritten, kept well formed by Polling.AfterDelayPreservesValid, and the first Findings row.
- RefreshSelectionIndex: runs Win32TabControl.RefreshCorrected, in which a negative TCM_GETCURSEL result forgets the index. The as-written refresh, which keeps the old index and announces again, is Win32TabControl.RefreshAsWritten and the second Findings row.
- AssignProperty: runs Resolution.Assign, in which assigning undefined only clears. The as-written assignment, which stores and announces undefined for an absent name, is Resolution.AssignAsWritten and the third Findings row.
- ConsultProviders: one fixed relation, `providerHandles`, stands for the answers of both provider.WatchProperty and provider.UnwatchProperty. A provider is taken to claim an expression on unwatch exactly when it claimed it on watch.
- Unwatched: rests on the same shared relation; a provider whose UnwatchProperty answer differs from its WatchProperty answer is not modelled.
- UnwatchUndoesWatch: holds because watch and unwatch consult the one shared relation.
- UnwatchProperty: the base unwatch consults the shared relation rather than a separate UnwatchProperty answer.
- Resolution.BuiltinAnswer: for "first_sibling" and "last_sibling", an element with a parent whose children list is empty answers undefined. The source (xalia/UiDom/UiDomElement.cs:330-343) indexes `Parent.Children` without a check and throws. A linked tree never reaches this case, because a child with a parent is in that parent's list. The element view handed to `BuiltinAnswer` does not carry that fact.
- IdOf: a key without an id gives its new element the debug id "". A later key whose id is "" would then match that element by id.
- Relink: does not state the closing "children" announcement exactly. Only the invariant, the frame and the growth of the log are stated after it.
- RemoveChild: the parent's children and count are stated only when the parent is still alive after the child's teardown, or was dead before it. The invariant does not exclude a cycle through which the child's teardown could reach the parent.
- TreeClosed: the bound 0 <= count <= number of children is not part of the invariant. RemoveChild breaks it between RemoveAt and the decrement while the child's SetAlive(false) runs, as UiDomTree.CutOverrunsCount shows. UiDomLife.InsertionKeepsPartition and UiDomLife.RemovalKeepsPartition show that each completed insertion and removal keeps it.
- AtSpi.AtSpiObject.RemoveChild: the index must be in range. It is only called from loops that guarantee this.
- AtSpi.AtSpiObject.OnChildrenChanged: the index is a uint, so it is below 2^32.

## Findings

| source | as written | input that shows it | evidently intended | confidence | as-written member | corrected member |
|---|---|---|---|---|---|---|
| xalia/UiDom/UiDomElement.cs:1008-1016 | `Task.Delay` is not given the token, so the catch is unreachable and a cancelled loop keeps going | PollProperty, then EndPollProperty and PollProperty while the loop delays: the old loop wakes, sees polling true and refreshes, next to the new loop | a cancelled delay ends its loop | not executed | Polling.RestartDuringDelayAsWritten | Polling.RestartDuringDelay |
| xalia/Uia/Win32/Win32TabControl.cs:125-139 | an unknown selection leaves the old index cached, so `i != SelectionIndex` stays true | index 3 known, then TCM_GETCURSEL returns -1 twice: "undefined" is announced on both refreshes | announce only when the exposed value changes | not executed | Win32TabControl.RefreshAsWrittenRepeatsAnnouncement | Win32TabControl.RefreshCorrectedAnnouncesChanges |
| xalia/UiDom/UiDomElement.cs:224-241 | undefined assigned to an absent name falls through and is stored and announced | AssignProperty("x", undefined) twice on a fresh element: both announce, while GetDeclaration stays undefined | assigning undefined only clears | not executed | Resolution.AssignUndefinedAnnouncesAsWritten | Resolution.AssignThenGet |
| gazelle/AtSpi/AtSpiObject.cs:42-60 | WatchChildrenTask does not check watching_children after its awaits | root SetAlive(true), then SetAlive(false), then the subscription and the children arrive: the object is not watching yet holds the event and a child | a late subscription is disposed and late children dropped | not executed | AtSpi.StaleChildrenAfterUnwatch | AtSpi.NoStaleChildrenAfterUnwatch |
