# AWIPS II core: input dispatch, bundle loading, Python calls, workbench rules, data ids

This project is a Dafny model of five pieces of the AWIPS II CAVE client and its
common libraries, with proofs about each of them.

- **Input dispatch** (`InputManager.dfy`, module `Input`). The input manager of a
  display pane container keeps its mouse and key handlers in a list sorted by
  priority. Most SWT events are dispatched from the highest index down until a
  handler reports the event handled. The exceptions are:
  - enter and exit go to every handler, highest index first;
  - mouse moves with no button down go to every handler, in ascending order;
  - a menu-detect event calls no handler and only updates the button state.

  The model also covers
  registration, unregistration and the swap of perspective-specific handlers.
- **Bundle loading** (`BundleLoader.dfy`, module `Bundles`). Loading a bundle of
  renderable displays into a pane container takes these steps:
  - the pane count is reconciled with the display count;
  - map layers of the first display are shared with the others;
  - the displays are ordered through the first time matcher;
  - each ordered display is paired with the pane of the same bundle index;
  - the displays are swapped into the panes, the anchor first.
- **Python calls** (`PythonScript.dfy`, module `Python`). These are the Python
  statements a script builds to call a method with keyword arguments, to clean
  the arguments up, to read the result, to read a method's argument names and to
  instantiate a class. The interpreter is an append-only log of calls.
  `UUID.randomUUID` is an injected supply of strings.
- **Workbench rules** (`VizWorkbenchAdvisor.dfy`, module `Workbench`). These are
  the rules that choose:
  - the start-up perspective (by id, then by label ignoring case);
  - the commands to undefine;
  - the action sets to remove.

  The module also models the once-only creation of the dynamic menus.
- **Data ids** (`DataId.dfy`, module `DataStorage`). This is the audit identifier
  of stored data: a trace id, a file, a group and a set of dataset names. Its
  fully qualified datasets are the `group/dataset` paths.

`Wrappers.dfy` holds the `Option`, `Result` and `Outcome` types. Java `null` is
`None` or a nullable reference. A thrown exception is a `Failure`/`Fail` value.

## Model

| member | source | states |
|---|---|---|
| Input.WalkIsDetermined | viz/com.raytheon.viz.ui/src/com/raytheon/viz/ui/input/InputManager.java:274-289 | The descending walk that stops at the first handler reporting the event handled is a single, determined sequence of calls. |
| Input.InsertPermutes | viz/com.raytheon.viz.ui/src/com/raytheon/viz/ui/input/InputManager.java:71-73 | Inserting a handler by priority adds exactly that entry; the list is otherwise a permutation of the original. |
| Input.InsertSorted | viz/com.raytheon.viz.ui/src/com/raytheon/viz/ui/input/InputManager.java:71-73 | Insertion by priority value keeps a sorted list sorted. |
| Input.SortPermutes | viz/com.raytheon.viz.ui/src/com/raytheon/viz/ui/input/InputManager.java:394 | Collections.sort of the handler list is a permutation of it. |
| Input.SortSorted | viz/com.raytheon.viz.ui/src/com/raytheon/viz/ui/input/InputManager.java:394 | The sorted handler list is in ascending priority value. |
| Input.SortStable | viz/com.raytheon.viz.ui/src/com/raytheon/viz/ui/input/InputManager.java:394 | Sorting is stable: within each priority the handlers keep their registration order. |
| Input.InsertAtPriority | viz/com.raytheon.viz.ui/src/com/raytheon/viz/ui/input/InputManager.java:392-394 | Adding a handler to a sorted list appends it to the end of its own priority tier and leaves the other tiers alone. |
| Input.InsertAtEnd | viz/com.raytheon.viz.ui/src/com/raytheon/viz/ui/input/InputManager.java:71-73 | A handler with a priority at least that of every entry goes last. |
| Input.SortKeepsSorted | viz/com.raytheon.viz.ui/src/com/raytheon/viz/ui/input/InputManager.java:394 | Sorting an already sorted list changes nothing. |
| Input.InsertHasHandler | viz/com.raytheon.viz.ui/src/com/raytheon/viz/ui/input/InputManager.java:76-84 | After an insertion, a handler is present (equality by handler identity) iff it was present before or is the one inserted. |
| Input.SortHasHandler | viz/com.raytheon.viz.ui/src/com/raytheon/viz/ui/input/InputManager.java:76-84 | Sorting neither adds nor loses a handler. |
| Input.SortNoDuplicates | viz/com.raytheon.viz.ui/src/com/raytheon/viz/ui/input/InputManager.java:76-84 | Sorting keeps each handler at most once. |
| Input.RegisterAddsAtMostOnce | viz/com.raytheon.viz.ui/src/com/raytheon/viz/ui/input/InputManager.java:384-396 | Registering an absent handler adds one entry at the given priority. Registering a present handler, at any priority, leaves a sorted list unchanged. The result is sorted and holds the handler. |
| Input.RegisterAppendsToTier | viz/com.raytheon.viz.ui/src/com/raytheon/viz/ui/input/InputManager.java:389-394 | A newly registered handler is the last of its priority tier; the other tiers are unchanged. |
| Input.RegisterKeepsNoDuplicates | viz/com.raytheon.viz.ui/src/com/raytheon/viz/ui/input/InputManager.java:391-393 | The contains check keeps each handler at most once. |
| Input.RemoveFirstSubset | viz/com.raytheon.viz.ui/src/com/raytheon/viz/ui/input/InputManager.java:416 | Removal adds no entry and does not lengthen the list. |
| Input.UnregisterRemovesFirstEntry | viz/com.raytheon.viz.ui/src/com/raytheon/viz/ui/input/InputManager.java:412-418 | Unregistering removes exactly the first entry for that handler, whatever its priority. |
| Input.UnregisterAbsent | viz/com.raytheon.viz.ui/src/com/raytheon/viz/ui/input/InputManager.java:412-418 | Unregistering a handler that is not registered changes nothing. |
| Input.UnregisterKeepsInvariants | viz/com.raytheon.viz.ui/src/com/raytheon/viz/ui/input/InputManager.java:412-418 | On a sorted, duplicate-free list the handler is gone afterwards, and the list stays sorted and duplicate-free. |
| Input.RemoveFirstSorted | viz/com.raytheon.viz.ui/src/com/raytheon/viz/ui/input/InputManager.java:416 | Removing an entry keeps the list sorted. |
| Input.ReplayKeepsNoDuplicates | viz/com.raytheon.viz.ui/src/com/raytheon/viz/ui/input/InputManager.java:384-418 | Any sequence of registrations and unregistrations keeps the list sorted and duplicate-free. |
| Input.RemoveAllMembers | viz/com.raytheon.viz.ui/src/com/raytheon/viz/ui/input/InputManager.java:436 | removeAll keeps exactly the entries whose handler is not an old perspective handler. |
| Input.TaggedAtPerspectivePriority | viz/com.raytheon.viz.ui/src/com/raytheon/viz/ui/input/InputManager.java:441-449 | The new perspective handlers all sit at priority value 0, in the order given. |
| Input.PerspectiveSwapReplaces | viz/com.raytheon.viz.ui/src/com/raytheon/viz/ui/input/InputManager.java:427-454 | After a perspective change, an entry whose object was an old perspective handler belongs to one of the new perspective handlers. |
| Input.PerspectiveSwapProperties | viz/com.raytheon.viz.ui/src/com/raytheon/viz/ui/input/InputManager.java:427-454 | After a perspective change, the handler list is sorted. It is the surviving handlers plus the new ones. The new handlers end tier 0 in their given order. No old perspective handler survives unless it is among the new ones. |
| Input.PerspectiveSwapDropsOrdinaryRegistration | viz/com.raytheon.viz.ui/src/com/raytheon/viz/ui/input/InputManager.java:436 | A separate ordinary registration of an old perspective handler is removed too. |
| Input.PerspectiveSwapCanDuplicate | viz/com.raytheon.viz.ui/src/com/raytheon/viz/ui/input/InputManager.java:441-449 | The perspective swap does not deduplicate: a handler that is already registered and also comes in as a new perspective handler ends up in the list twice. |
| Input.InputManager.constructor | viz/com.raytheon.viz.ui/src/com/raytheon/viz/ui/input/InputManager.java:87-108 | The manager starts with no handlers and with no mouse button down or menu detected. |
| Input.InputManager.GetHandlersForPriority | viz/com.raytheon.viz.ui/src/com/raytheon/viz/ui/input/InputManager.java:116-124 | Returns the handlers of exactly one priority, in list order. |
| Input.InputManager.DispatchUntilHandled | viz/com.raytheon.viz.ui/src/com/raytheon/viz/ui/input/InputManager.java:325-340 | Calls handlers from the highest index down until one reports handled. Every handler's answer may depend on the whole event. On a drag move, a plain handler is given the last mouse-down button instead of the event's own. |
| Input.InputManager.NotifyAscending | viz/com.raytheon.viz.ui/src/com/raytheon/viz/ui/input/InputManager.java:364-373 | Every handler is told once, in ascending order. |
| Input.InputManager.NotifyDescending | viz/com.raytheon.viz.ui/src/com/raytheon/viz/ui/input/InputManager.java:181-193 | Every handler is told once, in descending order. |
| Input.InputManager.HandleMouseMove | viz/com.raytheon.viz.ui/src/com/raytheon/viz/ui/input/InputManager.java:345-375 | With a button down, the move is dispatched down the list until it is handled. Otherwise every handler gets it, in ascending order. |
| Input.InputManager.HandleMouseDown | viz/com.raytheon.viz.ui/src/com/raytheon/viz/ui/input/InputManager.java:239-272 | After a menu detect, a non-menu button press only clears the flag. Otherwise the button is recorded and the press is dispatched. The button-down state is set unless a menu had been detected; in that case the flag is cleared instead. |
| Input.InputManager.HandleMouseUp | viz/com.raytheon.viz.ui/src/com/raytheon/viz/ui/input/InputManager.java:213-237 | Clears the button-down state and dispatches the release. Then every handler gets a move, in ascending order. |
| Input.InputManager.HandleMouseDoubleClick | viz/com.raytheon.viz.ui/src/com/raytheon/viz/ui/input/InputManager.java:195-211 | Clears the button-down state and dispatches the double click. |
| Input.InputManager.HandleEvent | viz/com.raytheon.viz.ui/src/com/raytheon/viz/ui/input/InputManager.java:130-179 | Events from a display other than the active pane's are ignored. Each event kind goes to its handler. Menu detect only sets the flags. Every other event changes nothing. |
| Input.InputManager.RegisterMouseHandler | viz/com.raytheon.viz.ui/src/com/raytheon/viz/ui/input/InputManager.java:384-396 | The list becomes the registration of the handler at that priority and stays sorted. |
| Input.InputManager.UnregisterMouseHandler | viz/com.raytheon.viz.ui/src/com/raytheon/viz/ui/input/InputManager.java:412-418 | The first entry for the handler is removed and the list stays sorted. |
| Input.InputManager.FirePerspectiveChanged | viz/com.raytheon.viz.ui/src/com/raytheon/viz/ui/input/InputManager.java:427-454 | The perspective list becomes the new handlers at priority 0. The main list becomes the perspective swap and is sorted. |
| Bundles.WithoutMembers | viz/com.raytheon.viz.ui/src/com/raytheon/viz/ui/BundleLoader.java:342-344 | Removing a pane keeps exactly the other panes. |
| Bundles.WithoutDistinct | viz/com.raytheon.viz.ui/src/com/raytheon/viz/ui/BundleLoader.java:352-354 | Removing a pane keeps the panes distinct. |
| Bundles.WithoutOnce | viz/com.raytheon.viz.ui/src/com/raytheon/viz/ui/BundleLoader.java:352-354 | Removing a pane that occurs once takes out just that pane. |
| Bundles.Container.RemovePane | viz/com.raytheon.viz.ui/src/com/raytheon/viz/ui/BundleLoader.java:343 | The container loses that pane and keeps its panes distinct. |
| Bundles.Container.AddPane | viz/com.raytheon.viz.ui/src/com/raytheon/viz/ui/BundleLoader.java:348 | A fresh pane showing the display is appended. |
| Bundles.BundleLoader.constructor | viz/com.raytheon.viz.ui/src/com/raytheon/viz/ui/BundleLoader.java:104-112 | The loader keeps the container and the bundle it was given, and has made no platform calls yet. |
| Bundles.BundleLoader.EnsureOneToOne | viz/com.raytheon.viz.ui/src/com/raytheon/viz/ui/BundleLoader.java:322-361 | Succeeds iff the pane count ends equal to the display count. A container that is not a multi-pane editor is untouched. With too few panes, all panes are replaced by fresh ones showing the displays in order. With too many, the trailing panes are removed. |
| Bundles.MapLayers | viz/com.raytheon.viz.ui/src/com/raytheon/viz/ui/BundleLoader.java:247-254 | The maps of the first display are exactly its map-layer pairs. |
| Bundles.FirstSame | viz/com.raytheon.viz.ui/src/com/raytheon/viz/ui/BundleLoader.java:261-271 | Finds the first map of the first display with equal resource data, or none iff no map has equal data. |
| Bundles.BundleLoader.FindOriginal | viz/com.raytheon.viz.ui/src/com/raytheon/viz/ui/BundleLoader.java:261-271 | The inner search loop returns that first match. |
| Bundles.KeptMembers | viz/com.raytheon.viz.ui/src/com/raytheon/viz/ui/BundleLoader.java:259-274 | The pairs that stay are exactly the pairs without a matching map on the first display. |
| Bundles.ReplacementsMembers | viz/com.raytheon.viz.ui/src/com/raytheon/viz/ui/BundleLoader.java:268-269 | Every matched pair's original is added, and only originals from the first display are added. |
| Bundles.SharedLength | viz/com.raytheon.viz.ui/src/com/raytheon/viz/ui/BundleLoader.java:268-269 | Sharing keeps the length of each resource list: one removal per addition. |
| Bundles.SharedKeepsOtherLayers | viz/com.raytheon.viz.ui/src/com/raytheon/viz/ui/BundleLoader.java:259-260 | Non-map layers stay, in their order. |
| Bundles.SharedReplacesMatchedMaps | viz/com.raytheon.viz.ui/src/com/raytheon/viz/ui/BundleLoader.java:256-275 | After sharing, a matched map is replaced by the first display's original. An unmatched pair stays. Nothing else enters the list. |
| Bundles.ShareStep | viz/com.raytheon.viz.ui/src/com/raytheon/viz/ui/BundleLoader.java:259-272 | One iteration over the snapshot either keeps the pair or moves it out and appends its original. |
| Bundles.CollectMapLayers | viz/com.raytheon.viz.ui/src/com/raytheon/viz/ui/BundleLoader.java:247-254 | The loop over the first display's resources yields exactly its map-layer pairs, in order (`MapLayers`). |
| Bundles.BundleLoader.ShareWithFirst | viz/com.raytheon.viz.ui/src/com/raytheon/viz/ui/BundleLoader.java:257-274 | A follower's resource list becomes the shared list of its snapshot. |
| Bundles.BundleLoader.ShareMapLayers | viz/com.raytheon.viz.ui/src/com/raytheon/viz/ui/BundleLoader.java:247-275 | With distinct descriptors, the first display is untouched and every other display's list is shared with the first's maps. |
| Bundles.FirstTimed | viz/com.raytheon.viz.ui/src/com/raytheon/viz/ui/BundleLoader.java:284-294 | Finds the first display whose descriptor has a time matcher, or none iff no display has one. |
| Bundles.BundleLoader.OrderDisplays | viz/com.raytheon.viz.ui/src/com/raytheon/viz/ui/BundleLoader.java:282-294 | The order comes from the first time matcher, and each ordered display is synchronized to that descriptor. Without a time matcher, bundle order is kept. |
| Bundles.LastIndex | viz/com.raytheon.viz.ui/src/com/raytheon/viz/ui/BundleLoader.java:302-307 | The last bundle index holding the display, none iff it is absent. |
| Bundles.PairingIsBijective | viz/com.raytheon.viz.ui/src/com/raytheon/viz/ui/BundleLoader.java:300-309 | With distinct panes and displays and a reordering, each ordered display is loaded into the pane of its own bundle index. The panes used are distinct and every pane is used. |
| Bundles.PairingFollowsBundleIndex | viz/com.raytheon.viz.ui/src/com/raytheon/viz/ui/BundleLoader.java:300-309 | Item j is the j-th ordered display, paired with the pane of its bundle index, not the j-th pane. |
| Bundles.PairingPanes | viz/com.raytheon.viz.ui/src/com/raytheon/viz/ui/BundleLoader.java:304-305 | Items only load into container panes. |
| Bundles.PairingLastIndexWins | viz/com.raytheon.viz.ui/src/com/raytheon/viz/ui/BundleLoader.java:302-307 | A display listed twice is paired with the pane of its last index each time. |
| Bundles.PairDisplays | viz/com.raytheon.viz.ui/src/com/raytheon/viz/ui/BundleLoader.java:279-309 | The items array filled by the nested loops is the pairing. |
| Bundles.BundleLoader.GetLoadItems | viz/com.raytheon.viz.ui/src/com/raytheon/viz/ui/BundleLoader.java:226-312 | Fails with the pane-count error iff the counts differ and the container is not a multi-pane editor. Fails with the ordering error iff the order has the wrong size. Otherwise returns the pairing. Map layers are shared only when the counts already matched and exceed one. |
| Bundles.BundleLoader.Load | viz/com.raytheon.viz.ui/src/com/raytheon/viz/ui/BundleLoader.java:369-381 | The pane shows the new display. The old display is disposed iff it existed and differs. |
| Bundles.Swapped | viz/com.raytheon.viz.ui/src/com/raytheon/viz/ui/BundleLoader.java:91-93 | After the swap the pane shows the incoming descriptor. The result is either the display already shown or the incoming one. |
| Bundles.BundleLoader.RunItem | viz/com.raytheon.viz.ui/src/com/raytheon/viz/ui/BundleLoader.java:88-96 | After an item runs, the pane shows the item's descriptor. The display is swapped only when the descriptors differ, and resources are instantiated once. |
| Bundles.WorkerEffectsStep | viz/com.raytheon.viz.ui/src/com/raytheon/viz/ui/BundleLoader.java:184-205 | The worker effects grow by one item's effects per item. |
| Bundles.BundleLoader.PrepareAnchor | viz/com.raytheon.viz.ui/src/com/raytheon/viz/ui/BundleLoader.java:186-199 | The anchor's time matcher copies the source's when both exist, and it is reset iff the destination has one. |
| Bundles.BundleLoader.RunWorkers | viz/com.raytheon.viz.ui/src/com/raytheon/viz/ui/BundleLoader.java:201-213 | The other items run in order and each shows its display afterwards. |
| Bundles.BundleLoader.RunWorker | viz/com.raytheon.viz.ui/src/com/raytheon/viz/ui/BundleLoader.java:201-205 | One pass of the loop: the item, when present, runs and logs its effects against what its pane showed. With distinct panes, no other pane changes what it shows. |
| Bundles.BundleLoader.RunFromAnchor | viz/com.raytheon.viz.ui/src/com/raytheon/viz/ui/BundleLoader.java:184-213 | With distinct panes, the log gains the anchor prelude, the anchor's effects and then the other items' effects, and every paired pane ends up showing its swapped display. |
| Bundles.BundleLoader.RunItems | viz/com.raytheon.viz.ui/src/com/raytheon/viz/ui/BundleLoader.java:179-215 | A missing anchor item or an anchor pane with no display fails with a null-pointer error and changes nothing. Otherwise the anchor is prepared and run first, then the rest. With distinct panes, every paired pane then shows the incoming descriptor. |
| Bundles.BundleLoader.RunPlanned | viz/com.raytheon.viz.ui/src/com/raytheon/viz/ui/BundleLoader.java:179-215 | Running the planned pairing fails only with a null-pointer error, and only when the first item is missing or its pane shows nothing. On success with distinct panes, every paired pane shows its display's descriptor. |
| Bundles.BundleLoader.LoadBundleToContainer | viz/com.raytheon.viz.ui/src/com/raytheon/viz/ui/BundleLoader.java:177-215 | Has the same error cases as getting the load items. On success, every paired pane shows its display's descriptor. |
| Bundles.BundleLoader.FinishLoad | viz/com.raytheon.viz.ui/src/com/raytheon/viz/ui/BundleLoader.java:139-144 | The log gains exactly the loop-properties call (when the bundle has loop properties) followed by the refresh. |
| Bundles.BundleLoader.Run | viz/com.raytheon.viz.ui/src/com/raytheon/viz/ui/BundleLoader.java:135-168 | Has the same error cases. On success, the log ends with setting the loop properties (when there are any) and a refresh. |
| Python.Underscored | common/com.raytheon.uf.common.python/src/com/raytheon/uf/common/python/PythonScript.java:266 | Every '-' of the UUID becomes '_' and nothing else changes. |
| Python.UnderscoredInjective | common/com.raytheon.uf.common.python/src/com/raytheon/uf/common/python/PythonScript.java:266 | Distinct UUID strings without '_' stay distinct after the replacement. |
| Python.ArgumentStep | common/com.raytheon.uf.common.python/src/com/raytheon/uf/common/python/PythonScript.java:260-276 | One loop iteration: "self" contributes nothing. Any other key contributes its binding, one unique name and one argument evaluation, followed by ", " iff entries remain. |
| Python.CallArgsWithoutSelf | common/com.raytheon.uf.common.python/src/com/raytheon/uf/common/python/PythonScript.java:256-277 | Without a "self" key, the arguments are the `key=uniqueKey` bindings joined by ", ". |
| Python.EndsWithSeparator | common/com.raytheon.uf.common.python/src/com/raytheon/uf/common/python/PythonScript.java:272-274 | If "self" comes last in iteration order after another key, the argument text ends in ", ". |
| Python.TrailingSelfLeavesSeparator | common/com.raytheon.uf.common.python/src/com/raytheon/uf/common/python/PythonScript.java:272-274 | Gives the concrete case: `{k, self}` yields `k=<unique>, `. |
| Python.UniqueNamesShape | common/com.raytheon.uf.common.python/src/com/raytheon/uf/common/python/PythonScript.java:263-267 | There is one unique name per non-"self" key. The k-th name is the k-th key followed by the k-th UUID with '_' for '-'. |
| Python.UniqueNamesDistinct | common/com.raytheon.uf.common.python/src/com/raytheon/uf/common/python/PythonScript.java:263-267 | Distinct 36-character UUIDs make the unique names pairwise distinct. |
| Python.EveryUniqueNameDeleted | common/com.raytheon.uf.common.python/src/com/raytheon/uf/common/python/PythonScript.java:285-297 | With 36-character UUIDs, every generated name gets exactly one `del`, in generation order. |
| Python.ProfiledCallWraps | common/com.raytheon.uf.common.python/src/com/raytheon/uf/common/python/PythonScript.java:245-247 | When profiling, the call becomes `cProfile.run('<call>', '/tmp/<method>')`. |
| Python.PythonScript.BuildCall | common/com.raytheon.uf.common.python/src/com/raytheon/uf/common/python/PythonScript.java:244-255 | The buffer holds the result assignment, the optional instance prefix, the method and its arguments, with the optional profiling wrapper (also built at lines 278-283). |
| Python.PythonScript.EvaluateArguments | common/com.raytheon.uf.common.python/src/com/raytheon/uf/common/python/PythonScript.java:256-277 | The argument loop builds the argument text, the unique names and the evaluations, and advances the UUID supply once per non-"self" key. |
| Python.PythonScript.InternalExecute | common/com.raytheon.uf.common.python/src/com/raytheon/uf/common/python/PythonScript.java:242-287 | The interpreter sees, in order: the argument evaluations; "import cProfile" when profiling; the call; then the `del` of every unique name. |
| Python.PythonScript.EvalCall | common/com.raytheon.uf.common.python/src/com/raytheon/uf/common/python/PythonScript.java:282-285 | The interpreter gets "import cProfile" only when profiling, then the call statement. |
| Python.PythonScript.CleanupArgs | common/com.raytheon.uf.common.python/src/com/raytheon/uf/common/python/PythonScript.java:289-297 | `del` is evaluated for each name except "self", in order. A null or empty list gives none. |
| Python.PythonScript.ExecutionResult | common/com.raytheon.uf.common.python/src/com/raytheon/uf/common/python/PythonScript.java:347-349 | The execution result is the interpreter's value of `__result` in the current state. |
| Python.PythonScript.constructor | common/com.raytheon.uf.common.python/src/com/raytheon/uf/common/python/PythonScript.java:173-178 | A script starts with the given profiling flag, an empty interpreter log and an unused UUID supply. |
| Python.PythonScript.Execute | common/com.raytheon.uf.common.python/src/com/raytheon/uf/common/python/PythonScript.java:331-337 | Returns `__result` as it is after the call, then resets it to None. |
| Python.PythonScript.ExecuteFunction | common/com.raytheon.uf.common.python/src/com/raytheon/uf/common/python/PythonScript.java:311-314 | Is execute with no instance. |
| Python.SplitAll | common/com.raytheon.uf.common.python/src/com/raytheon/uf/common/python/PythonScript.java:373 | Splitting at every comma gives at least one piece, and no piece holds a comma. |
| Python.SplitAllRoundTrip | common/com.raytheon.uf.common.python/src/com/raytheon/uf/common/python/PythonScript.java:373 | Joining the pieces with commas gives the string back. |
| Python.SplitAtComma | common/com.raytheon.uf.common.python/src/com/raytheon/uf/common/python/PythonScript.java:373 | A comma-free head is split off as the first piece. |
| Python.JavaSplit | common/com.raytheon.uf.common.python/src/com/raytheon/uf/common/python/PythonScript.java:373 | String.split(","): no piece holds a comma. |
| Python.JavaSplitPieces | common/com.raytheon.uf.common.python/src/com/raytheon/uf/common/python/PythonScript.java:373 | A string without a comma is its own single piece. Otherwise the result is every comma-separated piece (SplitAllRoundTrip joins them back to the string) with only a tail of empty pieces removed. |
| Python.DropTrailingEmpty | common/com.raytheon.uf.common.python/src/com/raytheon/uf/common/python/PythonScript.java:373 | Exactly the trailing empty pieces are dropped: the result is a prefix of the pieces, every dropped piece is empty, and the result ends in a non-empty piece. |
| Python.StripPunctuation | common/com.raytheon.uf.common.python/src/com/raytheon/uf/common/python/PythonScript.java:376 | No '(', ')' or '\'' remains. |
| Python.StripMembers | common/com.raytheon.uf.common.python/src/com/raytheon/uf/common/python/PythonScript.java:376 | A character is in the result iff it is in the input and is not '(', ')' or '\''. |
| Python.StripAppend | common/com.raytheon.uf.common.python/src/com/raytheon/uf/common/python/PythonScript.java:376 | replaceAll of the character class works piece by piece: stripping a concatenation is the concatenation of the stripped parts. |
| Python.StripOne | common/com.raytheon.uf.common.python/src/com/raytheon/uf/common/python/PythonScript.java:376 | A single character is dropped iff it is '(', ')' or '\''. With StripAppend this fixes the result, in order. |
| Python.Trim | common/com.raytheon.uf.common.python/src/com/raytheon/uf/common/python/PythonScript.java:376 | No character up to ' ' at either end, and no character that was not there. |
| Python.TrimIsSlice | common/com.raytheon.uf.common.python/src/com/raytheon/uf/common/python/PythonScript.java:376 | String.trim removes exactly a prefix and a suffix of characters up to ' ': the result is a slice of the input. |
| Python.CleanName | common/com.raytheon.uf.common.python/src/com/raytheon/uf/common/python/PythonScript.java:376 | A name read from a split piece has no parenthesis, quote or comma, and is trimmed. |
| Python.CleanNames | common/com.raytheon.uf.common.python/src/com/raytheon/uf/common/python/PythonScript.java:373-378 | Every name read from comma-free pieces is clean in that sense. |
| Python.IntValue | common/com.raytheon.uf.common.python/src/com/raytheon/uf/common/python/PythonScript.java:368-370 | Number.intValue of an integer is its value modulo 2^32 in the signed 32-bit range: a 32-bit value is kept and any other wraps. |
| Python.NamesFrom | common/com.raytheon.uf.common.python/src/com/raytheon/uf/common/python/PythonScript.java:373-378 | A negative count fails with NegativeArraySize. A count beyond the pieces fails with IndexOutOfBounds. Otherwise the result is exactly `argcount` names read from the first pieces. |
| Python.ArgumentNames | common/com.raytheon.uf.common.python/src/com/raytheon/uf/common/python/PythonScript.java:362-379 | A null count, or null names, fails with NullPointer. A value of the wrong type fails with ClassCast. The count is checked first. With an integer count and a string of names, the result is NamesFrom of the String.split pieces and `intValue(count)`. So it fails iff that count is negative or exceeds the pieces, and on success name k is piece k stripped and trimmed. Every name is clean. |
| Python.PythonScript.GetArgumentNames | common/com.raytheon.uf.common.python/src/com/raytheon/uf/common/python/PythonScript.java:362-379 | Reads co_argcount and co_varnames, with or without the instance prefix. It fails with NullPointer or ClassCast on a null or wrongly typed value, else returns the names. |
| Python.PythonScript.ReadNames | common/com.raytheon.uf.common.python/src/com/raytheon/uf/common/python/PythonScript.java:374-378 | The array loop gives the names above, with its errors. |
| Python.InitArgsJoined | common/com.raytheon.uf.common.python/src/com/raytheon/uf/common/python/PythonScript.java:399-412 | The constructor arguments are the `k=k` bindings joined by ", ". |
| Python.PythonScript.InstantiatePythonClass | common/com.raytheon.uf.common.python/src/com/raytheon/uf/common/python/PythonScript.java:392-415 | Sets every key in order, then evaluates `inst = Cls(k1=k1, ...)`. Null arguments give `inst = Cls()`. |
| Workbench.FirstWithId | viz/com.raytheon.uf.viz.personalities.cave/src/com/raytheon/uf/viz/personalities/cave/workbench/VizWorkbenchAdvisor.java:217-222 | Finds the first descriptor with that id, or none iff there is none. |
| Workbench.FirstWithLabel | viz/com.raytheon.uf.viz.personalities.cave/src/com/raytheon/uf/viz/personalities/cave/workbench/VizWorkbenchAdvisor.java:224-229 | Finds the first descriptor whose label equals the name ignoring case, or none iff there is none. |
| Workbench.IdMatchWins | viz/com.raytheon.uf.viz.personalities.cave/src/com/raytheon/uf/viz/personalities/cave/workbench/VizWorkbenchAdvisor.java:215-230 | An id match anywhere wins over every label match, and the first descriptor with the id is chosen. |
| Workbench.LabelMatchOtherwise | viz/com.raytheon.uf.viz.personalities.cave/src/com/raytheon/uf/viz/personalities/cave/workbench/VizWorkbenchAdvisor.java:224-230 | With no id match, the first label match ignoring case is chosen. The result is null iff no label matches. |
| Workbench.SpecifiedIsRegistered | viz/com.raytheon.uf.viz.personalities.cave/src/com/raytheon/uf/viz/personalities/cave/workbench/VizWorkbenchAdvisor.java:211-231 | A designated perspective is in the registry. |
| Workbench.InitialPerspectiveResolution | viz/com.raytheon.uf.viz.personalities.cave/src/com/raytheon/uf/viz/personalities/cave/workbench/VizWorkbenchAdvisor.java:187-209 | The start-up perspective is the argument's, else the registry default's, else none. It is always a registered id. |
| Workbench.VizWorkbenchAdvisor.GetSpecifiedPerspective | viz/com.raytheon.uf.viz.personalities.cave/src/com/raytheon/uf/viz/personalities/cave/workbench/VizWorkbenchAdvisor.java:211-231 | The two search loops give the id-then-label designation. A null name gives null. |
| Workbench.VizWorkbenchAdvisor.GetInitialWindowPerspectiveId | viz/com.raytheon.uf.viz.personalities.cave/src/com/raytheon/uf/viz/personalities/cave/workbench/VizWorkbenchAdvisor.java:187-209 | Gives the start-up perspective. The managed-perspective loop has no effect on the result. |
| Workbench.VizWorkbenchAdvisor.RemoveExtraCommands | viz/com.raytheon.uf.viz.personalities.cave/src/com/raytheon/uf/viz/personalities/cave/workbench/VizWorkbenchAdvisor.java:333-361 | A command is undefined iff its id starts with org.eclipse.jdt, org.eclipse.debug or org.eclipse.team and is not one of the two exempt ids. Each is undefined once, in registry order. |
| Workbench.PrefixedCommandUndefinable | viz/com.raytheon.uf.viz.personalities.cave/src/com/raytheon/uf/viz/personalities/cave/workbench/VizWorkbenchAdvisor.java:337-358 | Every non-exempt id in the three namespaces is undefined. |
| Workbench.VizWorkbenchAdvisor.RemoveExtraMenus | viz/com.raytheon.uf.viz.personalities.cave/src/com/raytheon/uf/viz/personalities/cave/workbench/VizWorkbenchAdvisor.java:116-156 | Exactly the action sets whose id is on the removal list are removed, each once, in registry order. |
| Workbench.VizWorkbenchAdvisor.constructor | viz/com.raytheon.uf.viz.personalities.cave/src/com/raytheon/uf/viz/personalities/cave/workbench/VizWorkbenchAdvisor.java:78-88 | A new advisor has not created the dynamic menus. |
| Workbench.VizWorkbenchAdvisor.CreateWorkbenchWindowAdvisor | viz/com.raytheon.uf.viz.personalities.cave/src/com/raytheon/uf/viz/personalities/cave/workbench/VizWorkbenchAdvisor.java:234-241 | The dynamic menus have been created exactly once after any number of calls. |
| DataStorage.Qualified | common/com.raytheon.uf.common.datastorage/src/com/raytheon/uf/common/datastorage/audit/DataId.java:109-112 | The qualified paths are exactly `group/d` for the datasets `d`, with a null group rendered as "null". |
| DataStorage.QualifiedInjective | common/com.raytheon.uf.common.datastorage/src/com/raytheon/uf/common/datastorage/audit/DataId.java:110-111 | Different datasets give different paths. |
| DataStorage.QualifiedCount | common/com.raytheon.uf.common.datastorage/src/com/raytheon/uf/common/datastorage/audit/DataId.java:109-112 | There is exactly one path per dataset. |
| DataStorage.DataId.GetFullyQualifiedDatasets | common/com.raytheon.uf.common.datastorage/src/com/raytheon/uf/common/datastorage/audit/DataId.java:109-112 | Throws iff the set is null. Otherwise there is one `group/d` path per dataset and nothing else. |
| DataStorage.DataId.AddDataset | common/com.raytheon.uf.common.datastorage/src/com/raytheon/uf/common/datastorage/audit/DataId.java:105-107 | Throws on a null set. Otherwise the set gains the dataset, keeps the other members, and adding it twice is adding it once. |
| DataStorage.DataId.Empty | common/com.raytheon.uf.common.datastorage/src/com/raytheon/uf/common/datastorage/audit/DataId.java:58-59 | Every field starts null. |
| DataStorage.DataId.InGroup | common/com.raytheon.uf.common.datastorage/src/com/raytheon/uf/common/datastorage/audit/DataId.java:61-63 | The dataset set starts empty. |
| DataStorage.DataId.constructor | common/com.raytheon.uf.common.datastorage/src/com/raytheon/uf/common/datastorage/audit/DataId.java:65-71 | Every field takes the value given. |
| DataStorage.DataId.GetTraceId | common/com.raytheon.uf.common.datastorage/src/com/raytheon/uf/common/datastorage/audit/DataId.java:73-75 | Returns the trace id field; with SetTraceId, a set followed by a get returns the value set. |
| DataStorage.DataId.GetFile | common/com.raytheon.uf.common.datastorage/src/com/raytheon/uf/common/datastorage/audit/DataId.java:81-83 | Returns the file field; with SetFile, a set followed by a get returns the value set. |
| DataStorage.DataId.GetGroup | common/com.raytheon.uf.common.datastorage/src/com/raytheon/uf/common/datastorage/audit/DataId.java:89-91 | Returns the group field; with SetGroup, a set followed by a get returns the value set. |
| DataStorage.DataId.GetDatasets | common/com.raytheon.uf.common.datastorage/src/com/raytheon/uf/common/datastorage/audit/DataId.java:97-99 | Returns the dataset set itself; with SetDatasets, a set followed by a get returns the value set. |
| DataStorage.DataId.SetTraceId | common/com.raytheon.uf.common.datastorage/src/com/raytheon/uf/common/datastorage/audit/DataId.java:73-79 | The getter returns the value set, and the other fields are unchanged. |
| DataStorage.DataId.SetFile | common/com.raytheon.uf.common.datastorage/src/com/raytheon/uf/common/datastorage/audit/DataId.java:81-87 | The getter returns the value set, and the other fields are unchanged. |
| DataStorage.DataId.SetGroup | common/com.raytheon.uf.common.datastorage/src/com/raytheon/uf/common/datastorage/audit/DataId.java:89-95 | The getter returns the value set, and the other fields are unchanged. |
| DataStorage.DataId.SetDatasets | common/com.raytheon.uf.common.datastorage/src/com/raytheon/uf/common/datastorage/audit/DataId.java:97-103 | The getter returns the value set, and the other fields are unchanged. |

## Left out

- **Input dispatch:**
  - The one-argument `registerMouseHandler` is not modelled. It registers at the RESOURCE priority, whose numeric value is defined outside InputManager.java.
  - InputPriority is modelled by its integer value.
  - `IContainerAwareInputHandler.setContainer` is not modelled.
  - The container and its active pane become a parameter: the active pane's display, if any.
  - Plain handlers are modelled as seeing the whole event. Java passes them only some of its fields (coordinates, button, key code), or the whole event for a wheel event. Only the drag-move button substitution is kept.
  - Handler answers are an oracle argument. A handler therefore cannot register or unregister handlers while a walk is in progress. In Java, a handler that unregisters itself mid-walk shifts the indices the loop reads next.
  - The `synchronized` blocks are not modelled: every operation runs to completion alone.
  - Input.InputManager.HandleMouseDown: the double-click test inside the mouse-down path is kept. It cannot fire for a mouse-down event.
- **Bundle loading:**
  - Bundle.getBundle and the bundle-from-file/XML helpers are not modelled. They are file and JAXB I/O.
  - Renaming the part is not modelled.
  - HistoryList, VizGlobalsManager, the status result and timing output are not modelled.
  - VizApp.runSync/runAsync and threads become sequential calls: the worker items run one after another, in index order.
  - The sharing pass is modelled over a snapshot of the resource list, as a copy-on-write list iterates while it is edited.
  - ResourceData.equals and the time matcher's display order are injected functions.
  - Platform calls with effects outside the modelled objects go to an effects log.
  - IMultiPaneEditor.removePane/addPane are assumed to remove the pane and to append a fresh pane showing the display.
  - ResourceList and ResourcePair.equals are not part of this model. Map sharing assumes that `ResourceList.remove` drops the first entry that is the same object and that `ResourceList.add` appends at the end.
- Bundles.BundleLoader.ShareMapLayers: the contract holds only when the displays have distinct descriptors. Two displays sharing one descriptor would edit the same list twice.
- Bundles.BundleLoader.GetLoadItems: the map-sharing half of the contract is conditional on distinct descriptors, for the same reason.
- Bundles.BundleLoader.RunItems: the result state is stated only when the items name distinct panes. A pane paired twice runs twice and its final display depends on order.
- Bundles.BundleLoader.RunWorkers: conditional on distinct panes, for the same reason.
- Bundles.BundleLoader.RunWorker: what the other panes show is stated only for distinct panes, for the same reason.
- Bundles.BundleLoader.RunFromAnchor: conditional on distinct panes, for the same reason.
- Bundles.BundleLoader.RunPlanned: the success case is conditional on distinct panes, for the same reason.
- Bundles.BundleLoader.LoadBundleToContainer: conditional on distinct panes, for the same reason.
- Bundles.BundleLoader.Run: on success it states only the start and the end of the effects log, not the whole log.
- Bundles.BundleLoader.EnsureOneToOne: the order of the pane removals is not recorded, only the resulting pane list.
- **Python calls:**
  - Evaluation by the Python interpreter is not modelled: the interpreter is a log of calls, and its values come from an injected function of that log.
  - `evaluateArgument` is logged as one call.
  - UUID.randomUUID is an injected supply of strings.
  - A map's iteration order is the order of the entry sequence given.
  - PyInt stands for Integer and Long, and IntValue is their intValue.
  - A Double returned for co_argcount is not modelled. Java truncates it toward zero and saturates; the model treats it as a ClassCast case instead.
  - JepException is not modelled.
  - Python.PythonScript.InternalExecute: the statement is built around the finished argument text rather than in one buffer. The buffer content and the call order are the same.
- Python.JavaSplit: splits on the literal ",". The regular-expression machinery of String.split is not modelled.
- Python.Trim: trims by char code only, as String.trim does. Unicode whitespace is not handled specially.
- **Workbench rules:**
  - removeExtraPreferences is not modelled: it edits the Eclipse preference tree.
  - preShutdown, postStartup, the logging and the ProgramArguments/registry lookups are not modelled. The argument, the registry and its default perspective are parameters.
  - createNewWindowAdvisor and createDynamicMenus are not modelled, because they are subclass hooks. Their calls are counted, and the new advisor is represented by its configurer.
  - Workbench.EqualsIgnoreCase folds ASCII letters only. Java compares UTF-16 chars one at a time through Character.toUpperCase and toLowerCase, which also folds non-ASCII letters.
- **Data ids:**
  - A null dataset name inside the set is not modelled.
  - The caller's set aliasing the field (the four-argument constructor and setDatasets) is not modelled: sets are values.
  - The result of getFullyQualifiedDatasets is a set because HashSet order is unspecified.
  - toString is not modelled.
  - JSON/Thrift serialization annotations are not modelled.
- **Other components:**
  - AbstractVizPerspectiveManager is not part of this model. It is E4 model surgery, listeners, dialogs and status-line widgets.
  - ILocalizationAdapter and AbstractLocalizationStreamRequest are not part of this model. They are interfaces and serialization types.
  - HeatIndex.py is not part of this model. It is floating-point numpy numerics.
