# A verified model of the management console's core

The Mandriva Management Console is an XML-RPC agent written in Python and a web front end
written in PHP. This project models the parts of both that do more than move data from one
place to another, and proves what they promise.

| file | models |
|---|---|
| `ReadWriteLock.dfy` | the reader-writer lock with preference to writers, as an object and as a protocol over any number of threads, with every semaphore release and acquire a step of its own |
| `LocMemCache.dfy`, `CacheRuns.dfy` | the expiring, culling cache; the first file is the object, the second any number of threads using one cache through that lock, with every dictionary operation a step of its own |
| `DeferredCache.dfy` | sharing one asynchronous call among all who ask for the same key |
| `PrioritySlots.dfy` | giving objects slots by linear probing from their priorities, and reading them back in order |
| `HtmlTree.dfy` | the widget tree: pushes and pops build it, displaying prints it |
| `TemplateTags.dfy`, `TemplateVars.dfy`, `TemplateOrder.dfy` | the template engine: the tags left undefined, the substitution of variables, and when their order shows |
| `MmcAgent.dfy` | requests, sessions and worker threads of the agent |
| `SchemaMigration.dfy` | choosing and running the scripts that bring a database up to date |
| `Pagination.dfy` | lists shown page by page, the navigation bar and its links |
| `Unique.dfy` | three ways of removing duplicates |
| `XmlRpcCleanup.dfy` | making values fit for XML-RPC |
| `PasswordScore.dfy` | the score of a password |
| `Basics.dfy` | an option type, orders on sequences, and the like |

Code that changes things in place is modelled by classes and methods over arrays, sequences
and maps, each proved against a function of the old state; what the source promises is then
proved about these functions, as invariants of all runs, refinements, round trips and exact
conditions. Code made of expressions is modelled by functions and lemmas.

## What is not as one would expect

Where a property one would expect does not hold of the code, the model keeps the code as it
is, a lemma shows the case, and another says exactly when the property holds.

- The lock's preference to writers counts tokens, not threads. A reader that arrives behind a
  waiting writer can take the token released for an earlier reader
  (`ReadWriteLock.LateReaderMayOvertake`). It can do so exactly when there is a read token
  (`ReadWriteLock.OvertakesExactlyWhen`), and the number of readers that get in is bounded
  (`ReadWriteLock.BoundedBypass`).
- `get` and `has_key` drop the lock between finding an entry expired and deleting it, and do
  not look again. A fresh entry stored meanwhile is lost (`CacheRuns.FreshEntryMayBeLost`); a
  lookup takes out only what it found expired exactly when nothing was stored in between
  (`CacheRuns.PurgesItsOwnFindingExactlyWhen`). For the same reason the deferred cache fails
  on a key that expires between its `has_key` and its `get`
  (`DeferredCache.CrashesOnlyOnExpiryInBetween`).
- Objects read back from their slots need not be in order of priority
  (`PrioritySlots.SortedMayFail`); `PrioritySlots.SortedExactlyWhen` says when they are.
- A template variable with a slash in its name makes every substitution fail
  (`TemplateVars.SubstituteFailsExactlyOnSlash`). With a brace in a value the order of the
  variables can show (`TemplateOrder.BracesMakeOrderMatter`);
  `TemplateOrder.SimultaneousExactlyWhen` and `TemplateOrder.OrderIrrelevantExactlyWhen` say
  when. After a failed load the target of a `parse` is overwritten all the same
  (`TemplateVars.FailedLoadEmptiesTarget`).
- The dictionary that the agent builds for an exception is not a fault, so an authenticator
  that raises an exception is taken as one that succeeded (`MmcAgent.ExceptionCountsAsLogin`).
  An authenticator called without arguments is then never answered
  (`MmcAgent.ComesBackAnsweredExactlyWhen`), and only such a call can leave a session logged in
  without the contexts of its user (`MmcAgent.LoginNeedsItsArgument`,
  `MmcAgent.LoggedInWithoutContexts`).
- With three digits in a row in the path of the scripts a database is reported as updated
  although no script was executed (`SchemaMigration.DigitsHideTheScripts`,
  `SchemaMigration.UpdatedMeansAtTargetExactlyWhen`), and the list of databases to skip is
  searched for a piece of text, not for a name (`SchemaMigration.PiecesAreBlacklisted`).
- The number of pages in the header of a list and that of its navigation bar are computed from
  different sizes and can differ (`Pagination.HeaderMayDiffer`); they agree on every list
  exactly when the sizes are equal (`Pagination.HeaderAlwaysAgreesExactlyWhen`).
- Cleaning up a value for XML-RPC once is not enough when it contains a date
  (`XmlRpcCleanup.DateNeedsTwo`, `XmlRpcCleanup.OnceIsEnoughExactlyWhen`), keys that look the
  same as strings lose entries (`XmlRpcCleanup.ClashLosesEntriesExactlyWhen`), and integers of
  more than 32 bits that are not longs are let through (`XmlRpcCleanup.MarshalsExactlyWhen`).

## Model

| member | source | states |
|---|---|---|
| ReadWriteLock.RWLock.ReaderEnters | agent/mmc/support/cache.py:408-418 | the mutex section of a reader's arrival: admitted with a token, or queued behind writers; then the token is awaited |
| ReadWriteLock.RWLock.ReaderLeaves | agent/mmc/support/cache.py:420-429 | the last reader out hands the lock to a waiting writer |
| ReadWriteLock.RWLock.WriterEnters | agent/mmc/support/cache.py:431-441 | the mutex section of a writer's arrival: admitted to an unused lock only |
| ReadWriteLock.RWLock.WriterLeaves | agent/mmc/support/cache.py:443-459 | a leaving writer prefers the next writer; otherwise the loop releases one token for every queued reader |
| ReadWriteLock.RWLock.AcquireRead | agent/mmc/support/cache.py:418 | taking a read token, possible only when there is one |
| ReadWriteLock.RWLock.AcquireWrite | agent/mmc/support/cache.py:441 | taking a write token |
| ReadWriteLock.StepKeepsInv | agent/mmc/support/cache.py:399-459 | every step of every thread keeps the joint invariant: readers inside plus read tokens are the active readers, readers blocked are tokens plus queued readers, the same for writers, at most one active writer and never beside readers, and nobody queues in front of an unused lock |
| ReadWriteLock.RunKeepsInv | agent/mmc/support/cache.py:399-459 | so does every interleaving |
| ReadWriteLock.HolderFinishes | agent/mmc/support/cache.py:443-459 | releasing tokens one by one, interleaved with other threads, has the atomic effect the methods promise |
| ReadWriteLock.MutualExclusion | agent/mmc/support/cache.py:386-397 | in every reachable state, with any number of threads, a writing thread is alone |
| ReadWriteLock.SomebodyCanMove | agent/mmc/support/cache.py:408-459 | no lost wakeup: as long as any thread is not outside, some thread can move without a new arrival |
| ReadWriteLock.StepDoesWork | agent/mmc/support/cache.py:408-459 | every move that is not an arrival uses up exactly one unit of a measure |
| ReadWriteLock.EveryoneGetsThrough | agent/mmc/support/cache.py:408-459 | every schedule, whoever arrives in it, lasts at most as many moves as there was work and six for each arrival; one that can go no further without a new arrival has let everyone through, in exactly that many moves |
| ReadWriteLock.WaitingWriterGoesFirst | agent/mmc/support/cache.py:408-459 | while a writer waits no reader is admitted and every reader that leaves makes the active readers one fewer, queued readers stay queued, and the last to leave hands over to a writer |
| ReadWriteLock.AdmittedAfterExactlyThatManyLeaves | agent/mmc/support/cache.py:408-459 | a waiting writer is admitted after exactly as many leaves as there are active threads, in every run, whoever arrives and however the others move |
| ReadWriteLock.QueuedReadersReleasedTogether | agent/mmc/support/cache.py:451-457 | readers leave the queue only through a writer that finds no other writer waiting, all of them at once |
| ReadWriteLock.BoundedBypass | agent/mmc/support/cache.py:386-397 | over any stretch with a writer waiting, arrivals allowed, reads started are paid for one for one by tokens that existed when it began, and the active readers fall by exactly the number of readers that leave |
| ReadWriteLock.LateReaderMayOvertake | agent/mmc/support/cache.py:408-418 | a concrete run in which a reader that arrives behind a waiting writer reads before one that came first |
| ReadWriteLock.OvertakesExactlyWhen | agent/mmc/support/cache.py:408-429 | a reader still outside can come to read while a writer waits all along if and only if a read token is in the semaphore or owed by the holder of the mutex |
| LocMemCache.LocMemCache.Clear | agent/mmc/support/cache.py:277-279 | both dictionaries are emptied |
| LocMemCache.LocMemCache.Cull | agent/mmc/support/cache.py:252-258 | every entry at a position divisible by the frequency is dropped from both dictionaries, or all for frequency 0 |
| LocMemCache.LocMemCache.StoreEntry | agent/mmc/support/cache.py:214-220 | a full cache is culled first, then the value is stored, and its expiry, the time of the store plus the timeout given or the default one |
| LocMemCache.LocMemCache.Add | agent/mmc/support/cache.py:181-190 | stores exactly when there is no entry or it has expired |
| LocMemCache.LocMemCache.Delete | agent/mmc/support/cache.py:260-275 | the entry is gone from both dictionaries, nothing else is |
| LocMemCache.LocMemCache.Purge | agent/mmc/support/cache.py:203-212 | the second section of a lookup: it takes the entry out without looking at the expiry again |
| LocMemCache.LocMemCache.Get | agent/mmc/support/cache.py:192-212 | alone in the cache: the value if it is there and has not expired, and an expired entry is removed |
| LocMemCache.LocMemCache.HasKey | agent/mmc/support/cache.py:230-250 | alone in the cache: the same for the test |
| LocMemCache.StoredUntilTimeout | agent/mmc/support/cache.py:192-220 | a lookup after a store succeeds exactly while less time has gone by than the timeout given, or than the default one |
| LocMemCache.StoresExactly | agent/mmc/support/cache.py:214-220 | a store culls exactly a full cache and changes nothing else but its own entry |
| LocMemCache.CullsExactly | agent/mmc/support/cache.py:252-258 | culling takes out exactly the entries at every place the frequency divides, or all for frequency 0 |
| LocMemCache.LiveIsLatestStore | agent/mmc/support/cache.py:192-228 | the reference notion of an entry: stored by some event of the history and not touched by any later one |
| CacheRuns.PlanSettles | agent/mmc/support/cache.py:181-275 | each critical section, as a list of dictionary operations, takes dictionaries that match the history to dictionaries that match the longer history, never above capacity on the way |
| CacheRuns.NobodyElseApplies | agent/mmc/support/cache.py:194-212 | while a thread reads or writes nobody else is in the middle of writing, by the lock's invariant |
| CacheRuns.NextKeepsInv | agent/mmc/support/cache.py:181-275 | every step of every thread, token, dictionary or call, keeps the invariant that joins lock, dictionaries, histories and what each thread knows |
| CacheRuns.DictionariesMatchHistory | agent/mmc/support/cache.py:181-279 | in every reachable state: equal keys and exactly the entries the history calls for whenever no writer is inside, and a size of at most max(1, max_entries) at every moment for every frequency |
| CacheRuns.EveryAnswerIsRight | agent/mmc/support/cache.py:181-275 | every answer of `get`, `has_key` and `add`, in every interleaved run, is the one the history before it calls for |
| CacheRuns.HitComesFromLatestStore | agent/mmc/support/cache.py:192-202 | every hit returns the value of the latest store of that key, not removed since and not expired |
| CacheRuns.ServedUntilTimeout | agent/mmc/support/cache.py:181-250 | in every interleaved run: after a `set`, or an `add` that stores, and while nothing touches the key, a lookup hits with that value if and only if less time has gone by since the store than the timeout given, or than the default one |
| CacheRuns.NoKeyError | agent/mmc/support/cache.py:199-200 | reading the value never fails after the expiry was read |
| CacheRuns.WhyEntriesDisappear | agent/mmc/support/cache.py:203-275 | an entry is removed by a delete, by culling, or by a lookup that itself found the key expired and whose thread has done nothing since |
| CacheRuns.PurgesItsOwnFindingExactlyWhen | agent/mmc/support/cache.py:192-250 | in every run, a lookup takes out the entry it found expired if and only if nothing was stored under the key between its two sections; otherwise it takes out what was stored meanwhile |
| CacheRuns.PurgeTakesFreshEntry | agent/mmc/support/cache.py:203-212 | the second section of a lookup removes whatever is stored by then, however fresh |
| CacheRuns.FreshEntryMayBeLost | agent/mmc/support/cache.py:192-250 | from a new cache, a run of two threads through the lock, token by token, that loses an entry however long it should have lived, for every key and every pair of entries of which the first has expired |
| CacheRuns.LostEntryWasRemoved | agent/mmc/support/cache.py:192-275 | a miss before the expiry always has such a removal in between |
| CacheRuns.DeleteTakesEffect | agent/mmc/support/cache.py:260-275 | a `delete` leaves nothing under its key and every other key as it was |
| DeferredCache.DeferredCache.Append | agent/mmc/support/cache.py:371-372 | appending to a live deferred queues the link, appending to a finished one runs it at once |
| DeferredCache.DeferredCache.AttachUser | agent/mmc/support/cache.py:370-373 | a new user deferred and its two links |
| DeferredCache.DeferredCache.Call | agent/mmc/support/cache.py:355-373 | all paths of `call`: not hashable, shared, new, and the failure in between |
| DeferredCache.DeferredCache.Complete | agent/mmc/support/cache.py:347-353 | the operation's outcome runs through the chain of links |
| DeferredCache.LinksKeepResult | agent/mmc/support/cache.py:347-353 | every link hands on the result it got, so the chain leaves it unchanged |
| DeferredCache.LinkRunsOn | agent/mmc/support/cache.py:347-353 | the callback runs on success, the errback on failure, neither on the other |
| DeferredCache.PairFiresOnce | agent/mmc/support/cache.py:371-372 | the two links of one user fire that user once, for success and for failure |
| DeferredCache.WaitersFireOnce | agent/mmc/support/cache.py:347-373 | a chain fires exactly the users attached to it, once each |
| DeferredCache.CallKeepsInv | agent/mmc/support/cache.py:355-373 | `call` keeps the invariant: each user deferred has fired exactly once with its operation's outcome, or not at all while that is missing |
| DeferredCache.CompleteKeepsInv | agent/mmc/support/cache.py:347-353 | so does completion |
| DeferredCache.EveryUserServedOnce | agent/mmc/support/cache.py:347-373 | after any run, whether a user came before or after the outcome |
| DeferredCache.ReplyIsNew | agent/mmc/support/cache.py:355-373 | a call returns a deferred of its own, which nobody had before, waiting on an operation invoked for its own key, or the operation's own when its arguments cannot be hashed |
| DeferredCache.ReplyStaysTheCallers | agent/mmc/support/cache.py:347-373 | whatever follows, that deferred fires with exactly the outcome of an operation invoked for the caller's key, and no later call returns it again |
| DeferredCache.SharedForTheTimeout | agent/mmc/support/cache.py:362-373 | the next call for the key shares the operation if both its lookups come within the default timeout of the first, fails if only the first does, and invokes another if neither does |
| DeferredCache.OneInvocationWhileEntryLives | agent/mmc/support/cache.py:355-373 | while an entry lives, any number of calls with its key invoke the operation no further time and all are attached to the one invocation |
| DeferredCache.CrashesOnlyOnExpiryInBetween | agent/mmc/support/cache.py:362-364 | `call` fails exactly when the entry expires between the two lookups |
| PrioritySlots.InsertionFindsFirstFree | web/includes/modules.inc.php:176-183 | insertion terminates with the object in the first free slot at or above its index and changes nothing else |
| PrioritySlots.SwapLemma | web/includes/modules.inc.php:176-183 | two neighbouring insertions may be exchanged: the same two slots are taken |
| PrioritySlots.TakenOrderIndependent | web/includes/modules.inc.php:176-193 | the slots taken depend only on the multiset of priorities |
| PrioritySlots.PlacedPacked | web/includes/modules.inc.php:176-193 | every object is at or above its priority with every slot in between occupied |
| PrioritySlots.EveryObjectInItsSlot | web/includes/modules.inc.php:176-193 | no object is lost, moved or duplicated |
| PrioritySlots.LaterGoesLower | web/includes/modules.inc.php:176-193 | an object inserted later with the same or a higher priority goes further down |
| PrioritySlots.OccupiedSlotsOrderIndependent | web/includes/modules.inc.php:185-193 | the occupied slots are the same for all orders in which objects of these priorities may come |
| PrioritySlots.DisplacementOrderIndependent | web/includes/modules.inc.php:185-193 | so is the total displacement |
| PrioritySlots.FreeExactlyWhenRoom | web/includes/modules.inc.php:176-193 | the occupied slots from the priorities alone: a slot is free if and only if, for every start, fewer objects want to be between the start and the slot than there are slots |
| PrioritySlots.GetSorted | web/includes/modules.inc.php:185-193 | the loop and the key sort, with empty objects left out |
| PrioritySlots.PresentInOrder | web/includes/modules.inc.php:187-190 | the objects that are there, in order |
| PrioritySlots.NavbarOrder | web/includes/modules.inc.php:200-223 | the insertion loops of the navigation bar place the visible submodules of all modules |
| PrioritySlots.ShownInOrder | web/includes/modules.inc.php:206-214 | inserted are, in order, the submodules of which some page is visible |
| PrioritySlots.AllShownInOrder | web/includes/modules.inc.php:205-214 | module after module |
| PrioritySlots.AnyVisible | web/includes/modules.inc.php:209-212 | a submodule is shown exactly when some page of it is visible |
| PrioritySlots.SortedIsPermutation | web/includes/modules.inc.php:185-193 | the result has exactly the objects of the input |
| PrioritySlots.SortedExactlyWhen | web/includes/modules.inc.php:185-193 | the result is in order of priority if and only if everyone who comes after an object of higher priority finds room below that priority, decided by the priorities alone |
| PrioritySlots.SortedInputKept | web/includes/modules.inc.php:185-193 | an input in order is returned unchanged |
| PrioritySlots.SortedMayFail | web/includes/modules.inc.php:185-193 | three objects for which the result is out of order |
| HtmlTree.HtmlContainer.Push | web/includes/PageGenerator.php:2453-2470 | the element goes into the innermost open container at the right edge |
| HtmlTree.HtmlContainer.Pop | web/includes/PageGenerator.php:2483-2494 | the innermost open container is closed; an already closed one is reported |
| HtmlTree.HtmlContainer.HasBeenPopped | web/includes/PageGenerator.php:2472-2481 | a container is finished exactly when it has been popped |
| HtmlTree.HtmlContainer.LastHasBeenPopped | web/includes/PageGenerator.php:2410-2412 | a leaf always counts as finished |
| HtmlTree.HtmlContainer.Display | web/includes/PageGenerator.php:2441-2446 | begin, the elements in order, end |
| HtmlTree.PushKeepsOrder | web/includes/PageGenerator.php:2453-2470 | pushing keeps the invariant that every element but the last is finished and finished containers have finished descendants |
| HtmlTree.PopKeepsOrder | web/includes/PageGenerator.php:2483-2494 | so does popping |
| HtmlTree.PushedFront | web/includes/PageGenerator.php:2453-2470 | a push appends what the element prints to what has been printed so far |
| HtmlTree.PoppedFront | web/includes/PageGenerator.php:2483-2494 | a pop appends the end of the innermost open container |
| HtmlTree.DisplayPrintsTheStream | web/includes/PageGenerator.php:2420-2496 | for every well-bracketed stream, onto any partly built tree: display prints what was there, the stream, and the ends of what the stream left open |
| HtmlTree.DisplayAfterBuild | web/includes/PageGenerator.php:2420-2496 | the same from a fresh root |
| HtmlTree.BuildAfterDisplay | web/includes/PageGenerator.php:2420-2496 | the other direction: building from what a finished tree prints gives exactly that tree |
| TemplateTags.TagAtExactlyWhen | web/includes/template.inc.php:783-798 | the scanner finds a tag at a place exactly when there is one, of at least one character that is neither white space nor a closing brace, and its end |
| TemplateTags.NoTagsFrom | web/includes/template.inc.php:789-795 | removing or commenting tags leftmost first never forms a new one across a join, from any place on |
| TemplateTags.CommentIsSealed | web/includes/template.inc.php:794 | the comment for a tag holds no tag, alone or with what follows |
| TemplateTags.FinishLeavesNoTag | web/includes/template.inc.php:783-798 | under both policies no tag is left in any text, nested and unbalanced braces included |
| TemplateTags.FinishKeepsTagFree | web/includes/template.inc.php:783-798 | a text without tags is unchanged |
| TemplateTags.FinishIsIdempotent | web/includes/template.inc.php:783-798 | finishing twice is finishing once |
| TemplateTags.PartsAreTheText | web/includes/template.inc.php:783-798 | the tags and characters into which a text is cut are the text |
| TemplateTags.FinishRewritesParts | web/includes/template.inc.php:783-798 | under every policy finishing writes nothing, the comment with the name, or the tag itself for every tag, and copies everything else |
| TemplateTags.GetUndefined | web/includes/template.inc.php:746-761 | the loop over the tags found: the undefined names, each once, in the order of their first places |
| TemplateVars.PatternMatchesItsTag | web/includes/template.inc.php:879-881 | the pattern of a name matches exactly its tag, unless the name has a slash: then it is malformed |
| TemplateVars.QuotedValueIsLiteral | web/includes/template.inc.php:518-521 | a protected value goes in literally, whatever backslashes, dollars and digits it has |
| TemplateVars.UnquotedValueIsNotLiteral | web/includes/template.inc.php:517-521 | why it has to be protected: a value that is a reference would give way to the tag, or to nothing |
| TemplateVars.SubstituteFailsExactlyOnSlash | web/includes/template.inc.php:507-526 | the replacement call fails exactly when some variable has a slash in its name |
| TemplateVars.AssignKeepsStep | web/includes/template.inc.php:376-405 | setting a variable keeps names and patterns in step |
| TemplateVars.UnsetKeepsStep | web/includes/template.inc.php:468-489 | so does removing one |
| TemplateVars.PairedByPosition | web/includes/template.inc.php:507-526 | in the replacement call each pattern matches the tag of one name, and the replacement at the same place writes that variable's value |
| TemplateVars.SetVarMeans | web/includes/template.inc.php:376-405 | the variable gets the value, behind what it has when appending; a new one comes last; no other changes; names that PHP counts as empty are ignored |
| TemplateVars.SetVarsInOrder | web/includes/template.inc.php:389-404 | a hash is set from its first pair to its last |
| TemplateVars.ClearVarsMeans | web/includes/template.inc.php:427-446 | exactly the variables named become empty, and come to be if they were not there |
| TemplateVars.UnsetVarsMeans | web/includes/template.inc.php:468-489 | exactly the variables named are gone |
| TemplateVars.LoadMeans | web/includes/template.inc.php:904-940 | only a variable with a file and no value gets the text of the file; it fails exactly when that text is missing or counts as empty |
| TemplateVars.Template.SetVar | web/includes/template.inc.php:376-405 | assignment and appending; names that PHP counts as empty are ignored |
| TemplateVars.Template.SetVars | web/includes/template.inc.php:389-404 | the same for a hash of variables, in order |
| TemplateVars.Template.ClearVar | web/includes/template.inc.php:427-434 | the value becomes empty, the name stays where it is |
| TemplateVars.Template.ClearVars | web/includes/template.inc.php:435-446 | the same for a list of names |
| TemplateVars.Template.UnsetVar | web/includes/template.inc.php:468-477 | the variable is gone from both hashes |
| TemplateVars.Template.UnsetVars | web/includes/template.inc.php:477-489 | the same for a list of names |
| TemplateVars.Template.LoadFile | web/includes/template.inc.php:904-940 | a variable with a file and no value is filled once |
| TemplateVars.Template.Subst | web/includes/template.inc.php:507-526 | one replacement call over all variables, on the loaded value |
| TemplateVars.Template.ReplaceEach | web/includes/template.inc.php:524 | the replacement call takes the patterns one after the other, each on the result of the one before |
| TemplateVars.Template.Parse | web/includes/template.inc.php:592-602 | the substituted value is stored in, or appended to, the target; so is the false of a failed load |
| TemplateVars.FailedLoadEmptiesTarget | web/includes/template.inc.php:597-602 | after a failed load the target is empty, or as it was when appending |
| TemplateVars.Template.ParseAll | web/includes/template.inc.php:603-622 | the same for a list of variables, one after the other |
| TemplateVars.ParseAllInOrder | web/includes/template.inc.php:603-622 | from the first variable of the list to the last, each on what the ones before it left |
| TemplateVars.Template.GetUndefined | web/includes/template.inc.php:737-768 | the undefined tags of a variable, loaded first if need be, or nothing when there are none |
| TemplateOrder.SubstituteSwapsEach | web/includes/template.inc.php:507-526 | with its patterns and its quoting, the replacement call comes down to replacing one literal after the other |
| TemplateOrder.ParseMeans | web/includes/template.inc.php:592-602 | the target gets the substituted text, behind what it has when appending, and no other variable changes; after a malformed pattern nothing is appended, or the target has no value |
| TemplateOrder.ParseAllAppends | web/includes/template.inc.php:603-622 | appending a list puts the texts one behind the other, in the order of the list, behind what the target has |
| TemplateOrder.HarmlessSwapIsPut | web/includes/template.inc.php:507-526 | replacing one variable changes its tags and nothing else, in any template that does not show its tag otherwise |
| TemplateOrder.SubstitutionIsSimultaneous | web/includes/template.inc.php:507-526 | with any braces in values and template that no later variable can take for its tag, the sequential replacement equals one pass over the tags |
| TemplateOrder.SimultaneousExactlyWhen | web/includes/template.inc.php:507-526 | for whichever of the variables are defined and every template, it does so if and only if no value shows the tag of a later variable, whole or as a beginning at its end, unless that variable's value is its own tag |
| TemplateOrder.VariableOrderIrrelevant | web/includes/template.inc.php:507-526 | two such orders of the same variables give the same result |
| TemplateOrder.OrderIrrelevantExactlyWhen | web/includes/template.inc.php:507-526 | the order never matters, whichever of the variables are defined and for every template, if and only if no value shows the tag of another variable |
| TemplateOrder.BracesMakeOrderMatter | web/includes/template.inc.php:507-526 | with a value that is itself a tag the two orders give different results |
| MmcAgent.OpenToAllExactlyWhen | agent/mmc/agent.py:115-131 | which functions need no login: those a plugin lists, under its name, and the reload |
| MmcAgent.QueuedExactlyWhen | agent/mmc/agent.py:163-211 | a request reaches its function exactly when all checks of its arrival pass |
| MmcAgent.ExceptionCountsAsLogin | agent/mmc/agent.py:272-278 | the login is carried out for the three authenticators exactly after an exception, a handler, a true value or a dictionary that is not empty; not after None, a false value, an empty dictionary or a fault |
| MmcAgent.OutcomeDecidesLogin | agent/mmc/agent.py:272-288 | such an outcome logs the session in as the first argument, with his contexts, unless a plugin raises an exception; any other outcome, and any other function, leaves the session as it was |
| MmcAgent.OutcomeIsTheFunctions | agent/mmc/agent.py:195-270 | the outcome a request is delivered or answered with is the one its function, or the Deferred that this returned, came to |
| MmcAgent.RefusedWith | agent/mmc/agent.py:163-211 | the first check on arrival that fails decides the fault |
| MmcAgent.CallsAsRoot | agent/mmc/agent.py:188-199 | a session not logged in that calls a function open to all carries the contexts of "root"; otherwise an arrival leaves the session as it was |
| MmcAgent.LookedForInThePlugin | agent/mmc/agent.py:96-113 | a function is looked for in the plugin named, then in its proxy; a plugin that is not there is an exception |
| MmcAgent.LookedForInTheServer | agent/mmc/agent.py:96-113 | and in the server itself when no plugin is named |
| MmcAgent.ComesBackAnsweredExactlyWhen | agent/mmc/agent.py:272-324 | exactly when a finished function leads to an answer, and that a failed login is answered with its own fault |
| MmcAgent.AnswerIsTheFunctions | agent/mmc/agent.py:289-315 | what the answer says: the value returned, zero for None, a handler's result, the dictionary for an exception, the function's own fault, or why it cannot be sent |
| MmcAgent.StepSound | agent/mmc/agent.py:143-324 | every step keeps what is true of each request: answered once if over, not before, called at most once and not at all if refused; and nothing that is over changes |
| MmcAgent.AnsweredOnceCalledOnce | agent/mmc/agent.py:143-324 | over every interleaving of requests, calls and completions, with and without threads |
| MmcAgent.AttachMeans | agent/mmc/agent.py:326-350 | attaching contexts succeeds exactly when no plugin raises an exception, and gives exactly the contexts made |
| MmcAgent.DeliveryLogsInExactlyWhen | agent/mmc/agent.py:272-288 | when a delivery logs a session in, and as whom |
| MmcAgent.LoginNeedsItsArgument | agent/mmc/agent.py:272-288 | a delivery keeps "logged in means contexts of that user" if and only if it is no login without arguments on a session that lacked them; no other session is touched |
| MmcAgent.StepKeepsSessions | agent/mmc/agent.py:143-350 | every step keeps it for all sessions as long as authenticators are called with arguments |
| MmcAgent.LoggedInMeansContexts | agent/mmc/agent.py:143-350 | so after every such run a session that is logged in carries exactly the contexts every plugin made for its current user |
| MmcAgent.StepKeepsLogins | agent/mmc/agent.py:143-324 | every step, whatever it is, keeps that a session logged in has had a successful call of an authenticator for its user |
| MmcAgent.LoggedInMeansLogin | agent/mmc/agent.py:143-324 | so in every run a session logged in has had a call of an authenticator that raised an exception or returned a handler, a true value or a dictionary that is not empty, with the right credentials, and with the session's user as first argument or with none |
| MmcAgent.LoggedInWithoutContexts | agent/mmc/agent.py:191-207 | a run without that proviso that ends otherwise |
| MmcAgent.MmcServer.AssociateContext | agent/mmc/agent.py:326-350 | the loop over the plugins, stopped by the first exception |
| MmcAgent.MmcServer.RenderPost | agent/mmc/agent.py:143-212 | all branches of a request's arrival |
| MmcAgent.MmcServer.LogIn | agent/mmc/agent.py:275-288 | the session is logged in, and out again if a context is missing |
| MmcAgent.MmcServer.CbRender | agent/mmc/agent.py:272-324 | the delivery of a result or an exception |
| MmcAgent.MmcServer.Write | agent/mmc/agent.py:289-315 | conversion and serialization, with the exception that can escape |
| MmcAgent.MmcServer.PutResult | agent/mmc/agent.py:249-270 | the call in a worker thread, with a result or a deferred |
| SchemaMigration.GroupsSeparate | agent/mmc/database/ddl.py:202-217 | a character that is not a digit separates the groups of digits found on both sides |
| SchemaMigration.AcceptedExactlyWhen | agent/mmc/database/ddl.py:219-233 | a file counts as a schema script exactly when it is named schema-DDD.sql |
| SchemaMigration.VersionInBaseTen | agent/mmc/database/ddl.py:275-278 | its version is the number the three digits write in base ten |
| SchemaMigration.StringOrderIsNumeric | agent/mmc/database/ddl.py:254-261 | on such names the order of strings is that of the numbers |
| SchemaMigration.ScriptsAscend | agent/mmc/database/ddl.py:235-261 | exactly the accepted names of the directory, in strictly ascending order |
| SchemaMigration.TargetIsLast | agent/mmc/database/ddl.py:263-278 | the version to install is the last of them |
| SchemaMigration.PiecesAreBlacklisted | agent/mmc/database/ddl.py:192-193 | every piece of the listed name counts as listed |
| SchemaMigration.BlacklistedExactlyWhen | agent/mmc/database/ddl.py:192-193 | listed are exactly the pieces of the name, in small or capital letters |
| SchemaMigration.NumberOfPath | agent/mmc/database/ddl.py:402-410 | the number found in a path is that of the script, if the rest of the path has none, and none otherwise |
| SchemaMigration.ToInstallExactly | agent/mmc/database/ddl.py:388-410 | the versions above the installed one up to the target, or nothing if the directory's path has three digits in a row |
| SchemaMigration.WhatIsLeft | agent/mmc/database/ddl.py:388-410 | after the first k of them exactly the others are left |
| SchemaMigration.RunScriptsMeans | agent/mmc/database/ddl.py:430-437 | scripts are executed up to and including the first that fails |
| SchemaMigration.ReportedExactlyWhen | agent/mmc/database/ddl.py:412-442 | what is reported, from the listing and the installed version: up to date exactly at the version of the last script, a conflict exactly above it or for a listed module, no version exactly without scripts, and otherwise updated or failed |
| SchemaMigration.ExecutesOnlyListedScripts | agent/mmc/database/ddl.py:388-437 | whatever is executed is a schema script of the directory, by its full path, above the installed version |
| SchemaMigration.ProcessRunsExactly | agent/mmc/database/ddl.py:412-442 | exactly the pending scripts run, ascending, or a prefix ending at the first failure; which version is left and what is reported |
| SchemaMigration.RerunInstallsTheRest | agent/mmc/database/ddl.py:412-442 | after a failure exactly the remaining scripts are pending |
| SchemaMigration.TwoRunsReachTheTarget | agent/mmc/database/ddl.py:412-442 | two runs execute every pending script, the failed one twice, and reach the target |
| SchemaMigration.UpdatedMeansAtTargetExactlyWhen | agent/mmc/database/ddl.py:425-437 | a database reported as updated is at the target if and only if the path has no three digits in a row |
| SchemaMigration.DigitsHideTheScripts | agent/mmc/database/ddl.py:404-406 | with such a path nothing runs and the report is the same |
| SchemaMigration.NeverGoesBack | agent/mmc/database/ddl.py:412-442 | no run lowers the version or forgets what was executed, and one executes something if and only if the database is behind and a script is pending |
| SchemaMigration.BlacklistedConflicts | agent/mmc/database/ddl.py:273-274 | a module that counts as listed is always in conflict |
| SchemaMigration.DbControl.GetScriptsToInstall | agent/mmc/database/ddl.py:388-410 | the loop that selects scripts |
| SchemaMigration.DbControl.Process | agent/mmc/database/ddl.py:412-442 | the loop that runs them, with its early exit |
| Pagination.Pages | web/includes/PageGenerator.php:866 | the number of pages is the least that holds all rows |
| Pagination.PageOfItsWindow | web/includes/PageGenerator.php:1034-1037 | the window of a page link leads back to its page, and the windows divide the rows among themselves |
| Pagination.PreviousUndoesNextExactlyWhen | web/includes/PageGenerator.php:875-896 | "Previous" takes back "Next" exactly for windows of the bar's size |
| Pagination.WalkDrawsTheRest | web/includes/PageGenerator.php:653-712 | following "Next" from any window draws all rows from there on once, in order |
| Pagination.WalkLength | web/includes/PageGenerator.php:889-896 | how many windows that takes |
| Pagination.FirstToLast | web/includes/PageGenerator.php:483-507 | from the first window: every row once, in order, on ceil(count / max) pages |
| Pagination.OpensOnTheFirstPage | web/includes/PageGenerator.php:489-497 | a list opens on its first page, which has no page before it |
| Pagination.LinkedExactlyWhen | web/includes/PageGenerator.php:871-896 | "Previous" is there exactly when the window does not start with the first row, "Next" exactly when rows come after it, and both lead to the adjoining window of the bar's size |
| Pagination.FirstWindowOfOtherSize | web/includes/PageGenerator.php:489-507 | also when the request changes the size of the first window only |
| Pagination.WalkVisitsPages | web/includes/PageGenerator.php:866-868 | window after window the bar knows its page, and the page exists |
| Pagination.HeaderIsCeil | web/includes/PageGenerator.php:572-585 | the header's own computation is a ceiling too |
| Pagination.HeaderAgreesExactlyWhen | web/includes/PageGenerator.php:572-585 | for one list, header and bar agree if and only if its last row is on the same page at both sizes, or there is none |
| Pagination.HeaderAlwaysAgreesExactlyWhen | web/includes/PageGenerator.php:572-585 | for every list, if and only if the two sizes are equal |
| Pagination.HeaderMayDiffer | web/includes/PageGenerator.php:489 | a list for which they differ |
| Pagination.HeaderShowsItsPage | web/includes/PageGenerator.php:572-574 | the current page printed is the page, for a window of the header's own size |
| Pagination.ManyPages | web/includes/PageGenerator.php:1004-1031 | with more than ten pages the links ascend strictly, exist, are nine at most, include both ends, and the current page exactly when it exists |
| Pagination.FewPages | web/includes/PageGenerator.php:994-1002 | with ten or fewer all are linked, unless there is only one |
| Pagination.DotsWherePagesAreSkipped | web/includes/PageGenerator.php:1004-1031 | links side by side are neighbouring pages |
| Pagination.CurrentPageIsLinked | web/includes/PageGenerator.php:991-1032 | all the way through a list the bar shows the current page |
| Pagination.SimpleNavBar.constructor | web/includes/PageGenerator.php:853-869 | the page size chosen and the two page numbers |
| Pagination.SimpleNavBar.Display | web/includes/PageGenerator.php:871-904 | the windows behind "Previous" and "Next" |
| Pagination.SimpleNavBar.MakeLinks | web/includes/PageGenerator.php:1006-1013 | one loop over page links, with its skip |
| Pagination.SimpleNavBar.DisplayPagesNumbers | web/includes/PageGenerator.php:991-1032 | all the loops and dots together |
| Pagination.ListInfos.constructor | web/includes/PageGenerator.php:483-507 | the window taken from the request or the first one |
| Pagination.ListInfos.DrawHeader | web/includes/PageGenerator.php:558-587 | the current page, rounded, and the page count shown, and when they are |
| Pagination.ListInfos.DrawTable | web/includes/PageGenerator.php:653-712 | the rows drawn for a window |
| Unique.Unique | agent/mmc/database/utilities.py:29-95 | for elements of any type: without duplicates and with the same elements, whichever way is taken; strictly ascending after a sort, first occurrences after neither |
| Unique.ByDict | agent/mmc/database/utilities.py:58-65 | the keys of a dictionary, in any order, or nothing as soon as an element cannot be hashed |
| Unique.Compact | agent/mmc/database/utilities.py:80-88 | the in-place compaction leaves a strictly ascending prefix with all elements |
| Unique.BySort | agent/mmc/database/utilities.py:74-88 | sorting, then compaction |
| Unique.ByBruteForce | agent/mmc/database/utilities.py:90-95 | first occurrences, in order |
| Unique.FirstOccurrencesAre | agent/mmc/database/utilities.py:90-95 | they are distinct, complete, and in the order of their first places |
| Unique.ResultsArePermutations | agent/mmc/database/utilities.py:29-47 | any two results are permutations of each other |
| XmlRpcCleanup.TakesItsForm | agent/mmc/support/mmctools.py:148-183 | at every depth None becomes false, longs strings, sets and tuples lists, dates tuples of their fields, keys strings, and everything else stays |
| XmlRpcCleanup.LongReadsBack | agent/mmc/support/mmctools.py:179-180 | the string of a long reads back as the same number |
| XmlRpcCleanup.BeyondTheSerializer | agent/mmc/support/mmctools.py:148-183 | why None, longs, sets and dates need cleaning, and the integers it does not mend |
| XmlRpcCleanup.MarshalsExactlyWhen | agent/mmc/support/mmctools.py:148-183 | whatever is cleaned up can be sent, at every depth, if and only if its integers have 32 bits, those in entries that a later one replaces left aside |
| XmlRpcCleanup.EntriesKept | agent/mmc/support/mmctools.py:154-158 | without a clash every entry stays, in place, under its key as a string |
| XmlRpcCleanup.SurvivorsAreKept | agent/mmc/support/mmctools.py:154-158 | what is left of a dictionary is exactly what the last entry of each key has become |
| XmlRpcCleanup.ClashLosesEntriesExactlyWhen | agent/mmc/support/mmctools.py:156-158 | as many entries are left as there are different keys, so none is lost if and only if no two keys look the same as strings |
| XmlRpcCleanup.ThirdTimeIsSecond | agent/mmc/support/mmctools.py:148-183 | a third clean-up changes nothing, for every value |
| XmlRpcCleanup.OnceIsEnoughExactlyWhen | agent/mmc/support/mmctools.py:167-178 | a second changes nothing if and only if there is no date at any depth, in entries that are kept |
| XmlRpcCleanup.DateNeedsTwo | agent/mmc/support/mmctools.py:167-178 | a date becomes a tuple and then a list |
| PasswordScore.ScoreFromCounts | web/includes/FormHandler.php:130-185 | the score from the numbers of small letters, capital letters, digits and other characters: points, bonus and divisor |
| PasswordScore.OrderIrrelevant | web/includes/FormHandler.php:130-185 | the score does not depend on the order of the characters |
| PasswordScore.NeverLowered | web/includes/FormHandler.php:130-185 | a character more never lowers it |
| PasswordScore.ScoreBounded | web/includes/FormHandler.php:130-185 | at most 55 for every character |
| PasswordScore.Tally | web/includes/FormHandler.php:140-172 | the loop's points, bonus and variety |
| PasswordScore.TestPassword | web/includes/FormHandler.php:130-185 | the score as the source computes it, step by step; none for an empty password |

## Left out

- Reentrancy of the lock's mutex, and threads that acquire one lock twice: a thread is in one phase at a time.
- The shared-instance rebinding of cache names (agent/mmc/support/cache.py:51-56, 171-179): one bound name is modelled.
- `clear` called from outside while others use the cache: it does not take the lock (agent/mmc/support/cache.py:277-279).
- Time: clock readings are parameters, in no particular order; expiries are real numbers. Under them the constant that stands for "never" expires at once, as in the source.
- The hash function of cache keys: a key is given, or none when the arguments cannot be hashed.
- Deferreds as objects: users and operations are numbered fields of the deferred cache, and each call of it is one step.
- The text that widgets print between begin and end, their options, and pushing onto a root that has been popped, which the source does not test for either.
- General regular expressions: the two shapes the template engine uses are modelled directly, with PHP's rules for backreferences in replacement strings.
- The blocks of a template file and the trimming of white space (web/includes/template.inc.php:328-345), the debug output, and the policy that stops the program on an error: a failed load is reported to the caller and the source goes on.
- HTTP, cookies and the expiry of sessions. A session is a value in a map of the server, shared by its requests.
- Results of functions beyond what the agent looks at: truth value, fault, handler, the photo, and whether the serializer accepts them. User names are strings.
- The arguments of a call, except whether there are any and which user name comes first.
- The log messages of the agent and of the migration, including the formatting in the branch of a version conflict (agent/mmc/database/ddl.py:438-442): the outcome there is only "conflict".
- The SQL in the scripts: executing one is an oracle, and on success the script is taken to set the version to its own number. Joining of paths is with one slash.
- Pagination.ListInfos.constructor: a list position that comes in the posted form only is not modelled (web/includes/PageGenerator.php:491-500), because the source then leaves the window unset and goes on with nulls.
- A page size of zero, which divides by zero, and the arithmetic of PHP beyond exact integers. Which of two equally near numbers is printed for a current page is left open.
- Floating point in the password score: exact arithmetic is used. An empty password divides by zero and has no score.
- Hashing and comparison in `unique`: which elements can be hashed, whether the list can be sorted, and by which order, are parameters; the order is total, as the source assumes.
- Time tuples are given with their fields; keys that cannot be converted to strings and subclasses of the listed types are not part of the model of the clean-up.
- The retry loop of database methods, the progress of backups, the form differences and the search filters: easy beside the rest.
