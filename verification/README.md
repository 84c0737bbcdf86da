# A verified model of the service broker

The service broker implements the Open Service Broker API v2.13 on top of Kubernetes: it keeps each service
instance in a secret, provisions resources from templates in the background, and answers polls about how that went.
This project models its hard parts in Dafny 4.11 and proves what they are relied on for. `dafny verify dfyconfig.toml`
checks all of it.

## What is modelled

**The asynchronous operation protocol.** `Registry` has the entry, a local copy of a secret that is edited and
committed; `Operation` the three transitions `Start`, `Complete`, `End`; `Handlers` the create, update, delete and
poll handlers as methods over a store whose calls may fail. `Protocol` interleaves the same steps, call by call: any
number of handlers and goroutines, each with its own, possibly stale copy. `Lifecycle` says what users may rely on,
as a state machine over events; `Safety` proves that every run of the protocol produces a legal log of them and keeps
the stored entry equal to what the log says; `Theorems` draws the conclusions. `Alone` shows that a thread nothing
interferes with leaves the store as the handler's contract says; `Mishaps` has runs, action by action, that tell users
what is not so. `Spelling` is what becomes of a request's raw JSON on its way through the registry.

**Rendering.** `Template` is a fragment of Go's template language with its evaluator and the rewriting that makes
values come out as JSON; `Rewriting` performs it in place on the parse tree. `Attributes` has the laws of the attributes
users write, in terms of what their parts render to. `Render` is the in-place walk over a
document with arbitrary map iteration order. `Snippets` adds templates that refer to templates, rendered as
documented; `Walks` is about all the outcomes such templates may have when each document is walked.

**Updates.** `MergePatch` is the merge patch of section 2 of RFC 7396 with the recursive diff; `Resources` follows one
resource through creation, updates and outside edits; `Cluster`, `Creation` and `Updater` are the API server and the
methods that create and update resources in it.

**The rest.** `Provisioning` has waiting, readiness and the stepped run; `Singleton` shared ownership under garbage
collection; `Directory` and `Placement` the instance-to-namespace index; `Config` and `Status` the configuration, its
validation and its status.

## What is assumed of the environment

- The Kubernetes API refuses to create a name that exists, and to update a version that is not the stored one;
  versions and uids are never reused. Both API server classes say so. Any call may fail for no reason, changing
  nothing; contracts that promise success ask for a server that is `reliable`. A commit of `Protocol` that lands while
  its reply is lost is a commit followed by `Crash` of the thread that would have gone on; the methods leave it out.
- Operation ids are fresh. The garbage collector decides and acts atomically.
- The JSON encoder and decoder invert each other (`Json.Lawful`); their syntax is immaterial, except where the code
  compares texts: a raw extension of a request is the text the client sent, and what the registry gives back is what
  Go's encoder makes of that text (`Spelling.Compact`): no white space between tokens, markup escaped, all else as it
  was. Such a text is never `null`, which the decoder takes for an absent extension.
- Within `Protocol` one instance's entry stays at one place, and everything else in the store is outsiders' business;
  `Registry.NamesNeverCollide` is why other entries can not interfere. Where an entry is looked for is the subject of
  `Placement`.

## Where the code falls short of what one would expect

Each of these is stated by a lemma, with the exact condition where there is one.

- The loop over an object's attributes leaves the whole loop at the first attribute that resolves to null
  (`pkg/provisioners/template.go:478-481`), while the documentation only promises the removal of that attribute.
  `Render.OrderIsHarmlessWhenSettled` says on exactly which documents this can not be noticed, and
  `Render.TwoNullsLeaveOne` shows the smallest one on which it can.
- A template with an `if` that has no `else` crashes the rewriting: `Template.TransformsIfElseEverywhere`. The crash
  is an error like any other in the model.
- Merging new null attributes loses them: `MergePatch.DiffRoundTrip` has the exact condition.
- Repeating a create verbatim is a conflict exactly if the encoder changes its context or parameters
  (`Lifecycle.VerbatimRepeat`, `Spelling.CleanIsUntouched`), as it does wherever there is markup
  (`Lifecycle.MarkupIsNoRepeat`). Texts are compared, not what they say: one that differs from the first is a conflict,
  even if only its keys come in another order (`Lifecycle.ReorderedIsNoRepeat`).
- A create whose preparation fails leaves its entry behind, and repeating it is answered with success, as it is after a
  provisioning that failed: `Mishaps.UnpreparedIsReady`, `Mishaps.FailedIsReady`. Such an answer means that the
  instance was provisioned exactly if a poll has been told so before: `Lifecycle.ReadyIfReported`.
- The delete handler takes the instance off the directory before its checks, so that from then on until a create lists
  it again, whether the delete is refused or accepted, an instance outside the broker's namespace is looked for in the
  wrong place: `Placement.UnlistedUntilListed`, `Placement.DeleteDelistsFirst`. So it can be for good after a create
  that crosses a delete: `Placement.CrossingMisleads`.
- A run that fails with an error whose text is empty is reported as succeeded: `Lifecycle.TerminalAnswerIsTrue`,
  `Mishaps.SilentFailureSucceeds`.
- The service an update names is never compared with the instance's; any service that offers a suitable plan will do:
  `Handlers.AnyServiceWillDo`.
- Updates go through a binding's templates only, creation through its steps if there are any; what is created from a
  template that only steps name is never updated: `Updater.StepsAreNotUpdated`.
- Template names inside configured steps are not validated: `Config.StepLookups`, `Config.StepsAreNotValidated`.
- An existing singleton of a cluster-wide type is looked for in a namespace, so it can not be joined:
  `Singleton.SharedIfNamespaced`.
- The poll handler's checks for missing keys answer with an error but do not return. `Decisions.OneAnswer` says when a
  poll gets just one answer; in reachable states it gets two exactly if it is well posed and no operation is recorded
  (`Theorems.PollsAnsweredTwice`), as when it asks once more after the end was reported (`Theorems.PolledAfterEnd`).
- An update's new plan id is checked but never stored: `Theorems.StoredEntryShape` holds through updates.
- A create whose templates compute a dashboard address that is no string is answered with a server error although its
  operation runs: `Handlers.HandleCreate`, `Handlers.Provision`.
- Taking away an object from a template deletes everything others have put into it: `Resources.UnmentionedIsSpared`.

## Model

| member | source | states |
|---|---|---|
| Registry.KeyOf | pkg/registry/registry.go:38-76 | keys that differ in name are different keys, so entries can be modelled as maps over keys |
| Registry.KeyAccess | pkg/registry/registry.go:94-183 | templates may write exactly the unreserved keys and read all but the request's and the operation's |
| Registry.HiddenFromTemplates | pkg/registry/registry.go:377-391 | a template's read of the registry fails exactly for the request's and the operation's keys; a missing key reads as null |
| Registry.NamesNeverCollide | pkg/registry/registry.go:211-213 | two secret names are equal exactly if type and identifier are |
| Registry.ApiServer.Create | pkg/registry/registry.go:299-305 | creating lands exactly where no secret is, and a failure changes nothing |
| Registry.ApiServer.Update | pkg/registry/registry.go:291-297 | updating lands exactly on the version sent along, and a failure changes nothing |
| Registry.Entry.New | pkg/registry/registry.go:216-253 | the entry holds what is stored under its name, or nothing and knows so |
| Registry.Entry.Clone | pkg/registry/registry.go:257-263 | the clone reads the same, can not write, and shares no memory with the original |
| Registry.Entry.Inherit | pkg/registry/registry.go:267-279 | every value of the other entry is taken over, overriding the entry's own |
| Registry.Entry.Set | pkg/registry/registry.go:362-375 | one key changes in the local copy and nothing is stored |
| Registry.Entry.SetUser | pkg/registry/registry.go:394-402 | a key that is not writable is refused and leaves the copy alone |
| Registry.Entry.Unset | pkg/registry/registry.go:405-407 | one key disappears from the local copy |
| Registry.Entry.Commit | pkg/registry/registry.go:287-312 | the whole copy lands exactly on the version it was fetched at, or on no secret; else neither store nor copy changes |
| Registry.Entry.Delete | pkg/registry/registry.go:315-329 | deletes by name at whatever version; read-only entries refuse |
| Registry.Entry.GetOwnerReference | pkg/registry/registry.go:411-418 | owners are identified by the secret's name and uid |
| Operation.Start | pkg/operation/operation.go:47-72 | refuses without a trace if the copy records an operation; else operation, id and all local edits land in one commit |
| Operation.Complete | pkg/operation/operation.go:75-99 | records the run's error text in the copy's operation and commits; nothing happens without an operation |
| Operation.End | pkg/operation/operation.go:102-121 | removes operation, id and status in one commit; nothing happens without an operation |
| Operation.KindsDiffer | pkg/operation/operation.go:34-44 | different kinds of operation are stored under different names |
| Decisions.PreparedUnlessReserved | pkg/provisioners/create.go:234-250 | computing registry values succeeds exactly if none that is not null is meant for a reserved key |
| Decisions.OneAnswer | pkg/broker/handlers.go:762-816 | a poll gets one answer exactly if its query is refused outright or the keys are there as far as they are read |
| Handlers.CheckPoll | pkg/broker/handlers.go:762-840 | the checks in their order, each answer exactly under its condition on the stored keys: refused, in progress, unreadable, or terminal with the stored text |
| Decisions.PreparedOverlays | pkg/provisioners/create.go:234-250 | the computed values are laid over the entry's data and touch no reserved key |
| Decisions.WrittenAt | pkg/provisioners/create.go:237-250 | a key is computed exactly if some value for it is not null, and then it is the last such value |
| Decisions.PreparedIsOverlaid | pkg/provisioners/create.go:237-250 | after preparing every key holds the last value for it that is not null, or what it held before if there is none |
| Decisions.NamespaceIsTaken | pkg/broker/util.go:351-379 | the namespace is the string the context gives for it, the broker's own exactly if the context is missing or gives none; anything else is an error |
| Decisions.VerdictMeans | pkg/broker/handlers.go:762-847 | a poll is in progress exactly if the query is right and no status is stored, terminal exactly with a stored text, refused exactly if the query is ill posed or names another operation, service or plan |
| Decisions.ComplaintsCounted | pkg/broker/handlers.go:775-810 | one complaint for each missing key among those read, reading ends at the first key that is no string |
| Decisions.ReplyMeans | pkg/broker/handlers.go:162-291 | a repeated create conflicts exactly if the first comparison that fails finds another value, or an operation other than a provisioning is at work; a missing or malformed value met first is an error |
| Decisions.DeleteMatchesStored | pkg/broker/handlers.go:680-710 | a delete matches exactly if service and plan are stored and are the request's |
| Handlers.PrepareRegistry | pkg/provisioners/create.go:237-250 | succeeds exactly if no value that is not null is meant for a reserved key; every key then holds the last value for it that is not null, and the others what they held |
| Handlers.Register | pkg/broker/handlers.go:294-347 | a new entry is first committed with exactly the six values the request calls for, its namespace being the string the context names or the broker's own; a context naming anything else stores nothing |
| Handlers.Launch | pkg/broker/handlers.go:366-388 | the frozen clone names the operation just started whatever the goroutine has done meanwhile |
| Handlers.LaunchStores | pkg/broker/handlers.go:359-375 | the launched entry holds every computed value and, untouched, the request's six |
| Handlers.DashboardAnswered | pkg/broker/handlers.go:376-406 | the dashboard address answered is the last one computed; it is an error exactly if that is no string |
| Handlers.Provision | pkg/broker/handlers.go:349-406 | the computed values reach the store, all of them, only together with the operation, whose id is answered with the last computed dashboard address, or not at all exactly if that is no string; nothing else in the store changes |
| Handlers.HandleCreate | pkg/broker/handlers.go:108-408 | a known instance is only read, and answered comparison by comparison; a new one that checks out is stored as requested and launched with its computed values when the API is up, and accepted with its dashboard address exactly if that is a string or missing |
| Handlers.AnswerToRepeat | pkg/broker/handlers.go:162-291 | the answer to a create for a known instance, comparison by comparison |
| Handlers.HandleUpdate | pkg/broker/handlers.go:516-634 | a rejected update leaves the store as it was; an accepted one changes this entry only, storing parameters and operation at once, and no new plan |
| Handlers.AnyServiceWillDo | pkg/broker/handlers.go:568-588 | an update's service and plan pass exactly if the service named, whichever it is, offers the plan and lets it change; the instance's own service is immaterial |
| Handlers.HandleDelete | pkg/broker/handlers.go:637-737 | accepted only for the instance's own service and plan and with no operation recorded; a rejected one stores nothing |
| Handlers.HandlePoll | pkg/broker/handlers.go:740-876 | one answer per missing key and then the last one: in progress exactly if the query is right and no status is stored, succeeded or failed only with an empty or that very stored status, refused or unreadable otherwise; the entry changes exactly when the end is reported, by removing just that operation |
| Lifecycle.IdentityAt | pkg/broker/handlers.go:314-342 | what can be read back under the request's keys, in every phase and whatever templates compute |
| Lifecycle.OperationAt | pkg/operation/operation.go:57-121 | operation, id and status in the stored data tell exactly the phase the instance is in |
| Lifecycle.ReplyIsExpected | pkg/broker/handlers.go:162-291 | the answer computed from stored data is the one the instance's history calls for |
| Lifecycle.AtMostOneOperation | pkg/operation/operation.go:47-72 | between two accepted operations the first is ended or the instance removed |
| Lifecycle.OneTerminalAnswer | pkg/broker/handlers.go:842-872 | no operation id gets two terminal poll answers |
| Lifecycle.TerminalAnswerIsTrue | pkg/broker/handlers.go:842-872 | a terminal answer follows the completion of its run, says failed exactly for a non-empty error text, and is never about a deprovisioning |
| Lifecycle.DeprovisionEndsInGone | pkg/provisioners/delete.go:32-36 | a deprovisioning is never reported as ended; Gone is answered only after its removal |
| Lifecycle.RepeatedCreate | pkg/broker/handlers.go:162-292 | until another operation is accepted, a create whose texts equal the stored ones gets the same id, then success after the end; any other conflicts |
| Lifecycle.VerbatimRepeat | pkg/broker/handlers.go:206-241 | a create repeated verbatim conflicts exactly if the encoder changes its context or parameters |
| Lifecycle.CompactedRepeats | pkg/broker/handlers.go:206-241 | texts as the registry gives them back repeat the first request, and themselves |
| Lifecycle.ReorderedIsNoRepeat | pkg/broker/handlers.go:224-241 | of any two different texts the encoder leaves alone, such as the same attributes in another order, neither repeats the other while each repeats itself |
| Lifecycle.MarkupIsNoRepeat | pkg/broker/handlers.go:224-241 | a request with markup anywhere in its parameters or context does not repeat itself |
| Lifecycle.CompletedOnce | pkg/operation/operation.go:75-99 | no operation id is completed twice in a legal log |
| Lifecycle.ReadyIfReported | pkg/broker/handlers.go:246-291 | a repeated create answered with success is about an instance whose provisioning succeeded exactly if a poll was told so since its creation |
| Mishaps.SilentFailureSucceeds | pkg/broker/handlers.go:849-872 | the actions of a run in which a provisioning fails without a text and is reported as succeeded |
| Mishaps.UnpreparedIsReady | pkg/broker/handlers.go:344-353 | the actions of a run in which preparation fails and the repeated create is answered with success |
| Mishaps.FailedIsReady | pkg/broker/handlers.go:246-291 | the actions of a run in which a provisioning is reported as failed and the repeated create is answered with success |
| Spelling.CompactIsIdempotent | pkg/registry/registry.go:362-375 | what the encoder has passed on once it passes on unchanged |
| Spelling.CleanIsUntouched | pkg/registry/registry.go:362-375 | the encoder leaves a text alone exactly if it has no markup and no white space between tokens |
| Spelling.CompactSaysTheSame | pkg/registry/registry.go:362-375 | whatever the encoder does to a JSON text, it says the same: white space between tokens aside, the same characters, spelled out or not |
| Safety.EveryRunIsSafe | pkg/broker/handlers.go:108-876 | in every run the log is legal, the stored entry equals what the log says, and every thread's copy is current or harmlessly stale |
| Theorems.OnlyWorkersWrite | pkg/broker/handlers.go:258-291 | no step of another thread changes the entry while a goroutine owns it |
| Theorems.WorkerOwnsEntry | pkg/operation/operation.go:47-99 | from a committed start until its goroutine is done nothing else changes the stored entry, in any run |
| Theorems.OneGoroutine | pkg/operation/operation.go:47-72 | there are never two goroutines at work on one instance |
| Theorems.CompleteNeverConflicts | pkg/operation/operation.go:75-99 | with the API up, recording the outcome succeeds, and under the id the same goroutine was started for |
| Theorems.CommitsAreAtomic | pkg/broker/handlers.go:344-611 | each step of each run changes the entry by nothing or by exactly one event, so rejected requests leave no trace |
| Theorems.OriginStands | pkg/broker/handlers.go:314-342 | the request and namespace of creation stand until removal |
| Theorems.StoredEntryShape | pkg/registry/registry.go:94-152 | every stored entry of every run has its operation exactly when its id, a status only with it, and service, plan, instance and namespace of its creation |
| Theorems.RunsCarryOneOperation | pkg/operation/operation.go:47-72 | in every interleaving an instance carries at most one operation at a time |
| Theorems.RunsAnswerTruly | pkg/broker/handlers.go:832-874 | in every interleaving a terminal answer is unique, late enough, and repeats how the run went |
| Theorems.PollsAnsweredTwice | pkg/broker/handlers.go:788-816 | in every reachable state a poll gets two answers exactly if it is well posed and no operation is recorded |
| Theorems.PolledAfterEnd | pkg/broker/handlers.go:808-836 | polling again for an operation whose end was reported gets a complaint and a refusal |
| Alone.UpdateAlone | pkg/broker/handlers.go:516-634 | an update thread run alone leaves the store the handler's contract describes |
| Alone.DeleteAlone | pkg/broker/handlers.go:637-737 | so does a delete thread |
| Alone.PollAlone | pkg/broker/handlers.go:740-876 | so does a poll thread, and it puts on record what the handler's last answer says |
| Alone.PollGoneAlone | pkg/broker/handlers.go:749-760 | a poll thread for an instance that is not stored changes nothing |
| Alone.PollsTellThePhase | pkg/broker/handlers.go:762-874 | in every reachable state a right query is told that the operation is in progress exactly while it has not been completed, and how it ended exactly once it has; any other query is refused |
| Alone.CreateKnownAlone | pkg/broker/handlers.go:162-292 | a create thread for a stored instance answers from it and changes nothing |
| Alone.CreateNewAlone | pkg/broker/handlers.go:294-406 | a create thread for a new one registers it, and launches it exactly if its values can be computed |
| Template.TransformsIfElseEverywhere | pkg/provisioners/template.go:394-399 | the rewriting survives exactly the trees in which every `if` has an `else` |
| Template.TransformFaithful | pkg/provisioners/template.go:377-406 | the rewritten tree takes the same branches, binds the same variables and shows the encoding of each value shown before |
| Template.NodeFaithful | pkg/provisioners/template.go:382-404 | the same for one node; nested pipelines keep raw values |
| Template.OneValueRoundTrip | pkg/provisioners/template.go:410-460 | a template displaying one value renders to exactly that value with its type |
| Template.FailureIsReported | pkg/provisioners/template.go:440-451 | a template whose evaluation fails, or that crashes the rewriting, does not render |
| Attributes.StringsWithoutBraces | pkg/provisioners/template.go:410-419 | a string that does not start with two braces is itself; one that does and does not end with two is an error |
| Attributes.DefaultOfArgument | pkg/provisioners/template.go:311-321 | `default d x` renders as `x` does if that is not null, and as `d` does otherwise |
| Attributes.DefaultOfPipeline | pkg/provisioners/template.go:311-321 | so does a pipeline that ends in `default d`, with its own value for `x` |
| Attributes.RequiredArgument | pkg/provisioners/template.go:302-308 | `required x` fails exactly if `x` fails or is null, and renders as `x` does otherwise |
| Attributes.RequiredPipeline | pkg/provisioners/template.go:302-308 | so does a pipeline that ends in `required` |
| Attributes.ListOfArguments | pkg/provisioners/template.go:165-167 | `list` renders to the list of what its arguments render to, in order, and fails exactly if one of them does |
| Attributes.JsonOfArgument | pkg/provisioners/template.go:341-354 | `json x` renders to a string that decodes to what `x` renders to |
| Attributes.OtherFunctions | pkg/provisioners/template.go:422-438 | any other function is asked with what its arguments render to, in order |
| Attributes.LiteralsAndDot | pkg/provisioners/template.go:447-449 | a literal renders to itself, and the outermost variable to dot |
| Attributes.FieldsAreFollowed | pkg/provisioners/template.go:447-449 | a chain of fields renders to what following it from dot leads to, to null if that is nothing, and fails exactly if it leads through something that is no object |
| Attributes.NoDotNoFields | pkg/provisioners/template.go:447-449 | without a dot every chain of fields renders to null |
| Attributes.IfTakesBranch | pkg/provisioners/template.go:447-449 | an `if` renders as its first branch does exactly if its condition renders to something else than null, false, zero or empty, and as its second otherwise |
| Attributes.TextStaysAround | pkg/provisioners/template.go:446-459 | text stands where it is written around the JSON of what is shown, and the template renders to what they make together |
| Attributes.BranchesKeepAssignments | pkg/provisioners/template.go:447-449 | a branch keeps what it assigns to a variable and drops what it declares |
| Rewriting.TransformActions | pkg/provisioners/template.go:382-399 | rewriting one node in place leaves the tree the pure rewriting describes, or crashes exactly when that has no answer |
| Rewriting.TransformAll | pkg/provisioners/template.go:400-403 | the same for a list of nodes sharing none |
| Render.RecurseRender | pkg/provisioners/template.go:467-504 | whatever order the maps are walked in, the result is one of the walks `Walked` allows |
| Render.RenderedAt | pkg/provisioners/template.go:467-504 | in the documented rendering, wherever nothing on the way is removed, a string stands rendered, a list keeps its length, an object loses exactly the attributes that resolve to null, and anything else is what it was |
| Render.FailureIsOfAString | pkg/provisioners/template.go:467-504 | it fails exactly if some string of the document does |
| Render.WalkFailsAtAString | pkg/provisioners/template.go:467-504 | a walk fails with the error of a string in the document |
| Render.WalkShape | pkg/provisioners/template.go:471-484 | a walk removes at most one attribute of an object, only one resolving to null; others are rendered or untouched |
| Render.OrderIsHarmlessWhenSettled | pkg/provisioners/template.go:467-504 | all walks agree with the documented rendering exactly on settled documents |
| Render.UnsettledWalkDiffers | pkg/provisioners/template.go:478-481 | on any other document there is a walk that is not the documented rendering |
| Render.TwoNullsLeaveOne | pkg/provisioners/template.go:478-481 | an object with two nulls keeps one of them on every walk shown, against the documentation |
| Render.NullFreeRendersAsDocumented | pkg/provisioners/template.go:467-504 | without attributes resolving to null every walk is the documented rendering; nulls in lists are kept |
| Snippets.RenderingEnds | pkg/provisioners/template.go:102-126 | the documented rendering of acyclic references needs no more nesting than the template's rank |
| Snippets.SnippetIsTemplate | pkg/provisioners/template.go:102-126 | in the documented rendering a string that is a snippet reference renders as that template does |
| Snippets.SnippetInlines | pkg/provisioners/template.go:102-126 | in the documented rendering it is as if the referenced document stood in its place |
| Snippets.RenderedInObject | pkg/provisioners/template.go:471-484 | values that render the same can stand for one another in an object |
| Snippets.ElementPerParameter | pkg/provisioners/template.go:130-162 | the array snippet succeeds exactly if its template is defined, even for no parameters, and renders for each; it then gives one element per parameter, in order |
| Snippets.CycleNeverEnds | pkg/provisioners/template.go:102-126 | no template on a cycle of references, of any length and anywhere in the documents, is ever rendered successfully as documented |
| Walks.RenderingEnds | pkg/provisioners/template.go:102-162 | with acyclic references the possible outcomes of walking a template and all it refers to do not depend on the depth beyond its rank |
| Walks.SnippetIsTemplate | pkg/provisioners/template.go:102-126 | a snippet reference may resolve to exactly what its template may render to, and fail exactly if that may |
| Walks.SnippetInlines | pkg/provisioners/template.go:102-126 | its outcomes are those of walking the referenced document in its place |
| Walks.ElementPerParameter | pkg/provisioners/template.go:130-162 | the array snippet may give exactly the lists of one outcome per parameter, and may fail exactly if the template is missing, even for no parameters, or may fail for one |
| Walks.CycleNeverEnds | pkg/provisioners/template.go:102-126 | where templates are bare references to one another in a cycle of any length, what they may render to is what is assumed beyond the given depth |
| Walks.SomeRendering | pkg/provisioners/template.go:467-504 | every template has some outcome at every depth |
| Walks.WalkedMay | pkg/provisioners/template.go:467-504 | what the renderer's loops give is one of these outcomes |
| Snippets.RenderTemplate | pkg/provisioners/util.go:68-101 | a clone is rendered; the shared template stays as it is |
| Snippets.SnippetArray | pkg/provisioners/template.go:130-162 | the loop renders the template once per parameter and stops at the first failure |
| MergePatch.DiffRoundTrip | pkg/provisioners/update.go:190-206 | patching the original with the diff yields the new rendering exactly if each of its null attributes was there before |
| MergePatch.NullFreeInherits | pkg/provisioners/update.go:190-206 | so it does for every rendering without null attributes |
| MergePatch.MergeShowsChanges | pkg/provisioners/update.go:190-206 | where the renderings differ the merged object shows the new value |
| MergePatch.KeepsExactlySpared | pkg/provisioners/update.go:190-206 | a patch leaves the live value at a path alone, whatever the object, exactly if it replaces and deletes neither it nor anything around it |
| MergePatch.MergeKeepsLive | pkg/provisioners/update.go:190-206 | so the live value stays at and below every attribute on which the two renderings agree |
| Resources.CreationAnnotates | pkg/provisioners/create.go:84-110 | a created object is its rendering, annotated with itself and owned, and otherwise unchanged |
| Resources.DressedIfRoom | pkg/provisioners/create.go:84-110 | a rendering can be created exactly if it is an object whose metadata, if any, is one and whose annotations, if any, are strings |
| Resources.SetNestedIfOpen | pkg/provisioners/update.go:214-219 | a nested update succeeds exactly if nothing that is no object is in its way |
| Resources.AnnotateFrames | pkg/provisioners/update.go:214-219 | writing the annotation leaves all other attributes alone |
| Resources.MergedIsAnnotated | pkg/provisioners/update.go:184-223 | even a patch that deletes all annotations ends with the new rendering as annotation |
| Resources.AnnotationIsLastRendering | pkg/provisioners/update.go:148-223 | through any updates and edits the annotation is the rendering last committed |
| Resources.LiveIsLastRendering | pkg/provisioners/update.go:148-223 | without outside edits the live object is the last rendering, but for annotation and owners |
| Resources.EditSurvivesUpdates | pkg/provisioners/update.go:169-212 | what others put at a path outlives any updates whose patches spare it, and edits elsewhere in between |
| Resources.UnmentionedIsSpared | pkg/provisioners/update.go:169-212 | an update spares a path neither rendering mentions exactly if it takes no object away on the way to it |
| Creation.Join | pkg/provisioners/create.go:145-196 | the entry is appended to the owners over the version fetched, or nothing changes |
| Creation.CreateResource | pkg/provisioners/create.go:69-202 | with the API up a rendering that has a place and room for its annotation is created where nothing is there yet; success means created from the rendering, or joined as a singleton; cluster-wide singletons can only be created |
| Creation.CreatedShowsRendering | pkg/provisioners/create.go:84-110 | the created object shows its rendering, carries it as annotation and has one owner, of the entry's name and uid |
| Cluster.LocateMeans | pkg/provisioners/create.go:112-140 | an object belongs under its own type and name, in no namespace if the type is cluster-wide, else in its own namespace if it names one, else in the entry's |
| Updater.Updater.Prepare | pkg/provisioners/update.go:60-227 | plans, for the templates of the list, steps apart, the write of every one whose rendering has changed and no other, each from the cluster as others left it by then, and changes nothing itself; it stops exactly at a template that is neither up to date nor can be merged |
| Updater.PlannedExactly | pkg/provisioners/update.go:89-223 | a template asks for no write exactly if it is a singleton or its annotation decodes to the new rendering, for a write exactly if they differ and the merge is possible, and then for the patched object at the version patched; anything else is an error |
| Updater.ChangedIsWritten | pkg/provisioners/update.go:169-223 | where a live object carries an annotation, there is nothing to write exactly for a singleton or an unchanged rendering, and a possible merge of a changed one is written |
| Updater.PlanAccounts | pkg/provisioners/update.go:89-223 | a successful plan accounts for every listed template and holds nothing else |
| Updater.Updater.Run | pkg/provisioners/update.go:230-258 | applies a prefix of the planned writes, all of them exactly if it succeeds |
| Updater.PlanStops | pkg/provisioners/update.go:89-223 | one template that can not be merged rejects the whole update |
| Updater.LandingWritesDiffer | pkg/provisioners/update.go:236-255 | whatever others do between the writes, writes that all land are of different objects |
| Updater.UpdateLands | pkg/provisioners/update.go:60-258 | whatever others do between all reads and writes, each changed resource is written over the very object it was merged from, becomes that merge, is annotated, and is written once |
| Updater.UpdateTouchesOnlyItsTargets | pkg/provisioners/update.go:236-255 | with nobody else at work no other object changes |
| Updater.PlannedForTemplates | pkg/provisioners/update.go:104-107 | every planned write is of a template that is no singleton |
| Updater.StepsAreNotUpdated | pkg/provisioners/update.go:89-223 | no planned write is of a template that only the steps name |
| Provisioning.WaitFor | pkg/util/wait.go:37-53 | succeeds exactly if a probe in time does, and then the last probe is that one |
| Provisioning.ConditionReady | pkg/provisioners/readiness.go:62-142 | ready exactly if the first condition that says it is of the type has the status, and all before it say they are of others |
| Provisioning.Run | pkg/provisioners/create.go:293-311 | the trace is a prefix of the plan, and the run succeeds exactly if the whole plan was performed and all of it succeeded |
| Provisioning.PlanIsComplete | pkg/provisioners/create.go:293-311 | the plan is everything the steps list and nothing else: step by step the templates in order, then the checks in order |
| Provisioning.ChecksComeFirst | pkg/provisioners/create.go:293-311 | in the plan every check of a step precedes everything of a later step |
| Provisioning.BarriersHold | pkg/provisioners/create.go:293-311 | nothing of a step is attempted before every check of all earlier steps was awaited and succeeded |
| Singleton.OwnersAreKept | pkg/provisioners/create.go:141-196 | through any interleaving the owners contain every live entry whose provisioning succeeded |
| Singleton.CollectedWhenAbandoned | pkg/registry/registry.go:411-418 | the collector takes the resource only after the last such entry is gone |
| Singleton.SharedIfNamespaced | pkg/provisioners/create.go:152-196 | some run has two entries share a singleton exactly if its type is namespaced |
| Directory.Directory.Commit | pkg/registry/directory.go:94-115 | the local copy lands on the version it was fetched at, or where there was none |
| Directory.Directory.Add | pkg/registry/directory.go:119-132 | the instance is listed in the stored directory, overwriting its entry, and no other is touched |
| Directory.Directory.Lookup | pkg/registry/directory.go:135-151 | the listed namespace, or an error for a missing or malformed entry |
| Directory.Directory.Remove | pkg/registry/directory.go:154-166 | only a listed instance can be taken off |
| Directory.RegisterInstance | pkg/broker/util.go:384-419 | afterwards the instance is listed at and resolves to the namespace its scope calls for, the context's string or the broker's own under an instance-local one; refused exactly without a binding or, under such a scope, for a context naming no string |
| Directory.ScopeDecides | pkg/broker/util.go:392-407 | the namespace listed is the broker's, the binding's or the one the context names, as the binding's scope has it; only the last can be an error |
| Directory.ResolvesTo | pkg/registry/directory.go:135-151 | a listed string namespace is where the instance is looked for; an entry that does not decode counts as missing |
| Directory.GetInstance | pkg/broker/util.go:425-441 | never fails: the broker's namespace stands in for anything that goes wrong |
| Directory.DeleteInstance | pkg/broker/util.go:445-452 | the instance is off the directory and resolves to the broker's namespace, or nothing changed |
| Placement.BrokerLocalNeedsNoDirectory | pkg/broker/util.go:392-395 | with broker-local bindings every handler in every interleaving uses the broker's namespace, listed or not |
| Placement.StaleCopiesDoNotLand | pkg/registry/directory.go:94-115 | a thread changes the directory only over the version it fetched, or creates it if it found none |
| Placement.DirectoryAgrees | pkg/broker/util.go:384-452 | with one home and no create crossing a delete, every idle stored instance is looked for where it is exactly if that is the broker's namespace or no delete was refused since it was last listed, in every interleaving |
| Placement.DirectoryAgreesApart | pkg/broker/util.go:384-452 | in particular if no create handler is at work while a delete handler is |
| Placement.CrossingMisleads | pkg/broker/handlers.go:148-155 | a run in which a create crosses a delete and the instance ends up stored and looked for elsewhere |
| Placement.UnlistedUntilListed | pkg/broker/handlers.go:652-666 | in every interleaving, from the moment a delete takes an instance off the directory until a create lists it again, the stored instance is looked for where it is exactly if that is the broker's namespace |
| Placement.DeleteDelistsFirst | pkg/broker/handlers.go:652-666 | a delete that nothing interferes with takes a listed instance off the directory even if it is then refused, and leaves it stored |
| Config.ValidMeansSound | pkg/config/validation.go:51-107 | validation accepts exactly the configurations in which every plan has a binding, the first of which has binding templates exactly if the plan is bindable, and every binding does something and names templates that exist |
| Config.FaultIsReal | pkg/config/validation.go:51-107 | the fault validation complains of is one the configuration has, of the offering, plan, binding and template it names |
| Config.TemplateFound | pkg/config/validation.go:39-47 | a template is found exactly if one has that name |
| Config.BindingFound | pkg/config/validation.go:28-36 | a binding is found exactly if there is one for that service and plan |
| Config.AcceptedIfOffered | pkg/broker/util.go:183-231 | a service and plan are accepted exactly if the first offering with that id has a plan with that one |
| Config.BindingStandsFor | pkg/apis/servicebroker/v1alpha1/helpers.go:22-53 | the templates of a request are those of the first binding for the names of the first such offering and plan |
| Config.FirstTemplateFound | pkg/config/validation.go:39-47 | of several templates with a name the first is found |
| Config.ValidatedLookupsSucceed | pkg/apis/servicebroker/v1alpha1/helpers.go:22-53 | under a validated configuration every accepted plan has a binding, bindable exactly if it has binding templates, and all listed templates exist |
| Config.LookUpSteps | pkg/provisioners/create.go:255-285 | the lookup loops find the templates of each step in order, or stop at the first name there is none for |
| Config.StepsCollected | pkg/provisioners/create.go:263-275 | they succeed exactly if a template is defined for every name, and then give templates of those names |
| Config.Collected | pkg/provisioners/create.go:269-275 | the name reported is the first in its step that is not defined |
| Config.StepLookups | pkg/provisioners/create.go:255-285 | under a validated configuration they succeed exactly if every name in configured steps, if there are any, is that of a template |
| Config.StepsAreNotValidated | pkg/config/validation.go:73-104 | a validated configuration on which creation stops at a missing template |
| Status.UpdateStatus | pkg/config/config.go:229-282 | returns validation's verdict and asks for a write exactly if the status differs from it |
| Status.VerdictIsTrue | pkg/config/config.go:229-250 | the status says valid, for that reason and without a message, exactly if the configuration is sound |
| Status.FirstIsRecorded | pkg/config/config.go:239-249 | of several validity conditions the first is taken for what was recorded |
| Status.OneWriteSettles | pkg/config/config.go:250-282 | after one write there is nothing to write at any later time |
| Status.TransitionIsLastFlip | pkg/config/config.go:235-259 | through any history and from any status the transition time is when validity last flipped, or the first status's own if it never did, and the rest is current |
| Status.Configuration.CreateHandler | pkg/config/config.go:73-109 | serves the new configuration exactly if it is valid; other names are ignored |
| Status.Configuration.UpdateHandler | pkg/config/config.go:113-150 | serves the updated configuration exactly if it is valid |
| Status.Configuration.DeleteHandler | pkg/config/config.go:154-171 | serves nothing after a deletion of its name |
| Status.ServedIsLatestValid | pkg/config/config.go:73-171 | a configuration is served exactly if the latest event for its name was a creation or update of a sound one |

## Left out

- Template.TransformFaithful: covers text, actions and `if`; `with` and `range` nodes are not rewritten by the broker and are not in the syntax.
- Snippets.SnippetInlines: with no dot of its own; a snippet's template sees no dot, so under an array snippet the two differ.
- Snippets.RenderingEnds: speaks of the documented rendering of each document; the walks are the subject of `Walks.RenderingEnds`.
- Snippets.SnippetIsTemplate: as before; see `Walks.SnippetIsTemplate`.
- Snippets.ElementPerParameter: an attribute that is present and null, handed straight from the dot to `snippetArray`, is an error in Go and an empty list here; an absent one is an empty list in both.
- Walks.RenderingEnds: within one string, calls with the same arguments answer the same.
- MergePatch.DiffRoundTrip: the json-patch library is not part of this model; apply and diff follow RFC 7396.
- Updater.UpdateLands: resource versions are kept beside the object, so renderings that set `metadata.resourceVersion` are not covered.
- Updater.Updater.Prepare: what the updater holds after a failed preparation is not stated; it is thrown away.
- Handlers.HandleCreate: the directory is separate (`Directory.RegisterInstance`); schema validation and rendering are an outcome given from outside.
- Handlers.HandleUpdate: parameters are validated against the schema of the old plan in the code; the schema check is an outcome given from outside.
- Singleton.OwnersAreKept: nothing is claimed about a resource that outsiders removed.
- Provisioning.WaitFor: time is the number of ticks before the deadline is noticed.
- Service bindings: creation, deletion and their inheritance of the instance's keys are not modelled beyond `Entry.Inherit`.
- The read handler, catalog, login, authorisation, HTTP status codes and headers: plumbing.
- `Ready` in pkg/provisioners/readiness.go has no caller among the handlers.
- Passwords, pet names, keys, certificates, `parameter` and string case functions are answers of `Env.call`.
- Template parsing, JSON syntax, number formats and JSON schemas.
- Liveness: a failed delete or a failed `Complete` leaves the operation recorded for good.
- The key policies do not list the binding id, which the documentation calls read-only; the model has it as any other name.
- A panic in a handler is an error answer in the model.
- Clocks, retries of the informer and its resynchronisation are events like any other.
