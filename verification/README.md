# lightpod, verified

Dafny models of the parts of lightpod, a daemonless container runtime, whose logic can be
closed off from the kernel, with proofs about them. `dafny verify dfyconfig.toml` checks
the whole project.

| module | models | source |
|---|---|---|
| `Bpf` | the classic BPF machine that runs filters, and the kernel's reading of a verdict | `pkg/security/seccomp.go:12-54`, seccomp(2) |
| `Seccomp`, `SeccompEdits` | the profile compiler, the profile's own meaning, profile edits | `pkg/security/seccomp.go:79-170` |
| `Paths` | path components, lexical cleaning, `IsWithin` | `pkg/oci/load.go:84-94` |
| `SecureJoin` | `secureJoin` over any static file tree, and a plain resolver to compare it with | `pkg/runtime/fs.go:490-551` |
| `Handshake`, `HandshakeInvariant`, `HandshakeTheorems`, `HandshakeOutcomes` | create, init and start as one interleaved step relation | `pkg/runtime/container.go:112-327`, `pkg/runtime/init.go:25-215` |
| `Sync` | the two ends of the handshake socket | `pkg/runtime/sync.go:35-83` |
| `Store`, `StoreReads`, `StoreClaims` | the state store, one file operation at a time | `pkg/state/store.go:65-156`, `pkg/state/store.go:183-194` |
| `Lifecycle` | status reconciliation and the verbs over it | `pkg/state/store.go:123-156`, `pkg/runtime/container.go:294-404` |
| `CapMask`, `Capabilities` | capability masks and the reduction, against capabilities(7) | `pkg/security/capabilities.go:104-232` |
| `CgroupPaths`, `Cgroups`, `CpuWeight` | cgroup paths, controller delegation against the cgroup v2 "Top-down Constraint", weight scaling | `pkg/runtime/cgroups.go:54-171`, `pkg/runtime/cgroups.go:284-323`, `pkg/runtime/cgroups.go:429-443` |
| `Device` | the device number coding | `pkg/device/devices.go:14-37` |

Some choices that hold throughout. A compiled-in table (system call numbers, capability
names, the audit architecture, the record schema) is a parameter, so results hold for every
table. A path is its sequence of components; `Paths.Split` and `Paths.Render` go between
that and strings. The protocol, the store and the lifecycle are step relations, because what
they promise is about interleavings: a theorem about every reachable state quantifies over
every schedule, every failing step and every death. The kernel appears only as stated
models: `Bpf.Run` and `Bpf.Decode`, `SecureJoin.Lstat` on a tree, the methods of
`Capabilities.Task` and of `Cgroups.Hierarchy`. Those are assumptions about the environment,
so the table below has no rows for them.

## What the proofs found

Where a promise is false of the code, the exact condition under which it is true is proved.

- `Create` can be left waiting for ever exactly when the encoded config does not fit the pipe
  or a child can die without a report (`HandshakeTheorems.DeadlockFreeExact` with `closesCopy`
  false, as it is in the program). The comment at `pkg/runtime/sync.go:62-64` expects an end of
  file when the other side dies, but the parent keeps its own copy of the child's end open
  until `Create` returns (`pkg/runtime/container.go:166-167`), so it sees none
  (`HandshakeTheorems.NoEndOfFile`). A parent that closed that copy after the clone would be
  told of every silent death and never wait for one; only the size of the config would matter
  (the same theorem with `closesCopy` true). The config is written
  (`pkg/runtime/container.go:209`) before the parent listens and is read only in stage 2, so
  when nothing fails one that is larger than the pipe always ends with the parent writing and
  the child waiting for ever (`HandshakeTheorems.OversizedBlocksForever`).
- `secureJoin` treats a link target as a component-by-component lookup would, in every tree,
  exactly when its `..` all come first (`SecureJoin.SafeTargetExact`): `filepath.Join` at
  `pkg/runtime/fs.go:538-543` collapses `name/..` without looking at `name`. Containment holds
  either way. That lookup, `SecureJoin.Resolve`, follows section 4.13 of POSIX.1-2017 but for
  one thing it shares with the code: it passes through a name that is a file, so that "f/.."
  and "f/x" are no ENOTDIR.
- The counter named for symlinks counts every component, so 33 is the limit on both together.
  `SecureJoin.Resolve` counts as the loop does: one step for every component walked, link or
  not; none for the empty and "." components of a target and the leading ".." of an absolute
  one, which cleaning removes; and one for a target that cleans to "." with nothing behind it.
- `IsWithin("/", p)` holds only for `p = "/"` (`Paths.IsWithinExact`), so with that root
  `secureJoin` refuses every existing path but the root (`SecureJoin.SlashRefusesExisting`),
  and every custom cgroup path is refused.
- Two creates of one id can both succeed without a delete between them exactly when the
  binaries in use differ in record schema (`StoreClaims.UniqueClaimsExact`):
  `pkg/state/store.go:88` takes every error from `Load`, a newer schema included, to mean that
  the id is free.
- The save at the end of `Run` marks whatever record it finds as stopped
  (`pkg/runtime/container.go:352-356`). That keeps the store truthful exactly when `Load` shows
  it no record, a stopped one, or one in `creating` whose child is dead
  (`Lifecycle.NextKeepsTruth`). Over every run, a living container is shown as stopped, and its
  record dropped by an unforced delete, exactly when such a late save is behind it
  (`Lifecycle.StoppedViewExact`, `Lifecycle.UnforcedDeleteExact`);
  `Lifecycle.LateRunLosesLiveContainer` is a run in which it happens. The shown status moves
  only forward all the same (`Lifecycle.StatusMonotone`).
- `Kill` on a record still in `creating` gets pid 0 (`Lifecycle.KillTargetExact`).
- A successful `ApplyCapabilities`, asked only for what the kernel has, is exact just when its
  idea of the last capability overlooks nothing: nothing above it is held unasked in the
  bounding set or asked for as ambient. So it is always exact when that idea is the kernel's
  (`Capabilities.ApplyCapabilities`), and with the fallback at
  `pkg/security/capabilities.go:277` on a newer kernel it need not be
  (`Capabilities.FallbackKeepsNewer`).
- `sharesToWeight` is monotone from 2 up to a bound exactly when the product does not overflow
  there; 1 wraps round to the highest weight and the lower clamp never fires
  (`CpuWeight.MonotoneExact`).
- `enableControllers` writes the root's `subtree_control` twice when the leaf lies directly
  below the root, because `filepath.Rel` then answers "." (`Cgroups.EnableControllers`).

## Model

| member | source | states |
|---|---|---|
| Bpf.WellFormedReturns | pkg/security/syscall_linux.go:85-118 | a program that meets the kernel's rules returns a verdict from every instruction, never falls off the end, and does so within as many steps as instructions are left |
| Seccomp.ActionSurvivesEncoding | pkg/security/seccomp.go:144-170 | only empty and unknown actions are errors; every other action's word is read back by the kernel as that action, and no `errnoRet` can reach the action bits |
| Seccomp.FirstRule | pkg/security/seccomp.go:112-133 | the first rule in profile order one of whose names has the given number, by number and not by name |
| Seccomp.EmitPrologue | pkg/security/seccomp.go:91-110 | the filter begins with the pin to one architecture and, where there is one, the x32 guard |
| Seccomp.EmitNames | pkg/security/seccomp.go:121-132 | the inner loop appends one comparison and one return per name that exists here, skipping the others |
| Seccomp.EmitRules | pkg/security/seccomp.go:112-133 | the outer loop stops at the first rule at fault and otherwise appends all rules in order |
| Seccomp.CompileSeccomp | pkg/security/seccomp.go:79-142 | accepts exactly when the architecture is supported, the default action and every rule are sound and the names found here leave the filter within 4096 instructions; each refusal says the first thing wrong; an accepted filter is well-formed, of the expected length (which fits 16 bits) and judges every system call as the profile means |
| Seccomp.HitsCounted | pkg/security/seccomp.go:121-132 | the instructions emitted count the places in the profile whose name exists here |
| Seccomp.RuleFaultExact | pkg/security/seccomp.go:112-120 | the fault found in a rule list is that of its first unsound rule, of the right kind |
| Seccomp.FaultExact | pkg/security/seccomp.go:80-140 | a profile has no fault exactly when it is acceptable, and its fault explains why not |
| Seccomp.OneExplanation | pkg/security/seccomp.go:80-140 | no two errors explain one profile, and none explains an acceptable one |
| Seccomp.EmittedIsWellFormed | pkg/security/seccomp.go:97-141 | every filter within the limit has only forward in-range jumps of at most 1, ends in a return, and has length 5 (7 with the x32 guard) plus two per resolved name |
| Seccomp.RuleDecisionsHit | pkg/security/seccomp.go:112-133 | the flat list of comparisons answers a number with the action of the first covering rule |
| Seccomp.BodyRuns | pkg/security/seccomp.go:128-135 | execution from any comparison returns the first later match, or the default |
| Seccomp.PrologueRuns | pkg/security/seccomp.go:97-110 | a foreign architecture, or an x32 number when guarded, is killed before any rule is looked at; nothing else is |
| Seccomp.FilterReturns | pkg/security/seccomp.go:89-135 | past the prologue the whole filter returns the first covering rule's word, or the default's |
| Seccomp.CompilerCorrect | pkg/security/seccomp.go:79-170 | for every accepted profile, architecture and number the compiled filter's verdict is the profile's meaning |
| SeccompEdits.NoFaultMeansSound | pkg/security/seccomp.go:112-120 | from any rule on, the list has no fault exactly when no rule has arguments or a bad action |
| SeccompEdits.DeletingRedundantName | pkg/security/seccomp.go:121-132 | deleting a name that does not exist here, or whose number an earlier rule or the same rule already decides, keeps the profile accepted and every verdict unchanged |
| SeccompEdits.SwappingNeighbours | pkg/security/seccomp.go:112-133 | swapping adjacent rules changes no verdict exactly when they act alike on every number that both match and nothing earlier decides |
| Paths.CleanShape | pkg/runtime/fs.go:499 | a cleaned path is `..` components followed by names, and names only when rooted |
| Paths.CleanIsSurvivors | pkg/runtime/fs.go:499 | rooted, cleaning leaves exactly the names that nothing after them climbs above, in order |
| Paths.CleanKeepsRise | pkg/runtime/fs.go:538-543 | not rooted, it puts one `..` for each level the path rises in front of those |
| Paths.CleanCancels | pkg/runtime/fs.go:499 | a name and the `..` after it cancel wherever they are |
| Paths.CleanSkips | pkg/runtime/fs.go:499 | empty components and "." count for nothing |
| Paths.CleanBelow | pkg/runtime/cgroups.go:68 | from a clean directory a path goes up as far as it rises, or to the root, and then down what survives |
| Paths.JoinedSplit | pkg/runtime/fs.go:506-508 | splitting at slashes loses nothing |
| Paths.CleanRendered | pkg/oci/load.go:84-94 | the string of a clean path splits and cleans back to it |
| Paths.RenderPrefix | pkg/oci/load.go:93 | a path string begins with another and a slash exactly when its components properly extend the other's |
| Paths.IsWithinExact | pkg/oci/load.go:84-94 | the string test is component-wise containment, except that "/" contains only itself |
| SecureJoin.JoinRestWalkable | pkg/runtime/fs.go:538-544 | after following a link what is left to walk is again `..` components followed by names |
| SecureJoin.Advance | pkg/runtime/fs.go:506-544 | one component of the walk never asks the kernel about a path through a link, keeps the current directory real and at or below the root, and at a missing entry leaves only names to append |
| SecureJoin.ArrivalContained | pkg/runtime/fs.go:522-528 | the early return for a missing entry is contained |
| SecureJoin.WalkComponent | pkg/runtime/fs.go:506-544 | the body of the loop is one component of the walk, and its early return is contained |
| SecureJoin.WalkLoop | pkg/runtime/fs.go:498-551 | the loop is the specified walk for any depth limit, its result is contained, and it fails with an escape only for the root "/" |
| SecureJoin.SecureJoin | pkg/runtime/fs.go:495-551 | for every tree, link graph and path, success means at or below the root, no `..`, and no existing prefix below the root a symlink |
| SecureJoin.Start | pkg/runtime/fs.go:498-499 | the walk begins at the root with the surviving names of the path |
| SecureJoin.StartCancels | pkg/runtime/fs.go:499 | a path with "x/.." anywhere in it is walked like the path without |
| SecureJoin.LinkFollowed | pkg/runtime/fs.go:534-544 | an absolute target starts again at the root, any other where the link is, with what survives of the target and the rest to walk |
| SecureJoin.WalkWithoutLinks | pkg/runtime/fs.go:501-550 | where there are no links the answer is the path itself below the root, unless all of the first components the limit allows exist and there are more |
| SecureJoin.JoinRestIsExpand | pkg/runtime/fs.go:538-544 | for a target with its `..` in front, lexical joining is substituting the target's components |
| SecureJoin.WalkRefinesResolve | pkg/runtime/fs.go:501-545 | when all links are of that kind, the walk equals a chroot-style pathname resolution at every budget |
| SecureJoin.SecureJoinRefines | pkg/runtime/fs.go:495-551 | then a root other than "/" gives an error exactly when that resolution takes more than 33 steps, and its result otherwise |
| SecureJoin.SafeTargetExact | pkg/runtime/fs.go:534-544 | a link target agrees with real resolution in every tree exactly when its `..` are all in front |
| SecureJoin.CycleRefused | pkg/runtime/fs.go:501-504 | a walk that comes back to a configuration it was in ends in an error at any budget |
| SecureJoin.GrowingCycleRefused | pkg/runtime/fs.go:501-545 | so does every path that begins with a symlink cycle, even one that leaves more to walk each time round |
| SecureJoin.SelfLinkRefused | pkg/runtime/fs.go:534-544 | a link through itself, like a -> a/b, is refused whatever follows it |
| SecureJoin.SlashRefusesExisting | pkg/runtime/fs.go:547-550 | with the root "/" the only existing path that is ever answered is "/" |
| HandshakeInvariant.StepKeepsInv | pkg/runtime/container.go:118-292 | every step of parent, child and starter, failing or not, keeps the coupling of the two sides, the config bytes, the order of events and the bookkeeping |
| HandshakeInvariant.RunKeepsInv | pkg/runtime/container.go:118-292 | so they hold after every schedule |
| HandshakeTheorems.ChannelDiscipline | pkg/runtime/sync.go:41-81 | at most one message is in flight, no decoder holds one back, so the re-exec loses none, and neither side ever takes the unexpected-message branch |
| HandshakeTheorems.RunOrdering | pkg/runtime/init.go:68-215 | in every run id maps, cgroup, limits, mounts, prestart, createRuntime and createContainer hooks, pivot, rendezvous, startContainer hooks, capabilities, no_new_privs, seccomp and exec happen in that order without gaps, and nothing from the rendezvous on without a start |
| HandshakeOutcomes.ConfigBeforeMounts | pkg/runtime/init.go:49-85 | in every run the whole config has been written and read before the first mount |
| HandshakeOutcomes.RunStaysSmooth | pkg/runtime/container.go:118-292 | on a free id, as long as no step fails, `Create` never rolls back or gives up |
| HandshakeOutcomes.CreateSucceeds | pkg/runtime/container.go:278-292 | with a config that fits, where such a run comes to rest before a start, `Create` has returned nil, the record says created, the leaf is there and the child waits at the FIFO with exactly the first eight events behind it |
| HandshakeOutcomes.StartReleases | pkg/runtime/container.go:305-315 | a start that meets a parked container releases it, and itself |
| HandshakeOutcomes.RunFinishes | pkg/runtime/init.go:68-215 | where such a run can go no further at all, all seventeen events have happened in their order up to the user's exec, the start is done and the record says running |
| HandshakeOutcomes.EveryRunCanFinish | pkg/runtime/container.go:118-327 | every such run can be continued to that end |
| HandshakeOutcomes.FailureIsFatal | pkg/runtime/init.go:68-215 | in any run, once a step of the parent, or one of the child before procReady, has failed, `Create` never succeeds; and once any step of either has failed the user's command is never run |
| HandshakeOutcomes.HookFailureTold | pkg/runtime/container.go:259-266 | a failed hook is reported to the child, which is waiting to hear of the hooks if it is there at all, before the rollback |
| HandshakeOutcomes.HookFailureHeard | pkg/runtime/init.go:61-94 | a child that hears of it reports the error in turn and ends |
| HandshakeTheorems.CreateAllOrNothing | pkg/runtime/container.go:130-139 | when `Create` returns on a free id there is a set-up container with its record and leaf, or no record, no live child and no leaf |
| HandshakeTheorems.TakenIdUntouched | pkg/runtime/container.go:121-129 | on a taken id nothing at all changes |
| HandshakeTheorems.FreeIdClaimed | pkg/runtime/container.go:121-129 | on a free id `Create` is never refused as taken |
| HandshakeTheorems.LeafOutlivesChild | pkg/runtime/container.go:192-197 | the cgroup leaf is only removed after the child has been killed and reaped |
| HandshakeTheorems.RunsAreBounded | pkg/runtime/container.go:199-276 | every run has at most a number of steps fixed by the config's size |
| HandshakeTheorems.CreateReturns | pkg/runtime/container.go:199-292 | with a config that fits and no unnoticed death, no reachable state is stuck before `Create` has returned |
| HandshakeTheorems.OversizedDeadlock | pkg/runtime/container.go:209-214 | with a config larger than the pipe, a state in which both sides are blocked is reachable |
| HandshakeTheorems.OversizedBlocksForever | pkg/runtime/container.go:209-214 | in every run in which no step fails such a config keeps `Create` from returning, and where the run ends both sides are blocked for ever, the parent writing and the child waiting |
| HandshakeTheorems.OversizedNeverCreates | pkg/runtime/init.go:26-54 | with such a config no run gets past writing it and `Create` never succeeds |
| HandshakeTheorems.NoEndOfFile | pkg/runtime/container.go:166-167 | because the parent keeps a copy of the child's end, the end-of-file branch of `await` is never taken by either side before `Create` returns |
| HandshakeTheorems.EndOfFileExact | pkg/runtime/sync.go:62-72 | a parent that closes that copy gets end of file exactly when the child is dead and has left no message |
| HandshakeTheorems.SilentDeadlock | pkg/runtime/container.go:166-167 | a child that dies unreported can leave `Create` waiting for ever, unless the copy is closed and the config fits |
| HandshakeTheorems.DeadlockFreeExact | pkg/runtime/container.go:199-276 | no run can get stuck exactly when the config fits the pipe and no child dies unreported or the parent closes its copy of the child's end |
| Sync.SyncPipe.AwaitMessage | pkg/runtime/sync.go:65-81 | takes exactly the oldest message, reading ahead the others, and says whether it is the expected one, an error or neither; end of file only when nothing is left and no descriptor could send more; the same answer the steps of the handshake get |
| Sync.NothingLost | pkg/runtime/sync.go:50-81 | over any sequence of sends and awaits, what was decoded and what is under way is what was sent, in order and each once, however far the decoder reads ahead |
| Store.StepKeepsInv | pkg/state/store.go:67-156 | every file operation, failure or death keeps the lock exclusive, the committed file whole and out of any writer's reach, and readers on whole files |
| Store.RunKeepsInv | pkg/state/store.go:67-156 | so they hold after every interleaving of creates, deletes and loads |
| Store.OneInLock | pkg/state/store.go:67-80 | two processes are never inside the lock together |
| Store.RenameKeepsInv | pkg/state/store.go:113-119 | the rename puts a whole record in place |
| Store.AtomicReads | pkg/state/store.go:127-143 | a lock-free load sees no record or one whole record committed before it looked, whatever crashes |
| StoreReads.StepKeepsReads | pkg/state/store.go:67-156 | every step keeps what loads saw, and what is in place, true to the commits and removals so far |
| StoreReads.LoadsSeeWhatStands | pkg/state/store.go:127-143 | in every run a load sees nothing only if no record was in place when it looked, and otherwise the whole one that was |
| StoreReads.ReturnsAreTrue | pkg/state/store.go:83-194 | when a delete has done its work no record, temporary file or directory is left; nothing is in place when one returns, and something is when a create does |
| StoreClaims.CommittedReadable | pkg/state/store.go:88-90 | under one schema `Create` always reads an existing record as taken |
| StoreClaims.RunKeepsClaim | pkg/state/store.go:83-93 | under one schema any two successful creates of an id have a delete between them, and a claimed id has a record |
| StoreClaims.UndisturbedCreate | pkg/state/store.go:83-121 | a create that nothing disturbs finds a free id and succeeds |
| StoreClaims.UndisturbedDelete | pkg/state/store.go:184-194 | a delete that nothing disturbs runs to its end, whatever a crash left behind |
| StoreClaims.OlderBinaryReclaims | pkg/state/store.go:144-147 | an older binary can claim an id that a newer one holds |
| StoreClaims.UniqueClaimsExact | pkg/state/store.go:83-93 | claims are unique in every run exactly when all binaries agree on the schema |
| Lifecycle.Host.Load | pkg/state/store.go:149-155 | shows a created or running record whose process is gone as stopped, and any other as it is |
| Lifecycle.Host.Start | pkg/runtime/container.go:296-317 | succeeds exactly on a container that `Load` shows as created, makes its record running and changes nothing else, as the two start steps do; changes nothing on refusal |
| Lifecycle.Host.Delete | pkg/runtime/container.go:376-404 | succeeds exactly when there is a record and it is stopped or force is given; drops the record and kills at most its living process, as the delete steps do; changes nothing on refusal |
| Lifecycle.Host.KillTarget | pkg/runtime/container.go:361-369 | the pid that is signalled is the one `Load` shows, for anything not stopped |
| Lifecycle.NextKeepsInv | pkg/runtime/container.go:278-404 | every step of every command, and every death, keeps a record past creating naming its own process |
| Lifecycle.NextKeepsTruth | pkg/runtime/container.go:341-356 | every step but a last save of `Run` keeps a stopped record standing for a dead process, and that one does exactly when it loads no record, a stopped one or a creating one with a dead child; a live record it loads is never its own |
| Lifecycle.WholeLife | pkg/runtime/container.go:294-404 | create, start, the end of the process and an unforced delete take any free id through the four statuses and leave it free |
| Lifecycle.FailedCreate | pkg/runtime/container.go:130-139 | a create that fails, before or after the clone, leaves the id free and no process |
| Lifecycle.ForegroundRunEnds | pkg/runtime/container.go:330-357 | `Run` waits for its own running container, and leaves its record stopped |
| Lifecycle.ForcedDeleteSucceeds | pkg/runtime/container.go:382-403 | a forced delete of a created or running container kills its process and drops the record |
| Lifecycle.LateRunLosesLiveContainer | pkg/runtime/container.go:352-356 | a run in which it is not: a live container ends without a record and without a forced delete |
| Lifecycle.StatusMonotone | pkg/state/store.go:149-155 | over any stretch of any run the status `Load` shows only moves forward until the record is deleted |
| Lifecycle.RecordsOutliveProcesses | pkg/runtime/container.go:382-390 | outside that case a record goes away only with its process dead or by a forced delete |
| Lifecycle.LiveViewIsHonest | pkg/state/store.go:196-205 | in every run, what `Load` shows as created or running is the container's own process and alive |
| Lifecycle.StoppedViewExact | pkg/runtime/container.go:352-356 | in every run, what `Load` shows as stopped is alive exactly when a `Run` has saved its last word over a living container's record since the id was claimed |
| Lifecycle.UnforcedDeleteExact | pkg/runtime/container.go:382-403 | in every run, an unforced delete drops the record of a living container exactly in that case |
| Lifecycle.KillTargetExact | pkg/runtime/container.go:361-369 | the pid `Kill` uses is the container's living process exactly when the record is past creating |
| CapMask.WordsRoundTrip | pkg/security/capabilities.go:109-110 | the two words handed to capset make up the mask again |
| CapMask.HasAdd | pkg/security/capabilities.go:107-108 | adding a bit makes that bit, and no other, be had |
| CapMask.BitsAdd | pkg/security/capabilities.go:107 | as sets of numbers, adding is union |
| Capabilities.ParseCapabilities | pkg/security/capabilities.go:114-124 | succeeds exactly when every name is, but for case, an upper-case entry of the table, with the set of those entries' numbers; otherwise names the first that is not |
| Capabilities.UpperExact | pkg/security/capabilities.go:117 | upper-casing changes case and nothing else |
| Capabilities.PlainNames | pkg/security/capabilities.go:114-124 | upper-case names of the table ask for exactly their own numbers |
| Capabilities.OneEntry | pkg/security/capabilities.go:117 | two names share an entry exactly when they differ only by case |
| Capabilities.CaseMakesNoDifference | pkg/security/capabilities.go:114-124 | lists that differ only by case are parsed alike |
| Capabilities.ResolveCapabilities | pkg/security/capabilities.go:141-164 | no section means five empty sets; otherwise each mask is what its own list asks for |
| Capabilities.DropUnwanted | pkg/security/capabilities.go:186-200 | drops exactly what is not wanted up to the last capability, and succeeds exactly when it may or need not |
| Capabilities.RaiseWanted | pkg/security/capabilities.go:222-229 | raises exactly what is wanted, and succeeds exactly when all of it is permitted and inheritable and raising is not locked |
| Capabilities.ApplyPolicy | pkg/security/capabilities.go:186-231 | success exactly when the kernel's rules allow every step; then the five sets are the policy's; the kernel's own invariants hold throughout and permitted and bounding never grow, even on failure |
| Capabilities.ApplyCapabilities | pkg/security/capabilities.go:175-232 | an unknown name changes nothing; otherwise success is exactly when the kernel allows every step; then, asked only for what the kernel has, the five sets are exactly the request (bounding: what was held of it) just when nothing above the presumed last capability is overlooked, and always when that is the kernel's |
| Capabilities.ReductionExact | pkg/security/capabilities.go:186-231 | a reduced process is exact just when nothing above the presumed last capability was held unasked or asked for as ambient |
| Capabilities.FallbackKeepsNewer | pkg/security/capabilities.go:274-287 | a run on a kernel with one capability above the fallback that succeeds and leaves it in the bounding set unasked |
| CgroupPaths.DefaultPath | pkg/runtime/cgroups.go:55-57 | an accepted id's default cgroup is root, "lightpod", id |
| CgroupPaths.DefaultPathsApart | pkg/state/store.go:55-63 | two accepted ids get cgroups strictly below the root, neither inside the other |
| CgroupPaths.CustomPathExact | pkg/runtime/cgroups.go:59-76 | a custom path goes up from the root as far as it rises and down its surviving names; it is accepted exactly when that ends strictly below a root other than "/", refused as the root when it ends there, and as an escape otherwise |
| CgroupPaths.CustomPathByDepth | pkg/runtime/cgroups.go:68-75 | by counting alone: one that never rises above the root is accepted as soon as it leads down, one that rises and does not lead down past its start is refused |
| CgroupPaths.ValidIdExact | pkg/state/store.go:55-63 | an id is accepted exactly when joining it to a directory gives an entry of that name and it has no backslash or NUL |
| Cgroups.Hierarchy.OnlyWhatIsAvailable | pkg/runtime/cgroups.go:284-286 | no cgroup has a controller the root does not have |
| Cgroups.DelegateAtRoot | pkg/runtime/cgroups.go:310-320 | the root is written, twice when it is the leaf's parent, and passes on everything wanted unless the write is ignored |
| Cgroups.DelegateAt | pkg/runtime/cgroups.go:312-320 | one level passes on what it is given unless its write is ignored |
| Cgroups.DelegateNext | pkg/runtime/cgroups.go:311-321 | one turn of the loop goes exactly one directory down the chain |
| Cgroups.DelegateDown | pkg/runtime/cgroups.go:310-322 | the loop visits the chain below the root in order and, if no write is ignored, the leaf's parent passes on everything wanted |
| Cgroups.EnableControllers | pkg/runtime/cgroups.go:287-323 | visits exactly the chain from the root to the leaf's parent, top down; if every write takes effect the leaf has all that the root has of memory, pids, cpu, cpuset and io |
| Cgroups.NewCgroup | pkg/runtime/cgroups.go:99-172 | whatever was ignored, success means that every memory, cpu or pids limit can be enforced in the leaf; otherwise the missing controllers are named and the leaf is taken away; when all writes take effect only a directory that cannot be made stands in the way of limits the root can enforce |
| CpuWeight.SharesToWeight | pkg/runtime/cgroups.go:431-443 | the weight is in 1 to 10000 for every 64-bit input, and 100 for none |
| CpuWeight.ExactOnRange | pkg/runtime/cgroups.go:429-443 | on 2 to 262144 no clamp fires, the ends map to the ends, and the weight rises by at most one per share |
| CpuWeight.EveryWeightHit | pkg/runtime/cgroups.go:429-443 | every weight is reached, from an explicit share count |
| CpuWeight.OverflowDrops | pkg/runtime/cgroups.go:435 | the first share count whose product overflows falls from the highest weight to the lowest |
| CpuWeight.MonotoneExact | pkg/runtime/cgroups.go:435-442 | monotone from 2 up to a bound exactly when the product does not overflow there; 1 maps to 10000 |
| Device.SplitsExactly | pkg/device/devices.go:18-37 | both numbers come back exactly when both fit 32 bits |
| Device.JoinsExactly | pkg/device/devices.go:18-37 | every 64-bit value is the number of its own major and minor, and of no other pair |

## Left out

- Real system calls, mounts, id maps, pivot and user switching: abstract steps that may succeed or fail. `prepareRootfs` and `finalizeRootfs` are such steps.
- Go's `filepath`, `encoding/json` and `bufio`: cleaning and joining work on components; JSON is only a length for the config and whole messages on the socket.
- BPF instructions other than the four the compiler emits, and fields of `seccomp_data` other than number and architecture; masks and ors of constants are written as remainders and sums.
- Contents of the system call and capability tables, architecture constants, default profiles and default mounts: parameters or fixed data.
- SecureJoin.SecureJoin: the file tree does not change during the walk, `lstat` fails only because the entry is missing, `readlink` does not fail, and the prefix of the root directory itself is taken as given.
- Handshake on values instead of classes: `Create`, `Start` and init are program counters of one step relation, because their promises are about interleavings. The parent's own death (the only way its end of the socket could close early), more than one starter, processes the child has left behind, and a child killed between `Start`'s load and its opening of the FIFO are not modelled.
- HandshakeTheorems.CreateAllOrNothing: the rollback's own kill and record deletion are taken to succeed, and removing the leaf fails only while a live process is in it.
- HandshakeTheorems.CreateReturns: fairness is not modelled; the result is that no run is infinite and none can stop early.
- Store with overlapping unlocked `Save` calls on one id, other ids contending for the same lock, and I/O errors that leave the lock file unusable; the code promises nothing for the first and the others only fail earlier.
- Store on one id: `List` is a sequence of loads.
- Lifecycle with pid reuse, several commands on one id at once, and a SIGKILL that fails for lack of permission; a kill that has not taken effect in time is `dies == false`.
- Hook contents, timeouts and signal forwarding: a hook list is one step that can fail.
- Sync.SyncPipe.AwaitMessage: does not model a message that fails to decode, because both ends are this program.
- Capabilities.ApplyCapabilities: prctl and capset fail only as capabilities(7) says; `setupUser` before it is an abstract step, and names are upper-cased over ASCII only (Go also maps two other letters to ASCII ones, U+0131 to I and U+017F to S).
- Cgroups.EnableControllers: reading `cgroup.controllers` does not fail, and a directory is made one level at a time.
- Cgroup limits other than the weight: `SetResources`, `formatLimit` and the swap subtraction are file writes and easy conversions.
- Finding the delegated root, mount table parsing, command line, `ps`, volumes, sizes, device paths and NVIDIA integration: parsing and I/O.
