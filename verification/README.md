# Hamn: a verified model of its console's algorithms and protocols

Hamn is a console for containers, Kubernetes and the VMs behind them. Its Rust
front end reads the argv of `docker` and `kubectl` without rewriting it, keeps a
selection across refreshes, runs reads and one change at a time beside the
screen, streams output of tools it does not trust, unpacks release archives and
shares a preferences file with other instances. This project models those parts
in Dafny and proves what they promise, on all inputs and over all runs. Source
paths below are relative to the repository's root.

`dafny verify dfyconfig.toml` checks everything.

## What is proved

**The job protocol** (`Jobs.dfy`, `TuiRun.dfy`, `ChangeReports.dfy`; control/tui.rs). The event loop
is a transition system with two workspace states that swap places, tasks that
may send even after they were aborted, and two bounded channels. Over every
interleaving of keys, ticks, tasks and deliveries: a result that is accepted
comes from the latest read that was not cancelled, and that read is of the
workspace displayed at that moment; a delivered answer of that read is accepted
and its last one clears the loading marks; started changes are the reported ones plus
the one in flight, none after the drain at exit; each report is in the workspace
that owns the request; and the lists of uncertain changes hold exactly the
reported unknown outcomes. A change starts exactly when it waits for its
confirmation and is confirmed; its end is shown as the status and on a line of
the log of its workspace, its progress in that log, and no other event but the
two confirmations touches what is shown of changes.

**The argv readers** (`CommandLine.dfy`, `Inspection.dfy`, `OwnCommand.dfy`,
`Connections.dfy`, `Actions.dfy`, `ActionCommands.dfy`, `ScopeDefaults.dfy`,
`DockerScope.dfy`, `KubeScope.dfy`, `ContainerList.dfy`, `ListReading.dfy`,
`SessionLabel.dfy`, `LabelContents.dfy`, `Tokenizer.dfy`). A scanner is given by
a `Grammar`: which options take a value, which short flags may be grouped,
whether options end at the first operand. Theorems are proved for every
well-formed grammar, and the tables of docker and kubectl are shown to be
well-formed. Splitting groups is lossless, and idempotent for a fixed command,
for docker, and for every kubectl command but `logs` and `proxy`; the options
that presence checks read are the unconsumed option words; the connection of an
action comes back from the argv that is built with it, with the namespace of its
row; docker's default target, and kubectl's default context and namespace for
every command but those two, is put in front of a typed command only where none
is typed; toggling the container list negates what is read, and the last word
that sets the flag decides that; a session's label does not depend on connection
values, however they are given, and shows no words but those named; the tokenizer
undoes quoting.

**Selection** (`Selection.dfy`, `SelectedResource.dfy`; control/tui_state.rs). Over every run without a
user's move or a reset of the data, the selected resource stays the same or
becomes none, and none stays none; a resource is told by uid, namespace and name,
by a docker id, repository and tag, or by kind and name. After a reset nothing can be acted on until
the next list, and over every run at all the selected index of a list is that of
a visible row.

**Archives** (`Archive.dfy`, `Extraction.dfy`, `Unpacking.dfy`;
control/install_support/archive.rs). The file system is a map from paths to
nodes with modes. A name is accepted exactly when it spells a proper path, with
any separators behind a folder's. After the first pass accepts an archive, the
second never meets a path that is in its way, whatever the order of the entries,
and folders are closed only after everything below them is done.

**Streams and queues** (`Stream.dfy`, `WorkerStderr.dfy`, `TerminalInput.dfy`).
Lines do not depend on how the bytes are cut; the drain of a worker's stderr
reads exactly what was queued when the worker was reaped, in a bounded number of
polls, against writers that never stop; PTY input is conserved, and every loss of
it was reported with its count.

**Kinds and preferences** (`ClusterKinds.dfy`, `KindsLookup.dfy`,
`KindWords.dfy`, `Preferences.dfy`, `PreferenceUpdates.dfy`). Offered kinds come
from a lookup of their own target; the words of a listing are a bijection with
its lines, each shortened exactly where its plural is unique; the recent list
refines its history; no committed update of the document is lost between
processes, and one that finds the lock free is committed.

**Wrapping** (`WordWrap.dfy`; control/tui_state.rs). Rows fit and are as full as
they can be, nothing but one
space at a break is dropped, and it is stated exactly when a word that fits a row
is broken.

## Where the code differs from what is said of it

- The comment of `wrap_words` (control/tui_state.rs:1595-1597) says that only a
  word longer than the line is broken inside. A character wider than the row in
  front of a space is the exception: the next row then starts with the space,
  and a word that fills a row exactly is broken. `WordsAreBrokenOnlyInTraps`
  states the exact condition, `WordsStayWhole` that it cannot be met by
  characters of at most two columns in rows of two or more, and
  `AFittingWordIsBroken` a text that meets it in rows of one.
- `connections` loses an option whose value is missing at the end of the
  displayed argv: the next word becomes its value. `KubectlConnectionIsKept` is
  an equivalence with that condition.
- `logs` of a previous instance removes `--follow` from the whole argv
  (control/native_actions.rs:415-435), and with it a connection value that is
  spelled `--follow`. The contract of `Logs` states exactly when the connection
  is kept, and `LogsLoseAValue` that the pods of `get pods --token --follow` lose
  their token.
- `toggle_all` changes nothing that is read when the argv has no command, when
  a `--` ends the options, or when the last option lacks its value.
  `ToggleNegatesWhatIsRead` is an equivalence.
- `inspect` reads an argv by its own command, but the command is looked for by
  the options of `get` (control/native.rs:148-187). `-f` and `-p` of `logs` take
  no value and `-w` of `proxy` takes one, so a group in front of these commands
  can be split otherwise than it was read: `-fAp logs x -p -n -Aw` becomes an
  argv whose command is `x`, and inspecting that splits `-Aw` as well
  (`ARereadArgv`). docker's `inspect` is idempotent on every argv, kubectl's on
  every argv of another command (`OwnInspectionIsIdempotent`) and on every argv
  of these two in which the words before the command are read alike
  (`ReadAlikeIsIdempotent`). For the others it is idempotent exactly when the
  inspected argv has no group left for its own command
  (`IdempotentExactlyWhenSettled`); no guard on the words before the command
  decides that, because once the two readings part, every later word may be an
  option to the one and a value to the other.
- `parse` asks `has` about the inspected argv (control/native.rs:487-533), which
  reads it again by the inspected argv's command. For `-fAp logs x -p -n work`
  it sees no namespace and puts the state's in front of the typed one
  (`ADefaultBesideATypedNamespace`). The typed namespace is the only one exactly
  when no default is put in front or `has`, asked about the argv itself, finds
  none (`TypedScopeWinsExactly`), and so for every command but `logs` and
  `proxy` (`TypedNamespaceWins`). The context fares the same
  (`TypedContextWins`, `ADefaultBesideATypedContext`).
- A value that is glued to a short option counts as one for the label of a
  session only if no `=` is in it (control/terminal_session.rs:397-409): `logs
  -na web` shows its pod, `logs -na=b web` nothing behind the command
  (`AGluedEquals`). So the label depends on whether such a value holds a `=`, and
  on nothing else of it.

## Model

| member | source | states |
|---|---|---|
| CommandLine.GrammarsAreWellFormed | control/native_flags.rs:4-54 | every value option of docker and kubectl, for every command, has the shape `-x` or `--name` without `=`, so a group's piece and an inline value are never mistaken for one |
| CommandLine.SplitShortGroup | control/native_flags.rs:64-78 | the loop over a group's letters refines `SplitFlags`: a value option takes the rest, an unknown letter leaves the word whole |
| CommandLine.CommandIndex | control/native.rs:148-187 | the index loop finds the first operand behind options of known arity, by the recursive definition of what each option takes |
| CommandLine.CommandPosition | control/native.rs:148-187 | a found command is a word of the argv and not an option |
| CommandLine.Inspect | control/native_flags.rs:104-117 | the loop refines `InspectWith`: groups split, consumed values copied, the rest kept behind `--` or docker's command |
| CommandLine.Options | control/native_flags.rs:85-99 | the loop refines `OptionsWith`, with docker's other grammar behind its command |
| Inspection.PartsOfWord | control/native_flags.rs:64-78 | gluing the pieces gives the word back, each piece is final, and only the last can take a value |
| Inspection.GroupsAreSplit | control/native_flags.rs:64-78 | every group of known flags is split into one word per flag, with an option and its value, if one follows, as the last |
| Inspection.UnknownOptionsHideTheCommand | control/native.rs:148-187 | behind a long option of unknown arity no command is found |
| Inspection.InspectIsIdempotent | control/native_flags.rs:104-117 | for a fixed grammar, inspecting an inspected argv changes nothing |
| OwnCommand.DockerInspectionIsIdempotent | control/native_flags.rs:104-117 | docker: inspecting any inspected argv changes nothing, whatever its command |
| OwnCommand.IdempotentExactlyWhenSettled | control/native_flags.rs:104-117 | inspecting twice changes nothing if and only if the inspected argv has no group that its own command splits |
| OwnCommand.InspectionKeepsCommand | control/native.rs:148-187 | where the words before the command are read alike, the inspected argv has the same command |
| OwnCommand.ReadAlikeIsIdempotent | control/native_flags.rs:104-117 | kubectl: inspecting such an argv twice changes nothing |
| OwnCommand.MostCommandsReadAlike | control/native_flags.rs:40-54 | every command but `logs` and `proxy` reads the words before it as the search for the command does |
| OwnCommand.OwnInspectionIsIdempotent | control/native_flags.rs:104-117 | kubectl: every argv of any command but `logs` and `proxy` keeps its command under `inspect`, and inspecting it twice changes nothing |
| OwnCommand.ARereadArgv | control/native_flags.rs:40-117 | a concrete argv of `logs` whose inspection has another command and is split once more by a second one |
| Inspection.InspectionIsLossless | control/native_flags.rs:104-117 | the pieces of an inspected argv are grouped by the words they come from, and gluing each group restores the argv |
| Inspection.OptionsAreTheOptionWordsOfInspect | control/native_flags.rs:85-117 | for one grammar, `options` is exactly the unconsumed dash words of `inspect` up to and including the first unconsumed `--` |
| Inspection.KubectlOptionsAreTheOptionWordsOfInspect | control/native_flags.rs:85-117 | kubectl's `options` of an argv is that list for its own command |
| Connections.Collect | control/native_actions.rs:89-159 | the loop that projects connection options refines `Project` |
| Connections.TheMatchIsUnique | control/native_actions.rs:101-140 | a word names at most one connection option, so the order in which the options are tried does not matter |
| Connections.InspectAfterConnections | control/native_actions.rs:89-159 | a complete list of connection options is inspected word for word, whatever follows |
| Connections.ProjectionIsComplete | control/native_actions.rs:89-159 | without a missing value the projection holds connection options only, each separate value present |
| Connections.ProjectionFollowsRoles | control/native_actions.rs:89-159 | the projection of every argv, of docker's up to its command, picks by the role of each word, and never a word that another option consumes or that stands behind `--` |
| Connections.CompleteListComesBack | control/native_actions.rs:89-159 | projecting a complete list followed by an inert command gives exactly that list |
| Connections.DockerConnectionIsKept | control/native_actions.rs:89-159 | docker: the connection of every argv comes back from every argv built with it |
| Connections.KubectlConnectionIsKept | control/native_actions.rs:89-159 | kubectl: it comes back if and only if the displayed argv has no connection option without its value |
| Connections.DanglingConnectionIsLost | control/native_actions.rs:89-159 | with such an option every built argv projects to something else |
| Connections.ADanglingArgv | control/native_actions.rs:89-159 | a concrete argv, `get --namespace`, that loses its connection |
| Connections.RowNamespaceIsTheOnlyOne | control/native_actions.rs:89-159 | with a row's namespace, the connection has exactly that one namespace in option position |
| Actions.Build | control/native_actions.rs:269-412 | for every action and named row, the built argv keeps its connection exactly when the displayed argv is finished, and then has the row's namespace |
| Actions.KeptNamespace | control/native_actions.rs:89-159 | an argv that keeps its connection has exactly the namespace of its row, or the displayed ones for a row without one |
| ActionCommands.DockerCommands | control/native_actions.rs:287-352 | docker: only the actions that show something build a command that reads only, the others say the change that was asked for, and every command is about the row and its kind |
| ActionCommands.DockerSupports | control/native_actions.rs:287-352 | which actions docker's lists have, and no others |
| ActionCommands.KubeCommands | control/native_actions.rs:353-399 | kubectl: the same, with the words that name the row, and the operands of shells and port-forwards in their place |
| ActionCommands.KubeSupports | control/native_actions.rs:353-399 | which actions kubectl's lists have, and no others |
| Actions.Shell | control/native_actions.rs:170-186 | the argv of a shell in the first or a named container, and that it keeps its connection exactly when the displayed argv is finished |
| Actions.PortForward | control/native_actions.rs:187-233 | the argv with the accepted mappings, all of them operands, or the refusal; it keeps its connection exactly when the displayed argv is finished |
| Actions.MappingsAreOperands | control/native_actions.rs:190-215 | a valid port mapping is never an option |
| ActionCommands.MappingForms | control/native_actions.rs:190-226 | a mapping is accepted if and only if it is a bare port, or a local port or none, a colon and a port or port name |
| ActionCommands.PortsMayBeTyped | control/native_actions.rs:190-226 | every pair of ports in decimal is accepted, and the local one may be left out |
| Actions.Logs | control/native_actions.rs:415-435 | the argv of the logs, and that they keep their connection exactly when the argv is finished and no connection value spelled `--follow` is removed with the option |
| Actions.LogArgsKeepConnection | control/native_actions.rs:415-435 | that equivalence for the argv as a function of the action's |
| ActionCommands.LogsAreAsked | control/native_actions.rs:415-435 | the running instance is followed, the previous one is not, and the chosen container is named |
| Actions.LogsLoseAValue | control/native_actions.rs:415-435 | a concrete argv whose previous logs lose the connection's token, for every named row |
| Actions.Related | control/native_actions.rs:502-629 | the argv of a related list of every row, with its selector or name, in the row's namespace; it keeps its connection exactly when the displayed argv is finished |
| Actions.RemovedWordsDoNotComeBack | control/native_actions.rs:415-435 | a long word that is removed from an argv is in no connection projected from it |
| ScopeDefaults.KubeAllNamespaces | control/native.rs:125-147 | the loop refines the reading in which the last unconsumed `--all-namespaces` or `-A` decides |
| KubeScope.AllNamespacesAreAsked | control/native.rs:125-147 | the reading is what the last option word that is one of them sets, and unset without one |
| ScopeDefaults.DefaultsAreComplete | control/native.rs:489-558 | whatever is typed, the defaults are connection options, each with its value |
| ScopeDefaults.CommandBehindConnections | control/native.rs:148-187 | behind such options the command is found exactly where it was, or not found as before |
| ScopeDefaults.DefaultsChangeNothingBehind | control/native.rs:489-558 | with the defaults in front, the same command is found and everything behind them is inspected as before |
| ScopeDefaults.ConnectionsBehindDefaults | control/native.rs:489-558 | kubectl: the connection of the whole argv is the defaults followed by the typed connection |
| ScopeDefaults.ProjectedNamespaces | control/native_actions.rs:89-159 | `connections` picks a namespace if and only if some option word names one |
| ScopeDefaults.TypedNamespaces | control/native.rs:113-124 | `has`, asked about the argv itself, finds a namespace if and only if `connections` picks one |
| ScopeDefaults.TypedScopeWinsExactly | control/native.rs:485-551 | kubectl: the default namespace is the only one and otherwise the typed ones are left, if and only if no default is put in front or the argv has no namespace |
| ScopeDefaults.HasReadsAlike | control/native.rs:113-124 | where the words before the command are read alike, `has` finds the same in the argv and in its inspection |
| ScopeDefaults.TypedNamespaceWins | control/native.rs:485-551 | kubectl, every command but `logs` and `proxy`: the default namespace is used only where none is typed, and is then the only one; otherwise the typed ones are left |
| ScopeDefaults.ADefaultBesideATypedNamespace | control/native.rs:485-551 | a concrete argv of `logs` that is given the default namespace beside its own |
| KubeScope.PickedOptions | control/native.rs:113-124 | kubectl: `has`, asked about the argv itself, finds a connection name if and only if `connections` picks an option of that name |
| KubeScope.TypedKubeconfigWins | control/native.rs:485-551 | kubectl, every argv: the state's kubeconfig is put in front if and only if no plugin owns the command and the typed connection names none |
| KubeScope.TypedContextWins | control/native.rs:485-551 | where the words before the command are read alike: the state's context is put in front if and only if the typed connection names neither context nor kubeconfig, and its namespace if it names no namespace either and not all are asked for |
| KubeScope.ADefaultBesideATypedContext | control/native.rs:485-551 | a concrete argv of `logs` that is given the state's context beside its own |
| DockerScope.InspectionKeepsLeads | control/native_flags.rs:104-117 | docker: splitting the groups before the command keeps a command and the option words before it |
| DockerScope.TypedOptions | control/native.rs:113-124 | docker: `has`, asked about the words before the command, inspected or not, finds a connection name if and only if `connections` picks an option of that name |
| DockerScope.TypedTargetWins | control/native.rs:485-551 | docker: the state's context or host is put in front if and only if the command is not `context` and the typed connection names no context, host or configuration, and its configuration if and only if it names no configuration |
| DockerScope.ConnectionsBehindDefaults | control/native.rs:485-551 | docker: the connection of the whole argv is the defaults followed by the typed connection |
| ContainerList.DockerListBool | control/native.rs:618-677 | the nested loops refine the recursive reading of a repeated boolean, last one wins, values and `--` respected |
| ListReading.TheLastSettingDecides | control/native.rs:618-677 | a flag is read as what the last unconsumed word behind the command sets it to, alone, with a value or in a group, and as unset without one |
| ContainerList.ReadWithOverride | control/native.rs:618-689 | what an override at the end changes: the reading if the scan reaches it, nothing behind `--`, the missing value otherwise |
| ContainerList.Invocation.ToggleAll | control/native.rs:681-689 | replaces an explicit last word that was read, or appends one |
| ContainerList.ToggleNegatesWhatIsRead | control/native.rs:618-689 | a toggle negates the reading of `--all` if and only if there is a command, no unconsumed `--` and no missing value |
| ContainerList.UntoggledArgvs | control/native.rs:681-689 | three concrete argvs whose reading a toggle cannot change |
| ContainerList.TogglesKeepEveryOtherWord | control/native.rs:681-689 | any number of toggles keeps every other word, adds at most one, and an even number restores the reading |
| ContainerList.ToggleKeepsTheSizeColumn | control/native.rs:678-689 | toggling never changes what `show_size` reads |
| SessionLabel.ScanBehind | control/terminal_session.rs:403-473 | the loop over a command's words refines `Scan`: operands and container, or none behind an unknown option |
| SessionLabel.SessionSummary | control/terminal_session.rs:353-505 | the label as a function of the inspected argv |
| SessionLabel.InspectionKeepsAlike | control/native_flags.rs:104-117 | argvs that differ in separately given values are inspected alike |
| SessionLabel.ScanIgnoresValues | control/terminal_session.rs:403-473 | the scan sees no separately given value but a container's |
| SessionLabel.LabelIgnoresValues | control/terminal_session.rs:353-505 | with only connection and global options before the command, replacing the values of any options but the container's, separate or in the option's word, leaves the label unchanged |
| SessionLabel.LabelIgnoresConnectionValues | control/terminal_session.rs:353-505 | the same for the values of connection options: labels are independent of credentials |
| SessionLabel.LabelHidesTokens | control/terminal_session.rs:353-505 | behind every command, `--token=` with any two texts gives one label |
| SessionLabel.AGluedEquals | control/terminal_session.rs:397-409 | two concrete argvs that differ in a glued value, one with `=`, and have two labels |
| LabelContents.OtherCommandsShowTheirName | control/terminal_session.rs:353-393 | every argv of a command other than logs and port-forward shows program and command, and no other word |
| LabelContents.NoCommandShowsTheProgram | control/terminal_session.rs:353-375 | an argv without a command shows the program |
| LabelContents.ScanReadsByPlace | control/terminal_session.rs:403-473 | the scan succeeds if and only if every option is understood, and finds the words that are neither options nor values, and the last container named |
| LabelContents.LogsShow | control/terminal_session.rs:353-505 | logs show the one identifier operand and the container if every option is understood, and the command alone otherwise |
| LabelContents.PortForwardsShow | control/terminal_session.rs:353-505 | port-forwards show what they forward and up to three ports, under the same condition |
| LabelContents.LabelsAreBounded | control/terminal_session.rs:353-505 | a label has at most 160 characters, or those of the program and 34 more |
| Tokenizer.SplitCommand | control/tui_state.rs:20-60 | the loop over five variables refines the state machine |
| Tokenizer.CharacterBetween | control/tui_state.rs:20-60 | what every character does between two letters outside quotes |
| Tokenizer.BackslashInQuotes | control/tui_state.rs:20-60 | in double quotes a backslash quotes exactly `$`, a backtick, `"`, itself and a newline; in single quotes nothing |
| Tokenizer.CharacterInQuotes | control/tui_state.rs:20-60 | every other character in quotes is kept, but the one that closes them |
| Tokenizer.RefusedWhenOpen | control/tui_state.rs:20-60 | a command is refused exactly when a quote is left open or a backslash is last |
| Tokenizer.SplitConcatenates | control/tui_state.rs:20-60 | after a command that splits and a blank, a second one adds its own words, and the whole fails exactly when the second does |
| Tokenizer.LineContinues | control/tui_state.rs:20-60 | a backslash before a newline vanishes with it, outside single quotes |
| Tokenizer.SplitUndoesWriting | control/tui_state.rs:20-60 | splitting undoes every mix of plain, single-quoted, double-quoted and escaped pieces, with or without the backslashes that double quotes need not have, any blanks between words, and blanks or none before the first and after the last |
| Tokenizer.SplitUndoesQuoting | control/tui_state.rs:20-60 | every list of words comes back from its words joined by single spaces, each in single or double quotes |
| Jobs.Job.Progress | control/tui.rs:51-66 | the state that owns a request by its first word, displayed or not |
| Jobs.Job.FinishMutation | control/tui.rs:143-160 | ends the change and reports it in the owner's state only; an unknown outcome joins its list |
| Jobs.Job.Cancel | control/tui.rs:161-171 | aborts the reads of a job without a change, and nothing else |
| Jobs.Job.Stop | control/tui.rs:173-185 | a new generation, no task and no reload; nothing while a change runs |
| Jobs.Job.Start | control/tui.rs:191-233 | a read replaces the read before it under a new generation; a change is recorded |
| Jobs.Job.StartQuery | control/tui.rs:257-286 | a query replaces the read before it under a new generation |
| Jobs.Job.StartReload | control/tui.rs:249-256 | a reload replaces the read before it |
| Jobs.Job.RefreshInBackground | control/tui.rs:245-248 | the same read, not shown as loading |
| Jobs.Job.Dispatch | control/tui.rs:287-293 | a change only waits for its confirmation, a read starts, and of a failed parse only the failure is noted |
| TuiRun.RefreshKeepsReads | control/tui.rs:163-286 | a new read is the latest one, and no message of another carries the reader's generation |
| TuiRun.RefreshIsMarked | control/tui.rs:234-286 | a new read is marked as loading, and in the background as refreshing only |
| TuiRun.CancelStopsReads | control/tui.rs:161-185 | cancelling or leaving unmarks and stops the read, and no message in flight will be accepted |
| TuiRun.QuittingWaits | control/tui.rs:905-919 | quitting asks and waits exactly while a change runs |
| TuiRun.AnswerKeepsReads | control/tui.rs:946-968 | the delivery arm accepts only messages of the reader's generation |
| TuiRun.NoStaleReadIsAccepted | control/tui.rs:161-968 | over every run, each accepted result is of the latest uncancelled read, which is of the workspace then displayed |
| TuiRun.LatestReadIsHeard | control/tui.rs:946-968 | a delivered answer is accepted if and only if it is of the latest read, and its last one clears the loading marks |
| TuiRun.LatestReadFinishes | control/tui.rs:946-968 | delivering the queue up to the last message of the latest read accepts it and clears the loading marks |
| TuiRun.FinishKeepsAccounts | control/tui.rs:143-160 | finishing adds the one report of the running change, in its owner's workspace |
| TuiRun.ProgressKeepsChanges | control/tui.rs:920-940 | the change's delivery arm keeps the accounts, and the result is the last message of a change |
| TuiRun.EveryChangeIsReportedOnce | control/tui.rs:866-1336 | over every run, started changes are the reported ones and the one in flight, in order and in the owner's state; after the drain none is in flight |
| ChangeReports.AChangeStartsWhenConfirmed | control/tui.rs:1133-1147 | over every run, a change starts if and only if it is pending, confirmed and none runs; it is then running, with a task, and shown in progress |
| ChangeReports.OnlyDispatchedChangesStart | control/tui.rs:287-293 | over every run, what starts or is pending is a change that was dispatched, never a read |
| ChangeReports.EveryEndIsShown | control/tui.rs:143-160 | over every run, a report is added exactly when the result is delivered; the view of the change's workspace then shows how it ended, as the status, on a log line with code and message, and in the uncertain list; the other view shows the same as before |
| ChangeReports.EveryProgressIsShown | control/tui.rs:920-940 | over every run, each text of a change is appended to its workspace's log, of which the last 1 MiB is kept |
| ChangeReports.NothingElseIsShown | control/tui.rs:866-1336 | over every run, no other event but a confirmation touches log, status or uncertain changes |
| ChangeReports.TheOutcomeOfATaskIsReported | control/tui.rs:920-940 | delivering the queue reports the outcome with which the change's task ended |
| TuiRun.TheDrainEnds | control/tui.rs:1320-1336 | once the change has sent its result, the drain ends after the queued messages |
| Selection.FoundIsUnique | control/tui_state.rs:596-604 | a row is found exactly when it is the only visible one with the identity |
| SelectedResource.OneIdentityOneResource | control/tui_state.rs:1110-1132 | two rows have one identity if and only if uid, namespace and name agree, or docker id, repository and tag, or kind and name; rows of two sorts never do |
| SelectedResource.ContainsIsWithin | control/tui_state.rs:572-590 | the filter's search finds exactly the texts that hold it |
| SelectedResource.RowsAreTheListed | control/tui_state.rs:572-590 | exactly the running rows, or all, whose text holds the filter are visible, in the order of the list |
| Selection.State.Accept | control/tui_state.rs:900-966 | the new view of every kind of answer |
| Selection.State.EditInput | control/tui_state.rs:607-621 | a filter edit refilters and looks the selected identity up again; any other prompt changes only its text |
| Selection.State.InvalidateResults | control/tui_state.rs:532-546 | drops the rows, the filter and the open detail |
| Selection.State.ClearFilter | control/tui_state.rs:695-699 | clearing the filter looks the selected identity up again |
| Selection.State.MoveBy | control/tui_state.rs:700-717 | a move scrolls an open overlay, or clamps the selection to the visible rows |
| SelectedResource.MovesGoAsFarAsAsked | control/tui_state.rs:700-717 | a move goes as many rows as asked for and stops at the ends |
| SelectedResource.TypingFilters | control/tui_state.rs:607-621 | the filter is what stands in the prompt after a key |
| SelectedResource.AnswersMarkTheRows | control/tui_state.rs:900-966 | which answers make the rows stale, fresh and loaded, and which replace or drop them |
| Selection.OneEvent | control/tui_state.rs:607-966 | the selected resource after one event: the same, and where it is looked up again, only while it is visible exactly once |
| Selection.SelectionNeverMoves | control/tui_state.rs:607-966 | over every run without a move or a reset, with prompts opened and closed, the selected resource stays the same or becomes none |
| SelectedResource.SelectionFollowsTheResource | control/tui_state.rs:607-966 | where the rows are looked up again, the one visible row of the selected resource is selected, and none if there is not exactly one |
| SelectedResource.SelectionStaysWithTheResource | control/tui_state.rs:607-966 | over every run without a move or a reset, the selected row is the same or another one of the same resource, by its fields |
| Selection.OnceNoneStaysNone | control/tui_state.rs:607-966 | at no point of such a run does a selection come back |
| Selection.AfterReset | control/tui_state.rs:532-966 | after a reset and any events but a list nothing is selected, and the next list selects its first visible row |
| Selection.SelectionStaysInside | control/tui_state.rs:532-966 | over every run, moves and resets included, the selected index of a list is that of a visible row |
| Archive.AcceptedNamesAreProper | control/install_support/archive.rs:15-36 | an accepted name has no empty, `.` or `..` component and no backslash, and is the text of its components |
| Archive.AcceptedNames | control/install_support/archive.rs:15-36 | a name is accepted as a path if and only if it spells the path, with any number of separators behind a folder's and none behind a file's |
| Archive.SameComponents | control/install_support/archive.rs:15-36 | names have the same components exactly when their texts agree up to separators at the end |
| Archive.Collect | control/install_support/archive.rs:41-57 | the first loop succeeds exactly when all names are accepted and differ, and fills the map and the roots |
| Archive.ParentsAreDirectories | control/install_support/archive.rs:74-83 | the walk over all parents finds whether a file is used as a directory |
| Archive.Validate | control/install_support/archive.rs:41-83 | the first pass accepts exactly the intact archives that are sound, and returns their root |
| Archive.ReleasesAreSound | control/install_support/archive.rs:41-83 | a released archive with folder entries written as tar writes them is sound, under every proper root |
| Extraction.FileSystem.CreateDirAll | control/install_support/archive.rs:97-101 | where nothing is in the way, creates exactly the missing folders |
| Extraction.OneMoreFolder | control/install_support/archive.rs:97-101 | below an open way the next folder's place is free |
| Unpacking.NextItemFits | control/install_support/archive.rs:92-106 | with any items of a sound archive written, the next one fits: every folder above it is a folder or absent and admits it, and a file's path is free |
| Unpacking.NextItemShapes | control/install_support/archive.rs:92-106 | writing it adds exactly the item and the missing folders above it |
| Unpacking.NextModeFits | control/install_support/archive.rs:107-111 | the deepest folders come first, so no folder above the next one has lost its search right |
| Unpacking.WriteAll | control/install_support/archive.rs:92-106 | the second loop stops only at a header without a mode |
| Unpacking.SetModes | control/install_support/archive.rs:107-111 | every folder gets its mode, and the tree is then exactly the archive |
| Unpacking.Extract | control/install_support/archive.rs:41-113 | succeeds exactly for an intact sound archive with readable modes and a free destination; then the destination holds the entries, their modes and the folders above them; a refusal leaves the file system as it was, and nothing outside the destination ever changes |
| Unpacking.EntryIsUnpacked | control/install_support/archive.rs:92-111 | every entry is then where its name spells, with its content and permission bits |
| Unpacking.NothingElseIsUnpacked | control/install_support/archive.rs:92-111 | and everything else below the destination is a folder above an entry |
| Unpacking.UnderOneRoot | control/install_support/archive.rs:43-65 | everything below the destination is under the archive's root |
| Unpacking.OrderOfEntriesIsInvisible | control/install_support/archive.rs:92-111 | the unpacked tree depends on the set of entries, not on their order |
| Stream.TextStream.FeedBytes | control/stream.rs:11-27 | one feed refines the function over pending bytes and emitted lines, errors included; pending never exceeds 1 MiB |
| Stream.TextStream.Finish | control/stream.rs:28-38 | emits a pending last line |
| Stream.AnyCuttingIsOnePiece | control/stream.rs:11-38 | feeding pieces one by one has the outcome of feeding their concatenation |
| Stream.ChunkingIsInvisible | control/stream.rs:11-38 | two cuttings of the same bytes emit the same lines and keep the same pending bytes or fail at the same line |
| Stream.StreamEmitsTheLines | control/stream.rs:11-38 | emitted lines and pending bytes are the text, and a failure is exactly at the first line that is too long or not taken |
| WorkerStderr.LiveError | control/core.rs:541-594 | hands on exactly what was queued when the worker was reaped, once and in order, saves the last 8192 bytes, and ends within a number of polls bounded by what was queued |
| WorkerStderr.LaterWritersAreNotHeard | control/core.rs:541-594 | two successful drains hand on and save the same bytes when the same was written until the worker was reaped, whatever follows and however the reads are cut |
| WorkerStderr.Capture | control/core.rs:486-504 | keeps the first bytes up to the limit, or fails exactly when there are more |
| TerminalInput.Session.WriteInput | control/terminal_session.rs:207-219 | accepts the whole write or refuses it whole with its count |
| TerminalInput.Session.CloseInput | control/terminal_session.rs:197-206 | closes, and reports the exact number of undelivered bytes |
| TerminalInput.Session.FlushInput | control/terminal_session.rs:508-529 | moves written bytes off the front of the queue, or closes after a failed write |
| TerminalInput.Session.InterruptInput | control/terminal_session.rs:241-259 | discards the queue and reports its exact size |
| TerminalInput.InputIsConserved | control/terminal_session.rs:174-259 | over every run, accepted bytes are in order sent, queued or in a discard with its exact count; the queue keeps its limit and is empty once closed |
| TerminalInput.WritesAreAcceptedWhole | control/terminal_session.rs:207-219 | over every run, a write is accepted if and only if the session is open and the queue stays within 4 MiB |
| TerminalInput.ClosesExactly | control/terminal_session.rs:197-259 | over every run, a session is closed if and only if it exited or a write of queued bytes failed |
| TerminalInput.FlushesEmptyTheQueue | control/terminal_session.rs:508-529 | while the terminal takes writes, everything queued is sent and nothing is lost |
| TerminalInput.ClosingIsFinal | control/terminal_session.rs:197-219 | after closing nothing is accepted or sent |
| TerminalInput.LossesAddUp | control/terminal_session.rs:197-259 | over every run, what was accepted and neither sent nor is queued is as many bytes as the reports of losses say, and the terminal reads the whole input in order if and only if they say none |
| TerminalInput.EveryLossIsReported | control/terminal_session.rs:197-259 | over every run, each loss was the reported error right after the step that caused it |
| ClusterKinds.Kinds.IsWanted | control/cluster_kinds.rs:120-127 | a lookup is wanted for a new target or after a failed or partial listing |
| ClusterKinds.Kinds.Begin | control/cluster_kinds.rs:131-147 | issues the next ticket and keeps a failed listing of the same target |
| ClusterKinds.Kinds.Finish | control/cluster_kinds.rs:150-157 | takes a listing exactly for the running ticket, and only once |
| ClusterKinds.Kinds.Retarget | control/cluster_kinds.rs:160-167 | forgets other targets and tells whether a running lookup was dropped |
| ClusterKinds.Kinds.Offered | control/cluster_kinds.rs:170-189 | the words of the last listing of the target |
| KindsLookup.EveryRunKeepsInvariant | control/tui.rs:305-346 | tickets, queue, task and record agree in every run, with aborts that come too late |
| KindsLookup.OfferedKindsAreTheTargetsOwn | control/cluster_kinds.rs:116-194 | in every run, what is listed for a target was found by a lookup of that target; idle means no target; a retried listing carries a failure |
| KindsLookup.ATicketSucceedsOnce | control/cluster_kinds.rs:150-157 | no ticket is taken twice, and a delivery succeeds exactly for the ticket waited for |
| KindsLookup.ARunningLookupIsNeverLost | control/tui.rs:305-346 | a running ticket has its task live or its message queued |
| KindsLookup.MovingForgets | control/cluster_kinds.rs:160-167 | moving within a target changes nothing, to another one forgets the listing and lets the running task go |
| KindsLookup.OpeningLooksUp | control/cluster_kinds.rs:120-147 | opening the completion leaves a lookup of the target running unless it is completely listed, and goes on listing what was listed |
| KindsLookup.QueuedLookupFinishes | control/tui.rs:970-972 | delivering the queue up to its message finishes the lookup with what it found |
| KindsLookup.NothingOfAnotherTarget | control/cluster_kinds.rs:160-194 | after any run and a retargeting, until the next one, nothing of another target is running or listed, whatever its late tasks send |
| KindWords.PluralHasNoDot | control/cluster_kinds.rs:368-370 | a plural is its own plural |
| KindWords.WordsAreUnique | control/cluster_kinds.rs:324-366 | no two lines share a word, and a bare plural is never another line's name |
| KindWords.WordsAreShortened | control/cluster_kinds.rs:324-366 | a name is offered as its plural if and only if no other line has that plural |
| KindWords.ShorterWordsComeFirst | control/cluster_kinds.rs:324-366 | the order: shorter words first, then by the first character that differs |
| KindWords.WordsAreNames | control/cluster_kinds.rs:375-393 | every word is itself a resource name |
| KindWords.Words | control/cluster_kinds.rs:324-366 | accepts exactly text that is empty or whole lines of names, and gives the ordered list of their words; a refusal names the first wrong line |
| KindWords.WordListsAreBijective | control/cluster_kinds.rs:324-366 | as many words as distinct lines, each a name, and a word that is a line stands for that line |
| KindWords.WordsDependOnTheLinesOnly | control/cluster_kinds.rs:324-366 | the list depends only on the set of lines |
| Preferences.RememberInList | control/preferences.rs:287-299 | the list operations refine `Remembered` and keep at most 32 |
| Preferences.RecentListRefinesItsHistory | control/preferences.rs:280-305 | remembering targets one by one gives the first 32 distinct ones, the most recent first |
| Preferences.ByLastUseIsTheOrderOfLastUses | control/preferences.rs:280-305 | that order holds exactly the targets of the history, by their last use |
| Preferences.FavoriteToggles | control/preferences.rs:280-305 | a second mark takes the first one back, except the favorite that a full list pushed out |
| PreferenceUpdates.StepKeepsInvariant | control/preferences.rs:129-168 | whoever is in the critical section holds the lock, and is about to write its change of the present document |
| PreferenceUpdates.NoCommittedUpdateIsLost | control/preferences.rs:253-305 | in every interleaving the document is the committed updates applied in the order of their renames |
| PreferenceUpdates.ReplayedRecentList | control/preferences.rs:253-305 | the recent list of a replay refines the history since the document was last written from scratch |
| PreferenceUpdates.RecentListOfEveryRun | control/preferences.rs:253-305 | starting without recent targets, after every run it is the first 32 distinct committed ones, without duplicates |
| PreferenceUpdates.FieldsOfEveryRun | control/preferences.rs:253-305 | after every run the document holds the last saved workspace and the favorites marked and not taken back |
| PreferenceUpdates.AnUpdateGoesThrough | control/preferences.rs:129-168 | an update that finds the lock free is written and committed, or refused without a trace; one that finds it taken changes nothing |
| WordWrap.BreakRows | control/tui_state.rs:1612-1631 | the nested loops terminate and refine `RowsFrom` |
| WordWrap.WrapWords | control/tui_state.rs:1598-1645 | the wrapped line is the spans of those rows, or one empty row |
| WordWrap.SpansKeepCells | control/tui_state.rs:1635-1645 | the spans of a row are its characters in their styles, merged |
| WordWrap.RowsFit | control/tui_state.rs:1612-1631 | every row fits the width unless it is one character that does not |
| WordWrap.RowsTile | control/tui_state.rs:1612-1631 | the rows in order are the text, with at most one space dropped at a break |
| WordWrap.RowsAreFull | control/tui_state.rs:1612-1631 | no later space of a row's text was in reach, and a row broken inside a word holds no space to break at |
| WordWrap.CellsShowText | control/tui_state.rs:1598-1611 | the cells are the line's characters in their styles, with a space for each control character |
| WordWrap.WordsAreBrokenOnlyInTraps | control/tui_state.rs:1595-1631 | in text without leading or doubled spaces, some word that fits a row is broken if and only if there is a trap |
| WordWrap.WordsStayWhole | control/tui_state.rs:1595-1631 | without a character wider than the row every fitting word stays whole |
| WordWrap.AFittingWordIsBroken | control/tui_state.rs:1595-1631 | a concrete text in which a word of one column is cut in rows of one |
| WordWrap.StartsAreRows | control/tui_state.rs:1612-1631 | the row starts of these statements are those of the rows |

## Left out

- The C core, process spawning, signals, PTY calls, sockets, HTTP and cluster clients: only the steps they trigger are modelled, as choices of the environment.
- Drawing, colors, help and key tables, confirmation wording, recognition of CLI errors, `Request::validate` and the capabilities schema: case tables with little behind each branch.
- JSON and UTF-8 decoding: rows, documents and answers are values, a text that is not UTF-8 is an absent value, and the serialized size of a preferences document is a given predicate.
- Case folding and display width are given functions, on which nothing is assumed but that a space is one column wide.
- Ticket and generation numbers are unbounded; the source's are 64 bits wide.
- The aliases, plugins, header text and resource of `parse` (whether a plugin owns the command is an input), and the error of a missing `HOME`; completion, history and message texts; the offered actions of the menu and the port that a prompt starts with.
- OwnCommand.OwnInspectionIsIdempotent: leaves out the argvs of `logs` and `proxy`, because it fails on some of `logs`; `ReadAlikeIsIdempotent` and `IdempotentExactlyWhenSettled` are what holds of them.
- ScopeDefaults.TypedNamespaceWins: leaves out the argvs of `logs` and `proxy`, because it fails on some of `logs`; `TypedScopeWinsExactly` is what holds of them.
- DockerScope.TypedTargetWins: speaks of argvs with a command; `connections` picks nothing from an argv without one.
- Failing disks, file ownership checks, links and case-insensitive file systems in extraction and preferences; panics of tasks.
- SessionLabel.SessionSummary: takes the inspected argv, which `Inspect` computes, as its input.
- Actions.Build: what the guarded deletion and restart make of a row, and the labels of a workload's selector, are inputs of the row.
- Actions.PortForward: takes the typed ports already split at white space.
- Jobs.Job.FinishMutation: the JSON record of an unknown outcome is the request and its error; the log of a change is counted in characters where the source counts bytes.
- Selection.State.Accept: does not cut a log at 1 MiB and does not rebuild an open row detail; neither reads or changes the selection.
- Selection.SelectionStaysInside: opening another view, saving and restoring one, and the key that toggles the container list, which select the first index outright, are no events of a run.
- Jobs.Job.StartReload: the results that a reload drops are those of `Selection.State.InvalidateResults`; a confirmation and a port prompt that it closes are not modelled.
- TuiRun.RefreshKeepsReads: assumes that the displayed request is a read, which `State::view` ensures; a refresh of a change is not modelled.
- TuiRun.NoStaleReadIsAccepted: what the accepted result changes besides the loading marks is modelled in `Selection`.
- Unpacking.Extract: reads the same entries in both passes, as the source does by keeping the file open; what a failing read leaves behind is not modelled.
- KindWords.Words: collects sets in any order where the source's sets are sorted; the result is ordered at the end in both.
- PreferenceUpdates.NoCommittedUpdateIsLost: a rename counts as committed even if the directory cannot be synced afterwards, where the source reports an error.
