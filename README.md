# YARN ResourceManager log analyser and CSV record parser, in Dafny

This project models three parts of the repository.

- **The ResourceManager log analyser** (`diag/rmclasses.py`, `diag/rmlog.py`). It reads a log file line by line.
  - Each line that fits the log-line grammar becomes a `LogMsg` record.
  - Records from `RMAppImpl`, `RMContainerImpl` and `SchedulerNode` update three registries:
    - applications, keyed by id;
    - containers, keyed by id;
    - nodes, keyed by address.
  - Runs of lines that are not log lines are collected as `YException` blocks.
  - A block is either a thread dump or an error. Some errors are ignored.
- **The configuration checks** (`diag/checks.py`). They test the memory and vcores bounds of a Hadoop configuration dictionary.
- **The CSV record parser operator** (`FileToJdbcApp/.../CustomParser.java`).
  - It splits a line with `[\p{Punct}\s]+`.
  - It turns the first three tokens into a `PojoEvent`: account number, name, amount.

Modules:

- `Base`: `Option`, `Result` (a value, or Python's ValueError), character classes, Python's `int()` on a string, and substring search.
- `Shapes`: a recogniser for the regular expressions the analyser applies with `re.match`. Every one of them is a leading literal, then captured one-or-more runs of a character class, each followed by a literal.
  - `MatchSound` and `MatchComplete` prove that the recogniser returns exactly the groups `re.match` gives, for patterns whose runs cannot swallow the literal that follows them (all the patterns used here).
- `RmClasses`: the value classes `LogMsg`, `Container`, `Application`, `Attempt`, `Node`, `Event`, `YException`. Their constructors return `Result`s.
- `RmModel`: the reference definition of `processLog` on the three registries (`ProcessLog`), and of the main loop (`Run`).
- `RmRegistryProps`: the effect of each kind of record, the registry invariant `WellFormed` that `processLog` keeps, and the fact that the registries only grow.
- `RmPassProps`: the invariant of the main loop, which blocks each line adds to the errors and thread dumps, and when the loop can stop early.
  - `ThrDumpsWrap` shows that a thread dump can only come from a run that starts at line 0. `YException` tests `\d+ active threads` against the first line of its block (diag/rmclasses.py:279). For every run opened after line 0, that line is the log line before the run (diag/rmlog.py:74), and a log line starts with its timestamp. Only the run opened at line 0 starts with `lines[-1]`, the last line of the file.
- `RmLog`: the class `RMLogFile`. Its fields are updated in place by `AddApp`, `ProcessLog` and the constructor's loop. Every method's postcondition ties the new state to the `RmModel` function for the same step.
- `Checks`: `check`, `chkMem` and `chkCore` as written, plus a corrected memory check (see Findings).
- `CustomParser`: Java's `Pattern.split` with the default separator class, `Integer.parseInt` with its error path, and the class `CustomParserOperator` with `setRegexStr`, `setup` and `process`.

Python exceptions are modelled as follows:

- A raised ValueError is the `ValueError` case of `Result`, or the `Raised` case of `RmModel.Outcome`.
- Any other exception, which leaves the constructor of `RMLogFile`, is `Aborted`. In the class, `aborted` is set.

Java's `ArrayIndexOutOfBoundsException` (fewer than three tokens) and `NullPointerException` (`process` before `setup`) are outcomes of `Process` that emit nothing.

Where the code and its comments or documentation differ, the model follows the code:

- A run of failed lines still open at the end of the file is never turned into a `YException` (rmlog.py:53-78 only closes a run when a log line follows). The model keeps it out of `errors`.
- A ValueError raised by `processLog`, not only by `LogMsg`, makes that line join the current run of failed lines, even though the line was already appended to `logs` (rmlog.py:55-78).
- For the first line, the "previous line" put in front of a run is `lines[-1]`, the last line of the file (rmlog.py:74).
- A container already linked to another host does not raise the ValueError at rmlog.py:174. Formatting its message reads `c.node.host` on a string, which raises AttributeError, so the constructor is left (`Aborted`).
- `Node` accepts any port `int()` accepts, including a signed one such as `host:-1` (rmclasses.py:205). There is no range check.
- `chkMem` never reports `maximum < minimum` for a configuration keyed by strings (checks.py:19; see Findings).

## Model

| member | source | states |
|---|---|---|
| Base.LastIndex | diag/rmclasses.py:201-204 | `rindex`: the result holds `c`, no later index does, and None exactly when `c` does not occur |
| Base.Find | diag/rmclasses.py:306-310 | the first occurrence at or after `from`, with no occurrence before it; None when there is none |
| Base.ContainsIff | diag/rmclasses.py:307-310 | Python's `frag in s` holds iff `frag` occurs at some index of `s` |
| Base.TrimLeft | diag/rmclasses.py:205 | `int()` strips leading whitespace: the result is a suffix of the input that does not start with whitespace |
| Base.TrimRight | diag/rmclasses.py:205 | `int()` strips trailing whitespace: the result is a prefix of the input that does not end with whitespace |
| Base.DecimalRoundTrip | diag/rmclasses.py:205 | the decimal text of `n` reads back as `n` |
| Base.PyIntOfNumeral | diag/rmclasses.py:205 | `int()` of a run of digits is its decimal value |
| Base.PyIntNeedsDigit | diag/rmclasses.py:205 | `int()` of a text with no digit raises ValueError |
| Shapes.RunLength | diag/rmclasses.py:77 | a greedy `\d+`-style run: the longest prefix of the class, the next character outside it |
| Shapes.MatchSound | diag/rmclasses.py:77-79 | a match gives non-empty groups of the right classes, the filled-in pattern is a prefix of the text, and the last run is maximal |
| Shapes.MatchComplete | diag/rmclasses.py:77-79 | when no run can swallow the literal after it, any fitting groups make the pattern match, and greedy groups are exactly the match |
| Shapes.StepsSound | diag/rmclasses.py:77 | soundness of the run-by-run matcher, by induction on the steps |
| Shapes.StepsComplete | diag/rmclasses.py:77 | completeness of the run-by-run matcher, by induction on the steps |
| Shapes.GreedyAtEnd | diag/rmclasses.py:77-79 | a filled-in pattern, on its own, is matched greedily |
| RmClasses.SplitLevel | diag/rmclasses.py:37 | a level split off the text is one of ERROR, WARN, INFO, DEBUG followed by a blank |
| RmClasses.SplitLevelComplete | diag/rmclasses.py:37 | every level followed by a blank is split off |
| RmClasses.SplitOrigin | diag/rmclasses.py:38 | an origin split off is a non-empty run of word characters, dots and dollars followed by `": "` |
| RmClasses.SplitOriginComplete | diag/rmclasses.py:38 | every such origin followed by `": "` is split off |
| RmClasses.LogMsgSound | diag/rmclasses.py:36-61 | a parsed line is timestamp, level, origin and a non-empty one-line message, joined as the pattern joins them |
| RmClasses.LogMsgComplete | diag/rmclasses.py:36-61 | every line of that grammar parses to exactly its four parts (round trip) |
| RmClasses.ContainerParsed | diag/rmclasses.py:88-119 | a parsed container keeps its name, has no states and no node, has digit fields, uses the plain form iff that matches, and its fields rebuild a prefix of the name |
| RmClasses.ContainerRejected | diag/rmclasses.py:97-106 | ValueError exactly when neither `container_` form with digit fields is a prefix of the name |
| RmClasses.PlainFormComplete | diag/rmclasses.py:98 | any plain container id at the start of a name makes the first pattern match |
| RmClasses.EpochFormComplete | diag/rmclasses.py:102 | any epoch container id at the start of a name makes the second pattern match |
| RmClasses.ContainerFullAppIdParses | diag/rmclasses.py:121-123 | `getFullAppId` of a parsed container is a valid application id with the container's cluster and app fields |
| RmClasses.ApplicationParsed | diag/rmclasses.py:132-150 | a parsed application has digit fields rebuilding a prefix of its name; ValueError iff no `application_D_D` prefix exists |
| RmClasses.ApplicationNameRoundTrip | diag/rmclasses.py:132-142 | parsing `application_{cluster}_{app}` gives back exactly those fields |
| RmClasses.AddContainer | diag/rmclasses.py:152-156 | `addContainer` adds the id to the application's set and changes nothing else |
| RmClasses.AddContainerIdempotent | diag/rmclasses.py:155 | adding a container twice is the same as adding it once |
| RmClasses.AttemptParsed | diag/rmclasses.py:173-184 | a parsed attempt has digit fields rebuilding a prefix of its name; ValueError iff no `appattempt_D_D_D` prefix exists |
| RmClasses.AttemptFullAppIdParses | diag/rmclasses.py:186-188 | `getFullAppId` of a parsed attempt is a valid application id |
| RmClasses.NodeSplit | diag/rmclasses.py:195-205 | for an address split at its last colon: parsed iff it has no whitespace and `int()` accepts the port; host is the text before the colon |
| RmClasses.NodeRejected | diag/rmclasses.py:196-202 | an empty address, one with whitespace, or one without a colon raises ValueError |
| RmClasses.NodeParsed | diag/rmclasses.py:200-211 | a parsed node keeps its address, its host is the text before the last colon, the port is `int()` of the rest, and it starts with no events and no containers |
| RmClasses.EventFromGroups | diag/rmclasses.py:255-264 | the nine groups become the event's fields in order, with the record's timestamp |
| RmClasses.EventGroupsFit | diag/rmclasses.py:225-240 | the groups fit the pattern iff the fields have the shapes the pattern captures |
| RmClasses.EventFill | diag/rmclasses.py:225-240 | filling the pattern with an event's fields gives that event's message text |
| RmClasses.EventSound | diag/rmclasses.py:244-264 | a recognised event's text is a prefix of the message and its fields fit the pattern |
| RmClasses.EventComplete | diag/rmclasses.py:244-264 | an event whose text starts the message is exactly what is recognised (round trip) |
| RmClasses.EventAbsent | diag/rmclasses.py:249-252 | no event is recognised iff no well-shaped event text starts the message |
| RmClasses.LeadExcludes | diag/rmclasses.py:245-249 | a `Released` message never matches the `Assigned` pattern, so the two branches never overlap |
| RmClasses.NewYException | diag/rmclasses.py:274-279 | an empty list raises ValueError; otherwise the lines are kept and the range is `[first, first + len]` |
| RmClasses.ThreadDumpIff | diag/rmclasses.py:269-279 | a block is a thread dump iff its first line starts with digits followed by `" active threads"` |
| RmClasses.IgnoreIff | diag/rmclasses.py:284-312 | `ignore` raises on a block of fewer than two lines; otherwise true iff its second line contains the banner or `capacity = ` |
| RmClasses.LogLineNotThrDump | diag/rmclasses.py:279 | a block whose first line is a log line is never a thread dump, because the timestamp's `-` after four digits cannot continue `\d+ active threads` |
| RmModel.Advance | diag/rmlog.py:106-116 | a state list is seeded with `[from, to]` or extended by `to` after a matching last state; otherwise ValueError |
| RmModel.AddApp | diag/rmlog.py:84-93 | the map gains `id` and keeps every other entry; a new entry is the parsed application; ValueError iff the id is new and unparsable |
| RmClasses.AddNodeContainer | diag/rmclasses.py:213-217 | `Node.addContainer` adds the id to the node's set and nothing else |
| RmModel.TransitionSound | diag/rmlog.py:19-27 | a matched transition names three words that rebuild a prefix of the message, and the last word is maximal |
| RmModel.TransitionComplete | diag/rmlog.py:19-27 | any three words that start the message are exactly what is matched |
| RmRegistryProps.EmptyWellFormed | diag/rmlog.py:39-41 | the empty registries satisfy the registry invariant |
| RmRegistryProps.OneHostPerContainer | diag/rmlog.py:170-175 | two nodes with non-empty hosts sharing a container have the same host |
| RmRegistryProps.GrowsReflexive | diag/rmlog.py:95-175 | every registry grows into itself |
| RmRegistryProps.GrowsTransitive | diag/rmlog.py:53-78 | growth over one line composes over many lines |
| RmRegistryProps.AppTransitionEffect | diag/rmlog.py:98-116 | an application transition succeeds iff the app exists or parses and its last state is `from`; on success only that app's states change, as seeded or extended; on ValueError nothing changes |
| RmRegistryProps.ContainerTransitionEffect | diag/rmlog.py:118-147 | a container transition succeeds iff the container exists or parses and its last state is `from`; on success its states change, it is attached to its application, and no other container changes |
| RmRegistryProps.NonEventIgnored | diag/rmlog.py:149-152 | a SchedulerNode message that is not an event changes nothing |
| RmRegistryProps.ProcessLogPreserves | diag/rmlog.py:95-175 | `processLog` keeps the registry invariant and only grows the registries, unless it aborts |
| RmRegistryProps.AppTransitionPreserves | diag/rmlog.py:98-116 | an application transition keeps the invariant and only grows the registries |
| RmRegistryProps.ContainerTransitionPreserves | diag/rmlog.py:118-147 | a container transition keeps the invariant and only grows the registries |
| RmRegistryProps.AdvanceContainerPreserves | diag/rmlog.py:127-147 | the same, once the container is found or made |
| RmRegistryProps.AttachPreserves | diag/rmlog.py:143-146 | storing the container and adding it to its application keeps the invariant |
| RmRegistryProps.RecordEventPreserves | diag/rmlog.py:149-175 | an allocation or release event keeps the invariant and only grows the registries, unless it aborts |
| RmRegistryProps.LinkContainerPreserves | diag/rmlog.py:164-175 | linking a container and its node keeps the invariant unless the hosts differ |
| RmRegistryProps.LinkContainerEffect | diag/rmlog.py:170-175 | the pass aborts iff the container is already linked to another host; a ValueError is never raised; otherwise the node gains the container, an unlinked container is linked to the node's host, and nothing else changes |
| RmRegistryProps.LinkEventEffect | diag/rmlog.py:164-175 | ValueError iff the container id is new and does not parse, leaving the registries unchanged; abort iff the container found or made is linked to another host; otherwise the node gains the container, the container keeps its states and is linked to the node's host, and nothing else changes |
| RmRegistryProps.RecordEventOutcome | diag/rmlog.py:149-175 | an event raises ValueError iff the node address or the container id is new and does not parse, and aborts iff the container is linked to another host; after a ValueError the applications and containers are unchanged, and the node, if found or made, already holds the event |
| RmRegistryProps.RecordEventEffect | diag/rmlog.py:149-175 | on success the node holds its earlier events plus this one and its earlier containers plus this one, keeps its host; the container is linked to that host and keeps its states; no other node, container or application changes |
| RmRegistryProps.AppendEventEffect | diag/rmlog.py:161-175 | the success case for the node found or made: the same effect, stated for any node with the registry's events and containers for its address |
| RmRegistryProps.NodeBefore | diag/rmlog.py:156-160 | the node found or made for an address carries exactly the events and containers the registry had for it |
| RmRegistryProps.ContainerBefore | diag/rmlog.py:164-168 | the container found or made for an id carries exactly the states the registry had for it |
| RmRegistryProps.GotNode | diag/rmlog.py:156-160 | the node found or made for an address has that address, only its events, and the node's registered containers |
| RmRegistryProps.GotContainer | diag/rmlog.py:127-143 | the container found or made for an id has that id, digit fields, its registered states, and a valid application id |
| RmPassProps.Records | diag/rmlog.py:53-56 | `logs` never holds more records than the file has lines |
| RmPassProps.RecordsFromLines | diag/rmlog.py:55-56 | every record in `logs` is the parse of some line of the file |
| RmPassProps.RecordsStep | diag/rmlog.py:55-56 | one more line adds its record exactly when it parses |
| RmPassProps.InitialInv | diag/rmlog.py:39-51 | the loop invariant holds before the first line |
| RmPassProps.FailExtends | diag/rmlog.py:73-78 | a failed line starts a run with the line before it, or extends the open run |
| RmPassProps.FlushCloses | diag/rmlog.py:58-67 | under the loop invariant, a log line after a run never ends the pass; it empties the run, keeps every collected block a block of the file, and leaves registries and `logs` alone |
| RmPassProps.RunBlock | diag/rmlog.py:58-63 | the block an open run closes into at log line `i` is the line before the run followed by the lines up to `i`, ends at `i`, and has at least two lines, so `ignore()` answers |
| RmPassProps.FlushEffect | diag/rmlog.py:58-67 | closing a run makes a block of exactly its lines and range, appended to the thread dumps iff it starts a thread dump, to the errors iff it is not a thread dump and not ignorable, and nowhere otherwise; the pass stops iff the block is a one-line non-thread-dump; nothing else changes |
| RmPassProps.StepCollects | diag/rmlog.py:53-78 | after any line that does not end the pass, the run is empty iff the line was processed normally; a closed run's block is appended as `Flush` decides, and otherwise the errors and thread dumps are unchanged |
| RmPassProps.RunCollects | diag/rmlog.py:53-78 | along the pass, the errors and thread dumps after `n + 1` lines are those after `n` lines plus exactly the block line `n` closes, if any |
| RmPassProps.StepWrapOnly | diag/rmlog.py:58-78 | one line keeps three facts: every thread dump starts at line -1; an open run that started later begins with a log line; after a line that leaves no run, that line was a log line |
| RmPassProps.ThrDumpsWrap | diag/rmlog.py:53-78 | after any number of lines, every collected thread dump has `line_range[0] == -1`: it is the run opened at line 0, which starts with the last line of the file |
| RmPassProps.StepPreserves | diag/rmlog.py:53-78 | one iteration keeps the loop invariant: registries well formed, `logs` are the records so far, the open run and every closed block are as the file says, and the registries only grow |
| RmPassProps.RunInvariant | diag/rmlog.py:53-78 | after any number of lines, the loop invariant holds |
| RmPassProps.RunStep | diag/rmlog.py:53-78 | one more line is one more iteration of the loop body |
| RmPassProps.StoppedStays | diag/rmlog.py:53-78 | once an exception leaves the loop, no later line is processed |
| RmPassProps.RunGrows | diag/rmlog.py:53-78 | the registries after a line extend the registries before it |
| RmPassProps.StopsOnlyOnAbort | diag/rmlog.py:55-67 | the loop stops early only on a log line whose `processLog` raises something other than ValueError |
| RmLog.RMLogFile.AddApp | diag/rmlog.py:84-93 | updates `applications` exactly as `RmModel.AddApp`, returns the stored application, and changes nothing else |
| RmLog.RMLogFile.AppTransition | diag/rmlog.py:98-116 | the registries and the status become those of the reference application transition |
| RmLog.RMLogFile.ContainerTransition | diag/rmlog.py:118-147 | the registries and the status become those of the reference container transition |
| RmLog.RMLogFile.AdvanceContainer | diag/rmlog.py:127-147 | the same, once the container is found or made |
| RmLog.RMLogFile.RecordEvent | diag/rmlog.py:149-175 | the registries and the status become those of the reference event step |
| RmLog.RMLogFile.LinkEvent | diag/rmlog.py:164-175 | the registries and status become those of the reference step; ValueError iff the container id is new and does not parse; a non-ValueError exception iff the container is linked to another host; on success the node gains the container, which is linked to its host and keeps its states |
| RmLog.RMLogFile.LinkContainer | diag/rmlog.py:170-175 | the registries and status become those of the reference step; a non-ValueError exception iff the container is linked to another host, never a ValueError; on success exactly the node's container set and the container's link change |
| RmLog.RMLogFile.ProcessLog | diag/rmlog.py:95-175 | the registries and the status become those of `RmModel.ProcessLog`; `logs`, `errors`, `thr_dumps` are untouched |
| RmLog.RMLogFile.TakeLine | diag/rmlog.py:54-78 | one iteration of the loop moves the object and the open run to the reference step, stops exactly when that step stops, and otherwise adds to `errors` and `thr_dumps` exactly the block it closes, as `Flush` decides |
| RmLog.RMLogFile.Failed | diag/rmlog.py:73-78 | the `except ValueError` branch extends or starts the run as the reference `Fail` does |
| RmLog.RMLogFile.constructor | diag/rmlog.py:32-78 | after the loop, the object holds the reference pass over all lines, and is aborted exactly when that pass stopped |
| Checks.ChkMem | diag/checks.py:8-25 | missing keys reported in order; then each value error iff its test fails and the earlier ones pass: `max` not an integer, `min` not an integer, the chained `max < min` test, `max < 2048`, `min < 128`; passes iff both bounds hold and the chained test does not fire; for string keys, passes iff both bounds hold, and `max < min` is never reported |
| Checks.MemValues | diag/checks.py:16-25 | for each error, reported iff its test fails and the earlier ones pass, in the order of the source: `max` not an integer, `min` not an integer, the chained test (`max < min` and `min` is itself a key), `max < 2048`, `min < 128`; passes iff none fires |
| Checks.ChkMemIntended | diag/checks.py:19-21 | the corrected check reports `max < min` iff the maximum is below the minimum, and passes iff the bounds hold and `min <= max` |
| Checks.MemValuesIntended | diag/checks.py:19-25 | the corrected value stage passes iff both bounds hold and `min <= max`; `max < 2048` and `min < 128` are reported iff they are the first test to fail |
| Checks.ChkCore | diag/checks.py:27-52 | missing keys reported in order; then each value error iff its test fails and the earlier ones pass: the three not-an-integer tests, `max < min`, `max < 4`, `vcores < 4`, `min > vcores`; passes iff none fires |
| Checks.CoreValues | diag/checks.py:39-52 | each error reported iff its test fails and the earlier ones pass, in the source's order: the three not-an-integer tests, `max < min`, `max < 4`, `vcores < 4`, `min > vcores`; passes iff none fires |
| Checks.Check | diag/checks.py:3-6 | a memory error, if any, is the one reported, otherwise the vcore error of `chkCore`; passes iff the memory bounds hold, the chained test does not fire and the vcore bounds hold (for string keys: iff both sets of bounds hold) |
| Checks.CheckIntended | diag/checks.py:3-6 | the corrected memory error, if any, is the one reported, otherwise the vcore error; passes iff both sets of bounds hold with `min <= max` |
| Checks.ChkMemAgreement | diag/checks.py:19 | when `min <= max`, the check as written and the corrected check agree |
| Checks.MemOrderGap | diag/checks.py:19 | with string keys and values within bounds but `max < min`, the check as written passes where the corrected one fails |
| Checks.MemOrderUnchecked | diag/checks.py:19 | concrete input: maximum 4096 and minimum 8192 pass the check as written |
| CustomParser.WordEnd | FileToJdbcApp/src/main/java/com/example/FileToJdbcApp/CustomParser.java:32 | the end of the word starting at `i` lies in range, and is past `i` when `i` does not start with a separator |
| CustomParser.WordEndSpec | FileToJdbcApp/src/main/java/com/example/FileToJdbcApp/CustomParser.java:32 | a word holds no separator and ends at a separator or at the end |
| CustomParser.SepEndSpec | FileToJdbcApp/src/main/java/com/example/FileToJdbcApp/CustomParser.java:32 | `[\p{Punct}\s]+` matches a maximal run of separators |
| CustomParser.PiecesSpec | FileToJdbcApp/src/main/java/com/example/FileToJdbcApp/CustomParser.java:46 | the pieces of a split hold no separator, and every piece but the first and last is non-empty |
| CustomParser.GapsSpec | FileToJdbcApp/src/main/java/com/example/FileToJdbcApp/CustomParser.java:46 | there is one gap fewer than pieces, and each gap is a non-empty run of separators |
| CustomParser.PiecesRejoin | FileToJdbcApp/src/main/java/com/example/FileToJdbcApp/CustomParser.java:46 | the pieces interleaved with the gaps give back the line |
| CustomParser.DropTrailingEmpty | FileToJdbcApp/src/main/java/com/example/FileToJdbcApp/CustomParser.java:46 | the result is a prefix whose last element is non-empty, and only empty strings were dropped |
| CustomParser.SplitTokens | FileToJdbcApp/src/main/java/com/example/FileToJdbcApp/CustomParser.java:46 | the tokens hold no separator, all but a leading one are non-empty, and they are a prefix of the pieces |
| CustomParser.JavaParseInt | FileToJdbcApp/src/main/java/com/example/FileToJdbcApp/CustomParser.java:49-62 | a parsed value lies in the 32-bit range |
| CustomParser.TokenParse | FileToJdbcApp/src/main/java/com/example/FileToJdbcApp/CustomParser.java:49-62 | a token parses iff it is a run of digits of value at most 2147483647; the value is its decimal value |
| CustomParser.ParseDecimal | FileToJdbcApp/src/main/java/com/example/FileToJdbcApp/CustomParser.java:50 | the decimal text of any 32-bit non-negative number parses back to it |
| CustomParser.ProcessLine | FileToJdbcApp/src/main/java/com/example/FileToJdbcApp/CustomParser.java:46-63 | a record is produced iff the split yields at least three tokens |
| CustomParser.EventFields | FileToJdbcApp/src/main/java/com/example/FileToJdbcApp/CustomParser.java:46-63 | the name is the second token, non-empty and free of separators; each number is the decimal value of its token (first or third) when that token is a numeral within `Integer.MAX_VALUE`, and 0 otherwise |
| CustomParser.RecordRoundTrip | FileToJdbcApp/src/main/java/com/example/FileToJdbcApp/CustomParser.java:46-63 | `account,name,amount` written in decimal is parsed back to the same record |
| CustomParser.ThreeTokens | FileToJdbcApp/src/main/java/com/example/FileToJdbcApp/CustomParser.java:46 | three separator-free words joined by commas split into exactly those three words |
| CustomParser.CustomParserOperator.constructor | FileToJdbcApp/src/main/java/com/example/FileToJdbcApp/CustomParser.java:34-35 | a new operator has no regex, no pattern and has emitted nothing |
| CustomParser.CustomParserOperator.SetRegexStr | FileToJdbcApp/src/main/java/com/example/FileToJdbcApp/CustomParser.java:71-73 | stores the regex and changes nothing else |
| CustomParser.CustomParserOperator.Setup | FileToJdbcApp/src/main/java/com/example/FileToJdbcApp/CustomParser.java:76-83 | the pattern becomes the default separators when no regex is set, else the configured regex |
| CustomParser.CustomParserOperator.Process | FileToJdbcApp/src/main/java/com/example/FileToJdbcApp/CustomParser.java:43-64 | without a pattern: a null pointer outcome, nothing emitted; with the default: emits exactly `ProcessLine(line)` when it exists, otherwise an index-out-of-bounds outcome and nothing emitted |

## Left out

- The `LogFileMeta` class, logging, `print`, and the `dump*` methods: they only produce output.
- `str.splitlines` is not modelled: the constructor takes the list of lines.
- Dictionary iteration order is not modelled: the registries are maps.
- The `dateutil` timestamp parse is not modelled.
- `Event.__init__` leaves an object without `type` when neither pattern matches. This is modelled as `None`.
- `Container.epoch` is absent on plain ids; this is modelled as `Option`.
- The Python objects stored in the registries are shared, and `app.containers` / `node.containers` hold references to them. The model stores container ids instead of references. The registry holds the one container object for each id, so every lookup through an id sees the current container.
- Strings are sequences of characters. Python 2 byte-string semantics are assumed for `\w`, `\d` and `\s`, with no locale or Unicode flag.
- `int()` tolerating whitespace between the sign and the digits is not modelled. This is a Python 2 quirk.
- Configuration values are strings. Non-string values handed to `int()` are not modelled.
- `CustomParser.CustomParserOperator.Process`: does not model a configured regular expression. It requires that no custom regex has been set up, because general Java regular expressions are out of scope.
- `Integer.parseInt` accepting non-ASCII decimal digits is not modelled (`Character.digit` accepts them). Only ASCII digits are.
- The operator's output port, the Apex/DataTorrent framework, and `getRegexStr` (a plain getter) are not modelled.
- Any exception other than ValueError raised during the `RMLogFile` constructor leaves the constructor. The model keeps the object with `aborted` set. The registries are then left unspecified, since Python discards the object.
- `RmModel.ProcessLog`, `RmModel.Run` and the other reference functions carry no postconditions of their own. Their properties are the `RmRegistryProps` and `RmPassProps` lemmas.
- StepPreserves: the loop invariant `PassInv` says only that every collected block is a block of the file (soundness). Whether a line joins a run depends on `processLog`, and so on the registries built so far, so no statement over the lines alone lists the blocks that must be collected. That every closed, non-ignorable block is collected, and nothing else, is stated step by step by `StepCollects`.
- RunInvariant: carries the same soundness-only invariant; completeness along the pass is `RunCollects`, applied line by line.
- constructor: `RMLogFile`'s constructor is tied to `Run`, whose errors and thread dumps are characterised line by line by `RunCollects`, not by a closed-form list.
- RecordEvent: the class method `RmLog.RMLogFile.RecordEvent` is tied to `RmModel.RecordEvent` by `Reflects` only; its outcomes and effect are stated on the reference function by `RecordEventOutcome` and `RecordEventEffect`.

## Findings

| source | as written | input that shows it | evidently intended | confidence | as-written member | corrected member |
|---|---|---|---|---|---|---|
| diag/checks.py:19 | `mem_max < mem_min in dict` is the chain `mem_max < mem_min and mem_min in dict`. With string keys, the integer `mem_min` is never a key, so the test never fires | `{'yarn.scheduler.maximum-allocation-mb': '4096', 'yarn.scheduler.minimum-allocation-mb': '8192'}` passes `chkMem` | report an error when the maximum is below the minimum, as `chkCore` does at line 43 | high (not executed) | Checks.MemOrderUnchecked | Checks.ChkMemIntended |
