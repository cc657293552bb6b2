/** What one pass of `RMLogFile` over the lines of a ResourceManager log
    computes, written as functions over values: `ProcessLog` is the effect of
    one log record on the three registries, `LineStep` the effect of one line on
    the whole parse state, and `Run` the state after the first `n` lines.
    The class in module `RmLog` is proved to compute exactly this. */
module RmModel {
  import opened Base
  import opened Shapes
  import opened RmClasses

  /** The classes whose messages the pass looks at. */
  const AppImpl: string := "org.apache.hadoop.yarn.server.resourcemanager.rmapp.RMAppImpl"
  const ContainerImpl: string := "org.apache.hadoop.yarn.server.resourcemanager.rmcontainer.RMContainerImpl"
  const SchedNode: string := "org.apache.hadoop.yarn.server.resourcemanager.scheduler.SchedulerNode"

  // ------------------------------------------------------------- Transitions

  /** `(\w+) <middle>(\w+) to (\w+)`, matched at the start of the message. */
  function TransitionShape(middle: string): Shape {
    Shape("", [Step(Word, middle), Step(Word, " to "), Step(Word, "")])
  }

  const AppMiddle: string := " State change from "
  const ContainerMiddle: string := " Container Transitioned from "

  datatype Transition = Transition(name: string, from: string, to: string)

  function MatchTransition(middle: string, msg: string): Option<Transition>
  {
    match Match(TransitionShape(middle), msg)
    case Some(g) => Some(Transition(g[0], g[1], g[2]))
    case None => None
  }

  predicate IsWord(s: string) { s != [] && AllIn(s, Word) }

  function TransitionText(middle: string, t: Transition): string {
    t.name + (middle + (t.from + (" to " + t.to)))
  }

  lemma TransitionFill(middle: string, t: Transition)
    ensures Fill(TransitionShape(middle), [t.name, t.from, t.to]) == TransitionText(middle, t)
  {
    var steps := TransitionShape(middle).steps;
    FillStepsCons(steps[2], [], t.to, []);
    FillStepsCons(steps[1], [steps[2]], t.from, [t.to]);
    FillStepsCons(steps[0], [steps[1], steps[2]], t.name, [t.from, t.to]);
    assert [steps[0], steps[1], steps[2]] == steps;
  }

  /** A recognised transition consists of three words that, put into the
      pattern, start the message; the last word is as long as it can be. */
  lemma TransitionSound(middle: string, msg: string)
    requires MatchTransition(middle, msg).Some?
    ensures var t := MatchTransition(middle, msg).value;
      && IsWord(t.name) && IsWord(t.from) && IsWord(t.to)
      && IsPrefix(TransitionText(middle, t), msg)
      && (|TransitionText(middle, t)| < |msg| ==> !IsWordChar(msg[|TransitionText(middle, t)|]))
  {
    var p := TransitionShape(middle);
    var g := Match(p, msg).value;
    var t := MatchTransition(middle, msg).value;
    MatchSound(p, msg);
    assert g == [t.name, t.from, t.to];
    TransitionFill(middle, t);
    assert FillSteps(p.steps, g) == Fill(p, g);
  }

  /** Conversely, when the middle text starts with a blank, any three words
      that start the message in the pattern, the last one maximal, are what
      is recognised. */
  lemma TransitionComplete(middle: string, msg: string, t: Transition)
    requires middle != [] && middle[0] == ' '
    requires IsWord(t.name) && IsWord(t.from) && IsWord(t.to)
    requires IsPrefix(TransitionText(middle, t), msg)
    requires |TransitionText(middle, t)| < |msg| ==> !IsWordChar(msg[|TransitionText(middle, t)|])
    ensures MatchTransition(middle, msg) == Some(t)
  {
    var p := TransitionShape(middle);
    var g := [t.name, t.from, t.to];
    TransitionFill(middle, t);
    assert Fill(p, g) == FillSteps(p.steps, g);
    MatchComplete(p, g, msg);
  }

  /** The rule every state list follows: the first transition seeds
      `[from, to]`; a later one needs the last state to be `from` and
      appends `to`; otherwise ValueError and the list is left alone. */
  function Advance(states: seq<string>, from: string, to: string): (r: Result<seq<string>>)
    ensures r.Ok? <==> states == [] || states[|states| - 1] == from
    ensures r.Ok? ==> |r.value| >= 2 && |states| < |r.value| && r.value[..|states|] == states
    ensures r.Ok? ==> r.value[|r.value| - 1] == to
    ensures r.Ok? && states == [] ==> r.value == [from, to]
    ensures r.Ok? && states != [] ==> |r.value| == |states| + 1
  {
    if states == [] then Ok([from, to])
    else if states[|states| - 1] == from then Ok(states + [to])
    else ValueError
  }

  // ---------------------------------------------------------------- Registry

  /** The three maps of `RMLogFile`. The `containers` of an application or
      a node are keys into `containers`: in Python they hold the very
      object the registry holds for that key, which is never replaced. */
  datatype Registry = Registry(
    applications: map<string, Application>,
    containers: map<string, Container>,
    nodes: map<string, Node>)

  const EmptyRegistry := Registry(map[], map[], map[])

  /** How `processLog` ends: normally, by raising ValueError after the
      changes made so far, or by raising another exception that ends the
      whole pass. */
  datatype Outcome = Done(reg: Registry) | Raised(reg: Registry) | Aborted

  /** `RMLogFile.addApp`: the application for `id`, created on first use. */
  function AddApp(apps: map<string, Application>, id: string): (r: Result<map<string, Application>>)
    ensures r.Ok? ==> id in r.value && r.value.Keys == apps.Keys + {id}
    ensures r.Ok? ==> forall k :: k in apps ==> r.value[k] == apps[k]
    ensures r.Ok? && id !in apps ==> NewApplication(id) == Ok(r.value[id])
    ensures r.ValueError? <==> id !in apps && NewApplication(id).ValueError?
  {
    if id in apps then Ok(apps)
    else match NewApplication(id)
      case Ok(app) => Ok(apps[id := app])
      case ValueError => ValueError
  }

  /** The registry's container for `id`, or a new one. */
  function GetContainer(containers: map<string, Container>, id: string): Result<Container>
  {
    if id in containers then Ok(containers[id]) else NewContainer(id)
  }

  function GetNode(nodes: map<string, Node>, addr: string): Result<Node>
  {
    if addr in nodes then Ok(nodes[addr]) else NewNode(addr)
  }

  /** `not c.node`: no host yet, or the empty host name. */
  predicate Unlinked(c: Container) { c.node.None? || c.node.value == "" }

  /** `RMLogFile.processLog` on one record: only three origins are looked
      at, and only messages of the expected shape change anything. */
  function ProcessLog(reg: Registry, log: LogMsg): Outcome
  {
    if log.origin == AppImpl then
      match MatchTransition(AppMiddle, log.msg)
      case None => Done(reg)
      case Some(t) => AppTransition(reg, t)
    else if log.origin == ContainerImpl then
      match MatchTransition(ContainerMiddle, log.msg)
      case None => Done(reg)
      case Some(t) => ContainerTransition(reg, t)
    else if log.origin == SchedNode then
      match NewEvent(log)
      case None => Done(reg)
      case Some(ev) => RecordEvent(reg, ev)
    else Done(reg)
  }

  /** An application state change: get or create the application, then
      advance its states. */
  function AppTransition(reg: Registry, t: Transition): Outcome
  {
    match AddApp(reg.applications, t.name)
    case ValueError => Raised(reg)
    case Ok(apps) =>
      var app := apps[t.name];
      match Advance(app.states, t.from, t.to)
      case ValueError => Raised(reg.(applications := apps))
      case Ok(states) => Done(reg.(applications := apps[t.name := app.(states := states)]))
  }

  /** A container state change: get or create the container, then go on
      with `AdvanceContainer`. */
  function ContainerTransition(reg: Registry, t: Transition): Outcome
  {
    match GetContainer(reg.containers, t.name)
    case ValueError => Raised(reg)
    case Ok(c) => AdvanceContainer(reg, t, c)
  }

  /** The rest of a container state change, once `c` has been found or
      created: advance its states, store it, then attach it to its
      application (created if need be). */
  function AdvanceContainer(reg: Registry, t: Transition, c: Container): Outcome
  {
    match Advance(c.states, t.from, t.to)
    case ValueError => Raised(reg)
    case Ok(states) =>
      var c' := c.(states := states);
      var containers := reg.containers[t.name := c'];
      var appId := ContainerFullAppId(c');
      match AddApp(reg.applications, appId)
      case ValueError => Raised(reg.(containers := containers))
      case Ok(apps) =>
        Done(Registry(apps[appId := AddContainer(apps[appId], t.name)], containers, reg.nodes))
  }

  /** An allocation or release event: get or create the node and append
      the event, then go on with `LinkEvent`. */
  function RecordEvent(reg: Registry, ev: Event): Outcome
  {
    match GetNode(reg.nodes, ev.nodeAddress)
    case ValueError => Raised(reg)
    case Ok(node) =>
      LinkEvent(reg.(nodes := reg.nodes[ev.nodeAddress := node.(events := node.events + [ev])]), ev)
  }

  /** The rest of an event, once its node holds it: get or create the
      container and go on with `LinkContainer`. */
  function LinkEvent(reg: Registry, ev: Event): Outcome
    requires ev.nodeAddress in reg.nodes
  {
    match GetContainer(reg.containers, ev.containerId)
    case ValueError => Raised(reg)
    case Ok(c) => LinkContainer(reg, ev.nodeAddress, ev.containerId, c)
  }

  /** Put container `c` in the node's set and link it to the node's host;
      a container already linked to another non-empty host ends the pass. */
  function LinkContainer(reg: Registry, addr: string, cid: string, c: Container): Outcome
    requires addr in reg.nodes
  {
    var node := reg.nodes[addr];
    var nodes := reg.nodes[addr := AddNodeContainer(node, cid)];
    if Unlinked(c) then
      Done(Registry(reg.applications, reg.containers[cid := c.(node := Some(node.host))], nodes))
    else if c.node.value != node.host then Aborted
    else Done(Registry(reg.applications, reg.containers[cid := c], nodes))
  }

  // -------------------------------------------------------------- Main loop

  /** The state of the pass between two lines: the registries, the parsed
      records, the closed blocks, and the run of failed lines still open
      (`failed`) with the index recorded for its first line (`first`). */
  datatype Scan = Scan(
    reg: Registry, logs: seq<LogMsg>, errors: seq<YException>, thrDumps: seq<YException>,
    failed: seq<string>, first: int)

  const InitialScan := Scan(EmptyRegistry, [], [], [], [], -1)

  /** The pass either goes on or has been ended by an exception that is not
      a ValueError. */
  datatype Pass = Running(scan: Scan) | Stopped

  /** `lines[i - 1]` with Python's negative index: for the first line it is
      the last line of the file. */
  function PrevLine(lines: seq<string>, i: nat): string
    requires i < |lines|
  {
    if i == 0 then lines[|lines| - 1] else lines[i - 1]
  }

  /** The `except ValueError` branch: line `i` joins the open run, which
      starts with the line before it. */
  function Fail(lines: seq<string>, i: nat, s: Scan): (r: Scan)
    requires i < |lines|
  {
    if s.failed == [] then s.(failed := [PrevLine(lines, i), lines[i]], first := i - 1)
    else s.(failed := s.failed + [lines[i]])
  }

  /** After a line is processed normally: an open run is closed into a block
      that goes to the thread dumps, is dropped as ignorable, or goes to the
      errors. `ignore()` on a one-line block would raise IndexError. */
  function Flush(s: Scan): Pass
  {
    if s.failed == [] then Running(s)
    else
      var y := MakeYException(s.failed, s.first);
      var s' := s.(failed := [], first := -1);
      if y.isThrDump then Running(s'.(thrDumps := s.thrDumps + [y]))
      else match Ignore(y)
        case None => Stopped
        case Some(true) => Running(s')
        case Some(false) => Running(s'.(errors := s.errors + [y]))
  }

  /** One iteration of the loop over the lines. */
  function LineStep(lines: seq<string>, i: nat, s: Scan): Pass
    requires i < |lines|
  {
    match ParseLogMsg(lines[i])
    case ValueError => Running(Fail(lines, i, s))
    case Ok(x) =>
      var s1 := s.(logs := s.logs + [x]);
      match ProcessLog(s.reg, x)
      case Aborted => Stopped
      case Raised(reg) => Running(Fail(lines, i, s1.(reg := reg)))
      case Done(reg) => Flush(s1.(reg := reg))
  }

  /** The pass after the first `n` lines. */
  function Run(lines: seq<string>, n: nat): Pass
    requires n <= |lines|
    decreases n, 0
  {
    if n == 0 then Running(InitialScan) else After(lines, n - 1)
  }

  /** The pass once line `i` has been taken. */
  function After(lines: seq<string>, i: nat): Pass
    requires i < |lines|
    decreases i, 1
  {
    match Run(lines, i)
    case Stopped => Stopped
    case Running(s) => LineStep(lines, i, s)
  }
}
