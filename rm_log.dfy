/** `RMLogFile`: the object that reads a ResourceManager log line by line,
    keeps its registries of applications, containers and nodes, and
    collects the runs of lines that are not log lines. Each method changes
    the object's fields in place as the Python class does, and its
    contract ties the new state to the functions of `RmModel`, whose
    properties are proved in `RmRegistryProps` and `RmPassProps`. */
module RmLog {
  import opened Base
  import opened RmClasses
  import opened RmModel
  import opened RmRegistryProps
  import opened RmPassProps

  /** How a call of `processLog` ended. */
  datatype Status = Normal | RaisedValueError | RaisedOther

  class RMLogFile {
    var applications: map<string, Application>
    var containers: map<string, Container>
    var nodes: map<string, Node>
    var logs: seq<LogMsg>
    var errors: seq<YException>
    var thrDumps: seq<YException>
    /** Set once a line raised an exception other than ValueError, which
        in Python leaves the constructor. */
    var aborted: bool

    /** The three registries as one value. */
    function Maps(): Registry
      reads this
    {
      Registry(applications, containers, nodes)
    }

    /** The object now holds what `out` says, and `st` is how it ended. */
    predicate Reflects(out: Outcome, st: Status)
      reads this
    {
      match out
      case Done(reg) => st == Normal && Maps() == reg
      case Raised(reg) => st == RaisedValueError && Maps() == reg
      case Aborted => st == RaisedOther
    }

    /** `addApp`: the application for `id`, created and stored on first
        use; a name that is not an application id raises ValueError. */
    method AddApp(id: string) returns (r: Result<Application>)
      modifies this
      ensures r.Ok? <==> RmModel.AddApp(old(applications), id).Ok?
      ensures r.Ok? ==> applications == RmModel.AddApp(old(applications), id).value
      ensures r.Ok? ==> id in applications && r.value == applications[id]
      ensures r.ValueError? ==> applications == old(applications)
      ensures containers == old(containers) && nodes == old(nodes)
      ensures logs == old(logs) && errors == old(errors) && thrDumps == old(thrDumps)
      ensures aborted == old(aborted)
    {
      if id in applications {
        r := Ok(applications[id]);
      } else {
        r := NewApplication(id);
        if r.Ok? {
          applications := applications[id := r.value];
        }
      }
    }

    /** `processLog` on an application state change. */
    method AppTransition(t: Transition) returns (st: Status)
      modifies this
      ensures Reflects(RmModel.AppTransition(old(Maps()), t), st)
      ensures logs == old(logs) && errors == old(errors) && thrDumps == old(thrDumps)
      ensures aborted == old(aborted)
    {
      var found := AddApp(t.name);
      if found.ValueError? {
        return RaisedValueError;
      }
      var app := found.value;
      if app.states == [] {
        applications := applications[t.name := app.(states := [t.from, t.to])];
      } else if app.states[|app.states| - 1] == t.from {
        applications := applications[t.name := app.(states := app.states + [t.to])];
      } else {
        return RaisedValueError;
      }
      st := Normal;
    }

    /** `processLog` on a container state change. */
    method ContainerTransition(t: Transition) returns (st: Status)
      modifies this
      ensures Reflects(RmModel.ContainerTransition(old(Maps()), t), st)
      ensures logs == old(logs) && errors == old(errors) && thrDumps == old(thrDumps)
      ensures aborted == old(aborted)
    {
      var c: Container;
      if t.name in containers {
        c := containers[t.name];
      } else {
        var made := NewContainer(t.name);
        if made.ValueError? {
          return RaisedValueError;
        }
        c := made.value;
      }
      st := AdvanceContainer(t, c);
    }

    /** The rest of a container state change, once `c` is found or made. */
    method AdvanceContainer(t: Transition, c: Container) returns (st: Status)
      modifies this
      ensures Reflects(RmModel.AdvanceContainer(old(Maps()), t, c), st)
      ensures logs == old(logs) && errors == old(errors) && thrDumps == old(thrDumps)
      ensures aborted == old(aborted)
    {
      var c' := c;
      if c.states == [] {
        c' := c.(states := [t.from, t.to]);
      } else if c.states[|c.states| - 1] == t.from {
        c' := c.(states := c.states + [t.to]);
      } else {
        return RaisedValueError;
      }
      containers := containers[t.name := c'];
      var found := AddApp(ContainerFullAppId(c'));
      if found.ValueError? {
        return RaisedValueError;
      }
      applications := applications[ContainerFullAppId(c') := AddContainer(found.value, t.name)];
      st := Normal;
    }

    /** `processLog` on a SchedulerNode allocation or release event. */
    method RecordEvent(ev: Event) returns (st: Status)
      modifies this
      ensures Reflects(RmModel.RecordEvent(old(Maps()), ev), st)
      ensures logs == old(logs) && errors == old(errors) && thrDumps == old(thrDumps)
      ensures aborted == old(aborted)
    {
      var node: Node;
      if ev.nodeAddress in nodes {
        node := nodes[ev.nodeAddress];
      } else {
        var made := NewNode(ev.nodeAddress);
        if made.ValueError? {
          return RaisedValueError;
        }
        node := made.value;
      }
      nodes := nodes[ev.nodeAddress := node.(events := node.events + [ev])];
      st := LinkEvent(ev);
    }

    /** The rest of an event, once its node holds it. */
    method LinkEvent(ev: Event) returns (st: Status)
      requires ev.nodeAddress in nodes
      modifies this
      ensures Reflects(RmModel.LinkEvent(old(Maps()), ev), st)
      ensures st == RaisedValueError <==> GetContainer(old(containers), ev.containerId).ValueError?
      ensures st == RaisedOther <==>
        GetContainer(old(containers), ev.containerId).Ok? &&
        LinkedElsewhere(GetContainer(old(containers), ev.containerId).value, old(nodes)[ev.nodeAddress].host)
      ensures st == Normal ==>
        var node := old(nodes)[ev.nodeAddress];
        && nodes == old(nodes)[ev.nodeAddress := node.(containers := node.containers + {ev.containerId})]
        && containers[ev.containerId].node == Some(node.host)
        && containers[ev.containerId].states == ContainerStatesBefore(old(Maps()), ev.containerId)
      ensures logs == old(logs) && errors == old(errors) && thrDumps == old(thrDumps)
      ensures aborted == old(aborted)
    {
      LinkEventEffect(Maps(), ev);
      var c: Container;
      if ev.containerId in containers {
        c := containers[ev.containerId];
      } else {
        var made := NewContainer(ev.containerId);
        if made.ValueError? {
          return RaisedValueError;
        }
        c := made.value;
      }
      st := LinkContainer(ev.nodeAddress, ev.containerId, c);
    }

    /** Put container `c` in the node's set and link it to the node's
        host; a container linked to another host raises AttributeError. */
    method LinkContainer(addr: string, cid: string, c: Container) returns (st: Status)
      requires addr in nodes
      modifies this
      ensures Reflects(RmModel.LinkContainer(old(Maps()), addr, cid, c), st)
      ensures st == RaisedOther <==> LinkedElsewhere(c, old(nodes)[addr].host)
      ensures st != RaisedValueError
      ensures st == Normal ==>
        var node := old(nodes)[addr];
        && applications == old(applications)
        && nodes == old(nodes)[addr := node.(containers := node.containers + {cid})]
        && containers == old(containers)[cid := c.(node := Some(node.host))]
      ensures logs == old(logs) && errors == old(errors) && thrDumps == old(thrDumps)
      ensures aborted == old(aborted)
    {
      LinkContainerEffect(Maps(), addr, cid, c);
      var node := nodes[addr];
      nodes := nodes[addr := AddNodeContainer(node, cid)];
      if Unlinked(c) {
        containers := containers[cid := c.(node := Some(node.host))];
      } else if c.node.value != node.host {
        return RaisedOther;
      } else {
        containers := containers[cid := c];
      }
      st := Normal;
    }

    /** `processLog`: only three origins are looked at, and only messages
        of the expected shape change anything. */
    method ProcessLog(log: LogMsg) returns (st: Status)
      modifies this
      ensures Reflects(RmModel.ProcessLog(old(Maps()), log), st)
      ensures logs == old(logs) && errors == old(errors) && thrDumps == old(thrDumps)
      ensures aborted == old(aborted)
    {
      st := Normal;
      if log.origin == AppImpl {
        var m := MatchTransition(AppMiddle, log.msg);
        if m.Some? {
          st := AppTransition(m.value);
        }
      } else if log.origin == ContainerImpl {
        var m := MatchTransition(ContainerMiddle, log.msg);
        if m.Some? {
          st := ContainerTransition(m.value);
        }
      } else if log.origin == SchedNode {
        var ev := NewEvent(log);
        if ev.Some? {
          st := RecordEvent(ev.value);
        }
      }
    }

    /** The pass state the object and the loop's locals stand for. */
    function ScanOf(failed: seq<string>, first: int): Scan
      reads this
    {
      Scan(Maps(), logs, errors, thrDumps, failed, first)
    }

    /** One iteration of the constructor's loop, on line `i`, with the
        open run `failed` starting after line `first`. */
    method TakeLine(lines: seq<string>, i: nat, failed: seq<string>, first: int)
      returns (failed': seq<string>, first': int)
      requires i < |lines| && !aborted
      modifies this
      ensures var p := LineStep(lines, i, old(ScanOf(failed, first)));
        && (aborted <==> p.Stopped?)
        && (!aborted ==> p.scan == ScanOf(failed', first'))
      ensures !aborted ==> Collects(lines, i, old(ScanOf(failed, first)), ScanOf(failed', first'))
    {
      if LineStep(lines, i, ScanOf(failed, first)).Running? {
        StepCollects(lines, i, ScanOf(failed, first));
      }
      failed', first' := failed, first;
      var x := ParseLogMsg(lines[i]);
      if x.ValueError? {
        failed', first' := Failed(lines, i, failed, first);
        return;
      }
      logs := logs + [x.value];
      var st := ProcessLog(x.value);
      if st == RaisedOther {
        aborted := true;
      } else if st == RaisedValueError {
        failed', first' := Failed(lines, i, failed, first);
      } else if failed != [] {
        var y := MakeYException(failed, first);
        if y.isThrDump {
          thrDumps := thrDumps + [y];
        } else {
          var ignore := Ignore(y);
          if ignore.None? {
            aborted := true;
          } else if !ignore.value {
            errors := errors + [y];
          }
        }
        failed', first' := [], -1;
      }
    }

    /** The `except ValueError` branch of the loop. */
    static method Failed(lines: seq<string>, i: nat, failed: seq<string>, first: int)
      returns (failed': seq<string>, first': int)
      requires i < |lines|
      ensures var s := Fail(lines, i, Scan(EmptyRegistry, [], [], [], failed, first));
        failed' == s.failed && first' == s.first
    {
      if failed == [] {
        failed' := [if i == 0 then lines[|lines| - 1] else lines[i - 1], lines[i]];
        first' := i - 1;
      } else {
        failed' := failed + [lines[i]];
        first' := first;
      }
    }

    /** `RMLogFile(meta, data)` on the lines of `data`. When a line raises
        something other than ValueError, Python's constructor raises; here
        the object is left with `aborted` set. */
    constructor (lines: seq<string>)
      ensures aborted <==> Run(lines, |lines|).Stopped?
      ensures !aborted ==>
        var s := Run(lines, |lines|).scan;
        Maps() == s.reg && logs == s.logs && errors == s.errors && thrDumps == s.thrDumps
    {
      applications, containers, nodes := map[], map[], map[];
      logs, errors, thrDumps := [], [], [];
      aborted := false;
      new;
      var failed: seq<string> := [];
      var first := -1;
      var i := 0;
      while i < |lines| && !aborted
        invariant 0 <= i <= |lines|
        invariant !aborted ==> Run(lines, i) == Running(ScanOf(failed, first))
        invariant aborted ==> Run(lines, i) == Stopped
      {
        RunStep(lines, i);
        failed, first := TakeLine(lines, i, failed, first);
        i := i + 1;
      }
      if aborted {
        StoppedStays(lines, i, |lines|);
      }
    }
  }
}
