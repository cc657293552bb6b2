/** Properties of `RmModel.ProcessLog`: what one record does to the
    registries, the invariant they keep, and the fact that they only grow. */
module RmRegistryProps {
  import opened Base
  import opened Shapes
  import opened RmClasses
  import opened RmModel

  // -------------------------------------------------------------- Invariant

  /** An application is stored under its id, its state list never holds a
      single state, and its containers are registered, have been through a
      transition and belong to it. */
  predicate AppEntry(reg: Registry, k: string)
    requires k in reg.applications
  {
    var a := reg.applications[k];
    && a.fullId == k
    && |a.states| != 1
    && forall c :: c in a.containers ==>
         c in reg.containers && reg.containers[c].states != [] &&
         ContainerFullAppId(reg.containers[c]) == k
  }

  /** A container is stored under its id and has the digit fields its id
      was split into; once it has been through a transition it is attached
      to its application. */
  predicate ContainerEntry(reg: Registry, k: string)
    requires k in reg.containers
  {
    var c := reg.containers[k];
    && c.fullId == k && IsNumeral(c.clusterId) && IsNumeral(c.appId)
    && |c.states| != 1
    && (c.states != [] ==>
          ContainerFullAppId(c) in reg.applications &&
          k in reg.applications[ContainerFullAppId(c)].containers)
  }

  /** A node is stored under its address, its events name that address,
      and its containers are registered and linked to a host, the node's own
      host unless that one is empty. */
  predicate NodeEntry(reg: Registry, a: string)
    requires a in reg.nodes
  {
    var n := reg.nodes[a];
    && n.address == a
    && (forall i :: 0 <= i < |n.events| ==> n.events[i].nodeAddress == a)
    && forall c :: c in n.containers ==>
         c in reg.containers && reg.containers[c].node.Some? &&
         (n.host != "" ==> reg.containers[c].node == Some(n.host))
  }

  predicate AppsWellFormed(reg: Registry) {
    forall k :: k in reg.applications ==> AppEntry(reg, k)
  }

  predicate ContainersWellFormed(reg: Registry) {
    forall k :: k in reg.containers ==> ContainerEntry(reg, k)
  }

  predicate NodesWellFormed(reg: Registry) {
    forall a :: a in reg.nodes ==> NodeEntry(reg, a)
  }

  predicate WellFormed(reg: Registry) {
    AppsWellFormed(reg) && ContainersWellFormed(reg) && NodesWellFormed(reg)
  }

  lemma EmptyWellFormed()
    ensures WellFormed(EmptyRegistry)
  {
  }

  /** A container's link to a host names the host of every node with a
      non-empty host that holds it: the port is never compared. */
  lemma OneHostPerContainer(reg: Registry, a1: string, a2: string, c: string)
    requires WellFormed(reg)
    requires a1 in reg.nodes && a2 in reg.nodes
    requires c in reg.nodes[a1].containers && c in reg.nodes[a2].containers
    requires reg.nodes[a1].host != "" && reg.nodes[a2].host != ""
    ensures reg.nodes[a1].host == reg.nodes[a2].host
  {
    assert NodeEntry(reg, a1) && NodeEntry(reg, a2);
  }

  function AppContainersBefore(reg: Registry, k: string): set<string> {
    if k in reg.applications then reg.applications[k].containers else {}
  }

  function NodeContainersBefore(reg: Registry, a: string): set<string> {
    if a in reg.nodes then reg.nodes[a].containers else {}
  }

  // ------------------------------------------------------------------ Growth

  predicate IsSeqPrefix<T(==)>(p: seq<T>, s: seq<T>) { |p| <= |s| && s[..|p|] == p }

  /** The same application with at least its states and containers. */
  predicate AppGrows(a: Application, a': Application) {
    && a'.(states := [], containers := {}) == a.(states := [], containers := {})
    && IsSeqPrefix(a.states, a'.states) && a.containers <= a'.containers
  }

  /** The same container with at least its states; a non-empty host link
      is kept. */
  predicate ContainerGrows(c: Container, c': Container) {
    && c'.(states := [], node := None) == c.(states := [], node := None)
    && IsSeqPrefix(c.states, c'.states)
    && (!Unlinked(c) ==> c'.node == c.node)
  }

  /** The same node with at least its events and containers. */
  predicate NodeGrows(n: Node, n': Node) {
    && n'.(events := [], containers := {}) == n.(events := [], containers := {})
    && IsSeqPrefix(n.events, n'.events) && n.containers <= n'.containers
  }

  predicate AppsGrow(m: map<string, Application>, m': map<string, Application>) {
    forall k :: k in m ==> k in m' && AppGrows(m[k], m'[k])
  }

  predicate ContainersGrow(m: map<string, Container>, m': map<string, Container>) {
    forall k :: k in m ==> k in m' && ContainerGrows(m[k], m'[k])
  }

  predicate NodesGrow(m: map<string, Node>, m': map<string, Node>) {
    forall k :: k in m ==> k in m' && NodeGrows(m[k], m'[k])
  }

  /** `r'` keeps every key of `r` with the same identity, and every state
      list, event list and container set only grows. */
  predicate Grows(r: Registry, r': Registry) {
    && AppsGrow(r.applications, r'.applications)
    && ContainersGrow(r.containers, r'.containers)
    && NodesGrow(r.nodes, r'.nodes)
  }

  lemma GrowsReflexive(r: Registry)
    ensures Grows(r, r)
  {
  }

  lemma PrefixTransitive<T>(s1: seq<T>, s2: seq<T>, s3: seq<T>)
    requires IsSeqPrefix(s1, s2) && IsSeqPrefix(s2, s3)
    ensures IsSeqPrefix(s1, s3)
  {
    assert s3[..|s1|] == s3[..|s2|][..|s1|];
  }

  lemma GrowsTransitive(r1: Registry, r2: Registry, r3: Registry)
    requires Grows(r1, r2) && Grows(r2, r3)
    ensures Grows(r1, r3)
  {
    forall k | k in r1.applications
      ensures AppGrows(r1.applications[k], r3.applications[k])
    {
      PrefixTransitive(r1.applications[k].states, r2.applications[k].states, r3.applications[k].states);
    }
    forall k | k in r1.containers
      ensures ContainerGrows(r1.containers[k], r3.containers[k])
    {
      PrefixTransitive(r1.containers[k].states, r2.containers[k].states, r3.containers[k].states);
    }
    forall a | a in r1.nodes
      ensures NodeGrows(r1.nodes[a], r3.nodes[a])
    {
      PrefixTransitive(r1.nodes[a].events, r2.nodes[a].events, r3.nodes[a].events);
    }
  }

  lemma PutAppGrows(m: map<string, Application>, k: string, a: Application)
    requires k in m ==> AppGrows(m[k], a)
    ensures AppsGrow(m, m[k := a])
  {
  }

  lemma PutContainerGrows(m: map<string, Container>, k: string, c: Container)
    requires k in m ==> ContainerGrows(m[k], c)
    ensures ContainersGrow(m, m[k := c])
  {
  }

  lemma PutNodeGrows(m: map<string, Node>, k: string, n: Node)
    requires k in m ==> NodeGrows(m[k], n)
    ensures NodesGrow(m, m[k := n])
  {
  }

  // ------------------------------------------------- Updating one entry

  /** Replacing one application by one with the same id and containers. */
  lemma PutAppWellFormed(reg: Registry, k: string, a: Application)
    requires WellFormed(reg)
    requires a.fullId == k && |a.states| != 1 && a.containers == AppContainersBefore(reg, k)
    ensures WellFormed(reg.(applications := reg.applications[k := a]))
  {
    var r' := reg.(applications := reg.applications[k := a]);
    forall j | j in r'.applications
      ensures AppEntry(r', j)
    {
      if j in reg.applications {
        assert AppEntry(reg, j);
      }
    }
    forall j | j in r'.containers
      ensures ContainerEntry(r', j)
    {
      assert ContainerEntry(reg, j);
    }
    forall j | j in r'.nodes
      ensures NodeEntry(r', j)
    {
      assert NodeEntry(reg, j);
    }
  }

  /** Replacing one node by one with the same address, host and
      containers, whose events all name that address. */
  lemma PutNodeWellFormed(reg: Registry, a: string, n: Node)
    requires WellFormed(reg)
    requires n.address == a && n.containers == NodeContainersBefore(reg, a)
    requires a in reg.nodes ==> n.host == reg.nodes[a].host
    requires forall i :: 0 <= i < |n.events| ==> n.events[i].nodeAddress == a
    ensures WellFormed(reg.(nodes := reg.nodes[a := n]))
  {
    var r' := reg.(nodes := reg.nodes[a := n]);
    forall j | j in r'.applications
      ensures AppEntry(r', j)
    {
      assert AppEntry(reg, j);
    }
    forall j | j in r'.containers
      ensures ContainerEntry(r', j)
    {
      assert ContainerEntry(reg, j);
    }
    forall j | j in r'.nodes
      ensures NodeEntry(r', j)
    {
      if j != a {
        assert NodeEntry(reg, j);
      } else if a in reg.nodes {
        assert NodeEntry(reg, a);
      }
    }
  }

  /** The facts about a container after a transition that keep the
      invariant once it is attached to `apps`, the application map after
      its application has been created if need be and given the container. */
  predicate Attachable(reg: Registry, k: string, c: Container, apps: map<string, Application>) {
    var appId := ContainerFullAppId(c);
    && c.fullId == k && IsNumeral(c.clusterId) && IsNumeral(c.appId) && |c.states| >= 2
    && (k in reg.containers ==> c.(states := []) == reg.containers[k].(states := []))
    && (k !in reg.containers ==> c.node == None)
    && appId in apps && apps.Keys == reg.applications.Keys + {appId}
    && (forall j :: j in reg.applications && j != appId ==> apps[j] == reg.applications[j])
    && apps[appId].fullId == appId && |apps[appId].states| != 1
    && apps[appId].containers == AppContainersBefore(reg, appId) + {k}
  }

  lemma AttachAppsWellFormed(reg: Registry, k: string, c: Container, apps: map<string, Application>)
    requires WellFormed(reg) && Attachable(reg, k, c, apps)
    ensures AppsWellFormed(Registry(apps, reg.containers[k := c], reg.nodes))
  {
    var r' := Registry(apps, reg.containers[k := c], reg.nodes);
    var appId := ContainerFullAppId(c);
    if k in reg.containers {
      assert ContainerFullAppId(c) == ContainerFullAppId(reg.containers[k]);
    }
    forall j | j in apps
      ensures AppEntry(r', j)
    {
      if j in reg.applications {
        assert AppEntry(reg, j);
      }
    }
  }

  lemma AttachContainersWellFormed(reg: Registry, k: string, c: Container, apps: map<string, Application>)
    requires WellFormed(reg) && Attachable(reg, k, c, apps)
    ensures ContainersWellFormed(Registry(apps, reg.containers[k := c], reg.nodes))
  {
    var r' := Registry(apps, reg.containers[k := c], reg.nodes);
    forall j | j in r'.containers
      ensures ContainerEntry(r', j)
    {
      if j != k {
        assert ContainerEntry(reg, j);
      }
    }
  }

  lemma AttachNodesWellFormed(reg: Registry, k: string, c: Container, apps: map<string, Application>)
    requires WellFormed(reg) && Attachable(reg, k, c, apps)
    ensures NodesWellFormed(Registry(apps, reg.containers[k := c], reg.nodes))
  {
    var r' := Registry(apps, reg.containers[k := c], reg.nodes);
    forall a | a in r'.nodes
      ensures NodeEntry(r', a)
    {
      assert NodeEntry(reg, a);
    }
  }

  /** The facts about a node after an event and the container it names,
      linked to that node's host, that keep the invariant. */
  predicate Linkable(reg: Registry, a: string, n: Node, k: string, c: Container) {
    && a in reg.nodes && n.address == a && n.containers == reg.nodes[a].containers + {k}
    && n.(containers := reg.nodes[a].containers) == reg.nodes[a]
    && c.fullId == k && IsNumeral(c.clusterId) && IsNumeral(c.appId) && |c.states| != 1
    && (k in reg.containers ==> c.(node := None) == reg.containers[k].(node := None))
    && (k in reg.containers && !Unlinked(reg.containers[k]) ==> c.node == reg.containers[k].node)
    && (k !in reg.containers ==> c.states == [])
    && c.node == Some(n.host)
  }

  lemma LinkAppsWellFormed(reg: Registry, a: string, n: Node, k: string, c: Container)
    requires WellFormed(reg) && Linkable(reg, a, n, k, c)
    ensures AppsWellFormed(Registry(reg.applications, reg.containers[k := c], reg.nodes[a := n]))
  {
    var r' := Registry(reg.applications, reg.containers[k := c], reg.nodes[a := n]);
    forall j | j in r'.applications
      ensures AppEntry(r', j)
    {
      assert AppEntry(reg, j);
    }
  }

  lemma LinkContainersWellFormed(reg: Registry, a: string, n: Node, k: string, c: Container)
    requires WellFormed(reg) && Linkable(reg, a, n, k, c)
    ensures ContainersWellFormed(Registry(reg.applications, reg.containers[k := c], reg.nodes[a := n]))
  {
    var r' := Registry(reg.applications, reg.containers[k := c], reg.nodes[a := n]);
    forall j | j in r'.containers
      ensures ContainerEntry(r', j)
    {
      if j != k || k in reg.containers {
        assert ContainerEntry(reg, j);
      }
    }
  }

  /** If the container had no host, every node holding it so far had the
      empty host, so linking it to this node's host breaks no other node. */
  lemma LinkNodesWellFormed(reg: Registry, a: string, n: Node, k: string, c: Container)
    requires WellFormed(reg) && Linkable(reg, a, n, k, c)
    ensures NodesWellFormed(Registry(reg.applications, reg.containers[k := c], reg.nodes[a := n]))
  {
    var r' := Registry(reg.applications, reg.containers[k := c], reg.nodes[a := n]);
    forall b | b in r'.nodes
      ensures NodeEntry(r', b)
    {
      assert NodeEntry(reg, b);
    }
  }

  // ---------------------------------------------- Application transitions

  /** The state list the application named by `t` has before the record. */
  function AppStatesBefore(reg: Registry, name: string): seq<string> {
    if name in reg.applications then reg.applications[name].states else []
  }

  /** An application transition creates the application on first use, then
      seeds `[from, to]` or appends `to` after a matching last state; when
      the last state differs, or the name is not an application id,
      ValueError is raised and nothing has changed. Nothing but that
      application changes. */
  lemma AppTransitionEffect(reg: Registry, t: Transition)
    ensures var before := AppStatesBefore(reg, t.name);
      AppTransition(reg, t).Done? <==>
        (t.name in reg.applications || NewApplication(t.name).Ok?) &&
        (before == [] || before[|before| - 1] == t.from)
    ensures AppTransition(reg, t).Raised? ==> AppTransition(reg, t).reg == reg
    ensures AppTransition(reg, t).Done? ==>
      var r' := AppTransition(reg, t).reg;
      var before := AppStatesBefore(reg, t.name);
      && r'.containers == reg.containers && r'.nodes == reg.nodes
      && r'.applications.Keys == reg.applications.Keys + {t.name}
      && r'.applications[t.name].states ==
           (if before == [] then [t.from, t.to] else before + [t.to])
      && (forall k :: k in reg.applications && k != t.name ==> r'.applications[k] == reg.applications[k])
  {
    if t.name !in reg.applications && NewApplication(t.name).Ok? {
      assert AddApp(reg.applications, t.name).value[t.name].states == [];
    }
  }

  // ------------------------------------------------ Container transitions

  function ContainerStatesBefore(reg: Registry, name: string): seq<string> {
    if name in reg.containers then reg.containers[name].states else []
  }

  /** What a registered or newly parsed container brings along. */
  lemma GotContainer(reg: Registry, name: string, c: Container)
    requires WellFormed(reg)
    requires GetContainer(reg.containers, name) == Ok(c)
    ensures c.fullId == name && IsNumeral(c.clusterId) && IsNumeral(c.appId)
    ensures |c.states| != 1
    ensures c.states == ContainerStatesBefore(reg, name)
    ensures name !in reg.containers ==> c.node == None
    ensures NewApplication(ContainerFullAppId(c)).Ok?
  {
    if name in reg.containers {
      assert ContainerEntry(reg, name);
    } else {
      ContainerParsed(name);
      var gs := ContainerGroups(c);
      assert gs[|gs| - 4] == c.clusterId && gs[|gs| - 3] == c.appId;
    }
    ApplicationNameRoundTrip(c.clusterId, c.appId);
  }

  /** A container transition creates the container on first use, and
      advances its states by the same rule as an application's. Afterwards
      the container's application exists and holds it. A ValueError (a
      name that is not a container id, or a mismatching last state) leaves
      the registries as they were. */
  lemma ContainerTransitionEffect(reg: Registry, t: Transition)
    requires WellFormed(reg)
    ensures var before := ContainerStatesBefore(reg, t.name);
      ContainerTransition(reg, t).Done? <==>
        (t.name in reg.containers || NewContainer(t.name).Ok?) &&
        (before == [] || before[|before| - 1] == t.from)
    ensures ContainerTransition(reg, t).Raised? ==> ContainerTransition(reg, t).reg == reg
    ensures ContainerTransition(reg, t).Done? ==>
      var r' := ContainerTransition(reg, t).reg;
      var before := ContainerStatesBefore(reg, t.name);
      && t.name in r'.containers
      && r'.nodes == reg.nodes
      && r'.containers.Keys == reg.containers.Keys + {t.name}
      && r'.containers[t.name].states == (if before == [] then [t.from, t.to] else before + [t.to])
      && ContainerFullAppId(r'.containers[t.name]) in r'.applications
      && t.name in r'.applications[ContainerFullAppId(r'.containers[t.name])].containers
      && (forall k :: k in reg.containers && k != t.name ==> r'.containers[k] == reg.containers[k])
  {
    if GetContainer(reg.containers, t.name).Ok? {
      var c := GetContainer(reg.containers, t.name).value;
      GotContainer(reg, t.name, c);
      if Advance(c.states, t.from, t.to).Ok? {
        var c' := c.(states := Advance(c.states, t.from, t.to).value);
        assert ContainerFullAppId(c') == ContainerFullAppId(c);
      }
    }
  }

  // ----------------------------------------------------- SchedulerNode events

  function EventsBefore(reg: Registry, addr: string): seq<Event> {
    if addr in reg.nodes then reg.nodes[addr].events else []
  }

  /** A SchedulerNode message that is not an event changes nothing. */
  lemma NonEventIgnored(reg: Registry, log: LogMsg)
    requires log.origin == SchedNode && NewEvent(log).None?
    ensures ProcessLog(reg, log) == Done(reg)
  {
  }

  /** `c` is already linked to a host other than `host`: formatting the
      error message then reads `.host` of a string and raises
      AttributeError. */
  predicate LinkedElsewhere(c: Container, host: string) { !Unlinked(c) && c.node.value != host }

  /** Linking container `c` to the node at `addr` aborts exactly when the
      container is linked to another host. Otherwise the node's set gains
      the container and the container is stored linked to the node's host,
      whether it was unlinked or already linked to that host. */
  lemma LinkContainerEffect(reg: Registry, addr: string, cid: string, c: Container)
    requires addr in reg.nodes
    ensures LinkContainer(reg, addr, cid, c).Aborted? <==> LinkedElsewhere(c, reg.nodes[addr].host)
    ensures LinkContainer(reg, addr, cid, c).Raised? == false
    ensures LinkContainer(reg, addr, cid, c).Done? ==>
      var r' := LinkContainer(reg, addr, cid, c).reg;
      var node := reg.nodes[addr];
      && r'.applications == reg.applications
      && r'.nodes == reg.nodes[addr := node.(containers := node.containers + {cid})]
      && r'.containers == reg.containers[cid := c.(node := Some(node.host))]
  {
    var node := reg.nodes[addr];
    if !Unlinked(c) && c.node.value == node.host {
      assert c.(node := Some(node.host)) == c;
    }
    if cid in node.containers {
      assert node.(containers := node.containers + {cid}) == node;
    }
  }

  /** How an allocation or release event ends: ValueError exactly when
      the node address or the container id cannot be parsed, an abort
      exactly when the container is linked to another host. When only the
      container id is bad, the node has already received the event. */
  lemma RecordEventOutcome(reg: Registry, ev: Event)
    ensures RecordEvent(reg, ev).Raised? <==>
      GetNode(reg.nodes, ev.nodeAddress).ValueError? ||
      GetContainer(reg.containers, ev.containerId).ValueError?
    ensures RecordEvent(reg, ev).Aborted? <==>
      && GetNode(reg.nodes, ev.nodeAddress).Ok? && GetContainer(reg.containers, ev.containerId).Ok?
      && LinkedElsewhere(GetContainer(reg.containers, ev.containerId).value,
                         GetNode(reg.nodes, ev.nodeAddress).value.host)
    ensures RecordEvent(reg, ev).Raised? ==>
      var r' := RecordEvent(reg, ev).reg;
      && r'.applications == reg.applications && r'.containers == reg.containers
      && (GetNode(reg.nodes, ev.nodeAddress).ValueError? ==> r'.nodes == reg.nodes)
      && (GetNode(reg.nodes, ev.nodeAddress).Ok? ==>
            r'.nodes[ev.nodeAddress].events == EventsBefore(reg, ev.nodeAddress) + [ev])
  {
    var addr := ev.nodeAddress;
    if GetNode(reg.nodes, addr).Ok? {
      var node := GetNode(reg.nodes, addr).value;
      NodeBefore(reg, addr);
      LinkEventEffect(reg.(nodes := reg.nodes[addr := node.(events := node.events + [ev])]), ev);
    }
  }

  /** An allocation or release event that ends normally: the node holds
      the event after its earlier ones and holds the container, keeps its
      host; the container is linked to that host and keeps its states; no
      other node, container or application changes. */
  lemma RecordEventEffect(reg: Registry, ev: Event)
    ensures RecordEvent(reg, ev).Done? ==>
      var r' := RecordEvent(reg, ev).reg;
      var host := GetNode(reg.nodes, ev.nodeAddress).value.host;
      && r'.applications == reg.applications
      && r'.nodes.Keys == reg.nodes.Keys + {ev.nodeAddress}
      && r'.nodes[ev.nodeAddress].events == EventsBefore(reg, ev.nodeAddress) + [ev]
      && r'.nodes[ev.nodeAddress].containers ==
           NodeContainersBefore(reg, ev.nodeAddress) + {ev.containerId}
      && r'.nodes[ev.nodeAddress].host == host
      && (forall a :: a in reg.nodes && a != ev.nodeAddress ==> r'.nodes[a] == reg.nodes[a])
      && r'.containers.Keys == reg.containers.Keys + {ev.containerId}
      && r'.containers[ev.containerId].node == Some(host)
      && r'.containers[ev.containerId].states == ContainerStatesBefore(reg, ev.containerId)
      && (forall k :: k in reg.containers && k != ev.containerId ==> r'.containers[k] == reg.containers[k])
  {
    if GetNode(reg.nodes, ev.nodeAddress).Ok? {
      var node := GetNode(reg.nodes, ev.nodeAddress).value;
      NodeBefore(reg, ev.nodeAddress);
      AppendEventEffect(reg, ev, node);
    }
  }

  /** The Done case of an event, for the node found or made for it. */
  lemma AppendEventEffect(reg: Registry, ev: Event, node: Node)
    requires node.events == EventsBefore(reg, ev.nodeAddress)
    requires node.containers == NodeContainersBefore(reg, ev.nodeAddress)
    ensures var r1 := reg.(nodes := reg.nodes[ev.nodeAddress := node.(events := node.events + [ev])]);
      LinkEvent(r1, ev).Done? ==>
        var r' := LinkEvent(r1, ev).reg;
        && r'.applications == reg.applications
        && r'.nodes.Keys == reg.nodes.Keys + {ev.nodeAddress}
        && r'.nodes[ev.nodeAddress].events == EventsBefore(reg, ev.nodeAddress) + [ev]
        && r'.nodes[ev.nodeAddress].containers ==
             NodeContainersBefore(reg, ev.nodeAddress) + {ev.containerId}
        && r'.nodes[ev.nodeAddress].host == node.host
        && (forall a :: a in reg.nodes && a != ev.nodeAddress ==> r'.nodes[a] == reg.nodes[a])
        && r'.containers.Keys == reg.containers.Keys + {ev.containerId}
        && r'.containers[ev.containerId].node == Some(node.host)
        && r'.containers[ev.containerId].states == ContainerStatesBefore(reg, ev.containerId)
        && (forall k :: k in reg.containers && k != ev.containerId ==> r'.containers[k] == reg.containers[k])
  {
    var r1 := reg.(nodes := reg.nodes[ev.nodeAddress := node.(events := node.events + [ev])]);
    assert ContainerStatesBefore(r1, ev.containerId) == ContainerStatesBefore(reg, ev.containerId);
    LinkEventEffect(r1, ev);
  }

  /** The rest of an event, once its node holds it. */
  lemma LinkEventEffect(reg: Registry, ev: Event)
    requires ev.nodeAddress in reg.nodes
    ensures LinkEvent(reg, ev).Raised? <==> GetContainer(reg.containers, ev.containerId).ValueError?
    ensures LinkEvent(reg, ev).Raised? ==> LinkEvent(reg, ev).reg == reg
    ensures LinkEvent(reg, ev).Aborted? <==>
      GetContainer(reg.containers, ev.containerId).Ok? &&
      LinkedElsewhere(GetContainer(reg.containers, ev.containerId).value, reg.nodes[ev.nodeAddress].host)
    ensures LinkEvent(reg, ev).Done? ==>
      var r' := LinkEvent(reg, ev).reg;
      var node := reg.nodes[ev.nodeAddress];
      var c := GetContainer(reg.containers, ev.containerId).value;
      && c.states == ContainerStatesBefore(reg, ev.containerId)
      && r'.applications == reg.applications
      && r'.nodes == reg.nodes[ev.nodeAddress := node.(containers := node.containers + {ev.containerId})]
      && r'.containers == reg.containers[ev.containerId := c.(node := Some(node.host))]
  {
    if GetContainer(reg.containers, ev.containerId).Ok? {
      ContainerBefore(reg, ev.containerId);
      LinkContainerEffect(reg, ev.nodeAddress, ev.containerId, GetContainer(reg.containers, ev.containerId).value);
    }
  }

  /** The node found or made for `addr` carries the events and containers
      the registry had for it: none for a new node. */
  lemma NodeBefore(reg: Registry, addr: string)
    requires GetNode(reg.nodes, addr).Ok?
    ensures GetNode(reg.nodes, addr).value.events == EventsBefore(reg, addr)
    ensures GetNode(reg.nodes, addr).value.containers == NodeContainersBefore(reg, addr)
  {
    if addr !in reg.nodes {
      NodeParsed(addr);
    }
  }

  /** The container found or made for `cid` carries the states the
      registry had for it: none for a new container. */
  lemma ContainerBefore(reg: Registry, cid: string)
    requires GetContainer(reg.containers, cid).Ok?
    ensures GetContainer(reg.containers, cid).value.states == ContainerStatesBefore(reg, cid)
  {
    if cid !in reg.containers {
      ContainerParsed(cid);
    }
  }

  // ------------------------------------------------------ Preservation

  /** Every record keeps the invariant and only lets the registries grow,
      whether it ends normally or with ValueError. */
  lemma ProcessLogPreserves(reg: Registry, log: LogMsg)
    requires WellFormed(reg)
    requires !ProcessLog(reg, log).Aborted?
    ensures WellFormed(ProcessLog(reg, log).reg)
    ensures Grows(reg, ProcessLog(reg, log).reg)
  {
    if log.origin == AppImpl {
      if MatchTransition(AppMiddle, log.msg).Some? {
        AppTransitionPreserves(reg, MatchTransition(AppMiddle, log.msg).value);
      } else {
        GrowsReflexive(reg);
      }
    } else if log.origin == ContainerImpl {
      if MatchTransition(ContainerMiddle, log.msg).Some? {
        ContainerTransitionPreserves(reg, MatchTransition(ContainerMiddle, log.msg).value);
      } else {
        GrowsReflexive(reg);
      }
    } else if log.origin == SchedNode {
      if NewEvent(log).Some? {
        RecordEventPreserves(reg, NewEvent(log).value);
      } else {
        GrowsReflexive(reg);
      }
    } else {
      GrowsReflexive(reg);
    }
  }

  lemma AppTransitionPreserves(reg: Registry, t: Transition)
    requires WellFormed(reg)
    ensures WellFormed(AppTransition(reg, t).reg) && Grows(reg, AppTransition(reg, t).reg)
  {
    if AddApp(reg.applications, t.name).Ok? {
      var apps := AddApp(reg.applications, t.name).value;
      ApplicationParsed(t.name);
      AdvanceAppPreserves(reg, t, apps);
    } else {
      GrowsReflexive(reg);
    }
  }

  /** The rest of an application transition, once `apps` holds the
      application. */
  lemma AdvanceAppPreserves(reg: Registry, t: Transition, apps: map<string, Application>)
    requires WellFormed(reg)
    requires t.name in apps && apps.Keys == reg.applications.Keys + {t.name}
    requires forall k :: k in reg.applications ==> apps[k] == reg.applications[k]
    requires t.name !in reg.applications ==>
      apps[t.name].fullId == t.name && apps[t.name].states == [] && apps[t.name].containers == {}
    ensures var app := apps[t.name];
      var r' := match Advance(app.states, t.from, t.to)
        case ValueError => reg.(applications := apps)
        case Ok(states) => reg.(applications := apps[t.name := app.(states := states)]);
      WellFormed(r') && Grows(reg, r')
  {
    var app := apps[t.name];
    if t.name in reg.applications {
      assert AppEntry(reg, t.name);
      assert apps == reg.applications;
    }
    if Advance(app.states, t.from, t.to).Ok? {
      var app' := app.(states := Advance(app.states, t.from, t.to).value);
      assert apps[t.name := app'] == reg.applications[t.name := app'];
      PutAppWellFormed(reg, t.name, app');
      PutAppGrows(reg.applications, t.name, app');
    } else {
      GrowsReflexive(reg);
    }
  }

  lemma ContainerTransitionPreserves(reg: Registry, t: Transition)
    requires WellFormed(reg)
    ensures WellFormed(ContainerTransition(reg, t).reg)
    ensures Grows(reg, ContainerTransition(reg, t).reg)
  {
    if GetContainer(reg.containers, t.name).Ok? {
      var c := GetContainer(reg.containers, t.name).value;
      GotContainer(reg, t.name, c);
      AdvanceContainerPreserves(reg, t, c);
    } else {
      GrowsReflexive(reg);
    }
  }

  lemma AdvanceContainerPreserves(reg: Registry, t: Transition, c: Container)
    requires WellFormed(reg)
    requires c.fullId == t.name && IsNumeral(c.clusterId) && IsNumeral(c.appId)
    requires |c.states| != 1
    requires t.name in reg.containers ==> c == reg.containers[t.name]
    requires t.name !in reg.containers ==> c.states == [] && c.node == None
    ensures WellFormed(AdvanceContainer(reg, t, c).reg)
    ensures Grows(reg, AdvanceContainer(reg, t, c).reg)
  {
    if Advance(c.states, t.from, t.to).Ok? {
      var c' := c.(states := Advance(c.states, t.from, t.to).value);
      var appId := ContainerFullAppId(c');
      ApplicationNameRoundTrip(c.clusterId, c.appId);
      var apps := AddApp(reg.applications, appId).value;
      AttachPreserves(reg, t.name, c', apps);
    } else {
      GrowsReflexive(reg);
    }
  }

  /** Storing container `c` after a transition and attaching it to its
      application in `apps`, the application map once that application
      exists. */
  lemma AttachPreserves(reg: Registry, k: string, c: Container, apps: map<string, Application>)
    requires WellFormed(reg)
    requires c.fullId == k && IsNumeral(c.clusterId) && IsNumeral(c.appId) && |c.states| >= 2
    requires k in reg.containers ==> ContainerGrows(reg.containers[k], c) && c.node == reg.containers[k].node
    requires k !in reg.containers ==> c.node == None
    requires var appId := ContainerFullAppId(c);
      && appId in apps && apps.Keys == reg.applications.Keys + {appId}
      && (forall j :: j in reg.applications ==> apps[j] == reg.applications[j])
      && (appId !in reg.applications ==> apps[appId] == Application(appId, c.clusterId, c.appId, [], {}))
    ensures var appId := ContainerFullAppId(c);
      var r' := Registry(apps[appId := AddContainer(apps[appId], k)], reg.containers[k := c], reg.nodes);
      WellFormed(r') && Grows(reg, r')
  {
    var appId := ContainerFullAppId(c);
    var apps2 := apps[appId := AddContainer(apps[appId], k)];
    if appId in reg.applications {
      assert AppEntry(reg, appId);
    }
    assert Attachable(reg, k, c, apps2);
    AttachAppsWellFormed(reg, k, c, apps2);
    AttachContainersWellFormed(reg, k, c, apps2);
    AttachNodesWellFormed(reg, k, c, apps2);
    PutContainerGrows(reg.containers, k, c);
    assert AppsGrow(reg.applications, apps2);
  }

  /** What a registered or newly parsed node brings along. */
  lemma GotNode(reg: Registry, addr: string, n: Node)
    requires WellFormed(reg)
    requires GetNode(reg.nodes, addr) == Ok(n)
    ensures n.address == addr
    ensures forall i :: 0 <= i < |n.events| ==> n.events[i].nodeAddress == addr
    ensures n.containers == NodeContainersBefore(reg, addr)
    ensures addr in reg.nodes ==> n == reg.nodes[addr]
  {
    if addr in reg.nodes {
      assert NodeEntry(reg, addr);
    } else {
      NodeParsed(addr);
    }
  }

  lemma RecordEventPreserves(reg: Registry, ev: Event)
    requires WellFormed(reg)
    requires !RecordEvent(reg, ev).Aborted?
    ensures WellFormed(RecordEvent(reg, ev).reg)
    ensures Grows(reg, RecordEvent(reg, ev).reg)
  {
    if GetNode(reg.nodes, ev.nodeAddress).Ok? {
      var node := GetNode(reg.nodes, ev.nodeAddress).value;
      GotNode(reg, ev.nodeAddress, node);
      AppendEventPreserves(reg, ev, node);
    } else {
      GrowsReflexive(reg);
    }
  }

  /** Appending the event to its node (found or created). */
  lemma AppendEventPreserves(reg: Registry, ev: Event, node: Node)
    requires WellFormed(reg)
    requires node.address == ev.nodeAddress
    requires forall i :: 0 <= i < |node.events| ==> node.events[i].nodeAddress == ev.nodeAddress
    requires node.containers == NodeContainersBefore(reg, ev.nodeAddress)
    requires ev.nodeAddress in reg.nodes ==> node == reg.nodes[ev.nodeAddress]
    ensures var r1 := reg.(nodes := reg.nodes[ev.nodeAddress := node.(events := node.events + [ev])]);
      !LinkEvent(r1, ev).Aborted? ==>
        WellFormed(LinkEvent(r1, ev).reg) && Grows(reg, LinkEvent(r1, ev).reg)
  {
    var addr := ev.nodeAddress;
    var node' := node.(events := node.events + [ev]);
    var r1 := reg.(nodes := reg.nodes[addr := node']);
    PutNodeWellFormed(reg, addr, node');
    PutNodeGrows(reg.nodes, addr, node');
    if !LinkEvent(r1, ev).Aborted? {
      LinkEventPreserves(reg, r1, ev);
    }
  }

  lemma LinkEventPreserves(reg: Registry, r1: Registry, ev: Event)
    requires WellFormed(r1) && Grows(reg, r1) && r1.containers == reg.containers
    requires r1.applications == reg.applications && ev.nodeAddress in r1.nodes
    requires !LinkEvent(r1, ev).Aborted?
    ensures WellFormed(LinkEvent(r1, ev).reg) && Grows(reg, LinkEvent(r1, ev).reg)
  {
    var cid := ev.containerId;
    if GetContainer(r1.containers, cid).Ok? {
      var c := GetContainer(r1.containers, cid).value;
      GotContainer(r1, cid, c);
      LinkContainerPreserves(reg, r1, ev.nodeAddress, cid, c);
    }
  }

  lemma LinkContainerPreserves(reg: Registry, r1: Registry, addr: string, cid: string, c: Container)
    requires WellFormed(r1) && Grows(reg, r1) && r1.containers == reg.containers
    requires r1.applications == reg.applications && addr in r1.nodes
    requires c.fullId == cid && IsNumeral(c.clusterId) && IsNumeral(c.appId) && |c.states| != 1
    requires cid in r1.containers ==> c == r1.containers[cid]
    requires cid !in r1.containers ==> c.states == [] && c.node == None
    requires !LinkContainer(r1, addr, cid, c).Aborted?
    ensures WellFormed(LinkContainer(r1, addr, cid, c).reg)
    ensures Grows(reg, LinkContainer(r1, addr, cid, c).reg)
  {
    var out := LinkContainer(r1, addr, cid, c);
    var node := r1.nodes[addr];
    var n := AddNodeContainer(node, cid);
    var c' := if Unlinked(c) then c.(node := Some(node.host)) else c;
    assert out.reg == Registry(r1.applications, r1.containers[cid := c'], r1.nodes[addr := n]);
    assert Linkable(r1, addr, n, cid, c');
    LinkAppsWellFormed(r1, addr, n, cid, c');
    LinkContainersWellFormed(r1, addr, n, cid, c');
    LinkNodesWellFormed(r1, addr, n, cid, c');
    PutContainerGrows(r1.containers, cid, c');
    PutNodeGrows(r1.nodes, addr, n);
    GrowsTransitive(reg, r1, out.reg);
  }
}
