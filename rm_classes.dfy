/** Records recognised in a YARN ResourceManager log: one log line, the
    composite identifiers of containers, applications and attempts, a node
    address, a container allocation or release event, and a run of lines
    that are not log lines (a stack trace, a thread dump, a banner).
    Every constructor that raises ValueError in Python returns a `Result`
    here. */
module RmClasses {
  import opened Base
  import opened Shapes

  // ------------------------------------------------------------------ LogMsg

  /** One log line `<ts> <level> <origin>: <msg>`. */
  datatype LogMsg = LogMsg(ts: string, level: string, origin: string, msg: string)

  /** `D` stands for a digit; every other character must appear as is. */
  const TimestampMask: string := "DDDD-DD-DD DD:DD:DD,DDD"

  predicate IsTimestamp(t: string) {
    |t| == |TimestampMask| &&
    forall i :: 0 <= i < |t| ==>
      if TimestampMask[i] == 'D' then IsDigit(t[i]) else t[i] == TimestampMask[i]
  }

  const Levels: seq<string> := ["ERROR", "WARN", "INFO", "DEBUG"]

  /** The level that `s` starts with, and what follows the blank after it. */
  function SplitLevel(s: string): (r: Option<(string, string)>)
    ensures r.Some? ==> r.value.0 in Levels && s == r.value.0 + " " + r.value.1
  {
    if IsPrefix("ERROR ", s) then Some(("ERROR", s[6..]))
    else if IsPrefix("WARN ", s) then Some(("WARN", s[5..]))
    else if IsPrefix("INFO ", s) then Some(("INFO", s[5..]))
    else if IsPrefix("DEBUG ", s) then Some(("DEBUG", s[6..]))
    else None
  }

  lemma SplitLevelComplete(level: string, rest: string)
    requires level in Levels
    ensures SplitLevel(level + " " + rest) == Some((level, rest))
  {
    var s := level + " " + rest;
    assert s[..|level| + 1] == level + " ";
    assert s[|level| + 1..] == rest;
    if level == "ERROR" {
      assert IsPrefix("ERROR ", s);
    } else if level == "WARN" {
      assert s[0] == 'W' && IsPrefix("WARN ", s);
    } else if level == "INFO" {
      assert s[0] == 'I' && IsPrefix("INFO ", s);
    } else {
      assert s[0] == 'D' && IsPrefix("DEBUG ", s);
    }
  }

  /** The origin at the start of `s`, and what follows the `": "` after it.
      The origin's characters exclude ':', so the longest run is the only
      one that can be followed by it. */
  function SplitOrigin(s: string): (r: Option<(string, string)>)
    ensures r.Some? ==>
      r.value.0 != [] && AllIn(r.value.0, OriginChars) && s == r.value.0 + ": " + r.value.1
  {
    var n := RunLength(s, OriginChars);
    if n == 0 || !IsPrefix(": ", s[n..]) then None
    else
      assert s == s[..n] + s[n..][..2] + s[n + 2..];
      Some((s[..n], s[n + 2..]))
  }

  lemma SplitOriginComplete(origin: string, msg: string)
    requires origin != [] && AllIn(origin, OriginChars)
    ensures SplitOrigin(origin + ": " + msg) == Some((origin, msg))
  {
    var s := origin + ": " + msg;
    assert s[..|origin|] == origin;
    assert s[|origin|] == ':';
    RunCovers(s, OriginChars, origin);
    assert s[|origin|..][..2] == ": ";
    assert s[|origin| + 2..] == msg;
  }

  /** The line grammar `\A<ts> <level> <origin>: <msg>\Z`, stated on the
      parts: `msg` is `.+`, so it is non-empty and has no line feed. */
  ghost predicate LineGrammar(line: string, m: LogMsg) {
    && IsTimestamp(m.ts)
    && m.level in Levels
    && m.origin != [] && AllIn(m.origin, OriginChars)
    && m.msg != [] && '\n' !in m.msg
    && line == m.ts + " " + m.level + " " + m.origin + ": " + m.msg
  }

  /** `LogMsg(line)`: ValueError unless the whole line fits the grammar. */
  function ParseLogMsg(line: string): Result<LogMsg>
  {
    if |line| < 24 || !IsTimestamp(line[..23]) || line[23] != ' ' then ValueError
    else match SplitLevel(line[24..])
      case None => ValueError
      case Some((level, rest)) =>
        match SplitOrigin(rest)
        case None => ValueError
        case Some((origin, msg)) =>
          if msg == [] || '\n' in msg then ValueError
          else Ok(LogMsg(line[..23], level, origin, msg))
  }

  /** A parsed line has the grammar's parts, and they reassemble into it. */
  lemma LogMsgSound(line: string)
    requires ParseLogMsg(line).Ok?
    ensures LineGrammar(line, ParseLogMsg(line).value)
  {
    var m := ParseLogMsg(line).value;
    Reassemble(line, m.level, SplitLevel(line[24..]).value.1, m.origin, m.msg);
  }

  lemma Reassemble(line: string, level: string, afterLevel: string, origin: string, msg: string)
    requires |line| >= 24 && line[23] == ' '
    requires line[24..] == level + " " + afterLevel && afterLevel == origin + ": " + msg
    ensures line == line[..23] + " " + level + " " + origin + ": " + msg
  {
    assert line == line[..23] + " " + line[24..];
  }

  /** Any decomposition that fits the grammar is the one `ParseLogMsg`
      finds, so ValueError is raised exactly when the line does not fit. */
  lemma LogMsgComplete(line: string, m: LogMsg)
    requires LineGrammar(line, m)
    ensures ParseLogMsg(line) == Ok(m)
  {
    var rest := m.origin + ": " + m.msg;
    var afterTs := m.level + " " + rest;
    assert line == m.ts + " " + afterTs;
    assert line[..23] == m.ts && line[23] == ' ' && line[24..] == afterTs;
    SplitLevelComplete(m.level, rest);
    SplitOriginComplete(m.origin, m.msg);
  }

  // --------------------------------------------------------------- Container

  /** A container; `node` is the host name of the node hosting it (None in
      Python until it is linked) and `epoch` is present only for ids of the
      `container_e...` form. */
  datatype Container = Container(
    fullId: string, clusterId: string, appId: string, attemptId: string, id: string,
    epoch: Option<string>, node: Option<string>, states: seq<string>)

  const Field := Step(Digits, "_")
  const LastField := Step(Digits, "")

  /** `container_(\d+)_(\d+)_(\d+)_(\d+)` */
  const ContainerShape := Shape("container_", [Field, Field, Field, LastField])

  /** `container_e(\d+)_(\d+)_(\d+)_(\d+)_(\d+)` */
  const EpochContainerShape := Shape("container_e", [Field, Field, Field, Field, LastField])

  /** `Container(name)`: the plain form is tried first, then the form with
      an epoch; both are matched at the start of the name only. */
  function NewContainer(name: string): Result<Container>
  {
    match Match(ContainerShape, name)
    case Some(g) => Ok(Container(name, g[0], g[1], g[2], g[3], None, None, []))
    case None =>
      match Match(EpochContainerShape, name)
      case Some(g) => Ok(Container(name, g[1], g[2], g[3], g[4], Some(g[0]), None, []))
      case None => ValueError
  }

  function PlainContainerName(cluster: string, app: string, attempt: string, id: string): string {
    "container_" + cluster + "_" + app + "_" + attempt + "_" + id
  }

  function EpochContainerName(epoch: string, cluster: string, app: string, attempt: string, id: string): string {
    "container_e" + epoch + "_" + cluster + "_" + app + "_" + attempt + "_" + id
  }

  /** The numeric fields a container id was split into, in the form used. */
  function ContainerGroups(c: Container): seq<string> {
    (if c.epoch.Some? then [c.epoch.value] else []) + [c.clusterId, c.appId, c.attemptId, c.id]
  }

  lemma NumeralFits(s: string)
    ensures IsNumeral(s) <==> s != [] && AllIn(s, Digits)
  {
  }

  /** `_`-separated digit fields, as the last three or four runs of an id. */
  lemma {:induction false} FieldsFill(b: string, c: string, d: string)
    ensures FillSteps([Field, Field, LastField], [b, c, d]) == b + "_" + c + "_" + d
  {
    FillStepsCons(LastField, [], d, []);
    FillStepsCons(Field, [LastField], c, [d]);
    FillStepsCons(Field, [Field, LastField], b, [c, d]);
  }

  lemma PlainContainerFill(a: string, b: string, c: string, d: string)
    requires IsNumeral(a) && IsNumeral(b) && IsNumeral(c) && IsNumeral(d)
    ensures GroupsFit(ContainerShape, [a, b, c, d])
    ensures Fill(ContainerShape, [a, b, c, d]) == PlainContainerName(a, b, c, d)
  {
    FieldsFill(b, c, d);
    FillStepsCons(Field, [Field, Field, LastField], a, [b, c, d]);
  }

  lemma EpochContainerFill(e: string, a: string, b: string, c: string, d: string)
    requires IsNumeral(e) && IsNumeral(a) && IsNumeral(b) && IsNumeral(c) && IsNumeral(d)
    ensures GroupsFit(EpochContainerShape, [e, a, b, c, d])
    ensures Fill(EpochContainerShape, [e, a, b, c, d]) == EpochContainerName(e, a, b, c, d)
  {
    FieldsFill(b, c, d);
    FillStepsCons(Field, [Field, Field, LastField], a, [b, c, d]);
    FillStepsCons(Field, [Field, Field, Field, LastField], e, [a, b, c, d]);
  }

  /** A parsed container keeps its name as `fullId`, starts with no states
      and no node, and its fields rebuilt into the form that matched give a
      prefix of the name (the pattern has no end anchor). `epoch` is set
      only when the plain form does not match. */
  lemma ContainerParsed(name: string)
    requires NewContainer(name).Ok?
    ensures var c := NewContainer(name).value;
      && c.fullId == name && c.states == [] && c.node == None
      && (forall i :: 0 <= i < |ContainerGroups(c)| ==> IsNumeral(ContainerGroups(c)[i]))
      && (c.epoch.None? <==> Match(ContainerShape, name).Some?)
      && (c.epoch.None? ==> IsPrefix(PlainContainerName(c.clusterId, c.appId, c.attemptId, c.id), name))
      && (c.epoch.Some? ==>
            IsPrefix(EpochContainerName(c.epoch.value, c.clusterId, c.appId, c.attemptId, c.id), name))
  {
    var c := NewContainer(name).value;
    if Match(ContainerShape, name).Some? {
      var g := Match(ContainerShape, name).value;
      MatchSound(ContainerShape, name);
      assert IsNumeral(g[0]) && IsNumeral(g[1]) && IsNumeral(g[2]) && IsNumeral(g[3]);
      PlainContainerFill(g[0], g[1], g[2], g[3]);
      assert g == [g[0], g[1], g[2], g[3]];
    } else {
      var g := Match(EpochContainerShape, name).value;
      MatchSound(EpochContainerShape, name);
      assert IsNumeral(g[0]) && IsNumeral(g[1]) && IsNumeral(g[2]) && IsNumeral(g[3]) && IsNumeral(g[4]);
      EpochContainerFill(g[0], g[1], g[2], g[3], g[4]);
      assert g == [g[0], g[1], g[2], g[3], g[4]];
    }
  }

  /** `Container(name)` raises ValueError exactly when no digit fields make
      either form a prefix of the name. */
  lemma ContainerRejected(name: string)
    ensures NewContainer(name).ValueError? <==>
      (forall a, b, c, d :: IsNumeral(a) && IsNumeral(b) && IsNumeral(c) && IsNumeral(d) ==>
         !IsPrefix(PlainContainerName(a, b, c, d), name)) &&
      (forall e, a, b, c, d ::
         IsNumeral(e) && IsNumeral(a) && IsNumeral(b) && IsNumeral(c) && IsNumeral(d) ==>
         !IsPrefix(EpochContainerName(e, a, b, c, d), name))
  {
    PlainFormComplete(name);
    EpochFormComplete(name);
    if NewContainer(name).Ok? {
      ContainerParsed(name);
      ContainerWitness(name, NewContainer(name).value);
    }
  }

  /** Any plain container name at the start of `name` makes the plain
      form match. */
  lemma PlainFormComplete(name: string)
    ensures (exists a, b, c, d ::
               IsNumeral(a) && IsNumeral(b) && IsNumeral(c) && IsNumeral(d) &&
               IsPrefix(PlainContainerName(a, b, c, d), name))
      ==> Match(ContainerShape, name).Some?
  {
    assert Separated(ContainerShape);
    forall a, b, c, d | IsNumeral(a) && IsNumeral(b) && IsNumeral(c) && IsNumeral(d) &&
      IsPrefix(PlainContainerName(a, b, c, d), name)
      ensures Match(ContainerShape, name).Some?
    {
      PlainContainerFill(a, b, c, d);
      MatchComplete(ContainerShape, [a, b, c, d], name);
    }
  }

  /** Any epoch container name at the start of `name` makes the epoch form
      match. */
  lemma EpochFormComplete(name: string)
    ensures (exists e, a, b, c, d ::
               IsNumeral(e) && IsNumeral(a) && IsNumeral(b) && IsNumeral(c) && IsNumeral(d) &&
               IsPrefix(EpochContainerName(e, a, b, c, d), name))
      ==> Match(EpochContainerShape, name).Some?
  {
    assert Separated(EpochContainerShape);
    forall e, a, b, c, d | IsNumeral(e) && IsNumeral(a) && IsNumeral(b) && IsNumeral(c) &&
      IsNumeral(d) && IsPrefix(EpochContainerName(e, a, b, c, d), name)
      ensures Match(EpochContainerShape, name).Some?
    {
      EpochContainerFill(e, a, b, c, d);
      MatchComplete(EpochContainerShape, [e, a, b, c, d], name);
    }
  }

  /** The fields of a parsed container witness one of the two forms. */
  lemma ContainerWitness(name: string, c: Container)
    requires forall i :: 0 <= i < |ContainerGroups(c)| ==> IsNumeral(ContainerGroups(c)[i])
    requires c.epoch.None? ==> IsPrefix(PlainContainerName(c.clusterId, c.appId, c.attemptId, c.id), name)
    requires c.epoch.Some? ==>
      IsPrefix(EpochContainerName(c.epoch.value, c.clusterId, c.appId, c.attemptId, c.id), name)
    ensures
      (exists a, b, c, d :: IsNumeral(a) && IsNumeral(b) && IsNumeral(c) && IsNumeral(d) &&
         IsPrefix(PlainContainerName(a, b, c, d), name)) ||
      (exists e, a, b, c, d ::
         IsNumeral(e) && IsNumeral(a) && IsNumeral(b) && IsNumeral(c) && IsNumeral(d) &&
         IsPrefix(EpochContainerName(e, a, b, c, d), name))
  {
    var gs := ContainerGroups(c);
    var k := |gs| - 4;
    assert gs[k] == c.clusterId && gs[k + 1] == c.appId && gs[k + 2] == c.attemptId && gs[k + 3] == c.id;
    assert IsNumeral(c.clusterId) && IsNumeral(c.appId) && IsNumeral(c.attemptId) && IsNumeral(c.id);
    if c.epoch.Some? {
      assert gs[0] == c.epoch.value;
    }
  }

  // ------------------------------------------------------------- Application

  /** An application; `containers` holds the ids of its containers (each
      such entry in Python is the registry's object for that id). */
  datatype Application = Application(
    fullId: string, clusterId: string, id: string, states: seq<string>, containers: set<string>)

  /** `application_(\d+)_(\d+)` */
  const ApplicationShape := Shape("application_", [Field, LastField])

  /** `Application(name)`. */
  function NewApplication(name: string): Result<Application>
  {
    match Match(ApplicationShape, name)
    case Some(g) => Ok(Application(name, g[0], g[1], [], {}))
    case None => ValueError
  }

  function ApplicationName(cluster: string, app: string): string {
    "application_" + cluster + "_" + app
  }

  lemma ApplicationFill(a: string, b: string)
    requires IsNumeral(a) && IsNumeral(b)
    ensures GroupsFit(ApplicationShape, [a, b])
    ensures Fill(ApplicationShape, [a, b]) == ApplicationName(a, b)
  {
    FillStepsCons(LastField, [], b, []);
    FillStepsCons(Field, [LastField], a, [b]);
  }

  /** An application id splits into its two digit fields, matched at the
      start only; the new application has no states and no containers, and
      ValueError is raised exactly when no digit fields fit. */
  lemma ApplicationParsed(name: string)
    ensures NewApplication(name).Ok? ==>
      var a := NewApplication(name).value;
      && a.fullId == name && a.states == [] && a.containers == {}
      && IsNumeral(a.clusterId) && IsNumeral(a.id)
      && IsPrefix(ApplicationName(a.clusterId, a.id), name)
    ensures NewApplication(name).ValueError? <==>
      forall a, b :: IsNumeral(a) && IsNumeral(b) ==> !IsPrefix(ApplicationName(a, b), name)
  {
    assert Separated(ApplicationShape);
    if Match(ApplicationShape, name).Some? {
      var g := Match(ApplicationShape, name).value;
      MatchSound(ApplicationShape, name);
      assert IsNumeral(g[0]) && IsNumeral(g[1]);
      ApplicationFill(g[0], g[1]);
      assert g == [g[0], g[1]];
    }
    forall a, b | IsNumeral(a) && IsNumeral(b) && IsPrefix(ApplicationName(a, b), name)
      ensures Match(ApplicationShape, name).Some?
    {
      ApplicationFill(a, b);
      MatchComplete(ApplicationShape, [a, b], name);
    }
  }

  /** An application id with nothing after its fields parses back into
      exactly those fields. */
  lemma ApplicationNameRoundTrip(cluster: string, app: string)
    requires IsNumeral(cluster) && IsNumeral(app)
    ensures NewApplication(ApplicationName(cluster, app)) ==
      Ok(Application(ApplicationName(cluster, app), cluster, app, [], {}))
  {
    var name := ApplicationName(cluster, app);
    assert Separated(ApplicationShape);
    ApplicationFill(cluster, app);
    assert IsPrefix(name, name);
    MatchComplete(ApplicationShape, [cluster, app], name);
  }

  /** `Application.addContainer`: adds the id when it is not there yet. */
  function AddContainer(app: Application, containerId: string): (r: Application)
    ensures r.containers == app.containers + {containerId}
    ensures r.(containers := app.containers) == app
  {
    if containerId in app.containers then app
    else app.(containers := app.containers + {containerId})
  }

  lemma AddContainerIdempotent(app: Application, containerId: string)
    ensures AddContainer(AddContainer(app, containerId), containerId) == AddContainer(app, containerId)
  {
  }

  /** `Container.getFullAppId` gives an id that `Application` accepts and
      that carries the container's cluster and application fields. */
  function ContainerFullAppId(c: Container): string {
    ApplicationName(c.clusterId, c.appId)
  }

  lemma ContainerFullAppIdParses(name: string)
    requires NewContainer(name).Ok?
    ensures var c := NewContainer(name).value;
      NewApplication(ContainerFullAppId(c)) ==
        Ok(Application(ContainerFullAppId(c), c.clusterId, c.appId, [], {}))
  {
    var c := NewContainer(name).value;
    ContainerParsed(name);
    assert ContainerGroups(c)[|ContainerGroups(c)| - 4] == c.clusterId;
    assert ContainerGroups(c)[|ContainerGroups(c)| - 3] == c.appId;
    ApplicationNameRoundTrip(c.clusterId, c.appId);
  }

  // ----------------------------------------------------------------- Attempt

  datatype Attempt = Attempt(fullId: string, clusterId: string, appId: string, id: string)

  /** `appattempt_(\d+)_(\d+)_(\d+)` */
  const AttemptShape := Shape("appattempt_", [Field, Field, LastField])

  /** `Attempt(name)`. */
  function NewAttempt(name: string): Result<Attempt>
  {
    match Match(AttemptShape, name)
    case Some(g) => Ok(Attempt(name, g[0], g[1], g[2]))
    case None => ValueError
  }

  function AttemptName(cluster: string, app: string, attempt: string): string {
    "appattempt_" + cluster + "_" + app + "_" + attempt
  }

  lemma AttemptFill(a: string, b: string, c: string)
    requires IsNumeral(a) && IsNumeral(b) && IsNumeral(c)
    ensures GroupsFit(AttemptShape, [a, b, c])
    ensures Fill(AttemptShape, [a, b, c]) == AttemptName(a, b, c)
  {
    FieldsFill(a, b, c);
  }

  /** An attempt id splits into three digit fields, matched at the start
      only, and ValueError is raised exactly when no digit fields fit. */
  lemma AttemptParsed(name: string)
    ensures NewAttempt(name).Ok? ==>
      var t := NewAttempt(name).value;
      && t.fullId == name && IsNumeral(t.clusterId) && IsNumeral(t.appId) && IsNumeral(t.id)
      && IsPrefix(AttemptName(t.clusterId, t.appId, t.id), name)
    ensures NewAttempt(name).ValueError? <==>
      forall a, b, c :: IsNumeral(a) && IsNumeral(b) && IsNumeral(c) ==>
        !IsPrefix(AttemptName(a, b, c), name)
  {
    assert Separated(AttemptShape);
    if Match(AttemptShape, name).Some? {
      var g := Match(AttemptShape, name).value;
      MatchSound(AttemptShape, name);
      assert IsNumeral(g[0]) && IsNumeral(g[1]) && IsNumeral(g[2]);
      AttemptFill(g[0], g[1], g[2]);
      assert g == [g[0], g[1], g[2]];
    }
    forall a, b, c | IsNumeral(a) && IsNumeral(b) && IsNumeral(c) && IsPrefix(AttemptName(a, b, c), name)
      ensures Match(AttemptShape, name).Some?
    {
      AttemptFill(a, b, c);
      MatchComplete(AttemptShape, [a, b, c], name);
    }
  }

  /** `Attempt.getFullAppId`. */
  function AttemptFullAppId(t: Attempt): string {
    ApplicationName(t.clusterId, t.appId)
  }

  /** The application id derived from an attempt names the application with
      the attempt's cluster and application fields. */
  lemma AttemptFullAppIdParses(name: string)
    requires NewAttempt(name).Ok?
    ensures var t := NewAttempt(name).value;
      NewApplication(AttemptFullAppId(t)) ==
        Ok(Application(AttemptFullAppId(t), t.clusterId, t.appId, [], {}))
  {
    var t := NewAttempt(name).value;
    AttemptParsed(name);
    ApplicationNameRoundTrip(t.clusterId, t.appId);
  }

  // -------------------------------------------------------------------- Node

  datatype EventType = Assigned | Released

  /** A container allocation or release, with the captured numbers kept as
      the digit strings the log shows. */
  datatype Event = Event(
    kind: EventType, containerId: string, containerMem: string, containerVcores: string,
    nodeAddress: string, nodeContainers: string, nodeUsedMem: string, nodeUsedVcores: string,
    nodeAvailMem: string, nodeAvailVcores: string, ts: string)

  /** A node; `containers` holds the ids of the containers linked to it. */
  datatype Node = Node(
    address: string, host: string, port: int, events: seq<Event>, containers: set<string>)

  /** `\S+` once the whole text is required to match. */
  predicate NoSpace(s: string) { forall i :: 0 <= i < |s| ==> !IsPySpace(s[i]) }

  /** `Node(addr)`: the address must be non-empty without whitespace and
      contain a colon; the host is what precedes the last colon and the port
      is `int` of what follows it. */
  function NewNode(addr: string): Result<Node>
  {
    if addr == [] || !NoSpace(addr) then ValueError
    else match LastIndex(addr, ':')
      case None => ValueError
      case Some(idx) =>
        match PyInt(addr[idx + 1..])
        case None => ValueError
        case Some(port) => Ok(Node(addr, addr[..idx], port, [], {}))
  }

  /** `Node.addContainer`, on the key of the container. */
  function AddNodeContainer(node: Node, containerId: string): (r: Node)
    ensures r.containers == node.containers + {containerId}
    ensures r.(containers := node.containers) == node
  {
    if containerId in node.containers then node
    else node.(containers := node.containers + {containerId})
  }

  /** For any split of the address at a colon with no colon after it, the
      node is built from exactly that host and port text; the host may
      itself contain colons. */
  lemma NodeSplit(addr: string, host: string, portText: string)
    requires addr == host + ":" + portText && ':' !in portText
    ensures NewNode(addr).Ok? <==> NoSpace(addr) && PyInt(portText).Some?
    ensures NewNode(addr).Ok? ==>
      NewNode(addr).value == Node(addr, host, PyInt(portText).value, [], {})
  {
    var k := |host|;
    assert addr[k] == ':';
    var idx := LastIndex(addr, ':').value;
    assert idx == k;
    assert addr[..k] == host && addr[k + 1..] == portText;
  }

  /** An address that is empty, has whitespace or has no colon is refused. */
  lemma NodeRejected(addr: string)
    requires addr == [] || !NoSpace(addr) || ':' !in addr
    ensures NewNode(addr).ValueError?
  {
  }

  /** A node keeps its address, starts with no events and no containers, and
      its host and port text reassemble into the address. */
  lemma NodeParsed(addr: string)
    requires NewNode(addr).Ok?
    ensures var n := NewNode(addr).value;
      && n.address == addr && n.events == [] && n.containers == {}
      && |n.host| < |addr| && addr == n.host + ":" + addr[|n.host| + 1..]
      && ':' !in addr[|n.host| + 1..] && PyInt(addr[|n.host| + 1..]) == Some(n.port)
  {
    var idx := LastIndex(addr, ':').value;
    var n := NewNode(addr).value;
    assert n.host == addr[..idx];
    ColonSplit(addr, idx);
  }

  /** Cutting at the last colon: the text before it, the colon, and a tail
      with no colon. */
  lemma ColonSplit(addr: string, idx: nat)
    requires idx < |addr| && addr[idx] == ':'
    requires forall j :: idx < j < |addr| ==> addr[j] != ':'
    ensures addr == addr[..idx] + ":" + addr[idx + 1..]
    ensures ':' !in addr[idx + 1..]
  {
    var tail := addr[idx + 1..];
    assert forall j :: 0 <= j < |tail| ==> tail[j] == addr[idx + 1 + j];
  }

  // ------------------------------------------------------------------- Event

  /** The text between the node address and the node's container count. */
  function HasText(kind: EventType): string {
    match kind
    case Assigned => ", which has "
    case Released => ", which currently has "
  }

  /** The text after the last captured number. */
  function EndText(kind: EventType): string {
    match kind
    case Assigned => "> available after allocation"
    case Released => "> available, release resources=true"
  }

  function LeadText(kind: EventType): string {
    match kind
    case Assigned => "Assigned container "
    case Released => "Released container "
  }

  /** The pattern for messages of the given kind; the two differ only in
      the literals. */
  function EventShape(kind: EventType): Shape {
    Shape(LeadText(kind),
      [Step(Word, " of capacity <memory:"), Step(Digits, ", vCores:"), Step(Digits, "> on host "),
       Step(HostChars, HasText(kind)), Step(Digits, " containers, <memory:"),
       Step(Digits, ", vCores:"), Step(Digits, "> used and <memory:"), Step(Digits, ", vCores:"),
       Step(Digits, EndText(kind))])
  }

  /** The nine captured fields of an event, in the order of the groups. */
  function EventGroups(e: Event): seq<string> {
    [e.containerId, e.containerMem, e.containerVcores, e.nodeAddress, e.nodeContainers,
     e.nodeUsedMem, e.nodeUsedVcores, e.nodeAvailMem, e.nodeAvailVcores]
  }

  function EventFromGroups(kind: EventType, g: seq<string>, ts: string): (e: Event)
    requires |g| == 9
    ensures e.kind == kind && e.ts == ts && EventGroups(e) == g
  {
    Event(kind, g[0], g[1], g[2], g[3], g[4], g[5], g[6], g[7], g[8], ts)
  }

  /** `Event(log)`; None stands for the object left without a `type`. */
  function NewEvent(log: LogMsg): Option<Event>
  {
    match Match(EventShape(Assigned), log.msg)
    case Some(g) => Some(EventFromGroups(Assigned, g, log.ts))
    case None =>
      match Match(EventShape(Released), log.msg)
      case Some(g) => Some(EventFromGroups(Released, g, log.ts))
      case None => None
  }

  /** The message an event stands for. */
  function EventText(e: Event): string {
    LeadText(e.kind) + ((e.containerId + " of capacity <memory:") + ((e.containerMem + ", vCores:") +
    ((e.containerVcores + "> on host ") + ((e.nodeAddress + HasText(e.kind)) + NodeUsageText(e)))))
  }

  /** The part of the message about the node's load. */
  function NodeUsageText(e: Event): string {
    (e.nodeContainers + " containers, <memory:") + ((e.nodeUsedMem + ", vCores:") +
    ((e.nodeUsedVcores + "> used and <memory:") + ((e.nodeAvailMem + ", vCores:") +
    (e.nodeAvailVcores + EndText(e.kind)))))
  }

  /** Each field is what its group can capture: a word for the container
      id, a host-and-port text for the address, digits for the rest. */
  predicate EventFieldsFit(e: Event) {
    && e.containerId != [] && AllIn(e.containerId, Word)
    && IsNumeral(e.containerMem) && IsNumeral(e.containerVcores)
    && e.nodeAddress != [] && AllIn(e.nodeAddress, HostChars)
    && IsNumeral(e.nodeContainers) && IsNumeral(e.nodeUsedMem) && IsNumeral(e.nodeUsedVcores)
    && IsNumeral(e.nodeAvailMem) && IsNumeral(e.nodeAvailVcores)
  }

  lemma FillStepsAt(steps: seq<Step>, gs: seq<string>, i: nat)
    requires |gs| == |steps| && i < |steps|
    ensures FillSteps(steps[i..], gs[i..]) ==
      gs[i] + steps[i].follow + FillSteps(steps[i + 1..], gs[i + 1..])
  {
    assert steps[i..][1..] == steps[i + 1..];
    assert gs[i..][1..] == gs[i + 1..];
  }

  lemma NodeUsageFill(e: Event)
    ensures FillSteps(EventShape(e.kind).steps[4..], EventGroups(e)[4..]) == NodeUsageText(e)
  {
    var steps := EventShape(e.kind).steps;
    var g := EventGroups(e);
    assert steps[9..] == [] && g[9..] == [];
    var t9 := FillSteps(steps[9..], g[9..]);
    assert t9 == "";
    FillStepsAt(steps, g, 8);
    var t8 := FillSteps(steps[8..], g[8..]);
    assert t8 == e.nodeAvailVcores + EndText(e.kind);
    FillStepsAt(steps, g, 7);
    var t7 := FillSteps(steps[7..], g[7..]);
    assert t7 == (e.nodeAvailMem + ", vCores:") + t8;
    FillStepsAt(steps, g, 6);
    var t6 := FillSteps(steps[6..], g[6..]);
    assert t6 == (e.nodeUsedVcores + "> used and <memory:") + t7;
    FillStepsAt(steps, g, 5);
    var t5 := FillSteps(steps[5..], g[5..]);
    assert t5 == (e.nodeUsedMem + ", vCores:") + t6;
    FillStepsAt(steps, g, 4);
  }

  lemma EventFill(e: Event)
    ensures Fill(EventShape(e.kind), EventGroups(e)) == EventText(e)
  {
    var steps := EventShape(e.kind).steps;
    var g := EventGroups(e);
    NodeUsageFill(e);
    var t4 := FillSteps(steps[4..], g[4..]);
    FillStepsAt(steps, g, 3);
    var t3 := FillSteps(steps[3..], g[3..]);
    assert t3 == (e.nodeAddress + HasText(e.kind)) + t4;
    FillStepsAt(steps, g, 2);
    var t2 := FillSteps(steps[2..], g[2..]);
    assert t2 == (e.containerVcores + "> on host ") + t3;
    FillStepsAt(steps, g, 1);
    var t1 := FillSteps(steps[1..], g[1..]);
    assert t1 == (e.containerMem + ", vCores:") + t2;
    FillStepsAt(steps, g, 0);
    assert steps[0..] == steps && g[0..] == g;
  }

  lemma EventGroupsFit(e: Event)
    ensures GroupsFit(EventShape(e.kind), EventGroups(e)) <==> EventFieldsFit(e)
  {
    if EventFieldsFit(e) {
      FieldsFitGroups(e);
    }
    if GroupsFit(EventShape(e.kind), EventGroups(e)) {
      GroupsFitFields(e);
    }
  }

  lemma FieldsFitGroups(e: Event)
    requires EventFieldsFit(e)
    ensures GroupsFit(EventShape(e.kind), EventGroups(e))
  {
    var steps := EventShape(e.kind).steps;
    var g := EventGroups(e);
    forall i | 0 <= i < 9
      ensures g[i] != [] && AllIn(g[i], steps[i].cls)
    {
    }
  }

  lemma GroupsFitFields(e: Event)
    requires GroupsFit(EventShape(e.kind), EventGroups(e))
    ensures EventFieldsFit(e)
  {
    var g := EventGroups(e);
    var steps := EventShape(e.kind).steps;
    assert steps[0].cls == Word && steps[3].cls == HostChars;
    assert forall i :: 0 <= i < 9 && i != 0 && i != 3 ==> steps[i].cls == Digits;
    assert g[0] == e.containerId && g[1] == e.containerMem && g[2] == e.containerVcores;
    assert g[3] == e.nodeAddress && g[4] == e.nodeContainers && g[5] == e.nodeUsedMem;
    assert g[6] == e.nodeUsedVcores && g[7] == e.nodeAvailMem && g[8] == e.nodeAvailVcores;
  }

  lemma EventShapeSeparated(kind: EventType)
    ensures Separated(EventShape(kind))
  {
  }

  /** A recognised event takes the log record's timestamp, its fields fit
      their groups, and its text is a prefix of the message (the pattern
      has no end anchor). */
  lemma EventSound(log: LogMsg)
    requires NewEvent(log).Some?
    ensures var e := NewEvent(log).value;
      e.ts == log.ts && EventFieldsFit(e) && IsPrefix(EventText(e), log.msg)
  {
    var e := NewEvent(log).value;
    MatchSound(EventShape(e.kind), log.msg);
    EventGroupsFit(e);
    EventFill(e);
  }

  /** Conversely, a message that starts with the text of some event whose
      fields fit is recognised as exactly that event: the Assigned form
      being tried first never hides a Released message, since the two
      differ in their first word. */
  lemma EventComplete(log: LogMsg, e: Event)
    requires EventFieldsFit(e) && e.ts == log.ts && IsPrefix(EventText(e), log.msg)
    ensures NewEvent(log) == Some(e)
  {
    EventMatches(log.msg, e);
    if e.kind == Released {
      LeadExcludes(log.msg);
    }
    assert EventFromGroups(e.kind, EventGroups(e), log.ts) == e;
  }

  /** The pattern of the event's kind captures exactly its fields. */
  lemma EventMatches(msg: string, e: Event)
    requires EventFieldsFit(e) && IsPrefix(EventText(e), msg)
    ensures Match(EventShape(e.kind), msg) == Some(EventGroups(e))
  {
    FieldsFitGroups(e);
    EventFill(e);
    EventShapeSeparated(e.kind);
    MatchComplete(EventShape(e.kind), EventGroups(e), msg);
  }

  /** A message that starts as a release is not an allocation. */
  lemma LeadExcludes(msg: string)
    requires IsPrefix(LeadText(Released), msg)
    ensures Match(EventShape(Assigned), msg).None?
  {
    assert msg[0] == 'R';
  }

  /** There is no event exactly when no event's text starts the message. */
  lemma EventAbsent(log: LogMsg)
    ensures NewEvent(log).None? <==>
      forall e :: EventFieldsFit(e) ==> !IsPrefix(EventText(e), log.msg)
  {
    if NewEvent(log).Some? {
      EventSound(log);
    }
    forall e | EventFieldsFit(e) && IsPrefix(EventText(e), log.msg)
      ensures NewEvent(log).Some?
    {
      EventComplete(log, e.(ts := log.ts));
    }
  }

  // -------------------------------------------------------------- YException

  /** A run of lines that are not log lines, with its line range
      `[first, first + |lines|)`. */
  datatype YException = YException(lines: seq<string>, lineRange: (int, int), isThrDump: bool)

  /** `(\d+) active threads` */
  const ThreadDumpShape := Shape("", [Step(Digits, " active threads")])

  /** The fragments of a startup or shutdown banner and of a queue capacity
      trace. */
  const BannerFragment: string := "/*************************************************"
  const CapacityFragment: string := "capacity = "

  function MakeYException(lines: seq<string>, first: int): YException
    requires lines != []
  {
    YException(lines, (first, first + |lines|), Match(ThreadDumpShape, lines[0]).Some?)
  }

  /** `YException(lines, line_num)`. */
  function NewYException(lines: seq<string>, first: int): (r: Result<YException>)
    ensures r.ValueError? <==> lines == []
    ensures r.Ok? ==> r.value.lines == lines && r.value.lineRange == (first, first + |lines|)
  {
    if lines == [] then ValueError else Ok(MakeYException(lines, first))
  }

  /** A block is a thread dump exactly when its first line starts with
      digits followed by " active threads". */
  lemma ThreadDumpIff(lines: seq<string>, first: int)
    requires lines != []
    ensures MakeYException(lines, first).isThrDump <==>
      exists d :: IsNumeral(d) && IsPrefix(d + " active threads", lines[0])
  {
    var p := ThreadDumpShape;
    if Match(p, lines[0]).Some? {
      var g := Match(p, lines[0]).value;
      MatchSound(p, lines[0]);
      FillStepsCons(p.steps[0], [], g[0], []);
      assert [p.steps[0]] + [] == p.steps && [g[0]] + [] == g;
      assert IsNumeral(g[0]);
    }
    forall d | IsNumeral(d) && IsPrefix(d + " active threads", lines[0])
      ensures Match(p, lines[0]).Some?
    {
      FillStepsCons(p.steps[0], [], d, []);
      assert [p.steps[0]] + [] == p.steps && [d] + [] == [d];
      assert Fill(p, [d]) == d + " active threads";
      MatchComplete(p, [d], lines[0]);
    }
  }

  /** A block whose first line is a log line is never a thread dump: the
      timestamp puts a `-` after four digits, where `\d+ active threads`
      needs another digit or a blank. */
  lemma LogLineNotThrDump(lines: seq<string>, first: int)
    requires lines != [] && ParseLogMsg(lines[0]).Ok?
    ensures !MakeYException(lines, first).isThrDump
  {
    var line := lines[0];
    assert IsTimestamp(line[..23]);
    forall k | 0 <= k < 4
      ensures IsDigit(line[k])
    {
      assert TimestampMask[k] == 'D' && line[..23][k] == line[k];
    }
    assert TimestampMask[4] == '-' && line[..23][4] == line[4];
    ThreadDumpIff(lines, first);
    forall d | IsNumeral(d)
      ensures !IsPrefix(d + " active threads", line)
    {
      NoThreadCount(line, d);
    }
  }

  lemma NoThreadCount(line: string, d: string)
    requires |line| >= 5 && line[4] == '-'
    requires forall k :: 0 <= k < 4 ==> IsDigit(line[k])
    requires IsNumeral(d)
    ensures !IsPrefix(d + " active threads", line)
  {
    var t := d + " active threads";
    var k := if |d| <= 4 then |d| else 4;
    assert k < |t| && t[k] != line[k];
    if |t| <= |line| {
      assert line[..|t|][k] != t[k];
    }
  }

  /** `YException.ignore`: IndexError (None) for a block of one line;
      otherwise whether its second line holds either fragment. */
  function Ignore(y: YException): (r: Option<bool>)
  {
    if |y.lines| < 2 then None
    else Some(Contains(y.lines[1], BannerFragment) || Contains(y.lines[1], CapacityFragment))
  }

  lemma IgnoreIff(y: YException)
    ensures Ignore(y).None? <==> |y.lines| < 2
    ensures Ignore(y).Some? ==>
      (Ignore(y).value <==>
        (exists i :: OccursAt(y.lines[1], BannerFragment, i)) ||
        (exists i :: OccursAt(y.lines[1], CapacityFragment, i)))
  {
    if |y.lines| >= 2 {
      ContainsIff(y.lines[1], BannerFragment);
      ContainsIff(y.lines[1], CapacityFragment);
    }
  }
}
