/**
The part of a ZooKeeper ensemble that the client talks to: the tree of znodes,
the one-shot watches of this client, and the events it has not handled yet.

The C library is not part of this model; its calls become functions on a
`Server` value.  Watches are keyed by the watcher they were armed for, since
the library identifies a watch by its callback and context.
*/
module ZooKeeper {
  import opened Wrappers

  type Path = string

  /** The address of a Watcher: watchers are compared and ordered by address. */
  type Addr = a: int | 0 <= a < ADDRESS_LIMIT

  const ADDRESS_LIMIT: int := 0x1_0000_0000_0000_0000

  const MAX_LENGTH: nat := 1024 * 1024

  /** `owner` is the session an ephemeral znode belongs to, 0 for a persistent one.
      `data` is None after a create or set with a null buffer. */
  datatype Znode = Znode(data: Option<string>, owner: nat)

  datatype Kind = Data | Child

  datatype Watch = Watch(who: Addr, path: Path, kind: Kind)

  datatype EventType = Session | Created | Removed | DataChanged | ChildrenChanged

  datatype Event = Event(who: Addr, path: Path, what: EventType)

  datatype ReturnCode =
    | Ok
    | NoNode
    | NoChildrenForEphemerals
    | NodeExists
    | NotEmpty
    | BadArguments
    | Error

  datatype CreateMode = Persistent | Ephemeral

  /** `queue` is a bag: every order of delivery is a behaviour of the model. */
  datatype Server = Server(tree: map<Path, Znode>, armed: set<Watch>, queue: multiset<Event>)

  predicate ValidPath(p: Path) {
    && 0 < |p|
    && p[0] == '/'
    && (1 < |p| ==> p[|p| - 1] != '/')
    && (forall i, j :: 0 <= i < |p| && 0 <= j < |p| && j == i + 1 ==> !(p[i] == '/' && p[j] == '/'))
  }

  function LastSlash(p: Path): (i: nat)
    ensures i <= |p|
  {
    if p == [] then 0
    else if p[|p| - 1] == '/' then |p| - 1
    else LastSlash(p[..|p| - 1])
  }

  function Parent(p: Path): Path {
    var i := LastSlash(p);
    if i == 0 then "/" else p[..i]
  }

  /** What a read of the znode hands to the caller: a null buffer reads as empty. */
  function Value(n: Znode): string {
    match n.data
    case None => ""
    case Some(d) => d
  }

  /** The buffer the client passes to the library: null when the value is empty. */
  function Buffer(value: string): Option<string> {
    if |value| == 0 then None else Some(value)
  }

  /** The kind of watch whose loss an event reports to the client. */
  function KindOf(t: EventType): Kind {
    if t == ChildrenChanged then Child else Data
  }

  // ----- the watches each change consumes, and the events it queues

  /** A write fires the data watches of the path. */
  function FiredBySet(sv: Server, p: Path): set<Watch> {
    set w | w in sv.armed && w.path == p && w.kind == Data
  }

  /** A creation fires the data watches of the path and the child watches of its parent. */
  function FiredByCreate(sv: Server, p: Path): set<Watch> {
    set w | w in sv.armed && ((w.path == p && w.kind == Data) || (w.path == Parent(p) && w.kind == Child))
  }

  /** A removal fires both kinds of watch on the path and the child watches of its parent. */
  function FiredByDelete(sv: Server, p: Path): set<Watch> {
    set w | w in sv.armed && (w.path == p || (w.path == Parent(p) && w.kind == Child))
  }

  /** Watches are one-shot: firing removes them.  Both watches of one watcher on a
      removed path make one event. */
  function Fire(sv: Server, fired: set<Watch>, p: Path, what: EventType): Server {
    var events := set w | w in fired :: Event(w.who, w.path, if w.path == p then what else ChildrenChanged);
    sv.(armed := sv.armed - fired, queue := sv.queue + multiset(events))
  }

  // ----- the operations of the server

  function Create(sv: Server, p: Path, data: Option<string>, owner: nat): (Server, ReturnCode) {
    if !ValidPath(p) then (sv, BadArguments)
    else if Parent(p) !in sv.tree then (sv, NoNode)
    else if p in sv.tree then (sv, NodeExists)
    else if sv.tree[Parent(p)].owner != 0 then (sv, NoChildrenForEphemerals)
    else (Fire(sv, FiredByCreate(sv, p), p, Created).(tree := sv.tree[p := Znode(data, owner)]), Ok)
  }

  function Set(sv: Server, p: Path, data: Option<string>): (Server, ReturnCode) {
    if p !in sv.tree then (sv, NoNode)
    else (Fire(sv, FiredBySet(sv, p), p, DataChanged).(tree := sv.tree[p := sv.tree[p].(data := data)]), Ok)
  }

  predicate HasChildren(sv: Server, p: Path) {
    exists q :: q in sv.tree && q != "/" && Parent(q) == p
  }

  function Delete(sv: Server, p: Path): (Server, ReturnCode) {
    if p == "/" then (sv, BadArguments)
    else if p !in sv.tree then (sv, NoNode)
    else if HasChildren(sv, p) then (sv, NotEmpty)
    else (Fire(sv, FiredByDelete(sv, p), p, Removed).(tree := sv.tree - {p}), Ok)
  }

  /** A session that ends takes its ephemeral znodes, its watches and its undelivered events along. */
  function EndSession(sv: Server, session: nat): Server {
    Server(map p | p in sv.tree && sv.tree[p].owner != session :: sv.tree[p], {}, multiset{})
  }

  // ----- what the operations signal

  /** The watch is used up by this event. */
  ghost predicate UsedUp(sv: Server, t: Server, x: Watch, what: EventType) {
    && x !in t.armed
    && sv.queue[Event(x.who, x.path, what)] < t.queue[Event(x.who, x.path, what)]
  }

  lemma FireSignals(sv: Server, fired: set<Watch>, p: Path, what: EventType, x: Watch)
    requires x in sv.armed
    ensures x in fired ==> UsedUp(sv, Fire(sv, fired, p, what), x, if x.path == p then what else ChildrenChanged)
    ensures x !in fired ==> x in Fire(sv, fired, p, what).armed
  {
    var events := set w | w in fired :: Event(w.who, w.path, if w.path == p then what else ChildrenChanged);
    if x in fired {
      assert Event(x.who, x.path, if x.path == p then what else ChildrenChanged) in events;
    }
  }

  /** A write is seen by the data watches of the path; every other watch stays armed. */
  lemma WriteSignals(sv: Server, p: Path, data: Option<string>, x: Watch)
    requires Set(sv, p, data).1 == Ok && x in sv.armed
    ensures var t := Set(sv, p, data).0;
      if x.path == p && x.kind == Data then UsedUp(sv, t, x, DataChanged) else x in t.armed
  {
    FireSignals(sv, FiredBySet(sv, p), p, DataChanged, x);
  }

  /** A creation is seen by the data watches of the path and the child watches of its parent. */
  lemma CreationSignals(sv: Server, p: Path, data: Option<string>, owner: nat, x: Watch)
    requires Create(sv, p, data, owner).1 == Ok && x in sv.armed
    ensures var t := Create(sv, p, data, owner).0;
      if x.path == p && x.kind == Data then UsedUp(sv, t, x, Created)
      else if x.path == Parent(p) && x.kind == Child then UsedUp(sv, t, x, ChildrenChanged)
      else x in t.armed
  {
    FireSignals(sv, FiredByCreate(sv, p), p, Created, x);
  }

  /** A removal is seen by both kinds of watch on the path and the child watches of its parent. */
  lemma RemovalSignals(sv: Server, p: Path, x: Watch)
    requires Delete(sv, p).1 == Ok && x in sv.armed
    ensures var t := Delete(sv, p).0;
      if x.path == p then UsedUp(sv, t, x, Removed)
      else if x.path == Parent(p) && x.kind == Child then UsedUp(sv, t, x, ChildrenChanged)
      else x in t.armed
  {
    FireSignals(sv, FiredByDelete(sv, p), p, Removed, x);
  }
}
