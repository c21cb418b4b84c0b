/**
What each public operation of ZkClient does, as functions on a `Client` value:
the connection, the Watcher objects, the local table of listeners, and a
history of what happened to them.  The class in ZkClientImpl is proved against
these functions.
*/
module Client {
  import opened ZooKeeper

  /** The two liveness flags of a Watcher; also what the table stores per path. */
  datatype Flags = Flags(data: bool, child: bool)

  datatype Link = Connected | Connecting | Expired

  datatype Handle = NoHandle | Open(session: nat, link: Link)

  /** History.  An add is what a caller asks for; event_watcher arming the watches of a path
      again is not.  `stale` says that an event of a watch being armed was still undelivered. */
  datatype LogEntry =
    | Added(w: Addr, p: Path, stale: bool)
    | Rearmed(w: Addr, p: Path, stale: bool)
    | PathDropped(w: Addr, p: Path)
    | Closed(ws: set<Addr>)
    | Called(w: Addr, p: Path, what: EventType)

  type Paths = map<Path, Flags>

  datatype Client = Client(
    zk: Server,
    handle: Handle,
    watchers: map<Addr, Flags>,
    listeners: map<Addr, Paths>,
    log: seq<LogEntry>)

  const DEAD := Flags(false, false)

  predicate Available(c: Client) {
    c.handle.Open? && c.handle.link == Connected
  }

  function FlagsOf(c: Client, w: Addr): Flags {
    if w in c.watchers then c.watchers[w] else DEAD
  }

  predicate Live(c: Client, w: Addr) {
    FlagsOf(c, w) != DEAD
  }

  function PathsOf(c: Client, w: Addr): Paths {
    if w in c.listeners then c.listeners[w] else map[]
  }

  predicate Watches(f: Flags, k: Kind) {
    if k == Data then f.data else f.child
  }

  /** The watches AddListener arms for a watcher with these flags. */
  function WatchesOf(w: Addr, p: Path, f: Flags): set<Watch> {
    (if f.data then {Watch(w, p, Data)} else {}) + (if f.child then {Watch(w, p, Child)} else {})
  }

  /** The event may be that of the watch: a removal uses up watches of both kinds. */
  predicate MayReport(e: Event, k: Kind) {
    KindOf(e.what) == k || e.what == Removed
  }

  /** An undelivered event of (w, p) may be that of a watch which these flags would arm. */
  predicate Undelivered(c: Client, w: Addr, p: Path, f: Flags) {
    exists e :: e in c.zk.queue && e.who == w && e.path == p &&
      ((f.data && MayReport(e, Data)) || (f.child && MayReport(e, Child)))
  }

  // ----- nodes

  function Exist(c: Client, p: Path): ReturnCode {
    if !Available(c) then Error
    else if p !in c.zk.tree then NoNode
    else Ok
  }

  function CreateNode(c: Client, p: Path, value: string, mode: CreateMode): (Client, ReturnCode) {
    if !Available(c) then (c, Error)
    else if |value| > MAX_LENGTH then (c, Error)
    else
      var (zk, rc) := Create(c.zk, p, Buffer(value), if mode == Ephemeral then c.handle.session else 0);
      (c.(zk := zk), rc)
  }

  function DeleteNode(c: Client, p: Path): (Client, ReturnCode) {
    if !Available(c) then (c, Error)
    else
      var (zk, rc) := Delete(c.zk, p);
      (c.(zk := zk), rc)
  }

  function SetDataOfNode(c: Client, p: Path, value: string): (Client, ReturnCode) {
    if !Available(c) then (c, Error)
    else if |value| > MAX_LENGTH then (c, Error)
    else if Exist(c, p) != Ok then (c, Exist(c, p))
    else
      var (zk, rc) := Set(c.zk, p, Buffer(value));
      (c.(zk := zk), rc)
  }

  function GetDataOfNode(c: Client, p: Path): (ReturnCode, string) {
    if Exist(c, p) != Ok then (Exist(c, p), "") else (Ok, Value(c.zk.tree[p]))
  }

  // ----- listeners

  function ListenEntry(c: Client, w: Addr, p: Path, again: bool): LogEntry {
    var stale := Undelivered(c, w, p, FlagsOf(c, w));
    if again then Rearmed(w, p, stale) else Added(w, p, stale)
  }

  /** `again` marks the call event_watcher makes; it matters to the history only. */
  function AddListener(c: Client, w: Addr, p: Path, again: bool := false): (Client, ReturnCode) {
    if Exist(c, p) != Ok then (c, Exist(c, p))
    else if w in c.listeners && !Live(c, w) then (c, Error)
    else
      var f := FlagsOf(c, w);
      var paths := PathsOf(c, w);
      // An existing entry is not overwritten.
      var paths' := if p in paths then paths else paths[p := f];
      (c.(listeners := c.listeners[w := paths'],
          zk := c.zk.(armed := c.zk.armed + WatchesOf(w, p, f)),
          log := c.log + [ListenEntry(c, w, p, again)]), Ok)
  }

  function DropListenerWithPath(c: Client, w: Addr, p: Path): (Client, ReturnCode) {
    if !Available(c) then (c, Error)
    else if w !in c.listeners then (c, Error)
    else
      (c.(listeners := c.listeners[w := c.listeners[w] - {p}],
          log := c.log + [PathDropped(w, p)]), Ok)
  }

  /** Closing watchers clears both flags of each, for good. */
  function CloseWatchers(c: Client, ws: set<Addr>): Client {
    c.(watchers := map w | w in c.watchers :: if w in ws then DEAD else c.watchers[w],
       log := c.log + [Closed(ws)])
  }

  function DropListener(c: Client, w: Addr): (Client, ReturnCode) {
    if !Available(c) then (c, Error)
    else if w !in c.listeners then (c, Error)
    else (CloseWatchers(c, {w}), Ok)
  }

  function Clear(c: Client): Client {
    CloseWatchers(c, c.listeners.Keys)
  }

  // ----- the connection

  function Close(c: Client): Client {
    match c.handle
    case NoHandle => c
    case Open(session, _) => c.(handle := NoHandle, zk := EndSession(c.zk, session))
  }

  predicate Fresh(c: Client, session: nat) {
    && session != 0
    && (forall p :: p in c.zk.tree ==> c.zk.tree[p].owner != session)
    && (c.handle.Open? ==> c.handle.session != session)
  }

  function Connect(c: Client, session: nat): Client {
    Close(c).(handle := Open(session, Connected))
  }

  /** The ensemble ends a session whose client stayed away too long. */
  function Expire(c: Client): Client {
    match c.handle
    case NoHandle => c
    case Open(session, _) => c.(handle := Open(session, Expired), zk := EndSession(c.zk, session))
  }

  // ----- the table side of an event

  /** An event for a dead watcher clears the flag of its kind in the table entry; an
      entry with no flag left is erased, and so is a watcher with no entry left. */
  function Reap(c: Client, w: Addr, p: Path, what: EventType): Client
    requires w in c.listeners
  {
    var paths := c.listeners[w];
    if p !in paths then c
    else
      var f := match what
        case Session => paths[p]
        case ChildrenChanged => paths[p].(child := false)
        case _ => paths[p].(data := false);
      if f != DEAD then c.(listeners := c.listeners[w := paths[p := f]])
      else if paths - {p} != map[] then c.(listeners := c.listeners[w := paths - {p}])
      else c.(listeners := c.listeners - {w})
  }

  // ----- what the operations achieve

  /** AddListener succeeds unless there is no connection, no such path, or the watcher is dead
      and still in the table.  Then the path is under the watcher, with the watcher's flags if
      it is new, exactly the watches of those flags are armed in addition, and the entries,
      the tree and the queue are otherwise as before.  If it fails nothing changes. */
  lemma AddOutcome(c: Client, w: Addr, p: Path)
    ensures var (c', rc) := AddListener(c, w, p);
      && rc == (if !Linked(c) then Error else if p !in c.zk.tree then NoNode
                else if w in c.listeners && FlagsOf(c, w) == Flags(false, false) then Error else Ok)
      && (rc != Ok ==> c' == c)
      && (rc == Ok ==>
           && p in PathsOf(c', w)
           && PathsOf(c', w)[p] == (if p in PathsOf(c, w) then PathsOf(c, w)[p] else FlagsOf(c, w))
           && (forall v, q :: v != w || q != p ==>
                (q in PathsOf(c', v) <==> q in PathsOf(c, v))
                && (q in PathsOf(c, v) ==> PathsOf(c', v)[q] == PathsOf(c, v)[q]))
           && (forall x :: x in c'.zk.armed <==>
                x in c.zk.armed || (x.who == w && x.path == p && Watches(FlagsOf(c, w), x.kind)))
           && c'.zk.tree == c.zk.tree && c'.zk.queue == c.zk.queue)
  {
    var c' := AddListener(c, w, p).0;
    assert forall x :: x in WatchesOf(w, p, FlagsOf(c, w)) <==>
      x == Watch(w, p, x.kind) && Watches(FlagsOf(c, w), x.kind);
  }

  /** What is written reads back, the empty value and its null buffer included. */
  lemma WrittenValueReadsBack(c: Client, p: Path, value: string, mode: CreateMode)
    ensures CreateNode(c, p, value, mode).1 == Ok ==> GetDataOfNode(CreateNode(c, p, value, mode).0, p) == (Ok, value)
    ensures SetDataOfNode(c, p, value).1 == Ok ==> GetDataOfNode(SetDataOfNode(c, p, value).0, p) == (Ok, value)
  {
    if |value| == 0 { assert value == ""; }
  }

  /** The connection is there and its session is connected. */
  predicate Linked(c: Client) {
    c.handle.Open? && c.handle.link == Connected
  }

  /** A set is refused without a connection, for more than a megabyte and for a missing path,
      in this order, and otherwise writes the value, for that path only and under its owner. */
  lemma SetOutcome(c: Client, p: Path, value: string)
    ensures var (c', rc) := SetDataOfNode(c, p, value);
      && rc == (if !Linked(c) || |value| > 1048576 then Error else if p !in c.zk.tree then NoNode else Ok)
      && (rc != Ok ==> c' == c)
      && (rc == Ok ==>
           && c'.zk.tree.Keys == c.zk.tree.Keys
           && Value(c'.zk.tree[p]) == value && c'.zk.tree[p].owner == c.zk.tree[p].owner
           && (forall q :: q in c.zk.tree && q != p ==> c'.zk.tree[q] == c.zk.tree[q])
           && c' == c.(zk := c'.zk))
  {
    if |value| == 0 { assert value == ""; }
  }

  /** A create is refused without a connection, for more than a megabyte, and where the server
      refuses it; otherwise the node is there with the value, bound to the session exactly if
      it is to be ephemeral, and no other node changed. */
  lemma CreateOutcome(c: Client, p: Path, value: string, mode: CreateMode)
    ensures var (c', rc) := CreateNode(c, p, value, mode);
      && (!Linked(c) || |value| > 1048576 ==> rc == Error)
      && (rc == Ok <==>
           && Linked(c) && |value| <= 1048576
           && ValidPath(p) && p !in c.zk.tree && Parent(p) in c.zk.tree && c.zk.tree[Parent(p)].owner == 0)
      && (rc != Ok ==> c' == c)
      && (rc == Ok ==>
           && c'.zk.tree.Keys == c.zk.tree.Keys + {p}
           && Value(c'.zk.tree[p]) == value
           && c'.zk.tree[p].owner == (if mode == Ephemeral then c.handle.session else 0)
           && (forall q :: q in c.zk.tree ==> c'.zk.tree[q] == c.zk.tree[q])
           && c' == c.(zk := c'.zk))
  {
    if |value| == 0 { assert value == ""; }
  }

  /** A read, an existence test and a delete answer what the server holds, and an error without
      a connection; a delete takes away that node only. */
  lemma ReadAndDeleteOutcome(c: Client, p: Path)
    ensures Exist(c, p) == if !Linked(c) then Error else if p in c.zk.tree then Ok else NoNode
    ensures GetDataOfNode(c, p) ==
      if Linked(c) && p in c.zk.tree then (Ok, Value(c.zk.tree[p])) else (Exist(c, p), "")
    ensures var (c', rc) := DeleteNode(c, p);
      && (!Linked(c) ==> rc == Error)
      && (rc == Ok <==> Linked(c) && p != "/" && p in c.zk.tree && !HasChildren(c.zk, p))
      && c' == c.(zk := c'.zk)
      && c'.zk.tree == (if rc == Ok then c.zk.tree - {p} else c.zk.tree)
  {
  }

  /** Dropping a listed watcher clears its flags and no other's; dropping a path takes that
      path from its entry and nothing else; without a connection or a listed watcher both
      answer an error and do nothing. */
  lemma DropOutcome(c: Client, w: Addr, p: Path)
    ensures DropListener(c, w).1 == (if Linked(c) && w in c.listeners then Ok else Error)
    ensures DropListenerWithPath(c, w, p).1 == DropListener(c, w).1
    ensures DropListener(c, w).1 != Ok ==> DropListener(c, w).0 == c && DropListenerWithPath(c, w, p).0 == c
    ensures DropListener(c, w).1 == Ok ==>
      && (var t := DropListener(c, w).0;
          && t == c.(watchers := t.watchers, log := t.log)
          && (forall v :: FlagsOf(t, v) == if v == w then Flags(false, false) else FlagsOf(c, v)))
      && (var t := DropListenerWithPath(c, w, p).0;
          && t == c.(listeners := t.listeners, log := t.log)
          && t.listeners.Keys == c.listeners.Keys
          && (forall v, q :: q in PathsOf(t, v) <==> q in PathsOf(c, v) && !(v == w && q == p))
          && (forall v, q :: q in PathsOf(t, v) ==> PathsOf(t, v)[q] == PathsOf(c, v)[q]))
  {
    assert c.listeners[w := PathsOf(c, w) - {p}].Keys == c.listeners.Keys + {w};
  }

  /** Clearing closes every watcher of the table and no other, connected or not. */
  lemma ClearOutcome(c: Client)
    ensures var t := Clear(c);
      && t == c.(watchers := t.watchers, log := t.log)
      && (forall v :: FlagsOf(t, v) == if v in c.listeners then Flags(false, false) else FlagsOf(c, v))
  {
  }
}
