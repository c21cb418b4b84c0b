/**
The service registry on top of the client: its cache of published znodes, the
callback that keeps cache and server together, event_watcher with its
callbacks, the refresh pass over all listeners, and the steps of a run.
*/
module Registry {
  import opened Wrappers
  import opened ZooKeeper
  import opened Client

  /** What the registry remembers of a published znode. */
  datatype Entry = Entry(temporary: bool, content: string)

  /** `listener` is the registry's own watcher; its callback is ContentChangeListener. */
  datatype Sys = Sys(c: Client, nodes: map<Path, Entry>, listener: Addr)

  /** A call a user callback or an application thread may make. */
  datatype Action =
    | Add(w: Addr, p: Path)
    | DropPath(w: Addr, p: Path)
    | Drop(w: Addr)
    | ClearAll
    | CreateAt(p: Path, value: string, mode: CreateMode)
    | SetAt(p: Path, value: string)
    | DeleteAt(p: Path)
    | CloseHandle
    | Publish(service: string, version: string, stat: string, name: string, content: string, temporary: bool)

  /** What a run cannot know in advance: the calls each user callback makes, by its
      place in the history, and the order in which a map of paths is iterated. */
  datatype Env = Env(script: nat -> seq<Action>, order: set<Path> -> seq<Path>)

  // ----- the registry's own operations

  function ServicePath(service: string, version: string, stat: string, name: string): Path {
    "/" + service + "/" + version + "/" + stat + "/" + name
  }

  /** The pieces of a string between its slashes. */
  function Split(p: string): (r: seq<string>)
    ensures r != []
  {
    if p == "" then [""]
    else
      var rest := Split(p[1..]);
      if p[0] == '/' then [""] + rest else [[p[0]] + rest[0]] + rest[1..]
  }

  predicate NoSlash(s: string) {
    forall i :: 0 <= i < |s| ==> s[i] != '/'
  }

  lemma {:induction false} OnePiece(a: string)
    requires NoSlash(a)
    ensures Split(a) == [a]
    decreases |a|
  {
    if a != "" {
      OnePiece(a[1..]);
      assert [a[0]] + a[1..] == a;
    }
  }

  lemma {:induction false} OneMorePiece(base: string, a: string)
    requires NoSlash(a)
    ensures Split(base + "/" + a) == Split(base) + [a]
    decreases |base|
  {
    var p := base + "/" + a;
    OnePiece(a);
    if base == "" {
      assert p[0] == '/' && p[1..] == a;
    } else {
      OneMorePiece(base[1..], a);
      assert p[0] == base[0] && p[1..] == base[1..] + "/" + a;
    }
  }

  lemma {:induction false} LastSlashBefore(base: string, name: string)
    requires base != "" && base[|base| - 1] == '/' && NoSlash(name)
    ensures LastSlash(base + name) == |base| - 1
    decreases |name|
  {
    var q := base + name;
    if name == "" {
      assert q == base;
    } else {
      assert q[|q| - 1] == name[|name| - 1];
      assert q[..|q| - 1] == base + name[..|name| - 1];
      LastSlashBefore(base, name[..|name| - 1]);
    }
  }

  lemma PublishedPieces(service: string, version: string, stat: string, name: string)
    requires NoSlash(service) && NoSlash(version) && NoSlash(stat) && NoSlash(name)
    ensures Split(ServicePath(service, version, stat, name)) == ["", service, version, stat, name]
  {
    assert "/" + service == "" + "/" + service;
    OneMorePiece("", service);
    OneMorePiece("/" + service, version);
    OneMorePiece("/" + service + "/" + version, stat);
    OneMorePiece("/" + service + "/" + version + "/" + stat, name);
  }

  lemma PublishedBelow(service: string, version: string, stat: string, name: string)
    requires NoSlash(name)
    ensures Parent(ServicePath(service, version, stat, name)) == "/" + service + "/" + version + "/" + stat
  {
    var p := ServicePath(service, version, stat, name);
    var dir := "/" + service + "/" + version + "/" + stat;
    assert p == (dir + "/") + name;
    LastSlashBefore(dir + "/", name);
    assert p[..|dir|] == dir;
  }

  /** A service is published under its name, version, partition and node name, in this order,
      and the node stands below the path of the first three. */
  lemma ServicePathIs(service: string, version: string, stat: string, name: string)
    requires NoSlash(service) && NoSlash(version) && NoSlash(stat) && NoSlash(name)
    ensures Split(ServicePath(service, version, stat, name)) == ["", service, version, stat, name]
    ensures Parent(ServicePath(service, version, stat, name)) == "/" + service + "/" + version + "/" + stat
  {
    PublishedPieces(service, version, stat, name);
    PublishedBelow(service, version, stat, name);
  }

  function PublishAt(s: Sys, p: Path, content: string, temporary: bool): (Sys, int) {
    var (c, rc) := CreateNode(s.c, p, content, if temporary then Ephemeral else Persistent);
    if rc != Ok then (s.(c := c), -2)
    else if !temporary then (s.(c := c), 0)
    else
      var (c', rc') := AddListener(c, s.listener, p);
      (s.(c := c', nodes := s.nodes[p := Entry(true, content)]), if rc' == Ok then 0 else -3)
  }

  function PublishService(s: Sys, service: string, version: string, stat: string, name: string,
                          content: string, temporary: bool): (Sys, int)
  {
    if service == "" || version == "" || stat == "" || name == "" then (s, -1)
    else PublishAt(s, ServicePath(service, version, stat, name), content, temporary)
  }

  /** The callback of the registry's watcher. */
  function ContentChangeListener(s: Sys, p: Path, what: EventType): Sys {
    if what != DataChanged || p !in s.nodes then s
    else
      var cached := s.nodes[p];
      var (rc, value) := GetDataOfNode(s.c, p);
      if rc == Ok then
        if value != cached.content then s.(nodes := s.nodes[p := cached.(content := value)]) else s
      else if Exist(s.c, p) != Ok then
        var (c, _) := CreateNode(s.c, p, cached.content, if cached.temporary then Ephemeral else Persistent);
        var (c', _) := AddListener(c, s.listener, p);
        s.(c := c')
      else s
  }

  function DeleteAll(c: Client, ps: seq<Path>): Client
    decreases |ps|
  {
    if ps == [] then c else DeleteAll(DeleteNode(c, ps[0]).0, ps[1..])
  }

  function Destroy(s: Sys, env: Env): Sys {
    s.(c := DeleteAll(DropListener(s.c, s.listener).0, env.order(s.nodes.Keys)))
  }

  // ----- callbacks

  /** A listener argument always points to a Watcher object. */
  function Do(s: Sys, a: Action): Sys {
    match a
    case Add(w, p) => if w in s.c.watchers then s.(c := AddListener(s.c, w, p).0) else s
    case DropPath(w, p) => s.(c := DropListenerWithPath(s.c, w, p).0)
    case Drop(w) => s.(c := DropListener(s.c, w).0)
    case ClearAll => s.(c := Clear(s.c))
    case CreateAt(p, value, mode) => s.(c := CreateNode(s.c, p, value, mode).0)
    case SetAt(p, value) => s.(c := SetDataOfNode(s.c, p, value).0)
    case DeleteAt(p) => s.(c := DeleteNode(s.c, p).0)
    case CloseHandle => s.(c := Close(s.c))
    case Publish(service, version, stat, name, content, temporary) =>
      PublishService(s, service, version, stat, name, content, temporary).0
  }

  function DoAll(s: Sys, acts: seq<Action>): Sys
    decreases |acts|
  {
    if acts == [] then s else DoAll(Do(s, acts[0]), acts[1..])
  }

  function StartCallback(s: Sys, w: Addr, p: Path, what: EventType): Sys {
    s.(c := s.c.(log := s.c.log + [Called(w, p, what)]))
  }

  /** The history records the start of the callback; the callback then runs. */
  function Callback(s: Sys, env: Env, w: Addr, p: Path, what: EventType): Sys {
    var s1 := StartCallback(s, w, p, what);
    if w == s.listener then ContentChangeListener(s1, p, what)
    else DoAll(s1, env.script(|s.c.log|))
  }

  /** Creations and removals reach the user as data changes. */
  function Reported(what: EventType): EventType {
    if what == Removed || what == Created then DataChanged else what
  }

  function EventWatcher(s: Sys, env: Env, what: EventType, p: Path, w: Addr): Sys {
    if w !in s.c.listeners then s
    else if !Live(s.c, w) then s.(c := Reap(s.c, w, p, Reported(what)))
    else if p !in s.c.listeners[w] then s
    else
      var s1 := s.(c := AddListener(s.c, w, p, true).0);
      if what == Session then s1 else Callback(s1, env, w, p, Reported(what))
  }

  // ----- the refresh pass

  function SignalChild(s: Sys, env: Env, w: Addr, p: Path): Sys {
    if FlagsOf(s.c, w).child then EventWatcher(s, env, ChildrenChanged, p, w) else s
  }

  function SignalData(s: Sys, env: Env, w: Addr, p: Path): Sys {
    if FlagsOf(s.c, w).data then EventWatcher(s, env, DataChanged, p, w) else s
  }

  function SignalPaths(s: Sys, env: Env, w: Addr, ps: seq<Path>): Sys
    decreases |ps|
  {
    if ps == [] then s
    else SignalPaths(SignalData(SignalChild(s, env, w, ps[0]), env, w, ps[0]), env, w, ps[1..])
  }

  /** The paths of a watcher are copied when the pass reaches it. */
  function Visit(s: Sys, env: Env, w: Addr): Sys {
    if Live(s.c, w) then SignalPaths(s, env, w, env.order(PathsOf(s.c, w).Keys)) else s
  }

  lemma LeastExists(ks: set<Addr>)
    requires ks != {}
    ensures exists k :: IsLeast(ks, k)
  {
    var k :| k in ks;
    var below := set j | j in ks && j < k;
    if below == {} {
      assert forall j :: j in ks && j < k ==> j in below;
      assert IsLeast(ks, k);
    } else {
      assert k !in below && below <= ks;
      LeastExists(below);
      var m :| IsLeast(below, m);
      assert forall j :: j in ks && j < k ==> j in below;
      assert IsLeast(ks, m);
    }
  }

  predicate IsLeast(ks: set<Addr>, k: Addr) {
    k in ks && forall j :: j in ks ==> k <= j
  }

  /** The next key of the table at or after an address: the map is iterated in key order. */
  function NextKey(ks: set<Addr>, from: int): (r: Option<Addr>)
    ensures r == None <==> forall k :: k in ks ==> k < from
    ensures r.Some? ==> r.value in ks && from <= r.value && forall k :: k in ks && from <= k ==> r.value <= k
  {
    var rest := set k | k in ks && from <= k;
    if rest == {} then
      assert forall k :: k in ks && from <= k ==> k in rest;
      None
    else
      LeastExists(rest);
      var k :| IsLeast(rest, k);
      assert forall j :: j in ks && from <= j ==> j in rest;
      Some(k)
  }

  /** Visits every watcher at or after `from`, also those added by callbacks meanwhile. */
  function TriggerFrom(s: Sys, env: Env, from: nat): Sys
    decreases ADDRESS_LIMIT - from
  {
    match NextKey(s.c.listeners.Keys, from)
    case None => s
    case Some(w) => TriggerFrom(Visit(s, env, w), env, w + 1)
  }

  function TriggerAllWatcher(s: Sys, env: Env): Sys {
    TriggerFrom(s, env, 0)
  }

  // ----- runs

  /** A write of another client. */
  datatype OtherWrite =
    | Creates(p: Path, data: Option<string>, owner: nat)
    | Sets(p: Path, data: Option<string>)
    | Deletes(p: Path)

  datatype Step =
    | NewWatcher(w: Addr, flags: Flags)
    | Call(act: Action)
    | Deliver(e: Event)
    | SessionEvent(w: Addr)
    | Refresh
    | LinkDown
    | LinkUp
    | SessionLost
    | Reopen(session: nat)
    | Others(write: OtherWrite)
    | Destructor

  /** What another client may do: it creates in a session of its own, and its data fits. */
  predicate MayWrite(c: Client, write: OtherWrite) {
    match write
    case Creates(p, data, owner) =>
      (c.handle.Open? ==> owner != c.handle.session) && |Value(Znode(data, owner))| <= MAX_LENGTH
    case Sets(p, data) => |Value(Znode(data, 0))| <= MAX_LENGTH
    case Deletes(p) => true
  }

  function Written(zk: Server, write: OtherWrite): Server {
    match write
    case Creates(p, data, owner) => Create(zk, p, data, owner).0
    case Sets(p, data) => Set(zk, p, data).0
    case Deletes(p) => Delete(zk, p).0
  }

  function WrittenByOthers(c: Client, write: OtherWrite): Client {
    if MayWrite(c, write) then c.(zk := Written(c.zk, write)) else c
  }

  function SetLink(s: Sys, link: Link): Sys {
    match s.c.handle
    case NoHandle => s
    case Open(session, _) => s.(c := s.c.(handle := Open(session, link)))
  }

  /** One step of a run; a step that is not enabled changes nothing. */
  function Next(s: Sys, env: Env, step: Step): Sys {
    match step
    case NewWatcher(w, f) =>
      if w in s.c.watchers then s else s.(c := s.c.(watchers := s.c.watchers[w := f]))
    case Call(a) => Do(s, a)
    case Deliver(e) =>
      if e !in s.c.zk.queue then s
      else EventWatcher(Take(s, e), env, e.what, e.path, e.who)
    case SessionEvent(w) => EventWatcher(s, env, Session, "", w)
    case Refresh => if Available(s.c) then TriggerAllWatcher(s, env) else s
    case LinkDown => if Available(s.c) then SetLink(s, Connecting) else s
    case LinkUp =>
      if s.c.handle.Open? && s.c.handle.link == Connecting then TriggerAllWatcher(SetLink(s, Connected), env) else s
    case SessionLost => s.(c := Expire(s.c))
    case Reopen(session) =>
      if Fresh(s.c, session) then TriggerAllWatcher(s.(c := Connect(s.c, session)), env) else s
    case Others(write) => s.(c := WrittenByOthers(s.c, write))
    case Destructor => Destroy(s, env)
  }

  /** An event leaves the queue when the library hands it over. */
  function Take(s: Sys, e: Event): Sys {
    s.(c := s.c.(zk := s.c.zk.(queue := s.c.zk.queue - multiset{e})))
  }

  function Run(s: Sys, env: Env, steps: seq<Step>): Sys
    decreases |steps|
  {
    if steps == [] then s else Run(Next(s, env, steps[0]), env, steps[1..])
  }

  lemma {:induction false} RunConcat(s: Sys, env: Env, a: seq<Step>, b: seq<Step>)
    ensures Run(s, env, a + b) == Run(Run(s, env, a), env, b)
    decreases |a|
  {
    if a == [] {
      assert a + b == b;
    } else {
      assert (a + b)[0] == a[0] && (a + b)[1..] == a[1..] + b;
      RunConcat(Next(s, env, a[0]), env, a[1..], b);
    }
  }

  lemma RunOne(s: Sys, env: Env, step: Step)
    ensures Run(s, env, [step]) == Next(s, env, step)
  {
    assert [step][1..] == [];
  }

  /** A process that has just created its registry, on a server that may hold anything. */
  ghost predicate Initial(s: Sys) {
    && s.c.handle == NoHandle
    && s.c.listeners == map[]
    && s.c.zk.armed == {}
    && s.c.zk.queue == multiset{}
    && s.c.log == []
    && s.c.watchers == map[s.listener := Flags(true, false)]
    && s.nodes == map[]
    && (forall p :: p in s.c.zk.tree ==> ValidPath(p) && |Value(s.c.zk.tree[p])| <= MAX_LENGTH)
    && (forall p {:trigger Parent(p)} :: p in s.c.zk.tree && p != "/" ==>
         Parent(p) in s.c.zk.tree && s.c.zk.tree[Parent(p)].owner == 0)
  }

  /** The order oracle lists the paths of a map, each once. */
  ghost predicate Enumerates(env: Env) {
    forall ks: set<Path> ::
      && (forall p :: p in env.order(ks) <==> p in ks)
      && (forall i, j :: 0 <= i < j < |env.order(ks)| ==> env.order(ks)[i] != env.order(ks)[j])
  }
}
