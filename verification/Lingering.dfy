/**
Entries of a dropped watcher that are never reaped: what exactly has to be still to
come for the entry of a path to leave the table, and the watcher whose entries were all
dropped one by one.
*/
module Lingering {
  import opened Wrappers
  import opened ZooKeeper
  import opened Client
  import opened Registry
  import opened ClientInvariants

  // ----- what may still happen to an entry

  /** Everything the fate of an entry depends on: its flags, the undelivered events that clear
      them, the watches still armed, and the znode: whether it is there, may have children,
      has some, and is the root. */
  datatype Outlook = Outlook(
    flags: Flags,
    dataEvents: nat, childEvents: nat,
    dataArmed: bool, childArmed: bool,
    present: bool, persistent: bool, parent: bool, root: bool)
  {
    /** An event that clears the data flag is queued, or a write would queue one. */
    predicate DataComes() { 0 < dataEvents || dataArmed }

    /** The child watch is armed on a znode that can have children. */
    predicate ChildComes() { childArmed && persistent }

    /** The child watch is armed and the znode can be removed before it fires: the event then
        clears the data flag.  The one watch cannot be used for both. */
    predicate RemovalComes() { childArmed && !parent && !root }

    /** Each flag that is set can still be cleared; without a flag any event will do. */
    predicate Reapable() {
      if flags == Flags(true, true) then
        || (DataComes() && (0 < childEvents || ChildComes()))
        || (RemovalComes() && 0 < childEvents)
      else if flags.data then DataComes() || RemovalComes()
      else if flags.child then 0 < childEvents || ChildComes()
      else DataComes() || RemovalComes() || 0 < childEvents || ChildComes()
    }

    /** A watch is armed on a znode that is there, and only a persistent one has children. */
    predicate Sound() {
      (dataArmed || childArmed ==> present) && (childArmed && parent ==> persistent)
    }
  }

  function OutlookOf(c: Client, w: Addr, p: Path): Outlook {
    Outlook(EntryOf(c, w, p),
      DataEvents(c, w, p), Undelivereds(c, w, p, ChildrenChanged),
      Watch(w, p, Data) in c.zk.armed, Watch(w, p, Child) in c.zk.armed,
      p in c.zk.tree, p in c.zk.tree && c.zk.tree[p].owner == 0, HasChildren(c.zk, p), p == "/")
  }

  predicate Reapable(c: Client, w: Addr, p: Path) {
    OutlookOf(c, w, p).Reapable()
  }

  /** What a write of the server can make of the outlook: nothing; the data watch fires; the
      znode is removed; or a child comes or goes under the child watch. */
  predicate Turns(x: Outlook, y: Outlook) {
    && y.flags == x.flags && y.root == x.root
    && (|| (y.dataEvents == x.dataEvents && y.childEvents == x.childEvents
            && y.dataArmed == x.dataArmed && y.childArmed == x.childArmed
            && (x.present ==> y.present && y.persistent == x.persistent)
            && (x.childArmed ==> y.parent == x.parent))
        || (x.dataArmed && y == x.(dataArmed := false, dataEvents := x.dataEvents + 1))
        || (!x.parent && !x.root && !y.dataArmed && !y.childArmed && y.childEvents == x.childEvents
            && y.dataEvents == x.dataEvents + if x.dataArmed || x.childArmed then 1 else 0)
        || (x.childArmed && x.persistent && !y.childArmed && y.childEvents == x.childEvents + 1
            && y.dataArmed == x.dataArmed && y.dataEvents == x.dataEvents && y.present))
  }

  lemma TurnLasts(x: Outlook, y: Outlook)
    requires x.Sound() && Turns(x, y)
    ensures y.Sound() && (y.Reapable() ==> x.Reapable())
  {
  }

  /** An entry of a dropped watcher, in a state of a run. */
  ghost predicate DeadEntry(c: Client, w: Addr, p: Path) {
    && w in c.watchers && !Live(c, w)
    && w in c.listeners && p in c.listeners[w] && p != ""
    && Undelivereds(c, w, p, Session) == 0
    && OutlookOf(c, w, p).Sound()
  }

  lemma EntriesAreSound(s: Sys, w: Addr, p: Path)
    requires SysInv(s) && w in s.c.watchers && !Live(s.c, w) && w in s.c.listeners && p in s.c.listeners[w]
    ensures DeadEntry(s.c, w, p) && ValidPath(p)
  {
    assert ValidPath(p) && p != "";
    assert Event(w, p, Session) !in s.c.zk.queue;
    assert forall k :: Watch(w, p, k) in s.c.zk.armed ==> Watch(w, p, k).path in s.c.zk.tree;
  }

  // ----- what lasts: an entry that is not reapable, or a watcher without any path

  ghost predicate Lasting(c: Client, w: Addr, op: Option<Path>) {
    match op
    case None => w in c.watchers && !Live(c, w) && w in c.listeners && c.listeners[w] == map[]
    case Some(p) => DeadEntry(c, w, p) && !Reapable(c, w, p)
  }

  lemma ServerTurnLasts(c: Client, zk: Server, w: Addr, p: Path)
    requires Lasting(c, w, Some(p)) && Undelivereds(c.(zk := zk), w, p, Session) == 0
    requires Turns(OutlookOf(c, w, p), OutlookOf(c.(zk := zk), w, p))
    ensures Lasting(c.(zk := zk), w, Some(p))
  {
    TurnLasts(OutlookOf(c, w, p), OutlookOf(c.(zk := zk), w, p));
  }

  /** What a write of the server leaves of the watches and events of (w, p). */
  lemma FiredFacts(c: Client, fired: set<Watch>, q: Path, what: EventType, zk: Server, w: Addr, p: Path)
    requires FiredFor(c, fired, q, what) && zk == Fire(c.zk, fired, q, what).(tree := zk.tree)
    ensures var t := c.(zk := zk); var child := Watch(w, p, Child) in fired;
      && (forall j :: Undelivereds(t, w, p, j) == Undelivereds(c, w, p, j) +
           if q == p then (if j == what && (Watch(w, q, Data) in fired || child) then 1 else 0)
           else (if j == ChildrenChanged && child then 1 else 0))
      && EntryOf(t, w, p) == EntryOf(c, w, p)
      && (forall k :: Watch(w, p, k) in zk.armed <==> Watch(w, p, k) in c.zk.armed && Watch(w, p, k) !in fired)
  {
    var t := c.(zk := zk);
    var c1 := c.(zk := Fire(c.zk, fired, q, what));
    FiredChange(c, fired, q, what, w, p);
    assert forall j :: Undelivereds(t, w, p, j) == Undelivereds(c1, w, p, j);
  }

  /** A child watch that is armed stays so until a child comes or goes. */
  lemma ChildrenAfterCreate(sv: Server, q: Path, data: Option<string>, owner: nat, p: Path)
    requires Create(sv, q, data, owner).1 == Ok && Parent(q) != p
    ensures HasChildren(Create(sv, q, data, owner).0, p) <==> HasChildren(sv, p)
  {
    var zk := Create(sv, q, data, owner).0;
    assert zk.tree.Keys == sv.tree.Keys + {q};
    if HasChildren(sv, p) {
      var r :| r in sv.tree && r != "/" && Parent(r) == p;
      assert r in zk.tree;
    }
  }

  lemma ChildrenAfterDelete(sv: Server, q: Path, p: Path)
    requires Delete(sv, q).1 == Ok && Parent(q) != p
    ensures HasChildren(Delete(sv, q).0, p) <==> HasChildren(sv, p)
  {
    var zk := Delete(sv, q).0;
    if HasChildren(sv, p) {
      var r :| r in sv.tree && r != "/" && Parent(r) == p;
      assert r in zk.tree;
    }
  }

  lemma CreateTurns(c: Client, q: Path, data: Option<string>, owner: nat, w: Addr, p: Path)
    requires Create(c.zk, q, data, owner).1 == Ok && OutlookOf(c, w, p).Sound()
    ensures var t := c.(zk := Create(c.zk, q, data, owner).0);
      Turns(OutlookOf(c, w, p), OutlookOf(t, w, p)) && Undelivereds(t, w, p, Session) == Undelivereds(c, w, p, Session)
  {
    var zk := Create(c.zk, q, data, owner).0;
    FiredFacts(c, FiredByCreate(c.zk, q), q, Created, zk, w, p);
    if Parent(q) != p { ChildrenAfterCreate(c.zk, q, data, owner, p); }
  }

  lemma SetTurns(c: Client, q: Path, data: Option<string>, w: Addr, p: Path)
    requires Set(c.zk, q, data).1 == Ok
    ensures var t := c.(zk := Set(c.zk, q, data).0);
      Turns(OutlookOf(c, w, p), OutlookOf(t, w, p)) && Undelivereds(t, w, p, Session) == Undelivereds(c, w, p, Session)
  {
    var zk := Set(c.zk, q, data).0;
    FiredFacts(c, FiredBySet(c.zk, q), q, DataChanged, zk, w, p);
    assert zk.tree.Keys == c.zk.tree.Keys;
    assert HasChildren(zk, p) <==> HasChildren(c.zk, p);
  }

  lemma DeleteTurns(c: Client, q: Path, w: Addr, p: Path)
    requires Delete(c.zk, q).1 == Ok && OutlookOf(c, w, p).Sound()
    ensures var t := c.(zk := Delete(c.zk, q).0);
      Turns(OutlookOf(c, w, p), OutlookOf(t, w, p)) && Undelivereds(t, w, p, Session) == Undelivereds(c, w, p, Session)
  {
    if p == q {
      RemovalTurns(c, w, p);
    } else {
      var zk := Delete(c.zk, q).0;
      FiredFacts(c, FiredByDelete(c.zk, q), q, Removed, zk, w, p);
      if Parent(q) != p { ChildrenAfterDelete(c.zk, q, p); } else { assert HasChildren(c.zk, p); }
    }
  }

  lemma RemovalTurns(c: Client, w: Addr, p: Path)
    requires Delete(c.zk, p).1 == Ok
    ensures var t := c.(zk := Delete(c.zk, p).0); var x, y := OutlookOf(c, w, p), OutlookOf(t, w, p);
      && Turns(x, y) && Undelivereds(t, w, p, Session) == Undelivereds(c, w, p, Session)
      && y.childEvents == x.childEvents
      && (x.childArmed ==> Undelivereds(t, w, p, Removed) == Undelivereds(c, w, p, Removed) + 1)
  {
    var zk := Delete(c.zk, p).0;
    FiredFacts(c, FiredByDelete(c.zk, p), p, Removed, zk, w, p);
  }

  lemma CreateLasts(c: Client, q: Path, data: Option<string>, owner: nat, w: Addr, op: Option<Path>)
    requires Lasting(c, w, op)
    ensures Lasting(c.(zk := Create(c.zk, q, data, owner).0), w, op)
  {
    var (zk, rc) := Create(c.zk, q, data, owner);
    if op.Some? && rc == Ok {
      CreateTurns(c, q, data, owner, w, op.value);
      ServerTurnLasts(c, zk, w, op.value);
    }
  }

  lemma SetLasts(c: Client, q: Path, data: Option<string>, w: Addr, op: Option<Path>)
    requires Lasting(c, w, op)
    ensures Lasting(c.(zk := Set(c.zk, q, data).0), w, op)
  {
    var (zk, rc) := Set(c.zk, q, data);
    if op.Some? && rc == Ok {
      SetTurns(c, q, data, w, op.value);
      ServerTurnLasts(c, zk, w, op.value);
    }
  }

  lemma DeleteLasts(c: Client, q: Path, w: Addr, op: Option<Path>)
    requires Lasting(c, w, op)
    ensures Lasting(c.(zk := Delete(c.zk, q).0), w, op)
  {
    var (zk, rc) := Delete(c.zk, q);
    if op.Some? && rc == Ok {
      DeleteTurns(c, q, w, op.value);
      ServerTurnLasts(c, zk, w, op.value);
    }
  }

  // ----- over every run

  /** The one call that takes the entry away: dropping its path on its own. */
  predicate DropsIt(a: Action, w: Addr, op: Option<Path>) {
    op.Some? && a == DropPath(w, op.value)
  }

  ghost predicate KeptByScripts(env: Env, w: Addr, op: Option<Path>) {
    forall n, a :: a in env.script(n) ==> !DropsIt(a, w, op)
  }

  lemma AddLasts(c: Client, v: Addr, q: Path, again: bool, w: Addr, op: Option<Path>)
    requires Lasting(c, w, op)
    ensures Lasting(AddListener(c, v, q, again).0, w, op)
  {
    var t := AddListener(c, v, q, again).0;
    if v == w {
      assert t == c;
    } else if op.Some? {
      assert EntryOf(t, w, op.value) == EntryOf(c, w, op.value);
      assert forall k :: Watch(w, op.value, k) in t.zk.armed <==> Watch(w, op.value, k) in c.zk.armed;
      assert OutlookOf(t, w, op.value) == OutlookOf(c, w, op.value);
    }
  }

  /** Neither the server nor the entry of w changed, and no watcher came back to life. */
  lemma UntouchedLasts(c: Client, t: Client, w: Addr, op: Option<Path>)
    requires Lasting(c, w, op)
    requires t.zk == c.zk && w in t.listeners && t.listeners[w] == c.listeners[w]
    requires w in t.watchers && !Live(t, w)
    ensures Lasting(t, w, op)
  {
    if op.Some? { assert OutlookOf(t, w, op.value) == OutlookOf(c, w, op.value); }
  }

  lemma DropPathLasts(c: Client, v: Addr, q: Path, w: Addr, op: Option<Path>)
    requires Lasting(c, w, op) && !DropsIt(DropPath(v, q), w, op)
    ensures Lasting(DropListenerWithPath(c, v, q).0, w, op)
  {
    var t := DropListenerWithPath(c, v, q).0;
    if op.Some? {
      if v == w && w in c.listeners { assert op.value in c.listeners[w] - {q}; }
      assert EntryOf(t, w, op.value) == EntryOf(c, w, op.value);
      assert OutlookOf(t, w, op.value) == OutlookOf(c, w, op.value);
    }
  }

  /** With the session every watch and every event is gone. */
  lemma SessionEndLasts(c: Client, session: nat, handle: Handle, w: Addr, op: Option<Path>)
    requires Lasting(c, w, op)
    ensures Lasting(c.(handle := handle, zk := EndSession(c.zk, session)), w, op)
  {
    var t := c.(handle := handle, zk := EndSession(c.zk, session));
    if op.Some? {
      assert EntryOf(t, w, op.value) == EntryOf(c, w, op.value);
      assert forall what :: Undelivereds(t, w, op.value, what) == 0;
    }
  }

  lemma HandleLasts(c: Client, handle: Handle, w: Addr, op: Option<Path>)
    requires Lasting(c, w, op)
    ensures Lasting(c.(handle := handle), w, op)
  {
    UntouchedLasts(c, c.(handle := handle), w, op);
  }

  lemma CreateNodeLasts(c: Client, q: Path, value: string, mode: CreateMode, w: Addr, op: Option<Path>)
    requires Lasting(c, w, op)
    ensures Lasting(CreateNode(c, q, value, mode).0, w, op)
  {
    CreateLasts(c, q, Buffer(value), if mode == Ephemeral && c.handle.Open? then c.handle.session else 0, w, op);
  }

  lemma PublishLasts(s: Sys, a: Action, w: Addr, op: Option<Path>)
    requires Lasting(s.c, w, op) && a.Publish?
    ensures Lasting(Do(s, a).c, w, op)
  {
    var q := ServicePath(a.service, a.version, a.stat, a.name);
    var mode := if a.temporary then Ephemeral else Persistent;
    CreateNodeLasts(s.c, q, a.content, mode, w, op);
    AddLasts(CreateNode(s.c, q, a.content, mode).0, s.listener, q, false, w, op);
  }

  lemma CallLasts(s: Sys, a: Action, w: Addr, op: Option<Path>)
    requires Lasting(s.c, w, op) && !DropsIt(a, w, op)
    ensures Lasting(Do(s, a).c, w, op)
  {
    match a
    case Add(v, q) => AddLasts(s.c, v, q, false, w, op);
    case DropPath(v, q) => DropPathLasts(s.c, v, q, w, op);
    case Drop(v) => UntouchedLasts(s.c, Do(s, a).c, w, op);
    case ClearAll => UntouchedLasts(s.c, Do(s, a).c, w, op);
    case CreateAt(q, value, mode) => CreateNodeLasts(s.c, q, value, mode, w, op);
    case SetAt(q, value) => SetLasts(s.c, q, Buffer(value), w, op);
    case DeleteAt(q) => DeleteLasts(s.c, q, w, op);
    case CloseHandle => if s.c.handle.Open? { SessionEndLasts(s.c, s.c.handle.session, NoHandle, w, op); }
    case Publish(_, _, _, _, _, _) => PublishLasts(s, a, w, op);
  }

  lemma {:induction false} ScriptLasts(s: Sys, acts: seq<Action>, w: Addr, op: Option<Path>)
    requires Lasting(s.c, w, op) && forall a :: a in acts ==> !DropsIt(a, w, op)
    ensures Lasting(DoAll(s, acts).c, w, op)
    decreases |acts|
  {
    if acts != [] {
      assert acts[0] in acts;
      CallLasts(s, acts[0], w, op);
      ScriptLasts(Do(s, acts[0]), acts[1..], w, op);
    }
  }

  lemma ContentChangeLasts(s: Sys, q: Path, what: EventType, w: Addr, op: Option<Path>)
    requires Lasting(s.c, w, op)
    ensures Lasting(ContentChangeListener(s, q, what).c, w, op)
  {
    if what == DataChanged && q in s.nodes && Exist(s.c, q) != Ok {
      var mode := if s.nodes[q].temporary then Ephemeral else Persistent;
      CreateNodeLasts(s.c, q, s.nodes[q].content, mode, w, op);
      AddLasts(CreateNode(s.c, q, s.nodes[q].content, mode).0, s.listener, q, false, w, op);
    }
  }

  lemma CallbackLasts(s: Sys, env: Env, v: Addr, q: Path, what: EventType, w: Addr, op: Option<Path>)
    requires Lasting(s.c, w, op) && KeptByScripts(env, w, op)
    ensures Lasting(Callback(s, env, v, q, what).c, w, op)
  {
    var s1 := StartCallback(s, v, q, what);
    UntouchedLasts(s.c, s1.c, w, op);
    if v == s.listener { ContentChangeLasts(s1, q, what, w, op); }
    else { ScriptLasts(s1, env.script(|s.c.log|), w, op); }
  }

  /** Reaping elsewhere does not touch the entry. */
  lemma ReapLasts(c: Client, v: Addr, q: Path, what: EventType, w: Addr, op: Option<Path>)
    requires Lasting(c, w, op) && v in c.listeners && !(v == w && op == Some(q))
    ensures Lasting(Reap(c, v, q, what), w, op)
  {
    var t := Reap(c, v, q, what);
    if op.Some? && v == w && q in c.listeners[w] { assert op.value in c.listeners[w] - {q}; }
    assert w in t.listeners;
    if op.Some? {
      assert EntryOf(t, w, op.value) == EntryOf(c, w, op.value);
      assert OutlookOf(t, w, op.value) == OutlookOf(c, w, op.value);
    }
  }

  lemma EventLasts(s: Sys, env: Env, what: EventType, q: Path, v: Addr, w: Addr, op: Option<Path>)
    requires Lasting(s.c, w, op) && !(v == w && op == Some(q))
    requires v != w ==> KeptByScripts(env, w, op)
    ensures Lasting(EventWatcher(s, env, what, q, v).c, w, op)
  {
    if v in s.c.listeners && !Live(s.c, v) {
      ReapLasts(s.c, v, q, Reported(what), w, op);
    } else if v in s.c.listeners && q in s.c.listeners[v] {
      var s1 := s.(c := AddListener(s.c, v, q, true).0);
      AddLasts(s.c, v, q, true, w, op);
      if what != Session { CallbackLasts(s1, env, v, q, Reported(what), w, op); }
    }
  }

  lemma TakeOtherLasts(s: Sys, e: Event, w: Addr, op: Option<Path>)
    requires Lasting(s.c, w, op) && e in s.c.zk.queue && !(e.who == w && op == Some(e.path))
    ensures Lasting(Take(s, e).c, w, op)
  {
    if op.Some? {
      var t := Take(s, e).c;
      assert forall what :: Undelivereds(t, w, op.value, what) == Undelivereds(s.c, w, op.value, what);
      assert OutlookOf(t, w, op.value) == OutlookOf(s.c, w, op.value);
    }
  }

  function OneLess(n: nat): nat {
    if n == 0 then 0 else n - 1
  }

  /** What an event makes of the outlook of its own entry. */
  function AfterEvent(x: Outlook, k: Kind): Outlook {
    if k == Data then x.(flags := x.flags.(data := false), dataEvents := OneLess(x.dataEvents))
    else x.(flags := x.flags.(child := false), childEvents := OneLess(x.childEvents))
  }

  lemma Taken(s: Sys, e: Event, w: Addr, p: Path)
    requires e in s.c.zk.queue
    ensures var c1 := Take(s, e).c;
      forall what ::
        Undelivereds(c1, w, p, what) == Undelivereds(s.c, w, p, what) - (if e == Event(w, p, what) then 1 else 0)
  {
  }

  lemma TakeOwn(s: Sys, e: Event, w: Addr, p: Path)
    requires DeadEntry(s.c, w, p) && e in s.c.zk.queue && e.who == w && e.path == p
    ensures var c1 := Take(s, e).c; var x := OutlookOf(s.c, w, p);
      && e.what != Session && Undelivereds(c1, w, p, Session) == 0
      && 0 < (if KindOf(e.what) == Data then x.dataEvents else x.childEvents)
      && OutlookOf(c1, w, p) == AfterEvent(x, KindOf(e.what)).(flags := x.flags)
  {
    var c1 := Take(s, e).c;
    assert e == Event(w, p, e.what) && 0 < Undelivereds(s.c, w, p, e.what);
    Taken(s, e, w, p);
  }

  /** An event takes its flag, and the entry with the last one. */
  lemma OwnEvent(s: Sys, env: Env, e: Event, w: Addr, p: Path)
    requires DeadEntry(s.c, w, p) && e in s.c.zk.queue && e.who == w && e.path == p
    ensures var t := Next(s, env, Deliver(e)); var x := OutlookOf(s.c, w, p); var k := KindOf(e.what);
      && t.c.handle == s.c.handle
      && 0 < (if k == Data then x.dataEvents else x.childEvents)
      && (if AfterEvent(x, k).flags == DEAD then p !in PathsOf(t.c, w)
          else DeadEntry(t.c, w, p) && OutlookOf(t.c, w, p) == AfterEvent(x, k))
  {
    var c1 := Take(s, e).c;
    var t := Next(s, env, Deliver(e)).c;
    TakeOwn(s, e, w, p);
    assert t == Reap(c1, w, p, Reported(e.what));
    ReapOwn(c1, w, p, e.what);
  }

  lemma ReapOwn(c: Client, w: Addr, p: Path, what: EventType)
    requires DeadEntry(c, w, p) && what != Session
    ensures var t := Reap(c, w, p, Reported(what)); var x := OutlookOf(c, w, p);
      var f := if KindOf(what) == Data then x.flags.(data := false) else x.flags.(child := false);
      && t.handle == c.handle
      && (if f == DEAD then p !in PathsOf(t, w) else DeadEntry(t, w, p) && OutlookOf(t, w, p) == x.(flags := f))
  {
    var t := Reap(c, w, p, Reported(what));
    ReapedEntryIs(c, w, p, what);
    assert forall j :: Undelivereds(t, w, p, j) == Undelivereds(c, w, p, j);
  }

  lemma OwnEventLasts(s: Sys, env: Env, e: Event, w: Addr, p: Path)
    requires Lasting(s.c, w, Some(p)) && e in s.c.zk.queue && e.who == w && e.path == p
    ensures Lasting(Next(s, env, Deliver(e)).c, w, Some(p))
  {
    OwnEvent(s, env, e, w, p);
  }

  lemma DeliveryLasts(s: Sys, env: Env, e: Event, w: Addr, op: Option<Path>)
    requires Lasting(s.c, w, op) && e in s.c.zk.queue
    requires e.who != w ==> KeptByScripts(env, w, op)
    ensures Lasting(Next(s, env, Deliver(e)).c, w, op)
  {
    if e.who == w && op == Some(e.path) {
      OwnEventLasts(s, env, e, w, e.path);
    } else {
      TakeOtherLasts(s, e, w, op);
      EventLasts(Take(s, e), env, e.what, e.path, e.who, w, op);
    }
  }

  lemma {:induction false} SignalsLast(s: Sys, env: Env, v: Addr, qs: seq<Path>, w: Addr, op: Option<Path>)
    requires Lasting(s.c, w, op) && KeptByScripts(env, w, op)
    ensures Lasting(SignalPaths(s, env, v, qs).c, w, op)
    decreases |qs|
  {
    if qs != [] {
      if FlagsOf(s.c, v).child { EventLasts(s, env, ChildrenChanged, qs[0], v, w, op); }
      var s1 := SignalChild(s, env, v, qs[0]);
      if FlagsOf(s1.c, v).data { EventLasts(s1, env, DataChanged, qs[0], v, w, op); }
      SignalsLast(SignalData(s1, env, v, qs[0]), env, v, qs[1..], w, op);
    }
  }

  lemma {:induction false} PassLasts(s: Sys, env: Env, from: nat, w: Addr, op: Option<Path>)
    requires Lasting(s.c, w, op) && KeptByScripts(env, w, op)
    ensures Lasting(TriggerFrom(s, env, from).c, w, op)
    decreases ADDRESS_LIMIT - from
  {
    match NextKey(s.c.listeners.Keys, from)
    case None =>
    case Some(v) =>
      SignalsLast(s, env, v, env.order(PathsOf(s.c, v).Keys), w, op);
      PassLasts(Visit(s, env, v), env, (v as int) + 1, w, op);
  }

  lemma {:induction false} DeletingLasts(c: Client, qs: seq<Path>, w: Addr, op: Option<Path>)
    requires Lasting(c, w, op)
    ensures Lasting(DeleteAll(c, qs), w, op)
    decreases |qs|
  {
    if qs != [] {
      DeleteLasts(c, qs[0], w, op);
      DeletingLasts(DeleteNode(c, qs[0]).0, qs[1..], w, op);
    }
  }

  lemma OthersLast(c: Client, write: OtherWrite, w: Addr, op: Option<Path>)
    requires Lasting(c, w, op)
    ensures Lasting(WrittenByOthers(c, write), w, op)
  {
    match write
    case Creates(q, data, owner) => CreateLasts(c, q, data, owner, w, op);
    case Sets(q, data) => SetLasts(c, q, data, w, op);
    case Deletes(q) => DeleteLasts(c, q, w, op);
  }

  lemma ReopeningLasts(s: Sys, env: Env, session: nat, w: Addr, op: Option<Path>)
    requires Lasting(s.c, w, op) && KeptByScripts(env, w, op)
    ensures Lasting(TriggerAllWatcher(s.(c := Connect(s.c, session)), env).c, w, op)
  {
    if s.c.handle.Open? { SessionEndLasts(s.c, s.c.handle.session, NoHandle, w, op); }
    HandleLasts(Close(s.c), Open(session, Connected), w, op);
    PassLasts(s.(c := Connect(s.c, session)), env, 0, w, op);
  }

  lemma LinkLasts(s: Sys, link: Link, w: Addr, op: Option<Path>)
    requires Lasting(s.c, w, op)
    ensures Lasting(SetLink(s, link).c, w, op)
  {
    if s.c.handle.Open? { HandleLasts(s.c, Open(s.c.handle.session, link), w, op); }
  }

  lemma ExpiryLasts(c: Client, w: Addr, op: Option<Path>)
    requires Lasting(c, w, op)
    ensures Lasting(Expire(c), w, op)
  {
    if c.handle.Open? { SessionEndLasts(c, c.handle.session, Open(c.handle.session, Expired), w, op); }
  }

  /** A step of other clients, or the delivery of an event of w. */
  predicate ByOthers(step: Step, w: Addr) {
    step.Others? || (step.Deliver? && step.e.who == w)
  }

  /** The steps that run a refresh pass. */
  lemma PassStepLasts(s: Sys, env: Env, step: Step, w: Addr, op: Option<Path>)
    requires Lasting(s.c, w, op) && KeptByScripts(env, w, op)
    requires step == Refresh || step == LinkUp || step.Reopen?
    ensures Lasting(Next(s, env, step).c, w, op)
  {
    match step
    case Refresh => PassLasts(s, env, 0, w, op);
    case LinkUp =>
      LinkLasts(s, Connected, w, op);
      PassLasts(SetLink(s, Connected), env, 0, w, op);
    case Reopen(session) => ReopeningLasts(s, env, session, w, op);
  }

  lemma DestructorLasts(s: Sys, env: Env, w: Addr, op: Option<Path>)
    requires Lasting(s.c, w, op)
    ensures Lasting(Destroy(s, env).c, w, op)
  {
    CallLasts(s, Drop(s.listener), w, op);
    DeletingLasts(Do(s, Drop(s.listener)).c, env.order(s.nodes.Keys), w, op);
  }

  lemma NewWatcherLasts(c: Client, v: Addr, f: Flags, w: Addr, op: Option<Path>)
    requires Lasting(c, w, op) && v !in c.watchers
    ensures Lasting(c.(watchers := c.watchers[v := f]), w, op)
  {
    UntouchedLasts(c, c.(watchers := c.watchers[v := f]), w, op);
  }

  lemma StepLasts(s: Sys, env: Env, step: Step, w: Addr, op: Option<Path>)
    requires Lasting(s.c, w, op)
    requires ByOthers(step, w) || (KeptByScripts(env, w, op) && !(step.Call? && DropsIt(step.act, w, op)))
    ensures Lasting(Next(s, env, step).c, w, op)
  {
    match step
    case NewWatcher(v, f) => if v !in s.c.watchers { NewWatcherLasts(s.c, v, f, w, op); }
    case Call(a) => CallLasts(s, a, w, op);
    case Deliver(e) => if e in s.c.zk.queue { DeliveryLasts(s, env, e, w, op); }
    case SessionEvent(v) => EventLasts(s, env, Session, "", v, w, op);
    case LinkDown => LinkLasts(s, Connecting, w, op);
    case SessionLost => ExpiryLasts(s.c, w, op);
    case Others(write) => OthersLast(s.c, write, w, op);
    case Destructor => DestructorLasts(s, env, w, op);
    case _ => PassStepLasts(s, env, step, w, op);
  }

  ghost predicate Keeping(env: Env, steps: seq<Step>, w: Addr, op: Option<Path>) {
    || (forall step :: step in steps ==> ByOthers(step, w))
    || (KeptByScripts(env, w, op) && forall step :: step in steps ==> !(step.Call? && DropsIt(step.act, w, op)))
  }

  lemma {:induction false} RunLasts(s: Sys, env: Env, steps: seq<Step>, w: Addr, op: Option<Path>)
    requires Lasting(s.c, w, op) && Keeping(env, steps, w, op)
    ensures Lasting(Run(s, env, steps).c, w, op)
    decreases |steps|
  {
    if steps != [] {
      assert steps[0] in steps;
      StepLasts(s, env, steps[0], w, op);
      RunLasts(Next(s, env, steps[0]), env, steps[1..], w, op);
    }
  }

  // ----- an entry that is reapable is reaped by some steps of other clients and deliveries

  lemma LongerThanAll(ks: set<Path>) returns (n: nat)
    ensures 0 < n && forall k :: k in ks ==> |k| < n
    decreases ks
  {
    n := 1;
    if k :| k in ks {
      var m := LongerThanAll(ks - {k});
      n := if |k| < m then m else |k| + 1;
      assert forall j :: j in ks && j != k ==> j in ks - {k};
    }
  }

  /** There is always room for one more child. */
  lemma FreshChild(tree: map<Path, Znode>, p: Path) returns (q: Path)
    requires ValidPath(p)
    ensures ValidPath(q) && Parent(q) == p && q !in tree
  {
    var n := LongerThanAll(tree.Keys);
    var base := if p == "/" then p else p + "/";
    var name := seq(n, _ => 'x');
    q := base + name;
    LastSlashBefore(base, name);
    assert q[..|base|] == base;
    if p == "/" { assert |base| == 1; } else { assert q[..|p|] == p; }
    assert forall i :: 0 <= i < |q| ==> q[i] == if i < |base| then base[i] else 'x';
  }

  /** Some steps bring an undelivered event of this kind and leave the rest of the outlook. */
  ghost predicate Brings(s: Sys, env: Env, steps: seq<Step>, e: Event, w: Addr, p: Path, k: Kind) {
    var t := Run(s, env, steps);
    && (forall step :: step in steps ==> ByOthers(step, w))
    && DeadEntry(t.c, w, p) && OutlookOf(t.c, w, p).flags == OutlookOf(s.c, w, p).flags
    && e in t.c.zk.queue && e.who == w && e.path == p && KindOf(e.what) == k
  }

  lemma WriteBrings(s: Sys, env: Env, write: OtherWrite, e: Event, w: Addr, p: Path)
    requires DeadEntry(s.c, w, p) && e.who == w && e.path == p
    requires var t := WrittenByOthers(s.c, write);
      && Turns(OutlookOf(s.c, w, p), OutlookOf(t, w, p))
      && Undelivereds(t, w, p, Session) == 0 && 0 < Undelivereds(t, w, p, e.what)
    ensures Brings(s, env, [Others(write)], e, w, p, KindOf(e.what))
    ensures Run(s, env, [Others(write)]).c == WrittenByOthers(s.c, write)
  {
    RunOne(s, env, Others(write));
    TurnLasts(OutlookOf(s.c, w, p), OutlookOf(WrittenByOthers(s.c, write), w, p));
    assert e == Event(w, p, e.what);
  }

  lemma QueuedData(c: Client, w: Addr, p: Path) returns (e: Event)
    requires 0 < DataEvents(c, w, p)
    ensures e in c.zk.queue && e.who == w && e.path == p && KindOf(e.what) == Data
  {
    e := Event(w, p,
      if 0 < Undelivereds(c, w, p, DataChanged) then DataChanged
      else if 0 < Undelivereds(c, w, p, Created) then Created else Removed);
  }

  /** Another client writes the data. */
  lemma DataArrives(s: Sys, env: Env, w: Addr, p: Path) returns (steps: seq<Step>, e: Event)
    requires DeadEntry(s.c, w, p) && OutlookOf(s.c, w, p).DataComes()
    ensures Brings(s, env, steps, e, w, p, Data)
    ensures var x, y := OutlookOf(s.c, w, p), OutlookOf(Run(s, env, steps).c, w, p);
      y.childEvents == x.childEvents && y.childArmed == x.childArmed && y.persistent == x.persistent
  {
    if 0 < DataEvents(s.c, w, p) {
      steps := [];
      e := QueuedData(s.c, w, p);
    } else {
      steps, e := [Others(Sets(p, None))], Event(w, p, DataChanged);
      var zk := Set(s.c.zk, p, None).0;
      SetTurns(s.c, p, None, w, p);
      FiredFacts(s.c, FiredBySet(s.c.zk, p), p, DataChanged, zk, w, p);
      WriteBrings(s, env, Sets(p, None), e, w, p);
    }
  }

  lemma CreatedChildFires(c: Client, q: Path, data: Option<string>, owner: nat, w: Addr, p: Path)
    requires OutlookOf(c, w, p).Sound() && OutlookOf(c, w, p).ChildComes()
    requires ValidPath(q) && Parent(q) == p && q !in c.zk.tree
    ensures var t := c.(zk := Create(c.zk, q, data, owner).0);
      && Turns(OutlookOf(c, w, p), OutlookOf(t, w, p))
      && Undelivereds(t, w, p, Session) == Undelivereds(c, w, p, Session)
      && Undelivereds(t, w, p, ChildrenChanged) == Undelivereds(c, w, p, ChildrenChanged) + 1
  {
    CreateTurns(c, q, data, owner, w, p);
    FiredFacts(c, FiredByCreate(c.zk, q), q, Created, Create(c.zk, q, data, owner).0, w, p);
  }

  /** Another client creates a child. */
  lemma ChildArrives(s: Sys, env: Env, w: Addr, p: Path) returns (steps: seq<Step>, e: Event)
    requires DeadEntry(s.c, w, p) && ValidPath(p)
    requires 0 < OutlookOf(s.c, w, p).childEvents || OutlookOf(s.c, w, p).ChildComes()
    ensures Brings(s, env, steps, e, w, p, Child)
  {
    e := Event(w, p, ChildrenChanged);
    if 0 < Undelivereds(s.c, w, p, ChildrenChanged) {
      steps := [];
    } else {
      var q := FreshChild(s.c.zk.tree, p);
      var owner := if s.c.handle.Open? then s.c.handle.session + 1 else 0;
      steps := [Others(Creates(q, None, owner))];
      CreatedChildFires(s.c, q, None, owner, w, p);
      WriteBrings(s, env, Creates(q, None, owner), e, w, p);
    }
  }

  /** Another client removes the node. */
  lemma RemovalArrives(s: Sys, env: Env, w: Addr, p: Path) returns (steps: seq<Step>, e: Event)
    requires DeadEntry(s.c, w, p) && OutlookOf(s.c, w, p).RemovalComes()
    ensures Brings(s, env, steps, e, w, p, Data)
  {
    steps, e := [Others(Deletes(p))], Event(w, p, Removed);
    RemovalTurns(s.c, w, p);
    WriteBrings(s, env, Deletes(p), e, w, p);
  }

  /** The event that was brought is delivered. */
  lemma BroughtIsHandled(s: Sys, env: Env, steps: seq<Step>, e: Event, w: Addr, p: Path, k: Kind)
    returns (all: seq<Step>)
    requires Brings(s, env, steps, e, w, p, k)
    ensures forall step :: step in all ==> ByOthers(step, w)
    ensures var t := Run(s, env, all); var y := AfterEvent(OutlookOf(Run(s, env, steps).c, w, p), k);
      if y.flags == DEAD then p !in PathsOf(t.c, w) else DeadEntry(t.c, w, p) && OutlookOf(t.c, w, p) == y
  {
    all := steps + [Deliver(e)];
    RunConcat(s, env, steps, [Deliver(e)]);
    RunOne(Run(s, env, steps), env, Deliver(e));
    OwnEvent(Run(s, env, steps), env, e, w, p);
  }

  /** One event is enough where at most one flag is set. */
  lemma OneFlagIsReaped(s: Sys, env: Env, w: Addr, p: Path) returns (steps: seq<Step>)
    requires DeadEntry(s.c, w, p) && ValidPath(p) && Reapable(s.c, w, p)
    requires OutlookOf(s.c, w, p).flags != Flags(true, true)
    ensures forall step :: step in steps ==> ByOthers(step, w)
    ensures p !in PathsOf(Run(s, env, steps).c, w)
  {
    var x := OutlookOf(s.c, w, p);
    var e;
    if !x.flags.child && x.DataComes() {
      steps, e := DataArrives(s, env, w, p);
      steps := BroughtIsHandled(s, env, steps, e, w, p, Data);
    } else if !x.flags.child && x.RemovalComes() {
      steps, e := RemovalArrives(s, env, w, p);
      steps := BroughtIsHandled(s, env, steps, e, w, p, Data);
    } else {
      steps, e := ChildArrives(s, env, w, p);
      steps := BroughtIsHandled(s, env, steps, e, w, p, Child);
    }
  }

  lemma TwoFlagsAreReaped(s: Sys, env: Env, w: Addr, p: Path) returns (steps: seq<Step>)
    requires DeadEntry(s.c, w, p) && ValidPath(p) && Reapable(s.c, w, p)
    requires OutlookOf(s.c, w, p).flags == Flags(true, true)
    ensures forall step :: step in steps ==> ByOthers(step, w)
    ensures p !in PathsOf(Run(s, env, steps).c, w)
  {
    var x := OutlookOf(s.c, w, p);
    var e;
    if x.DataComes() && (0 < x.childEvents || x.ChildComes()) {
      steps, e := DataArrives(s, env, w, p);
      steps := BroughtIsHandled(s, env, steps, e, w, p, Data);
    } else {
      e := Event(w, p, ChildrenChanged);
      steps := BroughtIsHandled(s, env, [], e, w, p, Child);
    }
    var more := OneFlagIsReaped(Run(s, env, steps), env, w, p);
    RunConcat(s, env, steps, more);
    steps := steps + more;
  }

  /** The entry of a dropped watcher can be taken off the table by other clients and its own
      events if and only if each of its flags can still be cleared. */
  lemma ReapedExactlyWhen(s: Sys, env: Env, w: Addr, p: Path)
    requires SysInv(s) && w in s.c.watchers && !Live(s.c, w) && w in s.c.listeners && p in s.c.listeners[w]
    ensures Reapable(s.c, w, p) <==>
      exists steps :: (forall step :: step in steps ==> ByOthers(step, w)) && p !in PathsOf(Run(s, env, steps).c, w)
  {
    EntriesAreSound(s, w, p);
    if Reapable(s.c, w, p) {
      var steps;
      if OutlookOf(s.c, w, p).flags == Flags(true, true) { steps := TwoFlagsAreReaped(s, env, w, p); }
      else { steps := OneFlagIsReaped(s, env, w, p); }
    } else {
      forall steps | forall step :: step in steps ==> ByOthers(step, w) ensures p in PathsOf(Run(s, env, steps).c, w) {
        RunLasts(s, env, steps, w, Some(p));
      }
    }
  }

  /** Otherwise it stays over every run of any steps at all, and the watcher can never be
      added again, unless the path is dropped on its own. */
  lemma StuckForEver(s: Sys, env: Env, steps: seq<Step>, w: Addr, p: Path)
    requires SysInv(s) && w in s.c.watchers && !Live(s.c, w) && w in s.c.listeners && p in s.c.listeners[w]
    requires !Reapable(s.c, w, p)
    requires (forall n :: DropPath(w, p) !in env.script(n)) && Call(DropPath(w, p)) !in steps
    ensures var t := Run(s, env, steps);
      w in t.c.listeners && p in t.c.listeners[w] && forall q :: AddListener(t.c, w, q).1 != Ok
  {
    EntriesAreSound(s, w, p);
    RunLasts(s, env, steps, w, Some(p));
  }

  // ----- a watcher without any path

  /** Its entries all dropped on their own, a dropped watcher stays in the table over every
      run, whatever the steps and callbacks, and can never be added again. */
  lemma EmptiedForEver(s: Sys, env: Env, steps: seq<Step>, w: Addr)
    requires w in s.c.watchers && !Live(s.c, w) && w in s.c.listeners && s.c.listeners[w] == map[]
    ensures var t := Run(s, env, steps);
      w in t.c.listeners && t.c.listeners[w] == map[] && forall q :: AddListener(t.c, w, q).1 != Ok
  {
    RunLasts(s, env, steps, w, None);
  }

  /** Three calls lead there: the path is added, dropped on its own, and then the watcher. */
  lemma AddingAndDroppingEmpties(s: Sys, w: Addr, p: Path)
    requires Available(s.c) && p in s.c.zk.tree && w in s.c.watchers && w !in s.c.listeners
    ensures var t := Do(Do(Do(s, Add(w, p)), DropPath(w, p)), Drop(w));
      w in t.c.watchers && !Live(t.c, w) && w in t.c.listeners && t.c.listeners[w] == map[]
  {
    var s1 := Do(s, Add(w, p));
    assert s1.c.listeners[w] == map[p := FlagsOf(s.c, w)];
    assert s1.c.listeners[w] - {p} == map[];
  }

  // ----- three more ways to get stuck

  /** With the session every watch and event is lost, so whatever a dropped watcher still has
      in the table stays. */
  lemma SessionLossStrands(s: Sys, env: Env, w: Addr, p: Path)
    requires s.c.handle.Open?
    ensures !Reapable(Next(s, env, SessionLost).c, w, p)
  {
    var t := Next(s, env, SessionLost).c;
    assert forall what :: Undelivereds(t, w, p, what) == 0;
  }

  /** The removal of a path uses the child watch up but clears only the data flag: the child
      flag stays, before and after the event is delivered. */
  lemma RemovalStrands(s: Sys, env: Env, w: Addr, p: Path)
    requires DeadEntry(s.c, w, p) && EntryOf(s.c, w, p).child
    requires Watch(w, p, Child) in s.c.zk.armed && Undelivereds(s.c, w, p, ChildrenChanged) == 0
    requires Delete(s.c.zk, p).1 == Ok
    ensures var t := Next(s, env, Others(Deletes(p))); var e := Event(w, p, Removed);
      && !Reapable(t.c, w, p) && e in t.c.zk.queue
      && p in PathsOf(Next(t, env, Deliver(e)).c, w) && !Reapable(Next(t, env, Deliver(e)).c, w, p)
  {
    var t := Next(s, env, Others(Deletes(p)));
    var e := Event(w, p, Removed);
    RemovalTurns(s.c, w, p);
    TurnLasts(OutlookOf(s.c, w, p), OutlookOf(t.c, w, p));
    assert 0 < Undelivereds(t.c, w, p, Removed);
    OwnEventLasts(t, env, e, w, p);
    assert Lasting(Next(t, env, Deliver(e)).c, w, Some(p));
  }

  /** A dropped watcher that was reaped and is added again has entries without flags and
      without watches, which nothing reaps. */
  lemma AddingAgainStrands(s: Sys, w: Addr, p: Path)
    requires w in s.c.watchers && !Live(s.c, w) && w !in s.c.listeners
    requires AddListener(s.c, w, p).1 == Ok
    requires forall k :: Watch(w, p, k) !in s.c.zk.armed
    requires forall what :: Undelivereds(s.c, w, p, what) == 0
    ensures var t := AddListener(s.c, w, p).0; p in PathsOf(t, w) && EntryOf(t, w, p) == DEAD && !Reapable(t, w, p)
  {
    var t := AddListener(s.c, w, p).0;
    assert forall what :: Undelivereds(t, w, p, what) == Undelivereds(s.c, w, p, what);
    assert forall k :: Watch(w, p, k) !in t.zk.armed;
  }

  /** An ephemeral znode has no children, so its child watch clears no child flag. */
  lemma EphemeralStrands(c: Client, w: Addr, p: Path)
    requires p in c.zk.tree && c.zk.tree[p].owner != 0
    requires EntryOf(c, w, p).child && Undelivereds(c, w, p, ChildrenChanged) == 0
    ensures !Reapable(c, w, p)
  {
  }
}
