/**
Invariants of every run: what the table, the armed watches and the history of a
client have to do with each other.
*/
module ClientInvariants {
  import opened Wrappers
  import opened ZooKeeper
  import opened Client
  import opened Registry

  // ----- reading the history

  /** The last add or drop-path of (w, p) was an add, made by a caller. */
  ghost predicate Registered(log: seq<LogEntry>, w: Addr, p: Path) {
    && log != []
    && var last := log[|log| - 1];
       if last.Added? && last.w == w && last.p == p then true
       else if last == PathDropped(w, p) then false
       else Registered(log[..|log| - 1], w, p)
  }

  ghost predicate ClosedIn(log: seq<LogEntry>, w: Addr) {
    exists i :: 0 <= i < |log| && log[i].Closed? && w in log[i].ws
  }

  /** A callback that starts here is of a watcher never closed, on a path it is registered for. */
  ghost predicate MayStart(before: seq<LogEntry>, e: LogEntry) {
    e.Called? ==> Registered(before, e.w, e.p) && !ClosedIn(before, e.w)
  }

  ghost predicate CallbacksContained(log: seq<LogEntry>) {
    forall i :: 0 <= i < |log| ==> MayStart(log[..i], log[i])
  }

  /** No path was dropped on its own, and no watch was armed while an event of (w, p) was
      undelivered that may be its own: a data event, a child event, or a removal, which may
      have used up either watch. */
  ghost predicate Clean(log: seq<LogEntry>) {
    forall i :: 0 <= i < |log| ==> CleanEntry(log[i])
  }

  predicate CleanEntry(e: LogEntry) {
    !e.PathDropped? && !((e.Added? || e.Rearmed?) && e.stale)
  }

  lemma AppendClosed(log: seq<LogEntry>, e: LogEntry)
    ensures forall w :: ClosedIn(log + [e], w) <==> ClosedIn(log, w) || (e.Closed? && w in e.ws)
  {
    var log' := log + [e];
    assert log'[|log|] == e && forall i :: 0 <= i < |log| ==> log'[i] == log[i];
    forall w ensures ClosedIn(log', w) <==> ClosedIn(log, w) || (e.Closed? && w in e.ws) {
      if ClosedIn(log, w) {
        var i :| 0 <= i < |log| && log[i].Closed? && w in log[i].ws;
        assert log'[i].Closed? && w in log'[i].ws;
      }
    }
  }

  lemma AppendContained(log: seq<LogEntry>, e: LogEntry)
    ensures CallbacksContained(log + [e]) <==> CallbacksContained(log) && MayStart(log, e)
  {
    var log' := log + [e];
    assert log'[..|log|] == log && log'[|log|] == e;
    assert forall i :: 0 <= i < |log| ==> log'[i] == log[i] && log'[..i] == log[..i];
    if CallbacksContained(log') {
      assert MayStart(log'[..|log|], log'[|log|]);
      forall i | 0 <= i < |log| ensures MayStart(log[..i], log[i]) {
        assert MayStart(log'[..i], log'[i]);
      }
    }
  }

  lemma AppendClean(log: seq<LogEntry>, e: LogEntry)
    ensures Clean(log + [e]) <==> Clean(log) && CleanEntry(e)
  {
    var log' := log + [e];
    assert log'[|log|] == e && forall i :: 0 <= i < |log| ==> log'[i] == log[i];
  }

  lemma Append(log: seq<LogEntry>, e: LogEntry)
    ensures forall w, p :: Registered(log + [e], w, p) <==>
      (e.Added? && e.w == w && e.p == p) || (e != PathDropped(w, p) && Registered(log, w, p))
    ensures forall w :: ClosedIn(log + [e], w) <==> ClosedIn(log, w) || (e.Closed? && w in e.ws)
    ensures CallbacksContained(log + [e]) <==> CallbacksContained(log) && MayStart(log, e)
    ensures Clean(log + [e]) <==> Clean(log) && CleanEntry(e)
  {
    AppendClosed(log, e);
    AppendContained(log, e);
    AppendClean(log, e);
    assert (log + [e])[..|log|] == log;
  }

  // ----- the invariants

  /** Every entry of the table was added and not dropped since. */
  ghost predicate TableLogged(c: Client) {
    forall w, p :: w in c.listeners && p in c.listeners[w] ==> Registered(c.log, w, p)
  }

  ghost predicate ClosedForGood(c: Client) {
    forall w :: ClosedIn(c.log, w) ==> w in c.watchers && c.watchers[w] == DEAD
  }

  /** The paths of a live watcher carry exactly the watcher's own flags. */
  ghost predicate FlagsMatch(c: Client) {
    forall w, p :: w in c.listeners && Live(c, w) && p in c.listeners[w] ==> c.listeners[w][p] == FlagsOf(c, w)
  }

  ghost predicate Listed(c: Client, x: Watch) {
    && x.who in c.listeners
    && x.path in c.listeners[x.who]
    && Watches(c.listeners[x.who][x.path], x.kind)
  }

  /** Every armed watch has its watcher in the table, its path under it and its flag set. */
  ghost predicate ArmedListed(c: Client) {
    forall x :: x in c.zk.armed ==> Listed(c, x)
  }

  predicate Reports(e: Event, x: Watch) {
    e.who == x.who && e.path == x.path && MayReport(e, x.kind)
  }

  /** No armed watch has an undelivered event that may be its own. */
  ghost predicate OneShot(sv: Server) {
    forall x, e :: x in sv.armed && e in sv.queue ==> !Reports(e, x)
  }

  /** Below the root every znode has a parent, and ephemeral znodes have no children. */
  ghost predicate TreeRooted(sv: Server) {
    forall p {:trigger Parent(p)} :: p in sv.tree && p != "/" ==>
      Parent(p) in sv.tree && sv.tree[Parent(p)].owner == 0
  }

  ghost predicate Fits(sv: Server) {
    forall p :: p in sv.tree ==> ValidPath(p) && |Value(sv.tree[p])| <= MAX_LENGTH
  }

  /** A watch is armed on a znode that is there, and session events are never queued. */
  ghost predicate WatchesSound(sv: Server) {
    && (forall x :: x in sv.armed ==> x.path in sv.tree)
    && (forall e :: e in sv.queue ==> e.what != Session)
  }

  ghost predicate ServerSound(sv: Server) {
    TreeRooted(sv) && Fits(sv) && WatchesSound(sv)
  }

  ghost predicate PathsValid(c: Client) {
    && ServerSound(c.zk)
    && (c.handle.Open? ==> c.handle.session != 0)
    && (forall w, p :: w in c.listeners && p in c.listeners[w] ==> ValidPath(p))
  }

  /** The flags in the table, none if there is no entry. */
  function EntryOf(c: Client, w: Addr, p: Path): Flags {
    if w in c.listeners && p in c.listeners[w] then c.listeners[w][p] else DEAD
  }

  function Undelivereds(c: Client, w: Addr, p: Path, what: EventType): nat {
    c.zk.queue[Event(w, p, what)]
  }

  /** How many undelivered events clear the data flag of (w, p) if w is dropped. */
  function DataEvents(c: Client, w: Addr, p: Path): nat {
    Undelivereds(c, w, p, DataChanged) + Undelivereds(c, w, p, Created) + Undelivereds(c, w, p, Removed)
  }

  /** A removal used the child watch up, and nothing is left that would clear its flag. */
  ghost predicate ChildSpent(c: Client, w: Addr, p: Path) {
    EntryOf(c, w, p).child && Watch(w, p, Child) !in c.zk.armed && Undelivereds(c, w, p, ChildrenChanged) == 0
  }

  /** The entry of (w, p) outlives all the undelivered events of (w, p). */
  ghost predicate Accounted(c: Client, w: Addr, p: Path) {
    && Undelivereds(c, w, p, Session) == 0
    && Undelivereds(c, w, p, ChildrenChanged) <= (if EntryOf(c, w, p).child then 1 else 0)
    && (DataEvents(c, w, p) > 0 ==> EntryOf(c, w, p).data || ChildSpent(c, w, p))
    && (DataEvents(c, w, p) > 1 ==> ChildSpent(c, w, p))
    && (Live(c, w) && !FlagsOf(c, w).data ==>
         Undelivereds(c, w, p, DataChanged) == 0 && Undelivereds(c, w, p, Created) == 0)
  }

  ghost predicate AllAccounted(c: Client) {
    forall w, p :: Accounted(c, w, p)
  }

  ghost predicate Tracked(c: Client) {
    ArmedListed(c) && OneShot(c.zk) && AllAccounted(c)
  }

  ghost predicate WatchesTracked(c: Client) {
    Clean(c.log) ==> Tracked(c)
  }

  ghost predicate Inv(c: Client) {
    && c.listeners.Keys <= c.watchers.Keys
    && TableLogged(c)
    && ClosedForGood(c)
    && CallbacksContained(c.log)
    && FlagsMatch(c)
    && PathsValid(c)
    && WatchesTracked(c)
  }

  /** Every cached node is marked temporary, so it is always re-created ephemeral,
      and the server would accept its path and content. */
  ghost predicate AllTemporary(s: Sys) {
    forall p :: p in s.nodes ==> s.nodes[p].temporary && ValidPath(p) && p != "/" && |s.nodes[p].content| <= MAX_LENGTH
  }

  /** The registry watches data only, until its watcher is closed. */
  ghost predicate OwnWatcher(s: Sys) {
    && s.listener in s.c.watchers
    && (s.c.watchers[s.listener] == Flags(true, false) || s.c.watchers[s.listener] == DEAD)
  }

  ghost predicate SysInv(s: Sys) {
    Inv(s.c) && AllTemporary(s) && OwnWatcher(s)
  }

  /** The history only grows, a watcher's flags only ever change to dead, and no callback of
      a dead watcher starts. */
  ghost predicate Extends(s: Sys, t: Sys) {
    && s.c.log <= t.c.log
    && t.listener == s.listener
    && (forall w :: w in s.c.watchers ==>
         w in t.c.watchers && (t.c.watchers[w] == s.c.watchers[w] || t.c.watchers[w] == DEAD))
    && StartsLive(s, t)
  }

  ghost predicate StartsLive(s: Sys, t: Sys) {
    forall i :: |s.c.log| <= i < |t.c.log| && t.c.log[i].Called? && t.c.log[i].w in s.c.watchers
      ==> Live(s.c, t.c.log[i].w)
  }

  lemma ExtendsJoins(s: Sys, t: Sys, u: Sys)
    requires Extends(s, t) && Extends(t, u)
    ensures Extends(s, u)
  {
    forall i | |s.c.log| <= i < |u.c.log| && u.c.log[i].Called? && u.c.log[i].w in s.c.watchers
      ensures Live(s.c, u.c.log[i].w)
    {
      if i < |t.c.log| { assert t.c.log[i] == u.c.log[i]; }
    }
  }

  // ----- every operation keeps them

  lemma AddKeepsOneShot(c: Client, w: Addr, p: Path, again: bool)
    requires Tracked(c) && FlagsMatch(c) && AddListener(c, w, p, again).1 == Ok
    requires !Undelivered(c, w, p, FlagsOf(c, w))
    ensures var c' := AddListener(c, w, p, again).0; ArmedListed(c') && OneShot(c'.zk)
  {
    var c' := AddListener(c, w, p, again).0;
    var f := FlagsOf(c, w);
    forall x | x in c'.zk.armed ensures Listed(c', x) {
      if x in WatchesOf(w, p, f) { assert x.who == w && x.path == p && Watches(f, x.kind); }
      else { assert Listed(c, x); }
    }
    forall x, e | x in c'.zk.armed && e in c'.zk.queue ensures !Reports(e, x) {
      assert x in WatchesOf(w, p, f) && Reports(e, x) ==> Watches(f, x.kind) && MayReport(e, x.kind);
    }
  }

  /** Where an event is undelivered, a clean add arms at most the watch of the other kind. */
  lemma AddKeepsAccounts(c: Client, w: Addr, p: Path, again: bool)
    requires Tracked(c) && FlagsMatch(c) && AddListener(c, w, p, again).1 == Ok
    requires !Undelivered(c, w, p, FlagsOf(c, w))
    ensures AllAccounted(AddListener(c, w, p, again).0)
  {
    var c' := AddListener(c, w, p, again).0;
    var f := FlagsOf(c, w);
    forall v, q ensures Accounted(c', v, q) {
      assert Accounted(c, v, q);
      if v == w && q == p {
        assert Live(c, w) ==> EntryOf(c', w, p) == f;
        if f.data { NoneUndelivered(c, w, p, Data); }
        if f.child { NoneUndelivered(c, w, p, Child); }
      } else {
        assert EntryOf(c', v, q) == EntryOf(c, v, q);
        assert Watch(v, q, Child) in c'.zk.armed <==> Watch(v, q, Child) in c.zk.armed;
      }
    }
  }

  lemma NoneUndelivered(c: Client, w: Addr, p: Path, k: Kind)
    requires !Undelivered(c, w, p, FlagsOf(c, w)) && Watches(FlagsOf(c, w), k)
    ensures forall what :: KindOf(what) == k || what == Removed ==> Undelivereds(c, w, p, what) == 0
  {
    forall what | KindOf(what) == k || what == Removed ensures Undelivereds(c, w, p, what) == 0 {
      var e := Event(w, p, what);
      assert MayReport(e, k);
      assert e !in c.zk.queue;
    }
  }

  lemma AddKeepsTracking(c: Client, w: Addr, p: Path, again: bool)
    requires WatchesTracked(c) && FlagsMatch(c) && AddListener(c, w, p, again).1 == Ok
    ensures WatchesTracked(AddListener(c, w, p, again).0)
  {
    var c' := AddListener(c, w, p, again).0;
    Append(c.log, ListenEntry(c, w, p, again));
    if Clean(c'.log) {
      AddKeepsOneShot(c, w, p, again);
      AddKeepsAccounts(c, w, p, again);
    }
  }

  lemma AddKeepsTable(c: Client, w: Addr, p: Path, again: bool)
    requires FlagsMatch(c) && PathsValid(c) && AddListener(c, w, p, again).1 == Ok
    ensures FlagsMatch(AddListener(c, w, p, again).0) && PathsValid(AddListener(c, w, p, again).0)
  {
    var c' := AddListener(c, w, p, again).0;
    assert forall v, q :: v in c'.listeners && q in c'.listeners[v] ==>
      EntryOf(c', v, q) == (if v == w && q == p && EntryOf(c, w, p) == DEAD then FlagsOf(c, w) else EntryOf(c, v, q));
  }

  lemma AddKeeps(c: Client, w: Addr, p: Path, again: bool := false)
    requires Inv(c) && w in c.watchers
    requires again ==> w in c.listeners && p in c.listeners[w]
    ensures Inv(AddListener(c, w, p, again).0)
  {
    var c' := AddListener(c, w, p, again).0;
    if AddListener(c, w, p, again).1 == Ok {
      Append(c.log, ListenEntry(c, w, p, again));
      AddKeepsTracking(c, w, p, again);
      AddKeepsTable(c, w, p, again);
    } else {
      assert c' == c;
    }
  }

  lemma DropPathKeeps(c: Client, w: Addr, p: Path)
    requires Inv(c)
    ensures Inv(DropListenerWithPath(c, w, p).0)
  {
    Append(c.log, PathDropped(w, p));
  }

  lemma CloseWatchersKeeps(c: Client, ws: set<Addr>)
    requires Inv(c) && ws <= c.watchers.Keys
    ensures Inv(CloseWatchers(c, ws))
  {
    Append(c.log, Closed(ws));
    var c' := CloseWatchers(c, ws);
    assert c'.watchers.Keys == c.watchers.Keys;
    assert forall x :: Listed(c, x) ==> Listed(c', x);
    assert forall w :: Live(c', w) ==> Live(c, w) && FlagsOf(c', w) == FlagsOf(c, w);
    assert forall w, p :: Accounted(c, w, p) ==> Accounted(c', w, p);
  }

  /** The flag of this kind can be cleared: its watch is not armed, and the events still
      undelivered leave the entry in place. */
  ghost predicate MayClear(c: Client, w: Addr, p: Path, k: Kind) {
    && Watch(w, p, k) !in c.zk.armed
    && (if k == Data then DataEvents(c, w, p) > 0 ==> ChildSpent(c, w, p)
        else
          && Undelivereds(c, w, p, ChildrenChanged) == 0
          && DataEvents(c, w, p) <= (if EntryOf(c, w, p).data then 1 else 0))
  }

  lemma ReapedEntryIs(c: Client, w: Addr, p: Path, what: EventType)
    requires w in c.listeners && what != Session
    ensures var c' := Reap(c, w, p, Reported(what));
      && c' == c.(listeners := c'.listeners)
      && (forall v, q :: v != w || q != p ==> EntryOf(c', v, q) == EntryOf(c, v, q))
      && EntryOf(c', w, p) ==
           if KindOf(what) == Data then EntryOf(c, w, p).(data := false) else EntryOf(c, w, p).(child := false)
  {
    var c' := Reap(c, w, p, Reported(what));
    if p in c.listeners[w] {
      forall v, q | v != w || q != p ensures EntryOf(c', v, q) == EntryOf(c, v, q) {
        if v == w && q in c.listeners[w] { assert q in c.listeners[w] - {p}; }
      }
    }
  }

  lemma ReapKeepsTracking(c: Client, w: Addr, p: Path, what: EventType)
    requires Tracked(c) && w in c.listeners && !Live(c, w)
    requires what != Session ==> MayClear(c, w, p, KindOf(what))
    ensures Tracked(Reap(c, w, p, Reported(what)))
  {
    var c' := Reap(c, w, p, Reported(what));
    forall x | x in c'.zk.armed ensures Listed(c', x) {
      assert Listed(c, x);
      ReapKeepsListed(c, w, p, what, x);
    }
    if what != Session {
      ReapedEntryIs(c, w, p, what);
      forall v, q ensures Accounted(c', v, q) { assert Accounted(c, v, q); }
    } else {
      SessionKeepsTracking(c, w, p);
    }
  }

  /** A session event clears no flag. */
  lemma SessionKeepsTracking(c: Client, w: Addr, p: Path)
    requires Tracked(c) && w in c.listeners
    ensures Tracked(Reap(c, w, p, Session))
  {
    var c' := Reap(c, w, p, Session);
    forall v, q ensures Accounted(c', v, q) {
      assert Accounted(c, v, q);
      assert EntryOf(c', v, q) == EntryOf(c, v, q) by {
        if v == w && q != p && q in c.listeners[w] { assert q in c.listeners[w] - {p}; }
      }
    }
    forall x | x in c'.zk.armed ensures Listed(c', x) {
      assert Listed(c, x);
      ReapKeepsListed(c, w, p, Session, x);
    }
  }

  /** Reaping after an event is safe when the event was the last one of its flag. */
  lemma ReapKeeps(c: Client, w: Addr, p: Path, what: EventType)
    requires Inv(c) && w in c.listeners && !Live(c, w)
    requires Clean(c.log) && what != Session ==> MayClear(c, w, p, KindOf(what))
    ensures Inv(Reap(c, w, p, Reported(what)))
  {
    var c' := Reap(c, w, p, Reported(what));
    if Clean(c.log) { ReapKeepsTracking(c, w, p, what); }
    assert c' == c.(listeners := c'.listeners);
    assert c'.listeners.Keys <= c.listeners.Keys;
    assert forall v :: v != w && v in c'.listeners ==> c'.listeners[v] == c.listeners[v];
    assert w in c'.listeners ==> c'.listeners[w].Keys <= c.listeners[w].Keys;
    assert forall v, q :: v in c'.listeners && q in c'.listeners[v] ==> v in c.listeners && q in c.listeners[v];
  }

  lemma ReapKeepsListed(c: Client, w: Addr, p: Path, what: EventType, x: Watch)
    requires w in c.listeners && Listed(c, x)
    requires what != Session ==> x != Watch(w, p, KindOf(what))
    ensures Listed(Reap(c, w, p, Reported(what)), x)
  {
    if x.who == w && x.path != p && p in c.listeners[w] {
      assert x.path in c.listeners[w] - {p};
    }
  }

  lemma WriteKeeps(c: Client, zk: Server)
    requires Inv(c)
    requires ServerSound(zk)
    requires zk.armed <= c.zk.armed
    requires Tracked(c) ==> OneShot(zk) && AllAccounted(c.(zk := zk))
    ensures Inv(c.(zk := zk))
  {
    assert forall x :: Listed(c, x) ==> Listed(c.(zk := zk), x);
  }

  /** What a change of the server fires: watches of its own path, and child watches. */
  ghost predicate FiredFor(c: Client, fired: set<Watch>, p: Path, what: EventType) {
    && KindOf(what) == Data && what != Session
    && fired <= c.zk.armed
    && (forall x :: x in fired && x.path != p ==> x.kind == Child)
    && (what == Removed || (forall x :: x in fired && x.path == p ==> x.kind == Data))
    && (what == Removed ==> forall x :: x in c.zk.armed && x.path == p ==> x in fired)
  }

  lemma FireKeepsOneShot(c: Client, fired: set<Watch>, p: Path, what: EventType)
    requires OneShot(c.zk) && FiredFor(c, fired, p, what)
    ensures OneShot(Fire(c.zk, fired, p, what))
  {
    var sv' := Fire(c.zk, fired, p, what);
    forall x, e | x in sv'.armed && e in sv'.queue ensures !Reports(e, x) {
      if e !in c.zk.queue {
        var y :| y in fired && e == Event(y.who, y.path, if y.path == p then what else ChildrenChanged);
        assert Reports(e, x) && !(what == Removed && y.path == p) ==> x == y;
      }
    }
  }

  function FiredEvents(fired: set<Watch>, p: Path, what: EventType): set<Event> {
    set x | x in fired :: Event(x.who, x.path, if x.path == p then what else ChildrenChanged)
  }

  lemma FiredEventsAre(c: Client, fired: set<Watch>, p: Path, what: EventType, w: Addr, q: Path, k: EventType)
    requires FiredFor(c, fired, p, what)
    ensures Event(w, q, k) in FiredEvents(fired, p, what) <==>
      if q == p then k == what && (Watch(w, p, Data) in fired || Watch(w, p, Child) in fired)
      else k == ChildrenChanged && Watch(w, q, Child) in fired
  {
    var e := Event(w, q, k);
    if e in FiredEvents(fired, p, what) {
      var x :| x in fired && e == Event(x.who, x.path, if x.path == p then what else ChildrenChanged);
      assert x == Watch(w, q, x.kind);
      assert x.kind == Data || x.kind == Child;
    }
    forall j | Watch(w, q, j) in fired
      ensures Event(w, q, if q == p then what else ChildrenChanged) in FiredEvents(fired, p, what)
    {
      var x := Watch(w, q, j);
      assert Event(x.who, x.path, if x.path == p then what else ChildrenChanged) in FiredEvents(fired, p, what);
    }
  }

  /** Firing adds at most one event of each type for (w, q). */
  lemma FiredCount(c: Client, fired: set<Watch>, p: Path, what: EventType, w: Addr, q: Path, k: EventType)
    ensures Undelivereds(c.(zk := Fire(c.zk, fired, p, what)), w, q, k) ==
      Undelivereds(c, w, q, k) + (if Event(w, q, k) in FiredEvents(fired, p, what) then 1 else 0)
  {
    var events := FiredEvents(fired, p, what);
    assert Fire(c.zk, fired, p, what).queue == c.zk.queue + multiset(events);
    assert multiset(events)[Event(w, q, k)] == if Event(w, q, k) in events then 1 else 0;
  }

  lemma FiredChange(c: Client, fired: set<Watch>, p: Path, what: EventType, w: Addr, q: Path)
    requires FiredFor(c, fired, p, what)
    ensures var c' := c.(zk := Fire(c.zk, fired, p, what)); var child := Watch(w, q, Child) in fired;
      && (forall k :: Undelivereds(c', w, q, k) == Undelivereds(c, w, q, k) +
           if q == p then (if k == what && (Watch(w, p, Data) in fired || child) then 1 else 0)
           else (if k == ChildrenChanged && child then 1 else 0))
      && EntryOf(c', w, q) == EntryOf(c, w, q)
      && (Watch(w, q, Child) in c'.zk.armed <==> Watch(w, q, Child) in c.zk.armed && !child)
      && FlagsOf(c', w) == FlagsOf(c, w)
  {
    forall k
      ensures Undelivereds(c.(zk := Fire(c.zk, fired, p, what)), w, q, k) == Undelivereds(c, w, q, k) +
        if q == p then (if k == what && (Watch(w, p, Data) in fired || Watch(w, p, Child) in fired) then 1 else 0)
        else (if k == ChildrenChanged && Watch(w, q, Child) in fired then 1 else 0)
    {
      FiredEventsAre(c, fired, p, what, w, q, k);
      FiredCount(c, fired, p, what, w, q, k);
    }
  }

  /** A watch that is fired has its flag set and no event of its own undelivered. */
  lemma FiredWasTracked(c: Client, w: Addr, q: Path, k: Kind)
    requires Tracked(c) && Watch(w, q, k) in c.zk.armed
    ensures Watches(EntryOf(c, w, q), k)
    ensures forall what :: KindOf(what) == k || what == Removed ==> Undelivereds(c, w, q, what) == 0
  {
    assert Listed(c, Watch(w, q, k));
    forall what | KindOf(what) == k || what == Removed ensures Undelivereds(c, w, q, what) == 0 {
      assert Reports(Event(w, q, what), Watch(w, q, k));
    }
  }

  /** At the path that changed. */
  lemma FireKeepsOwnAccount(c: Client, fired: set<Watch>, p: Path, what: EventType, w: Addr)
    requires Tracked(c) && FlagsMatch(c) && FiredFor(c, fired, p, what)
    ensures Accounted(c.(zk := Fire(c.zk, fired, p, what)), w, p)
  {
    assert Accounted(c, w, p);
    if Watch(w, p, Data) in fired { FiredWasTracked(c, w, p, Data); }
    if Watch(w, p, Child) in fired { FiredWasTracked(c, w, p, Child); }
    FiredChange(c, fired, p, what, w, p);
  }

  /** Elsewhere, where only a child watch can fire. */
  lemma FireKeepsOtherAccount(c: Client, fired: set<Watch>, p: Path, what: EventType, w: Addr, q: Path)
    requires Tracked(c) && FlagsMatch(c) && FiredFor(c, fired, p, what) && q != p
    ensures Accounted(c.(zk := Fire(c.zk, fired, p, what)), w, q)
  {
    assert Accounted(c, w, q);
    if Watch(w, q, Child) in fired { FiredWasTracked(c, w, q, Child); }
    FiredChange(c, fired, p, what, w, q);
  }

  lemma FireKeepsAccount(c: Client, fired: set<Watch>, p: Path, what: EventType, w: Addr, q: Path)
    requires Tracked(c) && FlagsMatch(c) && FiredFor(c, fired, p, what)
    ensures Accounted(c.(zk := Fire(c.zk, fired, p, what)), w, q)
  {
    if q == p { FireKeepsOwnAccount(c, fired, p, what, w); } else { FireKeepsOtherAccount(c, fired, p, what, w, q); }
  }

  lemma FireKeeps(c: Client, fired: set<Watch>, p: Path, what: EventType, zk: Server)
    requires Tracked(c) && FlagsMatch(c) && FiredFor(c, fired, p, what)
    requires zk == Fire(c.zk, fired, p, what).(tree := zk.tree)
    ensures OneShot(zk) && AllAccounted(c.(zk := zk))
  {
    FireKeepsOneShot(c, fired, p, what);
    forall w, q ensures Accounted(c.(zk := zk), w, q) {
      FireKeepsAccount(c, fired, p, what, w, q);
    }
  }

  lemma CreateStaysRooted(sv: Server, p: Path, data: Option<string>, owner: nat)
    requires TreeRooted(sv)
    ensures TreeRooted(Create(sv, p, data, owner).0)
  {
    var zk := Create(sv, p, data, owner).0;
    forall q | q in zk.tree && q != "/" ensures Parent(q) in zk.tree && zk.tree[Parent(q)].owner == 0 {
      if q in sv.tree { assert Parent(q) in sv.tree; }
    }
  }

  lemma CreateIsSound(sv: Server, p: Path, data: Option<string>, owner: nat)
    requires ServerSound(sv) && |Value(Znode(data, owner))| <= MAX_LENGTH
    ensures ServerSound(Create(sv, p, data, owner).0)
  {
    CreateStaysRooted(sv, p, data, owner);
    var (zk, rc) := Create(sv, p, data, owner);
    if rc == Ok {
      assert zk.tree == sv.tree[p := Znode(data, owner)];
      assert Fits(zk);
    }
  }

  lemma DeleteIsSound(sv: Server, p: Path)
    requires ServerSound(sv)
    ensures ServerSound(Delete(sv, p).0)
  {
    var zk := Delete(sv, p).0;
    if Delete(sv, p).1 == Ok {
      forall q | q in zk.tree && q != "/" ensures Parent(q) in zk.tree && zk.tree[Parent(q)].owner == 0 {
        assert q in sv.tree && Parent(q) in sv.tree;
      }
    }
  }

  lemma CreateKeeps(c: Client, p: Path, data: Option<string>, owner: nat)
    requires Inv(c) && |Value(Znode(data, owner))| <= MAX_LENGTH
    ensures Inv(c.(zk := Create(c.zk, p, data, owner).0))
  {
    var zk := Create(c.zk, p, data, owner).0;
    CreateIsSound(c.zk, p, data, owner);
    if Tracked(c) && Create(c.zk, p, data, owner).1 == Ok {
      FireKeeps(c, FiredByCreate(c.zk, p), p, Created, zk);
    }
    WriteKeeps(c, zk);
  }

  lemma SetKeeps(c: Client, p: Path, data: Option<string>)
    requires Inv(c) && |Value(Znode(data, 0))| <= MAX_LENGTH
    ensures Inv(c.(zk := Set(c.zk, p, data).0))
  {
    var zk := Set(c.zk, p, data).0;
    if Tracked(c) && p in c.zk.tree { FireKeeps(c, FiredBySet(c.zk, p), p, DataChanged, zk); }
    WriteKeeps(c, zk);
  }

  lemma DeleteKeeps(c: Client, p: Path)
    requires Inv(c)
    ensures Inv(c.(zk := Delete(c.zk, p).0))
  {
    var zk := Delete(c.zk, p).0;
    DeleteIsSound(c.zk, p);
    if Tracked(c) && Delete(c.zk, p).1 == Ok { FireKeeps(c, FiredByDelete(c.zk, p), p, Removed, zk); }
    WriteKeeps(c, zk);
  }

  lemma EndSessionKeeps(c: Client, session: nat)
    requires Inv(c) && session != 0
    ensures Inv(c.(zk := EndSession(c.zk, session)))
  {
    var zk := EndSession(c.zk, session);
    assert forall w, p :: Accounted(c.(zk := zk), w, p);
    WriteKeeps(c, zk);
  }

  lemma HandleKeeps(c: Client, handle: Handle)
    requires Inv(c) && (handle.Open? ==> handle.session != 0)
    ensures Inv(c.(handle := handle))
  {
    var c' := c.(handle := handle);
    assert forall x :: Listed(c, x) ==> Listed(c', x);
    assert forall w :: Live(c', w) ==> Live(c, w) && FlagsOf(c', w) == FlagsOf(c, w);
    assert forall w, p :: Accounted(c, w, p) ==> Accounted(c', w, p);
  }

  lemma StartKeeps(s: Sys, w: Addr, p: Path, what: EventType)
    requires SysInv(s) && Live(s.c, w) && Registered(s.c.log, w, p)
    ensures SysInv(StartCallback(s, w, p, what))
    ensures Extends(s, StartCallback(s, w, p, what))
  {
    Append(s.c.log, Called(w, p, what));
    var c' := StartCallback(s, w, p, what).c;
    assert forall x :: Listed(s.c, x) ==> Listed(c', x);
    assert forall v :: Live(c', v) ==> Live(s.c, v) && FlagsOf(c', v) == FlagsOf(s.c, v);
    assert forall v, q :: Accounted(s.c, v, q) ==> Accounted(c', v, q);
  }

  lemma CreateNodeKeeps(s: Sys, p: Path, value: string, mode: CreateMode)
    requires SysInv(s)
    ensures SysInv(s.(c := CreateNode(s.c, p, value, mode).0))
    ensures Extends(s, s.(c := CreateNode(s.c, p, value, mode).0))
  {
    if Available(s.c) && |value| <= MAX_LENGTH {
      CreateKeeps(s.c, p, Buffer(value), if mode == Ephemeral then s.c.handle.session else 0);
    }
  }

  lemma DeleteNodeKeeps(s: Sys, p: Path)
    requires SysInv(s)
    ensures SysInv(s.(c := DeleteNode(s.c, p).0))
    ensures Extends(s, s.(c := DeleteNode(s.c, p).0))
  {
    if Available(s.c) { DeleteKeeps(s.c, p); }
  }

  lemma CloseKeeps(s: Sys)
    requires SysInv(s)
    ensures SysInv(s.(c := Close(s.c)))
    ensures Extends(s, s.(c := Close(s.c)))
  {
    if s.c.handle.Open? {
      EndSessionKeeps(s.c, s.c.handle.session);
      HandleKeeps(s.c.(zk := EndSession(s.c.zk, s.c.handle.session)), NoHandle);
    }
  }

  lemma ListenKeeps(s: Sys, w: Addr, p: Path)
    requires SysInv(s) && w in s.c.watchers
    ensures SysInv(s.(c := AddListener(s.c, w, p).0))
    ensures Extends(s, s.(c := AddListener(s.c, w, p).0))
  {
    AddKeeps(s.c, w, p);
  }

  lemma CreatedIsSound(c: Client, p: Path, value: string, mode: CreateMode)
    requires CreateNode(c, p, value, mode).1 == Ok
    ensures ValidPath(p) && p != "/" && |value| <= MAX_LENGTH
  {
    assert LastSlash("/") == 0;
  }

  lemma CachingKeeps(s: Sys, p: Path, content: string)
    requires SysInv(s) && ValidPath(p) && p != "/" && |content| <= MAX_LENGTH
    ensures SysInv(s.(nodes := s.nodes[p := Entry(true, content)]))
    ensures Extends(s, s.(nodes := s.nodes[p := Entry(true, content)]))
  {
  }

  lemma PublishKeeps(s: Sys, service: string, version: string, stat: string, name: string,
                     content: string, temporary: bool)
    requires SysInv(s)
    ensures SysInv(PublishService(s, service, version, stat, name, content, temporary).0)
    ensures Extends(s, PublishService(s, service, version, stat, name, content, temporary).0)
  {
    var p := ServicePath(service, version, stat, name);
    var mode := if temporary then Ephemeral else Persistent;
    var s1 := s.(c := CreateNode(s.c, p, content, mode).0);
    CreateNodeKeeps(s, p, content, mode);
    if temporary && CreateNode(s.c, p, content, mode).1 == Ok {
      var s2 := s1.(nodes := s.nodes[p := Entry(true, content)]);
      CreatedIsSound(s.c, p, content, mode);
      CachingKeeps(s1, p, content);
      ListenKeeps(s2, s.listener, p);
      ExtendsJoins(s, s1, s2);
      ExtendsJoins(s, s2, s2.(c := AddListener(s2.c, s.listener, p).0));
    }
  }

  lemma DoKeeps(s: Sys, a: Action)
    requires SysInv(s)
    ensures SysInv(Do(s, a)) && Extends(s, Do(s, a))
  {
    match a
    case Add(w, p) => if w in s.c.watchers { ListenKeeps(s, w, p); }
    case DropPath(w, p) => DropPathKeeps(s.c, w, p);
    case Drop(w) => if Available(s.c) && w in s.c.listeners { CloseWatchersKeeps(s.c, {w}); }
    case ClearAll => CloseWatchersKeeps(s.c, s.c.listeners.Keys);
    case CreateAt(p, value, mode) => CreateNodeKeeps(s, p, value, mode);
    case SetAt(p, value) =>
      if Available(s.c) && |value| <= MAX_LENGTH { SetKeeps(s.c, p, Buffer(value)); }
    case DeleteAt(p) => DeleteNodeKeeps(s, p);
    case CloseHandle => CloseKeeps(s);
    case Publish(service, version, stat, name, content, temporary) =>
      PublishKeeps(s, service, version, stat, name, content, temporary);
  }

  lemma {:induction false} DoAllKeeps(s: Sys, acts: seq<Action>)
    requires SysInv(s)
    ensures SysInv(DoAll(s, acts)) && Extends(s, DoAll(s, acts))
    decreases |acts|
  {
    if acts != [] {
      DoKeeps(s, acts[0]);
      DoAllKeeps(Do(s, acts[0]), acts[1..]);
      ExtendsJoins(s, Do(s, acts[0]), DoAll(s, acts));
    }
  }

  lemma ContentChangeKeeps(s: Sys, p: Path, what: EventType)
    requires SysInv(s)
    ensures SysInv(ContentChangeListener(s, p, what))
    ensures Extends(s, ContentChangeListener(s, p, what))
  {
    if what == DataChanged && p in s.nodes && Exist(s.c, p) != Ok {
      var mode := if s.nodes[p].temporary then Ephemeral else Persistent;
      var s1 := s.(c := CreateNode(s.c, p, s.nodes[p].content, mode).0);
      CreateNodeKeeps(s, p, s.nodes[p].content, mode);
      ListenKeeps(s1, s.listener, p);
      ExtendsJoins(s, s1, s1.(c := AddListener(s1.c, s.listener, p).0));
    }
  }

  lemma CallbackKeeps(s: Sys, env: Env, w: Addr, p: Path, what: EventType)
    requires SysInv(s) && Live(s.c, w) && Registered(s.c.log, w, p)
    ensures SysInv(Callback(s, env, w, p, what)) && Extends(s, Callback(s, env, w, p, what))
  {
    var s1 := StartCallback(s, w, p, what);
    StartKeeps(s, w, p, what);
    if w == s.listener { ContentChangeKeeps(s1, p, what); }
    else { DoAllKeeps(s1, env.script(|s.c.log|)); }
    ExtendsJoins(s, s1, Callback(s, env, w, p, what));
  }

  lemma LiveEventKeeps(s: Sys, env: Env, what: EventType, p: Path, w: Addr)
    requires SysInv(s) && w in s.c.listeners && Live(s.c, w) && p in s.c.listeners[w]
    ensures SysInv(EventWatcher(s, env, what, p, w)) && Extends(s, EventWatcher(s, env, what, p, w))
  {
    var s1 := s.(c := AddListener(s.c, w, p, true).0);
    AddKeeps(s.c, w, p, true);
    assert SysInv(s1) && Extends(s, s1);
    if what != Session {
      assert Registered(s1.c.log, w, p);
      CallbackKeeps(s1, env, w, p, Reported(what));
      ExtendsJoins(s, s1, EventWatcher(s, env, what, p, w));
    }
  }

  lemma EventWatcherKeeps(s: Sys, env: Env, what: EventType, p: Path, w: Addr)
    requires SysInv(s)
    requires Clean(s.c.log) && !Live(s.c, w) && what != Session ==> MayClear(s.c, w, p, KindOf(what))
    ensures SysInv(EventWatcher(s, env, what, p, w)) && Extends(s, EventWatcher(s, env, what, p, w))
  {
    if w in s.c.listeners {
      if !Live(s.c, w) { ReapKeeps(s.c, w, p, what); }
      else if p in s.c.listeners[w] { LiveEventKeeps(s, env, what, p, w); }
    }
  }

  lemma {:induction false} SignalPathsKeeps(s: Sys, env: Env, w: Addr, ps: seq<Path>)
    requires SysInv(s)
    ensures SysInv(SignalPaths(s, env, w, ps)) && Extends(s, SignalPaths(s, env, w, ps))
    decreases |ps|
  {
    if ps != [] {
      if FlagsOf(s.c, w).child { EventWatcherKeeps(s, env, ChildrenChanged, ps[0], w); }
      var s1 := SignalChild(s, env, w, ps[0]);
      if FlagsOf(s1.c, w).data { EventWatcherKeeps(s1, env, DataChanged, ps[0], w); }
      var s2 := SignalData(s1, env, w, ps[0]);
      SignalPathsKeeps(s2, env, w, ps[1..]);
      ExtendsJoins(s, s1, s2);
      ExtendsJoins(s, s2, SignalPaths(s, env, w, ps));
    }
  }

  lemma VisitKeeps(s: Sys, env: Env, w: Addr)
    requires SysInv(s)
    ensures SysInv(Visit(s, env, w)) && Extends(s, Visit(s, env, w))
  {
    if Live(s.c, w) { SignalPathsKeeps(s, env, w, env.order(PathsOf(s.c, w).Keys)); }
  }

  lemma {:induction false} TriggerFromKeeps(s: Sys, env: Env, from: nat)
    requires SysInv(s)
    ensures SysInv(TriggerFrom(s, env, from)) && Extends(s, TriggerFrom(s, env, from))
    decreases ADDRESS_LIMIT - from
  {
    match NextKey(s.c.listeners.Keys, from)
    case None =>
    case Some(w) =>
      VisitKeeps(s, env, w);
      TriggerFromKeeps(Visit(s, env, w), env, (w as int) + 1);
      ExtendsJoins(s, Visit(s, env, w), TriggerFrom(s, env, from));
  }

  lemma {:induction false} DeleteAllKeeps(s: Sys, ps: seq<Path>)
    requires SysInv(s)
    ensures SysInv(s.(c := DeleteAll(s.c, ps)))
    ensures Extends(s, s.(c := DeleteAll(s.c, ps)))
    decreases |ps|
  {
    if ps != [] {
      DeleteNodeKeeps(s, ps[0]);
      var s1 := s.(c := DeleteNode(s.c, ps[0]).0);
      DeleteAllKeeps(s1, ps[1..]);
      ExtendsJoins(s, s1, s.(c := DeleteAll(s.c, ps)));
    }
  }

  lemma NewWatcherIsTracked(c: Client, w: Addr, f: Flags)
    requires WatchesTracked(c) && w !in c.listeners
    ensures WatchesTracked(c.(watchers := c.watchers[w := f]))
  {
    var c' := c.(watchers := c.watchers[w := f]);
    assert forall x :: Listed(c, x) ==> Listed(c', x);
    assert forall v, q :: Accounted(c, v, q) ==> Accounted(c', v, q);
  }

  lemma NewWatcherKeeps(s: Sys, w: Addr, f: Flags)
    requires SysInv(s) && w !in s.c.watchers
    ensures SysInv(s.(c := s.c.(watchers := s.c.watchers[w := f])))
    ensures Extends(s, s.(c := s.c.(watchers := s.c.watchers[w := f])))
  {
    var c' := s.c.(watchers := s.c.watchers[w := f]);
    assert forall v :: v in c'.listeners ==> FlagsOf(c', v) == FlagsOf(s.c, v);
    NewWatcherIsTracked(s.c, w, f);
  }

  /** The event taken from the queue may clear the flag of its kind. */
  lemma TakeKeepsAccounts(s: Sys, e: Event)
    requires Tracked(s.c) && e in s.c.zk.queue
    ensures AllAccounted(Take(s, e).c)
    ensures e.what != Session && MayClear(Take(s, e).c, e.who, e.path, KindOf(e.what))
  {
    var c' := Take(s, e).c;
    forall w, p ensures Accounted(c', w, p) {
      assert Accounted(s.c, w, p);
      assert forall what :: Undelivereds(c', w, p, what) <= Undelivereds(s.c, w, p, what);
      assert ChildSpent(s.c, w, p) ==> ChildSpent(c', w, p);
    }
    assert Accounted(s.c, e.who, e.path);
    assert Undelivereds(s.c, e.who, e.path, e.what) > 0;
    assert forall what ::
      Undelivereds(c', e.who, e.path, what) ==
        Undelivereds(s.c, e.who, e.path, what) - (if what == e.what then 1 else 0);
    assert Reports(e, Watch(e.who, e.path, KindOf(e.what)));
  }

  lemma DeliverKeeps(s: Sys, env: Env, e: Event)
    requires SysInv(s) && e in s.c.zk.queue
    ensures SysInv(Next(s, env, Deliver(e))) && Extends(s, Next(s, env, Deliver(e)))
  {
    var s1 := Take(s, e);
    if Tracked(s.c) { TakeKeepsAccounts(s, e); }
    WriteKeeps(s.c, s1.c.zk);
    EventWatcherKeeps(s1, env, e.what, e.path, e.who);
    ExtendsJoins(s, s1, Next(s, env, Deliver(e)));
  }

  lemma ConnectKeeps(s: Sys, session: nat)
    requires SysInv(s) && session != 0
    ensures SysInv(s.(c := Connect(s.c, session)))
    ensures Extends(s, s.(c := Connect(s.c, session)))
  {
    CloseKeeps(s);
    HandleKeeps(Close(s.c), Open(session, Connected));
  }

  lemma DestroyKeeps(s: Sys, env: Env)
    requires SysInv(s)
    ensures SysInv(Destroy(s, env))
    ensures Extends(s, Destroy(s, env))
  {
    DoKeeps(s, Drop(s.listener));
    DeleteAllKeeps(Do(s, Drop(s.listener)), env.order(s.nodes.Keys));
    ExtendsJoins(s, Do(s, Drop(s.listener)), Destroy(s, env));
  }

  lemma LinkUpKeeps(s: Sys, env: Env)
    requires SysInv(s) && s.c.handle.Open?
    ensures var t := TriggerAllWatcher(SetLink(s, Connected), env); SysInv(t) && Extends(s, t)
  {
    HandleKeeps(s.c, Open(s.c.handle.session, Connected));
    TriggerFromKeeps(SetLink(s, Connected), env, 0);
    ExtendsJoins(s, SetLink(s, Connected), TriggerAllWatcher(SetLink(s, Connected), env));
  }

  lemma SessionLostKeeps(s: Sys)
    requires SysInv(s)
    ensures SysInv(s.(c := Expire(s.c))) && Extends(s, s.(c := Expire(s.c)))
  {
    if s.c.handle.Open? {
      EndSessionKeeps(s.c, s.c.handle.session);
      HandleKeeps(s.c.(zk := EndSession(s.c.zk, s.c.handle.session)), Open(s.c.handle.session, Expired));
    }
  }

  lemma ReopenKeeps(s: Sys, env: Env, session: nat)
    requires SysInv(s) && session != 0
    ensures var t := TriggerAllWatcher(s.(c := Connect(s.c, session)), env); SysInv(t) && Extends(s, t)
  {
    ConnectKeeps(s, session);
    var s1 := s.(c := Connect(s.c, session));
    TriggerFromKeeps(s1, env, 0);
    ExtendsJoins(s, s1, TriggerAllWatcher(s1, env));
  }

  lemma OthersKeep(s: Sys, write: OtherWrite)
    requires SysInv(s)
    ensures SysInv(s.(c := WrittenByOthers(s.c, write))) && Extends(s, s.(c := WrittenByOthers(s.c, write)))
  {
    if MayWrite(s.c, write) {
      match write
      case Creates(p, data, owner) => CreateKeeps(s.c, p, data, owner);
      case Sets(p, data) => SetKeeps(s.c, p, data);
      case Deletes(p) => DeleteKeeps(s.c, p);
    }
  }

  lemma NextKeeps(s: Sys, env: Env, step: Step)
    requires SysInv(s)
    ensures SysInv(Next(s, env, step)) && Extends(s, Next(s, env, step))
  {
    match step
    case NewWatcher(w, f) => if w !in s.c.watchers { NewWatcherKeeps(s, w, f); }
    case Call(a) => DoKeeps(s, a);
    case Deliver(e) => if e in s.c.zk.queue { DeliverKeeps(s, env, e); }
    case SessionEvent(w) => EventWatcherKeeps(s, env, Session, "", w);
    case Refresh => TriggerFromKeeps(s, env, 0);
    case LinkDown => if s.c.handle.Open? { HandleKeeps(s.c, Open(s.c.handle.session, Connecting)); }
    case LinkUp => if s.c.handle.Open? { LinkUpKeeps(s, env); }
    case SessionLost => SessionLostKeeps(s);
    case Reopen(session) => if Fresh(s.c, session) { ReopenKeeps(s, env, session); }
    case Destructor => DestroyKeeps(s, env);
    case Others(write) => OthersKeep(s, write);
  }

  lemma {:induction false} RunKeeps(s: Sys, env: Env, steps: seq<Step>)
    requires SysInv(s)
    ensures SysInv(Run(s, env, steps)) && Extends(s, Run(s, env, steps))
    decreases |steps|
  {
    if steps != [] {
      NextKeeps(s, env, steps[0]);
      RunKeeps(Next(s, env, steps[0]), env, steps[1..]);
      ExtendsJoins(s, Next(s, env, steps[0]), Run(s, env, steps));
    }
  }

  // ----- nodes

  /** A node just created can be deleted again, and the tree is what it was. */
  lemma DeleteUndoesCreate(c: Client, p: Path, value: string, mode: CreateMode)
    requires Inv(c) && CreateNode(c, p, value, mode).1 == Ok
    ensures var (c', rc) := DeleteNode(CreateNode(c, p, value, mode).0, p);
      rc == Ok && c'.zk.tree == c.zk.tree
  {
    CreatedIsSound(c, p, value, mode);
    var c1 := CreateNode(c, p, value, mode).0;
    assert forall q :: q in c1.zk.tree && q != "/" && q != p ==> Parent(q) in c.zk.tree;
    ParentIsShorter(p);
    assert !HasChildren(c1.zk, p);
    assert c1.zk.tree - {p} == c.zk.tree;
  }

  lemma ParentIsShorter(p: Path)
    requires ValidPath(p) && p != "/"
    ensures Parent(p) != p
  {
    assert 1 < |p| && p[|p| - 1] != '/';
    assert LastSlash(p) == LastSlash(p[..|p| - 1]);
  }

  // ----- the main results

  lemma InitialHolds(s: Sys)
    requires Initial(s)
    ensures SysInv(s)
  {
  }

  lemma EventsHaveEntries(c: Client, e: Event)
    requires AllAccounted(c) && e in c.zk.queue
    ensures EntryOf(c, e.who, e.path) != DEAD
  {
    assert Accounted(c, e.who, e.path);
    assert 0 < Undelivereds(c, e.who, e.path, e.what) by { assert e == Event(e.who, e.path, e.what); }
    assert e.what == Session || e.what == ChildrenChanged || 0 < DataEvents(c, e.who, e.path);
  }

  /** No path dropped on its own, every fired watch handled before it is armed again:
      then the context of every armed watch is an entry of the table, and so is that of
      every event still to be delivered. */
  lemma ArmedWatchesAreListed(s: Sys, env: Env, steps: seq<Step>)
    requires Initial(s) && Clean(Run(s, env, steps).c.log)
    ensures var c := Run(s, env, steps).c;
      && ArmedListed(c)
      && (forall e :: e in c.zk.queue ==> e.who in c.listeners && e.path in c.listeners[e.who])
  {
    InitialHolds(s);
    RunKeeps(s, env, steps);
    var c := Run(s, env, steps).c;
    forall e | e in c.zk.queue ensures e.who in c.listeners && e.path in c.listeners[e.who] {
      EventsHaveEntries(c, e);
    }
  }

  /** In every reachable state, clean or not. */
  lemma LivePathsCarryOwnFlags(s: Sys, env: Env, steps: seq<Step>)
    requires Initial(s)
    ensures FlagsMatch(Run(s, env, steps).c)
    ensures AllTemporary(Run(s, env, steps))
  {
    InitialHolds(s);
    RunKeeps(s, env, steps);
  }

  /** Session events are sent to every watcher with an empty path, which is never registered. */
  lemma SessionEventsChangeNothing(s: Sys, env: Env, steps: seq<Step>, w: Addr)
    requires Initial(s)
    ensures var t := Run(s, env, steps); Next(t, env, SessionEvent(w)) == t
  {
    InitialHolds(s);
    RunKeeps(s, env, steps);
    assert !ValidPath("");
  }

  lemma {:induction false} RegisteredSplits(log: seq<LogEntry>, w: Addr, p: Path)
    requires Registered(log, w, p)
    ensures exists j :: LastAdd(log, w, p, j)
    decreases |log|
  {
    var n := |log| - 1;
    var last := log[n];
    if last.Added? && last.w == w && last.p == p {
      assert LastAdd(log, w, p, n);
    } else {
      RegisteredSplits(log[..n], w, p);
      var j :| LastAdd(log[..n], w, p, j);
      assert log[j] == log[..n][j];
      forall k | j < k < |log| ensures log[k] != PathDropped(w, p) {
        if k < n { assert log[k] == log[..n][k]; }
      }
      assert LastAdd(log, w, p, j);
    }
  }

  ghost predicate LastAdd(log: seq<LogEntry>, w: Addr, p: Path, j: int) {
    && 0 <= j < |log|
    && log[j].Added? && log[j].w == w && log[j].p == p
    && (forall k :: j < k < |log| ==> log[k] != PathDropped(w, p))
  }

  /** Over every run: a callback for (w, p) starts only after an add of (w, p) with no
      drop of that path since, and never once w was dropped or cleared.  Only the adds of
      callers count, not those by which event_watcher arms a watch again. */
  lemma CallbacksFollowRegistration(s: Sys, env: Env, steps: seq<Step>, i: nat)
    requires Initial(s)
    requires i < |Run(s, env, steps).c.log| && Run(s, env, steps).c.log[i].Called?
    ensures var log := Run(s, env, steps).c.log; var e := log[i];
      && (exists j :: LastAdd(log[..i], e.w, e.p, j))
      && (forall k :: 0 <= k < i && log[k].Closed? ==> e.w !in log[k].ws)
  {
    InitialHolds(s);
    RunKeeps(s, env, steps);
    var log := Run(s, env, steps).c.log;
    assert MayStart(log[..i], log[i]);
    RegisteredSplits(log[..i], log[i].w, log[i].p);
    forall k | 0 <= k < i && log[k].Closed? ensures log[i].w !in log[k].ws {
      assert log[..i][k] == log[k];
    }
  }

  /** From any state on, whatever happens, no callback of a dead watcher starts. */
  lemma DeadIsSilent(s: Sys, env: Env, w: Addr, steps: seq<Step>, i: nat)
    requires SysInv(s) && w in s.c.watchers && !Live(s.c, w)
    requires |s.c.log| <= i < |Run(s, env, steps).c.log|
    ensures var e := Run(s, env, steps).c.log[i]; e.Called? ==> e.w != w
  {
    RunKeeps(s, env, steps);
  }

  /** After DropListener returns Ok no later step of any run starts a callback of that
      watcher, whatever is added, reaped or added again afterwards. */
  lemma DropIsFinal(s: Sys, env: Env, w: Addr, steps: seq<Step>, i: nat)
    requires SysInv(s) && DropListener(s.c, w).1 == Ok
    requires |s.c.log| <= i < |Run(Do(s, Drop(w)), env, steps).c.log|
    ensures var e := Run(Do(s, Drop(w)), env, steps).c.log[i]; e.Called? ==> e.w != w
  {
    var s1 := Do(s, Drop(w));
    DoKeeps(s, Drop(w));
    if i == |s.c.log| {
      RunKeeps(s1, env, steps);
      assert s1.c.log[i] == Closed({w});
    } else {
      DeadIsSilent(s1, env, w, steps, i);
    }
  }

  /** After Clear no later step of any run starts a callback of a watcher that was in the table. */
  lemma ClearIsFinal(s: Sys, env: Env, w: Addr, steps: seq<Step>, i: nat)
    requires SysInv(s) && w in s.c.listeners
    requires |s.c.log| <= i < |Run(Do(s, ClearAll), env, steps).c.log|
    ensures var e := Run(Do(s, ClearAll), env, steps).c.log[i]; e.Called? ==> e.w != w
  {
    var s1 := Do(s, ClearAll);
    DoKeeps(s, ClearAll);
    ClearOutcome(s.c);
    if i == |s.c.log| {
      RunKeeps(s1, env, steps);
      assert s1.c.log[i].Closed?;
    } else {
      DeadIsSilent(s1, env, w, steps, i);
    }
  }

  /** In every state after a successful DropListener, adding the watcher again is refused
      exactly as long as it is still in the table; once it has been reaped the call answers
      Ok and arms nothing. */
  lemma DroppedWatcherIsNeverArmed(s: Sys, env: Env, w: Addr, steps: seq<Step>, p: Path)
    requires SysInv(s) && DropListener(s.c, w).1 == Ok
    requires Exist(Run(Do(s, Drop(w)), env, steps).c, p) == Ok
    ensures var t := Run(Do(s, Drop(w)), env, steps);
      && (AddListener(t.c, w, p).1 == Error <==> w in t.c.listeners)
      && AddListener(t.c, w, p).0.zk.armed == t.c.zk.armed
  {
    var s1 := Do(s, Drop(w));
    DoKeeps(s, Drop(w));
    RunKeeps(s1, env, steps);
    var t := Run(s1, env, steps);
    assert s1.c.log[|s.c.log|] == Closed({w});
    assert t.c.log[|s.c.log|] == Closed({w});
    assert ClosedIn(t.c.log, w);
  }

  // ----- where the context of an armed watch is lost

  /** An event of a dropped watcher takes exactly the watch it reports off the table: every
      armed watch stays listed if and only if all were and that one is not armed. */
  lemma ReapingIsSafeExactlyWhen(c: Client, e: Event)
    requires e.who in c.listeners && e.what != Session
    ensures var c' := Reap(c, e.who, e.path, Reported(e.what));
      var x := Watch(e.who, e.path, KindOf(e.what));
      && (forall y :: Listed(c', y) <==> Listed(c, y) && y != x)
      && (ArmedListed(c') <==> ArmedListed(c) && x !in c.zk.armed)
  {
    var x := Watch(e.who, e.path, KindOf(e.what));
    var c' := Reap(c, e.who, e.path, Reported(e.what));
    ReapedEntryIs(c, e.who, e.path, e.what);
    forall y ensures Listed(c', y) <==> Listed(c, y) && y != x {
      ListedIs(c, y);
      ListedIs(c', y);
    }
    assert c'.zk.armed == c.zk.armed;
    assert ArmedListed(c') <==> forall y :: y in c.zk.armed ==> Listed(c, y) && y != x;
  }

  lemma ListedIs(c: Client, x: Watch)
    ensures Listed(c, x) <==> Watches(EntryOf(c, x.who, x.path), x.kind)
  {
  }

  /** Dropping a path takes both its watches off the table and disarms neither. */
  lemma DroppingAPathIsSafeExactlyWhen(c: Client, w: Addr, p: Path)
    requires ArmedListed(c) && DropListenerWithPath(c, w, p).1 == Ok
    ensures ArmedListed(DropListenerWithPath(c, w, p).0) <==> forall k :: Watch(w, p, k) !in c.zk.armed
  {
    var c' := DropListenerWithPath(c, w, p).0;
    if ArmedListed(c') {
      forall k ensures Watch(w, p, k) !in c.zk.armed {
        assert Watch(w, p, k) in c'.zk.armed ==> Listed(c', Watch(w, p, k));
      }
    } else {
      var x :| x in c'.zk.armed && !Listed(c', x);
      assert Listed(c, x) && x == Watch(w, p, x.kind);
    }
  }

  /** The context of every armed watch is a watcher in the table. */
  ghost predicate ContextsListed(c: Client) {
    forall x :: x in c.zk.armed ==> x.who in c.listeners
  }

  /** The event leaves no flag in the only entry of the watcher: the watcher is erased. */
  predicate Erases(c: Client, e: Event)
    requires e.who in c.listeners
  {
    && e.path in c.listeners[e.who]
    && (var f := c.listeners[e.who][e.path];
        !(if KindOf(e.what) == Data then f.child else f.data))
    && c.listeners[e.who] - {e.path} == map[]
  }

  /** Whatever was dropped before, on a single path or not: handling an event of a dropped
      watcher loses the context of an armed watch if and only if it erases the watcher
      while a watch of it is armed. */
  lemma ErasingLosesContextExactlyWhen(c: Client, e: Event)
    requires ContextsListed(c) && e.who in c.listeners && e.what != Session
    ensures ContextsListed(Reap(c, e.who, e.path, Reported(e.what)))
      <==> !Erases(c, e) || forall x :: x in c.zk.armed ==> x.who != e.who
  {
    var c' := Reap(c, e.who, e.path, Reported(e.what));
    assert c'.listeners.Keys == if Erases(c, e) then c.listeners.Keys - {e.who} else c.listeners.Keys;
  }
}
