/**
Reaping: which entries of a dropped watcher are left after any sequence of its
events.
*/
module Reaping {
  import opened ZooKeeper
  import opened Client
  import opened Registry

  /** The events of a dead watcher, delivered one after the other. */
  function Deliveries(c: Client, env: Env, w: Addr, es: seq<Event>): Client
    decreases |es|
  {
    if es == [] then c
    else
      var before := Deliveries(c, env, w, es[..|es| - 1]);
      var e := es[|es| - 1];
      EventWatcher(Sys(before, map[], w), env, e.what, e.path, w).c
  }

  ghost predicate Told(es: seq<Event>, p: Path) {
    exists i :: 0 <= i < |es| && es[i].path == p
  }

  ghost predicate ToldOf(es: seq<Event>, p: Path, k: Kind) {
    exists i :: 0 <= i < |es| && es[i].path == p && KindOf(es[i].what) == k
  }

  /** No event came for the path, or none for one of the kinds its entry still waits for. */
  ghost predicate Outstanding(f: Flags, es: seq<Event>, p: Path) {
    || !Told(es, p)
    || (f.data && !ToldOf(es, p, Data))
    || (f.child && !ToldOf(es, p, Child))
  }

  ghost function Left(f: Flags, es: seq<Event>, p: Path): Flags {
    Flags(f.data && !ToldOf(es, p, Data), f.child && !ToldOf(es, p, Child))
  }

  /** Exactly the outstanding entries are left, with the flags no event came for. */
  ghost predicate Remains(paths: Paths, es: seq<Event>, now: Paths) {
    && (forall p :: p in now <==> p in paths && Outstanding(paths[p], es, p))
    && (forall p :: p in now ==> now[p] == Left(paths[p], es, p))
  }

  lemma OneMoreTold(es: seq<Event>, e: Event, p: Path)
    ensures Told(es + [e], p) <==> Told(es, p) || e.path == p
    ensures forall k :: ToldOf(es + [e], p, k) <==> ToldOf(es, p, k) || (e.path == p && KindOf(e.what) == k)
  {
    var es' := es + [e];
    assert es'[|es|] == e;
    assert forall i :: 0 <= i < |es| ==> es'[i] == es[i];
  }

  /** What one event leaves of the flags of its path. */
  function Without(f: Flags, k: Kind): Flags {
    if k == Data then f.(data := false) else f.(child := false)
  }

  lemma OneMoreLeft(f: Flags, es: seq<Event>, e: Event, p: Path)
    ensures Left(f, es + [e], p) == if p == e.path then Without(Left(f, es, p), KindOf(e.what)) else Left(f, es, p)
    ensures Outstanding(f, es + [e], p) <==>
      Outstanding(f, es, p) && (p == e.path ==> Left(f, es + [e], p) != DEAD)
  {
    OneMoreTold(es, e, p);
    assert forall k :: ToldOf(es, p, k) ==> Told(es, p);
  }

  function Reaped(c: Client, w: Addr, e: Event): Client {
    if w in c.listeners then Reap(c, w, e.path, Reported(e.what)) else c
  }

  /** One event takes its kind from the entry of its path. */
  lemma ReapedEntry(c: Client, w: Addr, e: Event)
    requires e.what != Session
    ensures var c' := Reaped(c, w, e);
      && (w in c'.listeners && c'.listeners[w] == map[] <==> w in c.listeners && c.listeners[w] == map[])
      && c' == c.(listeners := c'.listeners)
      && (forall v :: v != w ==> (v in c'.listeners <==> v in c.listeners) && PathsOf(c', v) == PathsOf(c, v))
    ensures var now, next := PathsOf(c, w), PathsOf(Reaped(c, w, e), w);
      && (forall p :: p in next <==> p in now && (p == e.path ==> Without(now[p], KindOf(e.what)) != DEAD))
      && (forall p :: p in next ==> next[p] == if p == e.path then Without(now[p], KindOf(e.what)) else now[p])
  {
    if w in c.listeners && e.path in c.listeners[w] {
      var paths := c.listeners[w];
      var f := Without(paths[e.path], KindOf(e.what));
      if f != DEAD {
        assert e.path in paths[e.path := f];
      } else if paths - {e.path} == map[] {
        assert forall p :: p in paths && p != e.path ==> p in paths - {e.path};
      }
    }
  }

  lemma OneMoreEvent(paths: Paths, es: seq<Event>, e: Event, now: Paths, next: Paths)
    requires Remains(paths, es, now)
    requires forall p :: p in next <==> p in now && (p == e.path ==> Without(now[p], KindOf(e.what)) != DEAD)
    requires forall p :: p in next ==> next[p] == if p == e.path then Without(now[p], KindOf(e.what)) else now[p]
    ensures Remains(paths, es + [e], next)
  {
    forall p
      ensures p in next <==> p in paths && Outstanding(paths[p], es + [e], p)
      ensures p in next ==> next[p] == Left(paths[p], es + [e], p)
    {
      if p in paths { OneMoreLeft(paths[p], es, e, p); }
    }
  }

  /** After any events of a dropped watcher its entry in the table holds exactly the paths
      still waiting for one.  It is gone once there are none, except that an entry which never
      had a path is not erased by any event.  Nothing else changed. */
  lemma {:induction false} ReapingIsExact(c: Client, env: Env, w: Addr, es: seq<Event>)
    requires w in c.listeners && !Live(c, w)
    requires forall i :: 0 <= i < |es| ==> es[i].what != Session
    ensures var t := Deliveries(c, env, w, es);
      && (w in t.listeners <==>
           c.listeners[w] == map[] || exists p :: p in c.listeners[w] && Outstanding(c.listeners[w][p], es, p))
      && (w in t.listeners ==> Remains(c.listeners[w], es, t.listeners[w]))
      && t == c.(listeners := t.listeners)
      && (forall v :: v != w ==> (v in t.listeners <==> v in c.listeners) && PathsOf(t, v) == PathsOf(c, v))
    decreases |es|
  {
    DeliveriesLeave(c, env, w, es);
    var t := Deliveries(c, env, w, es);
    if w in t.listeners && c.listeners[w] != map[] {
      var p :| p in t.listeners[w];
      assert Outstanding(c.listeners[w][p], es, p);
    }
  }

  lemma {:induction false} DeliveriesLeave(c: Client, env: Env, w: Addr, es: seq<Event>)
    requires w in c.listeners && !Live(c, w)
    requires forall i :: 0 <= i < |es| ==> es[i].what != Session
    ensures var t := Deliveries(c, env, w, es);
      && Remains(c.listeners[w], es, PathsOf(t, w))
      && (w in t.listeners && t.listeners[w] == map[] <==> c.listeners[w] == map[])
      && t == c.(listeners := t.listeners)
      && (forall v :: v != w ==> (v in t.listeners <==> v in c.listeners) && PathsOf(t, v) == PathsOf(c, v))
    decreases |es|
  {
    if es != [] {
      var front, e := es[..|es| - 1], es[|es| - 1];
      DeliveriesLeave(c, env, w, front);
      var before := Deliveries(c, env, w, front);
      ReapedEntry(before, w, e);
      OneMoreEvent(c.listeners[w], front, e, PathsOf(before, w), PathsOf(Reaped(before, w, e), w));
      assert front + [e] == es;
    }
  }
}
