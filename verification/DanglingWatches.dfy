/**
Why ArmedWatchesAreListed needs its condition: two short runs that leave an armed
watch whose watcher is no longer in the table.
*/
module DanglingWatches {
  import opened Wrappers
  import opened ZooKeeper
  import opened Client
  import opened Registry
  import opened ClientInvariants

  const OWN: Addr := 1
  const USER: Addr := 2

  /** A server with the znodes /a and /b. */
  function Start(): Sys {
    var node := Znode(None, 0);
    Sys(Client(Server(map["/" := node, "/a" := node, "/b" := node], {}, multiset{}),
               NoHandle, map[OWN := Flags(true, false)], map[], []), map[], OWN)
  }

  /** Connected, with a user watcher of data. */
  function Ready(env: Env): Sys {
    Next(Next(Start(), env, NewWatcher(USER, Flags(true, false))), env, Reopen(1))
  }

  lemma StartIsInitial()
    ensures Initial(Start())
  {
    assert LastSlash("/a") == 0 && LastSlash("/b") == 0 by {
      assert "/a"[..1] == "/" && "/b"[..1] == "/";
      assert LastSlash("/") == 0;
    }
  }

  lemma ReadyIs(env: Env)
    ensures Initial(Start())
    ensures Ready(env) == Run(Start(), env, [NewWatcher(USER, Flags(true, false)), Reopen(1)])
    ensures Ready(env) == Sys(Client(Server(Start().c.zk.tree, {}, multiset{}), Open(1, Connected),
      map[OWN := Flags(true, false), USER := Flags(true, false)], map[], []), map[], OWN)
  {
    var s0 := Start();
    StartIsInitial();
    var s1 := Next(s0, env, NewWatcher(USER, Flags(true, false)));
    assert Fresh(s1.c, 1);
    var s2 := s1.(c := Connect(s1.c, 1));
    assert NextKey(s2.c.listeners.Keys, 0) == None;
    assert TriggerAllWatcher(s2, env) == s2;
    assert [NewWatcher(USER, Flags(true, false)), Reopen(1)][1..] == [Reopen(1)];
    assert Ready(env) == Run(s1, env, [Reopen(1)]);
  }

  /** The state part of a listener step: what it adds to the history is beside the point here. */
  ghost predicate Holding(s: Sys, paths: map<Path, Flags>, armed: set<Watch>, queue: multiset<Event>, flags: Flags) {
    && Available(s.c)
    && s.c.zk.tree.Keys == {"/", "/a", "/b"}
    && s.c.zk.armed == armed
    && s.c.zk.queue == queue
    && s.c.listeners == map[USER := paths]
    && s.c.watchers == map[OWN := Flags(true, false), USER := flags]
    && s.listener == OWN
  }

  const DATA_ONLY := Flags(true, false)
  const ON_A := Watch(USER, "/a", Data)
  const ON_B := Watch(USER, "/b", Data)

  lemma Adding(s: Sys, env: Env, p: Path, paths: Paths, armed: set<Watch>, queue: multiset<Event>)
    requires Holding(s, paths, armed, queue, DATA_ONLY) && p in s.c.zk.tree
    ensures var t := Next(s, env, Call(Add(USER, p)));
      && Holding(t, if p in paths then paths else paths[p := DATA_ONLY], armed + {Watch(USER, p, Data)}, queue,
                 DATA_ONLY)
      && t.c.log == s.c.log + [Added(USER, p, Undelivered(s.c, USER, p, DATA_ONLY))]
  {
  }

  lemma Writing(s: Sys, env: Env, p: Path, paths: Paths, armed: set<Watch>, queue: multiset<Event>)
    requires Holding(s, paths, armed, queue, DATA_ONLY) && p in s.c.zk.tree
    requires Watch(USER, p, Data) in armed && forall x :: x in armed ==> x.who == USER && x.kind == Data
    ensures var t := Next(s, env, Others(Sets(p, Some("x"))));
      && Holding(t, paths, armed - {Watch(USER, p, Data)}, queue + multiset{Event(USER, p, DataChanged)}, DATA_ONLY)
      && t.c.log == s.c.log
  {
    var fired := FiredBySet(s.c.zk, p);
    assert forall x :: x in fired ==> x == Watch(USER, p, Data);
    assert fired == {Watch(USER, p, Data)};
    var events := set w | w in fired :: Event(w.who, w.path, if w.path == p then DataChanged else ChildrenChanged);
    assert events == {Event(USER, p, DataChanged)} by {
      assert Event(USER, p, DataChanged) in events;
    }
    assert multiset(events) == multiset{Event(USER, p, DataChanged)};
  }

  lemma DroppingWatcher(s: Sys, env: Env, paths: Paths, armed: set<Watch>, queue: multiset<Event>)
    requires Holding(s, paths, armed, queue, DATA_ONLY)
    ensures var t := Next(s, env, Call(Drop(USER)));
      Holding(t, paths, armed, queue, DEAD) && t.c.log == s.c.log + [Closed({USER})]
  {
  }

  /** The last path of the dead watcher is reaped, and the watcher with it. */
  lemma Reaping(s: Sys, env: Env, p: Path, armed: set<Watch>, queue: multiset<Event>)
    requires Holding(s, map[p := DATA_ONLY], armed, queue, DEAD) && Event(USER, p, DataChanged) in queue
    ensures var t := Next(s, env, Deliver(Event(USER, p, DataChanged)));
      USER !in t.c.listeners && t.c.zk.armed == armed && t.c.log == s.c.log
  {
    var t := Take(s, Event(USER, p, DataChanged));
    assert t.c.listeners[USER] == map[p := DATA_ONLY];
    assert map[p := DATA_ONLY] - {p} == map[];
  }

  /** The watch of /a fires, is armed again before its event is handled, and the watcher is
      dropped: handling the event erases the table entry under an armed watch. */
  lemma RearmingBeforeHandlingDangles(env: Env)
    ensures var s1 := Next(Ready(env), env, Call(Add(USER, "/a")));
      var s2 := Next(s1, env, Others(Sets("/a", Some("x"))));
      var s3 := Next(s2, env, Call(Add(USER, "/a")));
      var s4 := Next(s3, env, Call(Drop(USER)));
      var s5 := Next(s4, env, Deliver(Event(USER, "/a", DataChanged)));
      USER !in s5.c.listeners && ON_A in s5.c.zk.armed && !Clean(s5.c.log)
  {
    var e := Event(USER, "/a", DataChanged);
    var paths := map["/a" := DATA_ONLY];
    var s1 := AddedFirst(env);
    Writing(s1, env, "/a", paths, {ON_A}, multiset{});
    var s2 := Next(s1, env, Others(Sets("/a", Some("x"))));
    assert e in s2.c.zk.queue;
    Adding(s2, env, "/a", paths, {}, multiset{e});
    var s3 := Next(s2, env, Call(Add(USER, "/a")));
    assert s3.c.log[1] == Added(USER, "/a", true);
    DroppingWatcher(s3, env, paths, {ON_A}, multiset{e});
    var s4 := Next(s3, env, Call(Drop(USER)));
    Reaping(s4, env, "/a", {ON_A}, multiset{e});
    assert s4.c.log[1] == Added(USER, "/a", true);
  }

  lemma AddedFirst(env: Env) returns (s1: Sys)
    ensures s1 == Next(Ready(env), env, Call(Add(USER, "/a")))
    ensures Holding(s1, map["/a" := DATA_ONLY], {ON_A}, multiset{}, DATA_ONLY) && |s1.c.log| == 1
  {
    ReadyIs(env);
    s1 := Next(Ready(env), env, Call(Add(USER, "/a")));
    assert s1.c.zk.armed == {ON_A};
  }

  lemma DroppingPath(s: Sys, env: Env, p: Path, paths: Paths, armed: set<Watch>, queue: multiset<Event>)
    requires Holding(s, paths, armed, queue, DATA_ONLY)
    ensures Holding(Next(s, env, Call(DropPath(USER, p))), paths - {p}, armed, queue, DATA_ONLY)
  {
  }

  /** Dropping one path leaves its watch armed; when the watcher is closed and its other
      path reaped, the watcher leaves the table under that armed watch. */
  lemma DroppingAPathDangles(env: Env)
    ensures var s1 := Next(Ready(env), env, Call(Add(USER, "/a")));
      var s2 := Next(s1, env, Call(Add(USER, "/b")));
      var s3 := Next(s2, env, Call(DropPath(USER, "/a")));
      var s4 := Next(s3, env, Others(Sets("/b", Some("x"))));
      var s5 := Next(s4, env, Call(Drop(USER)));
      var s6 := Next(s5, env, Deliver(Event(USER, "/b", DataChanged)));
      USER !in s6.c.listeners && ON_A in s6.c.zk.armed
  {
    var e := Event(USER, "/b", DataChanged);
    var onlyB := map["/b" := DATA_ONLY];
    var s1 := AddedFirst(env);
    Adding(s1, env, "/b", map["/a" := DATA_ONLY], {ON_A}, multiset{});
    var s2 := Next(s1, env, Call(Add(USER, "/b")));
    DroppingPath(s2, env, "/a", map["/a" := DATA_ONLY, "/b" := DATA_ONLY], {ON_A, ON_B}, multiset{});
    var s3 := Next(s2, env, Call(DropPath(USER, "/a")));
    assert "/a" != "/b" by { assert "/a"[1] != "/b"[1]; }
    assert map["/a" := DATA_ONLY, "/b" := DATA_ONLY] - {"/a"} == onlyB;
    Writing(s3, env, "/b", onlyB, {ON_A, ON_B}, multiset{});
    var s4 := Next(s3, env, Others(Sets("/b", Some("x"))));
    assert {ON_A, ON_B} - {ON_B} == {ON_A};
    DroppingWatcher(s4, env, onlyB, {ON_A}, multiset{e});
    Reaping(Next(s4, env, Call(Drop(USER))), env, "/b", {ON_A}, multiset{e});
  }
}
