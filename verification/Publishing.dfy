/**
From the start of the process on: as long as nobody else creates the published
nodes or deletes their parents, the registry owns what it published, so every new
session of every run converges.
*/
module Publishing {
  import opened Wrappers
  import opened ZooKeeper
  import opened Client
  import opened Registry
  import opened ClientInvariants
  import opened Convergence

  predicate ParentOfPublished(s: Sys, p: Path) {
    exists q :: q in s.nodes && Parent(q) == p
  }

  /** A call that creates no published node but by publishing it as temporary, and deletes no
      parent of one. */
  predicate TameCall(s: Sys, a: Action) {
    match a
    case CreateAt(p, _, _) => p !in s.nodes
    case DeleteAt(p) => !ParentOfPublished(s, p)
    case Publish(service, version, stat, name, _, temporary) =>
      temporary || ServicePath(service, version, stat, name) !in s.nodes
    case _ => true
  }

  /** Other clients may create and delete likewise, the published nodes included in what they
      delete, and set whatever they like. */
  predicate Tame(s: Sys, step: Step) {
    match step
    case Call(a) => TameCall(s, a)
    case Others(Creates(p, _, _)) => p !in s.nodes
    case Others(Deletes(p)) => !ParentOfPublished(s, p)
    case _ => true
  }

  predicate TameRun(s: Sys, env: Env, steps: seq<Step>)
    decreases |steps|
  {
    steps == [] || (Tame(s, steps[0]) && TameRun(Next(s, env, steps[0]), env, steps[1..]))
  }

  /** The published nodes that exist are this session's, and their parents are there to stay. */
  ghost predicate Owned(s: Sys) {
    && ParentsPresent(s)
    && Ours(s)
    && (s.c.handle.Open? ==> s.c.handle.session != 0)
    && (forall p :: p in s.nodes ==> s.nodes[p].temporary)
  }

  /** The same nodes of the same owners, in the cache and on the server. */
  ghost predicate SameNodes(s: Sys, t: Sys) {
    && t.nodes.Keys == s.nodes.Keys
    && (forall p :: p in t.nodes ==> t.nodes[p].temporary == s.nodes[p].temporary)
    && t.c.zk.tree.Keys == s.c.zk.tree.Keys
    && (forall p :: p in t.c.zk.tree ==> t.c.zk.tree[p].owner == s.c.zk.tree[p].owner)
    && (t.c.handle == s.c.handle
        || (t.c.handle.Open? && s.c.handle.Open? && t.c.handle.session == s.c.handle.session))
  }

  lemma SameNodesOwned(s: Sys, t: Sys)
    requires Owned(s) && SameNodes(s, t)
    ensures Owned(t)
  {
    forall p | p in t.nodes ensures Parent(p) in t.c.zk.tree && t.c.zk.tree[Parent(p)].owner == 0 {
      assert p in s.nodes;
    }
  }

  /** An ephemeral node created where one is published, or is about to be. */
  lemma CreatedIsOwned(s: Sys, p: Path, value: string)
    requires Owned(s)
    ensures var (c, rc) := CreateNode(s.c, p, value, Ephemeral);
      && Owned(s.(c := c))
      && (rc == Ok ==> p in c.zk.tree && OwnedBy(c, p) && Parent(p) in c.zk.tree && c.zk.tree[Parent(p)].owner == 0)
  {
    var t := s.(c := CreateNode(s.c, p, value, Ephemeral).0);
    if t != s {
      forall q | q in t.nodes ensures Parent(q) in t.c.zk.tree && t.c.zk.tree[Parent(q)].owner == 0 {
        assert Parent(q) in s.c.zk.tree && Parent(q) != p;
      }
    }
  }

  /** A node that is not published, whoever creates it. */
  lemma CreatedElsewhereIsOwned(s: Sys, p: Path, data: Option<string>, owner: nat)
    requires Owned(s) && p !in s.nodes
    ensures Owned(s.(c := s.c.(zk := Create(s.c.zk, p, data, owner).0)))
  {
    var t := s.(c := s.c.(zk := Create(s.c.zk, p, data, owner).0));
    forall q | q in t.nodes ensures Parent(q) in t.c.zk.tree && t.c.zk.tree[Parent(q)].owner == 0 {
      assert Parent(q) in s.c.zk.tree;
    }
  }

  lemma DeletedIsOwned(s: Sys, p: Path)
    requires Owned(s) && !ParentOfPublished(s, p)
    ensures Owned(s.(c := s.c.(zk := Delete(s.c.zk, p).0)))
  {
    var t := s.(c := s.c.(zk := Delete(s.c.zk, p).0));
    forall q | q in t.nodes ensures Parent(q) in t.c.zk.tree && t.c.zk.tree[Parent(q)].owner == 0 {
      assert Parent(q) in s.c.zk.tree && Parent(q) != p;
    }
  }

  /** A published node that exists is ephemeral, so it is no parent of another. */
  lemma PublishedIsNoParent(s: Sys, p: Path)
    requires Owned(s) && p in s.nodes && p in s.c.zk.tree
    ensures !ParentOfPublished(s, p)
  {
  }

  lemma {:induction false} DestroyingIsOwned(s: Sys, ps: seq<Path>)
    requires Owned(s) && forall p :: p in ps ==> p in s.nodes
    ensures Owned(s.(c := DeleteAll(s.c, ps)))
    decreases |ps|
  {
    if ps != [] {
      var p := ps[0];
      assert p in ps;
      if p in s.c.zk.tree {
        PublishedIsNoParent(s, p);
        DeletedIsOwned(s, p);
      }
      DestroyingIsOwned(s.(c := DeleteNode(s.c, p).0), ps[1..]);
    }
  }

  lemma EndedIsOwned(s: Sys, handle: Handle)
    requires Owned(s) && s.c.handle.Open? && (handle.Open? ==> handle.session != 0)
    ensures Owned(s.(c := s.c.(handle := handle, zk := EndSession(s.c.zk, s.c.handle.session))))
  {
    forall q | q in s.nodes
      ensures Parent(q) in EndSession(s.c.zk, s.c.handle.session).tree
      ensures EndSession(s.c.zk, s.c.handle.session).tree[Parent(q)].owner == 0
    {
      assert Parent(q) in s.c.zk.tree;
    }
  }

  lemma PublishKeepsOwned(s: Sys, a: Action)
    requires Owned(s) && a.Publish? && TameCall(s, a)
    ensures Owned(Do(s, a))
  {
    if a.service != "" && a.version != "" && a.stat != "" && a.name != "" {
      var p := ServicePath(a.service, a.version, a.stat, a.name);
      if a.temporary { CreatedIsOwned(s, p, a.content); } else { CreatedElsewhereIsOwned(s, p, Buffer(a.content), 0); }
    }
  }

  lemma CallKeepsOwned(s: Sys, a: Action)
    requires Owned(s) && TameCall(s, a)
    ensures Owned(Do(s, a))
  {
    match a
    case Publish(_, _, _, _, _, _) => PublishKeepsOwned(s, a);
    case CreateAt(p, value, mode) =>
      if Available(s.c) {
        CreatedElsewhereIsOwned(s, p, Buffer(value), if mode == Ephemeral then s.c.handle.session else 0);
      }
    case DeleteAt(p) => DeletedIsOwned(s, p);
    case CloseHandle => if s.c.handle.Open? { EndedIsOwned(s, NoHandle); }
    case _ => SameNodesOwned(s, Do(s, a));
  }

  /** Callbacks only add, drop and clear listeners. */
  lemma {:induction false} ScriptKeepsOwned(s: Sys, acts: seq<Action>)
    requires Owned(s) && forall a :: a in acts ==> a.Add? || a.DropPath? || a.Drop? || a.ClearAll?
    ensures Owned(DoAll(s, acts))
    decreases |acts|
  {
    if acts != [] {
      assert acts[0] in acts;
      SameNodesOwned(s, Do(s, acts[0]));
      ScriptKeepsOwned(Do(s, acts[0]), acts[1..]);
    }
  }

  lemma ContentChangeKeepsOwned(s: Sys, p: Path, what: EventType)
    requires Owned(s)
    ensures Owned(ContentChangeListener(s, p, what))
  {
    var t := ContentChangeListener(s, p, what);
    if what == DataChanged && p in s.nodes && Exist(s.c, p) != Ok {
      CreatedIsOwned(s, p, s.nodes[p].content);
      SameNodesOwned(s.(c := CreateNode(s.c, p, s.nodes[p].content, Ephemeral).0), t);
    } else {
      SameNodesOwned(s, t);
    }
  }

  lemma EventKeepsOwned(s: Sys, env: Env, what: EventType, p: Path, w: Addr)
    requires Owned(s) && WriteFree(env)
    ensures Owned(EventWatcher(s, env, what, p, w))
  {
    if w in s.c.listeners && !Live(s.c, w) {
      SameNodesOwned(s, EventWatcher(s, env, what, p, w));
    } else if w in s.c.listeners && p in s.c.listeners[w] {
      var s1 := s.(c := AddListener(s.c, w, p, true).0);
      SameNodesOwned(s, s1);
      var s2 := StartCallback(s1, w, p, Reported(what));
      SameNodesOwned(s1, s2);
      if what != Session {
        if w == s.listener { ContentChangeKeepsOwned(s2, p, Reported(what)); }
        else { ScriptKeepsOwned(s2, env.script(|s1.c.log|)); }
      }
    }
  }

  lemma {:induction false} SignalsKeepOwned(s: Sys, env: Env, w: Addr, ps: seq<Path>)
    requires Owned(s) && WriteFree(env)
    ensures Owned(SignalPaths(s, env, w, ps))
    decreases |ps|
  {
    if ps != [] {
      EventKeepsOwned(s, env, ChildrenChanged, ps[0], w);
      EventKeepsOwned(SignalChild(s, env, w, ps[0]), env, DataChanged, ps[0], w);
      SignalsKeepOwned(SignalData(SignalChild(s, env, w, ps[0]), env, w, ps[0]), env, w, ps[1..]);
    }
  }

  lemma {:induction false} PassKeepsOwned(s: Sys, env: Env, from: nat)
    requires Owned(s) && WriteFree(env)
    ensures Owned(TriggerFrom(s, env, from))
    decreases ADDRESS_LIMIT - from
  {
    match NextKey(s.c.listeners.Keys, from)
    case None =>
    case Some(w) =>
      SignalsKeepOwned(s, env, w, env.order(PathsOf(s.c, w).Keys));
      PassKeepsOwned(Visit(s, env, w), env, (w as int) + 1);
  }

  lemma StepKeepsOwned(s: Sys, env: Env, step: Step)
    requires Owned(s) && WriteFree(env) && Enumerates(env) && Tame(s, step)
    ensures Owned(Next(s, env, step))
  {
    match step
    case NewWatcher(_, _) => SameNodesOwned(s, Next(s, env, step));
    case Call(a) => CallKeepsOwned(s, a);
    case Deliver(e) =>
      SameNodesOwned(s, Take(s, e));
      EventKeepsOwned(Take(s, e), env, e.what, e.path, e.who);
    case SessionEvent(w) => EventKeepsOwned(s, env, Session, "", w);
    case Refresh => PassKeepsOwned(s, env, 0);
    case LinkDown => SameNodesOwned(s, Next(s, env, step));
    case LinkUp =>
      SameNodesOwned(s, SetLink(s, Connected));
      PassKeepsOwned(SetLink(s, Connected), env, 0);
    case SessionLost => if s.c.handle.Open? { EndedIsOwned(s, Open(s.c.handle.session, Expired)); }
    case Reopen(session) => if Fresh(s.c, session) { ReopeningKeepsOwned(s, env, session); }
    case Others(Creates(p, data, owner)) => CreatedElsewhereIsOwned(s, p, data, owner);
    case Others(Sets(p, data)) => SameNodesOwned(s, Next(s, env, step));
    case Others(Deletes(p)) => DeletedIsOwned(s, p);
    case Destructor =>
      SameNodesOwned(s, Do(s, Drop(s.listener)));
      DestroyingIsOwned(Do(s, Drop(s.listener)), env.order(s.nodes.Keys));
  }

  lemma ReopeningKeepsOwned(s: Sys, env: Env, session: nat)
    requires Owned(s) && WriteFree(env) && Fresh(s.c, session)
    ensures Owned(TriggerAllWatcher(s.(c := Connect(s.c, session)), env))
  {
    if s.c.handle.Open? { EndedIsOwned(s, Open(session, Connected)); }
    PassKeepsOwned(s.(c := Connect(s.c, session)), env, 0);
  }

  lemma {:induction false} RunKeepsOwned(s: Sys, env: Env, steps: seq<Step>)
    requires Owned(s) && WriteFree(env) && Enumerates(env) && TameRun(s, env, steps)
    ensures Owned(Run(s, env, steps))
    decreases |steps|
  {
    if steps != [] {
      StepKeepsOwned(s, env, steps[0]);
      RunKeepsOwned(Next(s, env, steps[0]), env, steps[1..]);
    }
  }

  /** Nothing is assumed about the state but that it is reached from the start: whenever a
      new session is opened, however the old one ended and whatever came in between, every
      published path still held is back, ephemeral, as cached and watched, and everything
      else on the server is what other owners left. */
  lemma EveryNewSessionConverges(s: Sys, env: Env, steps: seq<Step>, session: nat)
    requires Initial(s) && Enumerates(env) && WriteFree(env)
    requires TameRun(s, env, steps)
    requires Fresh(Run(s, env, steps).c, session)
    ensures Recovered(Run(s, env, steps), Run(s, env, steps + [Reopen(session)]), session)
  {
    var t := Run(s, env, steps);
    InitialHolds(s);
    RunKeeps(s, env, steps);
    RunKeepsOwned(s, env, steps);
    ReopeningConverges(t, env, session);
    RunConcat(s, env, steps, [Reopen(session)]);
    RunOne(t, env, Reopen(session));
  }
}
