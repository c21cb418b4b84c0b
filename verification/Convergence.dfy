/**
Self-healing of the registry: what a refresh pass after a lost session, and the
handling of a single removal, put back on the server.
*/
module Convergence {
  import opened Wrappers
  import opened ZooKeeper
  import opened Client
  import opened Registry
  import opened ClientInvariants

  /** User callbacks that only add, drop or clear listeners: the registry is the only writer. */
  ghost predicate WriteFree(env: Env) {
    forall n, a :: a in env.script(n) ==> a.Add? || a.DropPath? || a.Drop? || a.ClearAll?
  }

  /** The parents of the published paths are there and persistent. */
  ghost predicate ParentsPresent(s: Sys) {
    forall p :: p in s.nodes ==> Parent(p) in s.c.zk.tree && s.c.zk.tree[Parent(p)].owner == 0
  }

  predicate OwnedBy(c: Client, p: Path)
    requires p in c.zk.tree
  {
    c.handle.Open? && c.zk.tree[p].owner == c.handle.session
  }

  /** A published path that exists belongs to this client's session. */
  ghost predicate Ours(s: Sys) {
    forall p :: p in s.nodes && p in s.c.zk.tree ==> OwnedBy(s.c, p)
  }

  ghost predicate Mirrors(s: Sys, p: Path)
    requires p in s.nodes
  {
    p in s.c.zk.tree && Value(s.c.zk.tree[p]) == s.nodes[p].content
  }

  /** Cache and server agree on every published path. */
  ghost predicate Agree(s: Sys) {
    forall p :: p in s.nodes ==> Mirrors(s, p)
  }

  ghost predicate Armed(s: Sys, p: Path) {
    Watch(s.listener, p, Data) in s.c.zk.armed
  }

  /** Registered under the registry's watcher, which is live. */
  ghost predicate Held(s: Sys, p: Path) {
    Live(s.c, s.listener) && p in PathsOf(s.c, s.listener)
  }

  // ----- what one pass keeps, path by path

  /** Whatever of the published paths is back on the server is back as it was cached. */
  ghost predicate Healing(s: Sys) {
    && Available(s.c)
    && s.c.listeners.Keys <= s.c.watchers.Keys
    && AllTemporary(s)
    && OwnWatcher(s)
    && ParentsPresent(s)
    && Ours(s)
    && (forall p :: p in s.nodes && p in s.c.zk.tree ==> Mirrors(s, p))
  }

  /** Every published path still held is restored and watched, or still to be signalled. */
  ghost predicate Covered(s: Sys, todo: set<Path>) {
    forall p :: p in s.nodes && Held(s, p) ==> p in todo || (p in s.c.zk.tree && Armed(s, p))
  }

  /** What does not change: the connection, the cache, and every znode that is there. */
  ghost predicate Grows(s: Sys, t: Sys) {
    && t.nodes == s.nodes
    && t.listener == s.listener
    && t.c.handle == s.c.handle
    && (forall p :: p in s.c.zk.tree ==> p in t.c.zk.tree && t.c.zk.tree[p] == s.c.zk.tree[p])
    && (forall p :: p in t.c.zk.tree ==> p in s.c.zk.tree || p in s.nodes)
  }

  lemma AddHeals(s: Sys, w: Addr, p: Path, todo: set<Path>, again: bool := false)
    requires Healing(s) && Covered(s, todo) && w in s.c.watchers
    ensures var t := s.(c := AddListener(s.c, w, p, again).0);
      && Healing(t) && Covered(t, todo) && Grows(s, t)
      && (w == s.listener && Live(s.c, w) && p in s.c.zk.tree ==> Armed(t, p))
  {
    var t := s.(c := AddListener(s.c, w, p, again).0);
    assert forall q :: q in s.nodes && q in t.c.zk.tree ==> Mirrors(s, q) && Mirrors(t, q);
    forall q | q in t.nodes && Held(t, q) ensures q in todo || (q in t.c.zk.tree && Armed(t, q)) {
      if !Held(s, q) { assert w == s.listener && q == p; }
    }
  }

  lemma DropPathHeals(s: Sys, w: Addr, p: Path, todo: set<Path>)
    requires Healing(s) && Covered(s, todo)
    ensures var t := Do(s, DropPath(w, p)); Healing(t) && Covered(t, todo) && Grows(s, t)
  {
    var t := Do(s, DropPath(w, p));
    assert forall q :: q in s.nodes && q in t.c.zk.tree ==> Mirrors(s, q) && Mirrors(t, q);
    assert forall q :: Held(t, q) ==> Held(s, q);
  }

  lemma CloseHeals(s: Sys, ws: set<Addr>, todo: set<Path>)
    requires Healing(s) && Covered(s, todo)
    ensures var t := s.(c := CloseWatchers(s.c, ws)); Healing(t) && Covered(t, todo) && Grows(s, t)
  {
    var t := s.(c := CloseWatchers(s.c, ws));
    assert forall q :: q in s.nodes && q in t.c.zk.tree ==> Mirrors(s, q) && Mirrors(t, q);
    assert forall q :: Held(t, q) ==> Held(s, q);
  }

  lemma {:induction false} DoAllHeals(s: Sys, acts: seq<Action>, todo: set<Path>)
    requires Healing(s) && Covered(s, todo)
    requires forall a :: a in acts ==> a.Add? || a.DropPath? || a.Drop? || a.ClearAll?
    ensures var t := DoAll(s, acts); Healing(t) && Covered(t, todo) && Grows(s, t)
    decreases |acts|
  {
    if acts != [] {
      assert acts[0] in acts;
      match acts[0] {
        case Add(w, p) => if w in s.c.watchers { AddHeals(s, w, p, todo); }
        case DropPath(w, p) => DropPathHeals(s, w, p, todo);
        case Drop(w) => CloseHeals(s, {w}, todo);
        case ClearAll => CloseHeals(s, s.c.listeners.Keys, todo);
      }
      DoAllHeals(Do(s, acts[0]), acts[1..], todo);
    }
  }

  lemma StartHeals(s: Sys, w: Addr, p: Path, what: EventType, todo: set<Path>)
    requires Healing(s) && Covered(s, todo)
    ensures var t := StartCallback(s, w, p, what); Healing(t) && Covered(t, todo) && Grows(s, t)
  {
    var t := StartCallback(s, w, p, what);
    assert forall q :: q in s.nodes && q in t.c.zk.tree ==> Mirrors(s, q) && Mirrors(t, q);
    assert forall q :: Held(t, q) ==> Held(s, q);
  }

  /** Re-creating a missing published path succeeds, with the cached content, as ephemeral. */
  lemma RecreateHeals(s: Sys, p: Path, todo: set<Path>)
    requires Healing(s) && Covered(s, todo) && p in s.nodes && p !in s.c.zk.tree && p in todo
    ensures var (c, rc) := CreateNode(s.c, p, s.nodes[p].content, Ephemeral); var t := s.(c := c);
      && rc == Ok && Healing(t) && Covered(t, todo) && Grows(s, t)
      && t.c.zk.tree == s.c.zk.tree[p := Znode(Buffer(s.nodes[p].content), s.c.handle.session)]
  {
    var t := s.(c := CreateNode(s.c, p, s.nodes[p].content, Ephemeral).0);
    assert t.c.zk.tree == s.c.zk.tree[p := Znode(Buffer(s.nodes[p].content), s.c.handle.session)];
    forall q | q in t.nodes && q in t.c.zk.tree ensures Mirrors(t, q) {
      if q != p { assert Mirrors(s, q); }
    }
    forall q | q in t.nodes && Held(t, q) ensures q in todo || (q in t.c.zk.tree && Armed(t, q)) {
      assert Held(s, q);
    }
  }

  /** The registry's callback on a held path leaves it restored and watched. */
  lemma ContentChangeHeals(s: Sys, p: Path, todo: set<Path>)
    requires Healing(s) && Covered(s, todo) && p in todo
    requires Held(s, p) && (p in s.c.zk.tree ==> Armed(s, p))
    ensures var t := ContentChangeListener(s, p, DataChanged);
      Healing(t) && Covered(t, todo - {p}) && Grows(s, t)
  {
    var t := ContentChangeListener(s, p, DataChanged);
    if p in s.nodes && p !in s.c.zk.tree {
      RecreateHeals(s, p, todo);
      AddHeals(s.(c := CreateNode(s.c, p, s.nodes[p].content, Ephemeral).0), s.listener, p, todo);
    } else if p in s.nodes {
      assert Mirrors(s, p);
    }
    assert Covered(t, todo);
  }

  lemma SignalOwnHeals(s: Sys, env: Env, p: Path, todo: set<Path>)
    requires Healing(s) && Covered(s, todo) && Held(s, p) && p in todo
    ensures var t := EventWatcher(s, env, DataChanged, p, s.listener);
      Healing(t) && Grows(s, t) && Covered(t, todo - {p})
  {
    var s1 := s.(c := AddListener(s.c, s.listener, p, true).0);
    AddHeals(s, s.listener, p, todo, true);
    StartHeals(s1, s.listener, p, DataChanged, todo);
    ContentChangeHeals(StartCallback(s1, s.listener, p, DataChanged), p, todo);
  }

  lemma SignalOtherHeals(s: Sys, env: Env, what: EventType, p: Path, w: Addr, todo: set<Path>)
    requires WriteFree(env) && Healing(s) && Covered(s, todo) && Live(s.c, w) && w != s.listener
    requires what == DataChanged || what == ChildrenChanged
    ensures var t := EventWatcher(s, env, what, p, w); Healing(t) && Grows(s, t) && Covered(t, todo)
  {
    if p in PathsOf(s.c, w) {
      var s1 := s.(c := AddListener(s.c, w, p, true).0);
      AddHeals(s, w, p, todo, true);
      StartHeals(s1, w, p, what, todo);
      DoAllHeals(StartCallback(s1, w, p, what), env.script(|s1.c.log|), todo);
    }
  }

  lemma SignalHeals(s: Sys, env: Env, what: EventType, p: Path, w: Addr, todo: set<Path>)
    requires WriteFree(env) && Healing(s) && Covered(s, todo) && Live(s.c, w)
    requires what == DataChanged || (what == ChildrenChanged && w != s.listener)
    requires w == s.listener ==> p in todo
    ensures var t := EventWatcher(s, env, what, p, w);
      && Healing(t) && Grows(s, t)
      && Covered(t, if w == s.listener then todo - {p} else todo)
  {
    if w != s.listener { SignalOtherHeals(s, env, what, p, w, todo); }
    else if Held(s, p) { SignalOwnHeals(s, env, p, todo); }
  }

  lemma {:induction false} SignalPathsHeals(s: Sys, env: Env, w: Addr, ps: seq<Path>, todo: set<Path>)
    requires WriteFree(env) && Healing(s) && Covered(s, todo)
    requires w == s.listener ==> forall p :: p in todo ==> p in ps
    ensures var t := SignalPaths(s, env, w, ps);
      && Healing(t) && Grows(s, t)
      && Covered(t, if w == s.listener then {} else todo)
    decreases |ps|
  {
    if ps == [] {
      if w == s.listener { assert todo == {}; }
    } else {
      var p := ps[0];
      if FlagsOf(s.c, w).child { SignalHeals(s, env, ChildrenChanged, p, w, todo); }
      var s1 := SignalChild(s, env, w, p);
      var rest := if w == s.listener then todo - {p} else todo;
      if FlagsOf(s1.c, w).data {
        if w == s.listener { assert Covered(s1, todo + {p}); SignalHeals(s1, env, DataChanged, p, w, todo + {p}); }
        else { SignalHeals(s1, env, DataChanged, p, w, todo); }
      }
      var s2 := SignalData(s1, env, w, p);
      assert Covered(s2, rest) by {
        if w == s.listener && FlagsOf(s1.c, w).data { assert todo + {p} - {p} == rest; }
      }
      SignalPathsHeals(s2, env, w, ps[1..], rest);
    }
  }

  lemma VisitHeals(s: Sys, env: Env, w: Addr, todo: set<Path>)
    requires Enumerates(env) && WriteFree(env) && Healing(s) && Covered(s, todo)
    ensures var t := Visit(s, env, w);
      && Healing(t) && Grows(s, t)
      && Covered(t, if w == s.listener then {} else todo)
  {
    if Live(s.c, w) {
      var ks := PathsOf(s.c, w).Keys;
      if w == s.listener {
        assert Covered(s, ks);
        SignalPathsHeals(s, env, w, env.order(ks), ks);
      } else {
        SignalPathsHeals(s, env, w, env.order(ks), todo);
      }
    }
  }

  lemma {:induction false} PassHeals(s: Sys, env: Env, from: nat)
    requires Enumerates(env) && WriteFree(env) && Healing(s)
    requires (s.listener as int) < from ==> Covered(s, {})
    ensures var t := TriggerFrom(s, env, from); Healing(t) && Grows(s, t) && Covered(t, {})
    decreases ADDRESS_LIMIT - from
  {
    var next := NextKey(s.c.listeners.Keys, from);
    if next.Some? {
      var w := next.value;
      var all := PathsOf(s.c, s.listener).Keys;
      if (s.listener as int) < from { VisitHeals(s, env, w, {}); }
      else { assert Covered(s, all); VisitHeals(s, env, w, all); }
      PassHeals(Visit(s, env, w), env, (w as int) + 1);
    }
  }

  // ----- the main results

  /** A refresh pass puts back every published path it finds registered, as cached, watched
      and this session's, and changes no other node. */
  ghost predicate Refreshed(s: Sys, t: Sys) {
    && Grows(s, t)
    && (forall p :: p in t.nodes && Held(t, p) ==>
         p in t.c.zk.tree && OwnedBy(t.c, p) && Mirrors(t, p) && Armed(t, p))
  }

  /** So a round of the background loop does, or the return of the link. */
  lemma RefreshHeals(s: Sys, env: Env)
    requires Enumerates(env) && WriteFree(env)
    ensures Healing(s) ==> Refreshed(s, Next(s, env, Refresh))
    ensures s.c.handle.Open? && s.c.handle.link == Connecting ==>
      var linked := s.(c := s.c.(handle := Open(s.c.handle.session, Connected)));
      Healing(linked) ==> Refreshed(linked, Next(s, env, LinkUp))
  {
    if Healing(s) { PassHeals(s, env, 0); }
    if s.c.handle.Open? && s.c.handle.link == Connecting {
      var linked := SetLink(s, Connected);
      if Healing(linked) { PassHeals(linked, env, 0); }
    }
  }

  /** A session is lost and a new one opened, which runs one refresh pass. */
  function LoseAndReopen(s: Sys, env: Env, session: nat): Sys {
    Next(Next(s, env, SessionLost), env, Reopen(session))
  }

  /** The published paths the pass still finds registered are back: ephemeral, of the new
      session, with the cached content, watched; the rest of the tree is what other
      owners left. */
  ghost predicate Recovered(s: Sys, t: Sys, session: nat) {
    && t.nodes == s.nodes
    && (forall p :: p in t.nodes && Held(t, p) ==>
         p in t.c.zk.tree && t.c.zk.tree[p].owner == session && Mirrors(t, p) && Armed(t, p))
    && (forall p :: p !in t.nodes ==>
         (p in t.c.zk.tree <==> p in s.c.zk.tree && !OwnedBy(s.c, p))
         && (p in t.c.zk.tree ==> t.c.zk.tree[p] == s.c.zk.tree[p]))
  }

  lemma ConnectedHeals(s: Sys, session: nat)
    requires SysInv(s) && ParentsPresent(s) && Ours(s) && Fresh(s.c, session)
    ensures var t := s.(c := Connect(s.c, session));
      && Healing(t)
      && (forall p :: p in t.c.zk.tree <==> p in s.c.zk.tree && !OwnedBy(s.c, p))
      && (forall p :: p in t.c.zk.tree ==> t.c.zk.tree[p] == s.c.zk.tree[p])
  {
  }

  /** A new session is opened, whatever the old one was, and one pass is run. */
  lemma ReopeningConverges(s: Sys, env: Env, session: nat)
    requires Enumerates(env) && WriteFree(env)
    requires SysInv(s) && ParentsPresent(s) && Ours(s) && Fresh(s.c, session)
    ensures Recovered(s, Next(s, env, Reopen(session)), session)
  {
    ConnectedHeals(s, session);
    PassHeals(s.(c := Connect(s.c, session)), env, 0);
  }

  lemma LostIs(s: Sys, env: Env)
    requires SysInv(s) && ParentsPresent(s) && Ours(s)
    ensures var t := Next(s, env, SessionLost);
      && SysInv(t) && ParentsPresent(t) && Ours(t)
      && (forall p :: p in t.c.zk.tree <==> p in s.c.zk.tree && !OwnedBy(s.c, p))
      && (forall p :: p in t.c.zk.tree ==> t.c.zk.tree[p] == s.c.zk.tree[p] && !OwnedBy(t.c, p))
      && t.nodes == s.nodes
      && (forall session :: Fresh(s.c, session) ==> Fresh(t.c, session))
  {
    SessionLostKeeps(s);
  }

  lemma ConvergesAfterExpiry(s: Sys, env: Env, session: nat)
    requires Enumerates(env) && WriteFree(env)
    requires SysInv(s) && ParentsPresent(s) && Ours(s) && Fresh(s.c, session)
    ensures Recovered(s, LoseAndReopen(s, env, session), session)
  {
    LostIs(s, env);
    ReopeningConverges(Next(s, env, SessionLost), env, session);
  }

  /** If cache and server agreed before the session was lost, every published node still
      held afterwards reads on the server as it did before. */
  lemma RestoredExactly(s: Sys, env: Env, session: nat, p: Path)
    requires Enumerates(env) && WriteFree(env)
    requires SysInv(s) && Agree(s) && Ours(s) && Fresh(s.c, session)
    requires p in s.nodes && Held(LoseAndReopen(s, env, session), p)
    ensures var t := LoseAndReopen(s, env, session);
      && p in s.c.zk.tree && p in t.c.zk.tree
      && Value(t.c.zk.tree[p]) == Value(s.c.zk.tree[p])
      && t.c.zk.tree[p].owner == session
  {
    AgreeingHaveParents(s);
    ConvergesAfterExpiry(s, env, session);
    assert Mirrors(s, p);
  }

  /** Where cache and server agree, the parents are there: the tree is rooted. */
  lemma AgreeingHaveParents(s: Sys)
    requires SysInv(s) && Agree(s)
    ensures ParentsPresent(s)
  {
    forall q | q in s.nodes ensures Parent(q) in s.c.zk.tree && s.c.zk.tree[Parent(q)].owner == 0 {
      assert Mirrors(s, q);
    }
  }

  /** What a handled removal of a published path leaves: the znode as cached, ephemeral and
      watched, and everything else as it was. */
  ghost predicate Healed(s: Sys, t: Sys, p: Path)
    requires p in s.nodes && s.c.handle.Open?
  {
    && t.nodes == s.nodes
    && t.c.zk.tree == s.c.zk.tree[p := Znode(Buffer(s.nodes[p].content), s.c.handle.session)]
    && Mirrors(t, p)
    && Armed(t, p)
  }

  /** The registry's callback re-creates a missing published znode and watches it. */
  lemma RecreatesMissing(s: Sys, p: Path)
    requires Available(s.c) && AllTemporary(s) && p in s.nodes && Held(s, p) && FlagsOf(s.c, s.listener).data
    requires p !in s.c.zk.tree && Parent(p) in s.c.zk.tree && s.c.zk.tree[Parent(p)].owner == 0
    ensures Healed(s, ContentChangeListener(s, p, DataChanged), p)
  {
    var (c, rc) := CreateNode(s.c, p, s.nodes[p].content, Ephemeral);
    assert rc == Ok;
    assert c.zk.tree == s.c.zk.tree[p := Znode(Buffer(s.nodes[p].content), s.c.handle.session)];
    AddArms(c, s.listener, p);
  }

  /** The calls of a process take effect as such. */
  lemma CreateAtTakesEffect(s: Sys, p: Path, value: string, mode: CreateMode)
    requires Creatable(s.c, p, value)
    ensures var t := Do(s, CreateAt(p, value, mode)); p in t.c.zk.tree && Value(t.c.zk.tree[p]) == value
  {
    CreateOutcome(s.c, p, value, mode);
  }

  lemma SetAtTakesEffect(s: Sys, p: Path, value: string)
    requires Linked(s.c) && |value| <= 1048576 && p in s.c.zk.tree
    ensures var t := Do(s, SetAt(p, value)); p in t.c.zk.tree && Value(t.c.zk.tree[p]) == value
  {
    SetOutcome(s.c, p, value);
  }

  lemma DeleteAtTakesEffect(s: Sys, p: Path)
    requires Linked(s.c) && p != "/" && !HasChildren(s.c.zk, p)
    ensures p !in Do(s, DeleteAt(p)).c.zk.tree
  {
    ReadAndDeleteOutcome(s.c, p);
  }

  lemma PublishTakesEffect(s: Sys, service: string, version: string, stat: string, name: string,
                           content: string, temporary: bool)
    ensures Do(s, Publish(service, version, stat, name, content, temporary)) ==
      PublishService(s, service, version, stat, name, content, temporary).0
  {
  }

  /** Closing the handle ends the session: its nodes, watches and events are gone. */
  lemma ClosingEndsSession(s: Sys)
    requires s.c.handle.Open?
    ensures var t := Do(s, CloseHandle);
      && t.c.handle == NoHandle && t.c.zk.armed == {} && t.c.zk.queue == multiset{}
      && (forall q :: q in t.c.zk.tree <==> q in s.c.zk.tree && !OwnedBy(s.c, q))
  {
  }

  /** Anything but a data change, a path that was not published, and a lost connection leave
      everything as it is; and where the node can not be created again the cache and the
      server stay as they are. */
  lemma CallbackIgnores(s: Sys, p: Path, what: EventType)
    ensures what != DataChanged || p !in s.nodes || !Linked(s.c) ==> ContentChangeListener(s, p, what) == s
    ensures p in s.nodes && p !in s.c.zk.tree && !Creatable(s.c, p, s.nodes[p].content) ==>
      ContentChangeListener(s, p, what) == s
  {
  }

  /** Where the znode is there the callback puts the cache right, and does nothing else. */
  lemma CacheFollowsServer(s: Sys, p: Path)
    requires Available(s.c) && p in s.nodes && p in s.c.zk.tree
    ensures var t := ContentChangeListener(s, p, DataChanged);
      && p in t.nodes && Mirrors(t, p) && t.c == s.c && t.nodes.Keys == s.nodes.Keys
      && (forall q :: q in s.nodes && q != p ==> t.nodes[q] == s.nodes[q])
      && t.nodes[p].temporary == s.nodes[p].temporary
  {
  }

  lemma AddArms(c: Client, w: Addr, p: Path)
    requires Available(c) && p in c.zk.tree && Live(c, w)
    ensures var (c', rc) := AddListener(c, w, p);
      && rc == Ok
      && c'.zk == c.zk.(armed := c.zk.armed + WatchesOf(w, p, FlagsOf(c, w)))
      && c'.handle == c.handle && c'.watchers == c.watchers
  {
  }

  lemma RemovalHeals(s: Sys, env: Env, p: Path)
    requires SysInv(s) && Available(s.c) && p in s.nodes && Held(s, p)
    requires Event(s.listener, p, Removed) in s.c.zk.queue
    requires p !in s.c.zk.tree && Parent(p) in s.c.zk.tree && s.c.zk.tree[Parent(p)].owner == 0
    ensures Healed(s, Next(s, env, Deliver(Event(s.listener, p, Removed))), p)
  {
    var e := Event(s.listener, p, Removed);
    var s1 := Take(s, e);
    assert AddListener(s1.c, s.listener, p, true).0 == s1.c;
    var s2 := StartCallback(s1, s.listener, p, DataChanged);
    assert EventWatcher(s1, env, Removed, p, s.listener) == ContentChangeListener(s2, p, DataChanged);
    RecreatesMissing(s2, p);
  }

  /** Another client deletes a watched published node and the event is delivered: the tree
      holds again what it held, in the same session. */
  lemma DeletionIsUndone(s: Sys, env: Env, p: Path)
    requires SysInv(s) && Available(s.c) && p in s.nodes && Held(s, p) && Armed(s, p)
    requires Mirrors(s, p) && s.c.zk.tree[p].owner == s.c.handle.session
    ensures var s1 := Next(s, env, Others(Deletes(p))); var e := Event(s.listener, p, Removed);
      && p !in s1.c.zk.tree
      && e in s1.c.zk.queue
      && Healed(s1, Next(s1, env, Deliver(e)), p)
      && Next(s1, env, Deliver(e)).c.zk.tree[p].owner == s.c.zk.tree[p].owner
  {
    NoChildren(s, p);
    var s1 := Next(s, env, Others(Deletes(p)));
    NextKeeps(s, env, Others(Deletes(p)));
    assert Watch(s.listener, p, Data) in FiredByDelete(s.c.zk, p);
    assert Event(s.listener, p, Removed) in s1.c.zk.queue;
    RemovalHeals(s1, env, p);
  }

  /** An ephemeral znode has no children, so it can always be deleted. */
  lemma NoChildren(s: Sys, p: Path)
    requires SysInv(s) && p in s.c.zk.tree && s.c.zk.tree[p].owner != 0
    ensures !HasChildren(s.c.zk, p)
  {
  }

  lemma {:induction false} DeleteAllDeletes(s: Sys, ps: seq<Path>)
    requires SysInv(s) && Available(s.c) && Ours(s)
    requires forall p :: p in ps ==> p in s.nodes
    ensures var t := DeleteAll(s.c, ps);
      && (forall p :: p in t.zk.tree <==> p in s.c.zk.tree && p !in ps)
      && (forall p :: p in t.zk.tree ==> t.zk.tree[p] == s.c.zk.tree[p])
    decreases |ps|
  {
    if ps != [] {
      var p := ps[0];
      var s1 := s.(c := DeleteNode(s.c, p).0);
      DeleteNodeKeeps(s, p);
      if p in s.c.zk.tree { NoChildren(s, p); }
      DeleteAllDeletes(s1, ps[1..]);
    }
  }

  lemma {:induction false} DeleteAllKeepsRest(c: Client, ps: seq<Path>)
    ensures var t := DeleteAll(c, ps);
      t.watchers == c.watchers && t.listeners == c.listeners && t.handle == c.handle && t.log == c.log
    decreases |ps|
  {
    if ps != [] { DeleteAllKeepsRest(DeleteNode(c, ps[0]).0, ps[1..]); }
  }

  lemma {:induction false} DeleteAllWithoutLink(c: Client, ps: seq<Path>)
    requires !Available(c)
    ensures DeleteAll(c, ps) == c
    decreases |ps|
  {
    if ps != [] { DeleteAllWithoutLink(c, ps[1..]); }
  }

  /** When the nodes before it have been deleted, or not, this one has a child. */
  ghost predicate ChildAtTurn(c: Client, ps: seq<Path>, i: nat)
    requires i < |ps|
  {
    HasChildren(DeleteAll(c, ps[..i]).zk, ps[i])
  }

  /** A node is deleted at its turn unless it has a child then, which may be one whose own
      turn comes later. */
  lemma {:induction false} DeleteAllLeavesParents(c: Client, ps: seq<Path>)
    requires Available(c) && "/" !in ps
    requires forall i, j :: 0 <= i < j < |ps| ==> ps[i] != ps[j]
    ensures var t := DeleteAll(c, ps);
      && (forall p :: p !in ps ==> (p in t.zk.tree <==> p in c.zk.tree))
      && (forall p :: p in t.zk.tree ==> p in c.zk.tree && t.zk.tree[p] == c.zk.tree[p])
      && (forall i :: 0 <= i < |ps| ==>
           (ps[i] in t.zk.tree <==> ps[i] in c.zk.tree && ChildAtTurn(c, ps, i)))
    decreases |ps|
  {
    if ps != [] {
      var p, rest := ps[0], ps[1..];
      var c1 := DeleteNode(c, p).0;
      assert p in ps;
      assert forall q :: q in rest ==> q in ps;
      DeleteAllLeavesParents(c1, rest);
      forall i | 0 <= i < |ps|
        ensures ps[i] in DeleteAll(c, ps).zk.tree <==> ps[i] in c.zk.tree && ChildAtTurn(c, ps, i)
      {
        if i == 0 {
          assert p !in rest && ps[..0] == [];
        } else {
          assert ps[..i][0] == p && ps[..i][1..] == rest[..i - 1] && rest[i - 1] == ps[i];
          assert DeleteAll(c, ps[..i]) == DeleteAll(c1, rest[..i - 1]);
        }
      }
    }
  }

  /** What the destructor leaves.  Without a connection it does nothing at all.  Connected, a
      published path stays exactly if it has a child at its turn, and nothing else changes on
      the server; so if the published nodes belong to the session, they are gone if and only
      if there is a connection or there were none.  The registry's watcher is dead if and only
      if it was, or there is a connection and the watcher is in the table. */
  lemma DestructorUnpublishes(s: Sys, env: Env)
    requires Enumerates(env) && SysInv(s)
    ensures var t := Destroy(s, env); var ps := env.order(s.nodes.Keys);
      && (!Available(s.c) ==> t == s)
      && (forall p :: p !in s.nodes ==> (p in t.c.zk.tree <==> p in s.c.zk.tree))
      && (forall p :: p in t.c.zk.tree ==> p in s.c.zk.tree && t.c.zk.tree[p] == s.c.zk.tree[p])
      && (Available(s.c) ==> forall i :: 0 <= i < |ps| ==>
           (ps[i] in t.c.zk.tree <==> ps[i] in s.c.zk.tree && ChildAtTurn(DropListener(s.c, s.listener).0, ps, i)))
      && (Ours(s) ==>
           (s.nodes.Keys !! t.c.zk.tree.Keys <==> Available(s.c) || s.nodes.Keys !! s.c.zk.tree.Keys))
      && (!Live(t.c, s.listener) <==>
           !Live(s.c, s.listener) || (Available(s.c) && s.listener in s.c.listeners))
  {
    var ps := env.order(s.nodes.Keys);
    var s1 := Do(s, Drop(s.listener));
    DeleteAllKeepsRest(s1.c, ps);
    if Available(s.c) {
      DeleteAllLeavesParents(s1.c, ps);
      if Ours(s) {
        DoKeeps(s, Drop(s.listener));
        DeleteAllDeletes(s1, ps);
      }
    } else {
      DeleteAllWithoutLink(s.c, ps);
    }
  }

  /** Run with a connection, or once the watcher is dead, the destructor is final: no later
      step of any run starts the callback that would re-create a node. */
  lemma DestroyedRegistryIsSilent(s: Sys, env: Env, steps: seq<Step>, i: nat)
    requires SysInv(s) && !Live(Destroy(s, env).c, s.listener)
    requires |Destroy(s, env).c.log| <= i < |Run(Destroy(s, env), env, steps).c.log|
    ensures var e := Run(Destroy(s, env), env, steps).c.log[i]; e.Called? ==> e.w != s.listener
  {
    DestroyKeeps(s, env);
    DeadIsSilent(Destroy(s, env), env, s.listener, steps, i);
  }

  lemma UnavailableCallback(s: Sys, env: Env, e: Event)
    requires !Available(s.c) && e.what != Session && Held(s, e.path)
    ensures EventWatcher(s, env, e.what, e.path, s.listener)
      == StartCallback(s, s.listener, e.path, Reported(e.what))
  {
    var s1 := StartCallback(s, s.listener, e.path, Reported(e.what));
    assert ContentChangeListener(s1, e.path, Reported(e.what)) == s1;
  }

  /** Run while the link is down it is not: the callback of the destroyed registry starts
      when an event of a held path that was on the way is delivered. */
  lemma DestroyedWithoutLinkIsCalled(s: Sys, env: Env, e: Event)
    requires s.c.handle.Open? && s.c.handle.link == Connecting
    requires e in s.c.zk.queue && e.who == s.listener && e.what != Session && Held(s, e.path)
    ensures var t := Next(Next(s, env, Destructor), env, Deliver(e));
      t.c.log == s.c.log + [Called(s.listener, e.path, Reported(e.what))]
  {
    assert Next(s, env, Destructor) == s by { DeleteAllWithoutLink(s.c, env.order(s.nodes.Keys)); }
    UnavailableCallback(Take(s, e), env, e);
  }

  /** What the server demands for a node to be created at p. */
  ghost predicate Creatable(c: Client, p: Path, content: string) {
    && c.handle.Open? && c.handle.link == Connected
    && |content| <= 1024 * 1024
    && ValidPath(p) && p !in c.zk.tree && Parent(p) in c.zk.tree && c.zk.tree[Parent(p)].owner == 0
  }

  /** Refused: a watcher that is closed and still in the table. */
  predicate Refuses(s: Sys, temporary: bool) {
    temporary && s.listener in s.c.listeners && !Live(s.c, s.listener)
  }

  /** The node is the only new one, with the content given, and cached if it is temporary. */
  ghost predicate PublishedAs(s: Sys, t: Sys, p: Path, content: string, temporary: bool) {
    && t.c.zk.tree.Keys == s.c.zk.tree.Keys + {p}
    && (forall q :: q in s.c.zk.tree ==> t.c.zk.tree[q] == s.c.zk.tree[q])
    && Value(t.c.zk.tree[p]) == content
    && t.c.zk.tree[p].owner == (if temporary && s.c.handle.Open? then s.c.handle.session else 0)
    && t.nodes == (if temporary then s.nodes[p := Entry(true, content)] else s.nodes)
  }

  lemma PublishAtOutcome(s: Sys, p: Path, content: string, temporary: bool)
    requires SysInv(s)
    ensures var (t, code) := PublishAt(s, p, content, temporary);
      && code == (if !Creatable(s.c, p, content) then -2 else if Refuses(s, temporary) then -3 else 0)
      && (code == -2 ==> t == s)
      && (code != -2 ==> p !in s.c.zk.tree && PublishedAs(s, t, p, content, temporary))
      && (code == 0 && temporary && Live(s.c, s.listener) ==> Held(t, p) && Armed(t, p))
  {
    CreateOutcome(s.c, p, content, if temporary then Ephemeral else Persistent);
    AddOutcome(CreateNode(s.c, p, content, if temporary then Ephemeral else Persistent).0, s.listener, p);
  }

  /** What the return codes of PublishService mean, each exactly.  Where the node is created
      it is the only new one, at the path whose pieces are the arguments in their order.  A 0
      for a temporary node, under a live registry watcher, is the state the healing results
      start from: cached, registered and watched. */
  lemma PublishOutcome(s: Sys, service: string, version: string, stat: string, name: string,
                       content: string, temporary: bool, p: Path)
    requires SysInv(s) && p == "/" + service + "/" + version + "/" + stat + "/" + name
    ensures var (t, code) := PublishService(s, service, version, stat, name, content, temporary);
      var missing := service == "" || version == "" || stat == "" || name == "";
      && code == (if missing then -1 else if !Creatable(s.c, p, content) then -2
                  else if Refuses(s, temporary) then -3 else 0)
      && (code == -1 || code == -2 ==> t == s)
      && (code == 0 || code == -3 ==> p !in s.c.zk.tree && PublishedAs(s, t, p, content, temporary))
      && (code == 0 && temporary && Live(s.c, s.listener) ==> Held(t, p) && Armed(t, p))
    ensures NoSlash(service) && NoSlash(version) && NoSlash(stat) && NoSlash(name) ==>
      Split(p) == ["", service, version, stat, name]
  {
    assert p == ServicePath(service, version, stat, name);
    PublishAtOutcome(s, p, content, temporary);
    if NoSlash(service) && NoSlash(version) && NoSlash(stat) && NoSlash(name) {
      ServicePathIs(service, version, stat, name);
    }
  }
}
