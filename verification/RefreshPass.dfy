/**
The refresh pass over the table of listeners: callbacks may add, drop or clear
listeners while the table is being iterated, and still no key is erased under
the iterator and what is registered when it is reached is signalled exactly once.
*/
module RefreshPass {
  import opened Wrappers
  import opened ZooKeeper
  import opened Client
  import opened Registry

  /** How often the history records a start of this callback. */
  function Calls(log: seq<LogEntry>, w: Addr, p: Path, what: EventType): nat {
    if log == [] then 0
    else Calls(log[..|log| - 1], w, p, what) + (if log[|log| - 1] == Called(w, p, what) then 1 else 0)
  }

  /** The history from `from` on neither drops (w, p) nor closes w. */
  ghost predicate Undropped(log: seq<LogEntry>, from: nat, w: Addr, p: Path) {
    forall i :: from <= i < |log| ==> log[i] != PathDropped(w, p) && !(log[i].Closed? && w in log[i].ws)
  }

  ghost predicate Holds(s: Sys, w: Addr, p: Path) {
    Live(s.c, w) && p in PathsOf(s.c, w)
  }

  /** What calls made during a pass can do to the table: add keys, drop paths, close watchers. */
  ghost predicate Progress(s: Sys, t: Sys) {
    && s.c.log <= t.c.log
    && s.c.listeners.Keys <= t.c.listeners.Keys
    && (forall w :: FlagsOf(t.c, w) == FlagsOf(s.c, w) || FlagsOf(t.c, w) == DEAD)
    && (forall w, p :: Holds(s, w, p) && Undropped(t.c.log, |s.c.log|, w, p) ==> Holds(t, w, p))
  }

  ghost predicate Silent(s: Sys, t: Sys) {
    && Progress(s, t)
    && (forall w, p, what :: Calls(t.c.log, w, p, what) == Calls(s.c.log, w, p, what))
  }

  lemma ProgressJoins(s: Sys, t: Sys, u: Sys)
    requires Progress(s, t) && Progress(t, u)
    ensures Progress(s, u)
  {
    forall w, p | Holds(s, w, p) && Undropped(u.c.log, |s.c.log|, w, p) ensures Holds(u, w, p) {
      assert forall i :: 0 <= i < |t.c.log| ==> t.c.log[i] == u.c.log[i];
      assert Undropped(t.c.log, |s.c.log|, w, p);
      assert Undropped(u.c.log, |t.c.log|, w, p);
    }
  }

  lemma Appended(s: Sys, t: Sys, e: LogEntry)
    requires t.c.log == s.c.log + [e]
    ensures s.c.log <= t.c.log && t.c.log[|s.c.log|] == e
    ensures forall w, p, what ::
      Calls(t.c.log, w, p, what) == Calls(s.c.log, w, p, what) + (if e == Called(w, p, what) then 1 else 0)
  {
    assert t.c.log[..|t.c.log| - 1] == s.c.log;
  }

  lemma AddIsSilent(s: Sys, w: Addr, p: Path, again: bool := false)
    ensures Silent(s, s.(c := AddListener(s.c, w, p, again).0))
  {
    var t := s.(c := AddListener(s.c, w, p, again).0);
    if t.c != s.c {
      Appended(s, t, t.c.log[|s.c.log|]);
      assert forall v, q :: q in PathsOf(s.c, v) ==> q in PathsOf(t.c, v);
      assert forall v :: FlagsOf(t.c, v) == FlagsOf(s.c, v);
    }
  }

  lemma CreateNodeIsSilent(s: Sys, p: Path, value: string, mode: CreateMode)
    ensures Silent(s, s.(c := CreateNode(s.c, p, value, mode).0))
  {
  }

  lemma PublishIsSilent(s: Sys, service: string, version: string, stat: string, name: string,
                        content: string, temporary: bool)
    ensures Silent(s, PublishService(s, service, version, stat, name, content, temporary).0)
  {
    var p := ServicePath(service, version, stat, name);
    var mode := if temporary then Ephemeral else Persistent;
    var s1 := s.(c := CreateNode(s.c, p, content, mode).0);
    CreateNodeIsSilent(s, p, content, mode);
    AddIsSilent(s1, s.listener, p);
    ProgressJoins(s, s1, s1.(c := AddListener(s1.c, s.listener, p).0));
  }

  lemma DropPathIsSilent(s: Sys, w: Addr, p: Path)
    ensures Silent(s, Do(s, DropPath(w, p)))
  {
    var t := Do(s, DropPath(w, p));
    if t != s {
      Appended(s, t, PathDropped(w, p));
      forall v, q | Holds(s, v, q) && Undropped(t.c.log, |s.c.log|, v, q) ensures Holds(t, v, q) {
        assert t.c.log[|s.c.log|] != PathDropped(v, q);
      }
    }
  }

  lemma CloseIsSilent(s: Sys, ws: set<Addr>)
    ensures Silent(s, s.(c := CloseWatchers(s.c, ws)))
  {
    var t := s.(c := CloseWatchers(s.c, ws));
    Appended(s, t, Closed(ws));
    forall v, q | Holds(s, v, q) && Undropped(t.c.log, |s.c.log|, v, q) ensures Holds(t, v, q) {
      assert v !in ws by { assert t.c.log[|s.c.log|] == Closed(ws); }
    }
  }

  lemma DoIsSilent(s: Sys, a: Action)
    ensures Silent(s, Do(s, a))
  {
    match a
    case Add(w, p) => AddIsSilent(s, w, p);
    case DropPath(w, p) => DropPathIsSilent(s, w, p);
    case Drop(w) => CloseIsSilent(s, {w});
    case ClearAll => CloseIsSilent(s, s.c.listeners.Keys);
    case Publish(service, version, stat, name, content, temporary) =>
      PublishIsSilent(s, service, version, stat, name, content, temporary);
    case _ =>
  }

  lemma {:induction false} DoAllIsSilent(s: Sys, acts: seq<Action>)
    ensures Silent(s, DoAll(s, acts))
    decreases |acts|
  {
    if acts != [] {
      DoIsSilent(s, acts[0]);
      DoAllIsSilent(Do(s, acts[0]), acts[1..]);
      ProgressJoins(s, Do(s, acts[0]), DoAll(s, acts));
    }
  }

  lemma ContentChangeIsSilent(s: Sys, p: Path, what: EventType)
    ensures Silent(s, ContentChangeListener(s, p, what))
  {
    if what == DataChanged && p in s.nodes && Exist(s.c, p) != Ok {
      var mode := if s.nodes[p].temporary then Ephemeral else Persistent;
      var s1 := s.(c := CreateNode(s.c, p, s.nodes[p].content, mode).0);
      CreateNodeIsSilent(s, p, s.nodes[p].content, mode);
      AddIsSilent(s1, s.listener, p);
      ProgressJoins(s, s1, s1.(c := AddListener(s1.c, s.listener, p).0));
    }
  }

  /** Exactly this callback is started, exactly once. */
  ghost predicate StartsOnly(s: Sys, t: Sys, w: Addr, p: Path, what: EventType, n: nat) {
    && Progress(s, t)
    && (forall v, q, k :: Calls(t.c.log, v, q, k) ==
         Calls(s.c.log, v, q, k) + if v == w && q == p && k == what then n else 0)
  }

  lemma CallbackStarts(s: Sys, env: Env, w: Addr, p: Path, what: EventType)
    ensures StartsOnly(s, Callback(s, env, w, p, what), w, p, what, 1)
  {
    var s1 := StartCallback(s, w, p, what);
    Appended(s, s1, Called(w, p, what));
    assert forall v :: FlagsOf(s1.c, v) == FlagsOf(s.c, v);
    assert Progress(s, s1);
    if w == s.listener { ContentChangeIsSilent(s1, p, what); }
    else { DoAllIsSilent(s1, env.script(|s.c.log|)); }
    ProgressJoins(s, s1, Callback(s, env, w, p, what));
  }

  /** An event handed to a live watcher starts its callback once if the path is registered,
      as a data change if it is a creation or removal, and starts no other callback. */
  lemma SignalStarts(s: Sys, env: Env, what: EventType, p: Path, w: Addr)
    requires what != Session
    requires Live(s.c, w)
    ensures StartsOnly(s, EventWatcher(s, env, what, p, w), w, p,
                       if what == Removed || what == Created then DataChanged else what,
                       if p in PathsOf(s.c, w) then 1 else 0)
  {
    if p in PathsOf(s.c, w) {
      var s1 := s.(c := AddListener(s.c, w, p, true).0);
      AddIsSilent(s, w, p, true);
      CallbackStarts(s1, env, w, p, Reported(what));
      ProgressJoins(s, s1, EventWatcher(s, env, what, p, w));
    }
  }

  function KindEvent(k: Kind): EventType {
    if k == Data then DataChanged else ChildrenChanged
  }

  // ----- what the parts of a pass leave alone

  ghost predicate Untouched(s: Sys, t: Sys, w: Addr, p: Path) {
    forall what :: Calls(t.c.log, w, p, what) == Calls(s.c.log, w, p, what)
  }

  lemma SignalsOwn(s: Sys, env: Env, w: Addr, p: Path)
    ensures var t := SignalData(SignalChild(s, env, w, p), env, w, p);
      && Progress(s, SignalChild(s, env, w, p)) && Progress(SignalChild(s, env, w, p), t) && Progress(s, t)
      && (forall v, q :: v != w || q != p ==> Untouched(s, t, v, q))
  {
    var s1 := SignalChild(s, env, w, p);
    var t := SignalData(s1, env, w, p);
    if FlagsOf(s.c, w).child { SignalStarts(s, env, ChildrenChanged, p, w); }
    if FlagsOf(s1.c, w).data { SignalStarts(s1, env, DataChanged, p, w); }
    assert Progress(s, s1) && Progress(s1, t);
    ProgressJoins(s, s1, t);
  }

  lemma {:induction false} PathsSignal(s: Sys, env: Env, w: Addr, ps: seq<Path>)
    ensures var t := SignalPaths(s, env, w, ps);
      Progress(s, t) && forall v, p :: v != w || p !in ps ==> Untouched(s, t, v, p)
    decreases |ps|
  {
    if ps != [] {
      var s1 := SignalData(SignalChild(s, env, w, ps[0]), env, w, ps[0]);
      var t := SignalPaths(s, env, w, ps);
      SignalsOwn(s, env, w, ps[0]);
      PathsSignal(s1, env, w, ps[1..]);
      ProgressJoins(s, s1, t);
      forall v, q | v != w || q !in ps ensures Untouched(s, t, v, q) {
        assert q !in ps ==> q !in ps[1..];
        assert Untouched(s, s1, v, q) && Untouched(s1, t, v, q);
      }
    }
  }

  lemma VisitSignals(s: Sys, env: Env, w: Addr)
    ensures var t := Visit(s, env, w);
      Progress(s, t) && forall v, p :: v != w ==> Untouched(s, t, v, p)
  {
    if Live(s.c, w) { PathsSignal(s, env, w, env.order(PathsOf(s.c, w).Keys)); }
  }

  lemma {:induction false} PassFrom(s: Sys, env: Env, from: nat)
    ensures var t := TriggerFrom(s, env, from);
      Progress(s, t) && forall w: Addr, p :: w < from ==> Untouched(s, t, w, p)
    decreases ADDRESS_LIMIT - from
  {
    var next := NextKey(s.c.listeners.Keys, from);
    if next.Some? {
      var w := next.value;
      var s1 := Visit(s, env, w);
      var t := TriggerFrom(s, env, from);
      VisitSignals(s, env, w);
      PassFrom(s1, env, (w as int) + 1);
      ProgressJoins(s, s1, t);
      forall v: Addr, p | v < from ensures Untouched(s, t, v, p) {
        assert Untouched(s, s1, v, p) && Untouched(s1, t, v, p);
      }
    }
  }

  // ----- the point at which a pass reaches a path

  /** The state in which a pass from `from` on has visited every watcher before w. */
  function PassTo(s: Sys, env: Env, from: nat, w: Addr): Sys
    decreases ADDRESS_LIMIT - from
  {
    match NextKey(s.c.listeners.Keys, from)
    case None => s
    case Some(v) => if v < w then PassTo(Visit(s, env, v), env, v + 1, w) else s
  }

  /** The place of p in ps, or the length of ps. */
  function Position(ps: seq<Path>, p: Path): (i: nat)
    ensures i <= |ps|
    ensures p !in ps[..i]
    ensures i < |ps| ==> ps[i] == p
    ensures i == |ps| ==> p !in ps
  {
    if ps == [] || ps[0] == p then 0
    else
      var i := Position(ps[1..], p) + 1;
      assert ps[..i] == [ps[0]] + ps[1..][..i - 1];
      i
  }

  /** The state in which a whole pass decides whether to signal kind k of (w, p); where the
      copy of the paths of w does not have p, that in which it comes to w. */
  function Reached(s: Sys, env: Env, w: Addr, p: Path, k: Kind): Sys {
    var u := PassTo(s, env, 0, w);
    var ps := env.order(PathsOf(u.c, w).Keys);
    var i := Position(ps, p);
    if !Live(u.c, w) || i == |ps| then u
    else
      var before := SignalPaths(u, env, w, ps[..i]);
      if k == Child then before else SignalChild(before, env, w, p)
  }

  /** From s on, with u in between, kind k of (w, p) is signalled after u, once if it is
      watched and held there, else not at all. */
  ghost predicate SignalledAt(s: Sys, u: Sys, t: Sys, w: Addr, p: Path, k: Kind) {
    && Progress(s, u) && Progress(u, t)
    && Calls(u.c.log, w, p, KindEvent(k)) == Calls(s.c.log, w, p, KindEvent(k))
    && Calls(t.c.log, w, p, KindEvent(k)) ==
         Calls(u.c.log, w, p, KindEvent(k)) + (if Watches(FlagsOf(u.c, w), k) && Holds(u, w, p) then 1 else 0)
  }

  lemma SignalledEarlier(s0: Sys, s: Sys, u: Sys, t: Sys, t1: Sys, w: Addr, p: Path, k: Kind)
    requires SignalledAt(s, u, t, w, p, k)
    requires Progress(s0, s) && Untouched(s0, s, w, p)
    requires Progress(t, t1) && Untouched(t, t1, w, p)
    ensures SignalledAt(s0, u, t1, w, p, k)
  {
    ProgressJoins(s0, s, u);
    ProgressJoins(u, t, t1);
  }

  lemma {:induction false} PassToIsPrefix(s: Sys, env: Env, from: nat, w: Addr)
    requires from <= w as int
    ensures TriggerFrom(s, env, from) == TriggerFrom(PassTo(s, env, from, w), env, w)
    decreases ADDRESS_LIMIT - from
  {
    var next := NextKey(s.c.listeners.Keys, from);
    if next.Some? && next.value < w {
      PassToIsPrefix(Visit(s, env, next.value), env, (next.value as int) + 1, w);
    } else {
      assert NextKey(s.c.listeners.Keys, w) == next;
    }
  }

  lemma {:induction false} PassToSignals(s: Sys, env: Env, from: nat, w: Addr, p: Path)
    requires from <= w as int
    ensures var u := PassTo(s, env, from, w); Progress(s, u) && Untouched(s, u, w, p)
    decreases ADDRESS_LIMIT - from
  {
    var next := NextKey(s.c.listeners.Keys, from);
    if next.Some? && next.value < w {
      var s1 := Visit(s, env, next.value);
      VisitSignals(s, env, next.value);
      PassToSignals(s1, env, (next.value as int) + 1, w, p);
      ProgressJoins(s, s1, PassTo(s, env, from, w));
      assert Untouched(s, s1, w, p);
    }
  }

  lemma HeadIn(ps: seq<Path>)
    ensures ps != [] ==> ps[0] in ps
  {
  }

  /** A watcher that is not in the table when it is its turn has no path to signal. */
  lemma TurnOf(s: Sys, env: Env, w: Addr)
    requires Enumerates(env)
    ensures TriggerFrom(s, env, w) == TriggerFrom(Visit(s, env, w), env, (w as int) + 1)
  {
    var keys := s.c.listeners.Keys;
    if w in keys {
      assert NextKey(keys, w) == Some(w);
    } else {
      assert NextKey(keys, w) == NextKey(keys, (w as int) + 1);
      assert PathsOf(s.c, w).Keys == {};
      HeadIn(env.order({}));
    }
  }

  lemma {:induction false} PathsSplit(s: Sys, env: Env, w: Addr, ps: seq<Path>, i: nat)
    requires i <= |ps|
    ensures SignalPaths(s, env, w, ps) == SignalPaths(SignalPaths(s, env, w, ps[..i]), env, w, ps[i..])
    decreases i
  {
    if i == 0 {
      assert ps[0..] == ps;
    } else {
      var s1 := SignalData(SignalChild(s, env, w, ps[0]), env, w, ps[0]);
      PathsSplit(s1, env, w, ps[1..], i - 1);
      assert ps[..i][0] == ps[0] && ps[..i][1..] == ps[1..][..i - 1] && ps[1..][i - 1..] == ps[i..];
    }
  }

  /** The two signals of one path: the child signal comes first, and neither starts the
      callback of the other kind. */
  lemma PathSignalled(s: Sys, env: Env, w: Addr, p: Path, k: Kind)
    ensures var s1 := SignalChild(s, env, w, p);
      SignalledAt(s, if k == Child then s else s1, SignalData(s1, env, w, p), w, p, k)
  {
    var s1 := SignalChild(s, env, w, p);
    SignalsOwn(s, env, w, p);
    if FlagsOf(s.c, w).child { SignalStarts(s, env, ChildrenChanged, p, w); }
    if FlagsOf(s1.c, w).data { SignalStarts(s1, env, DataChanged, p, w); }
  }

  lemma VisitReaches(u: Sys, env: Env, w: Addr, p: Path, k: Kind, i: nat)
    requires Enumerates(env) && Live(u.c, w)
    requires var ps := env.order(PathsOf(u.c, w).Keys); i < |ps| && ps[i] == p && p !in ps[..i]
    ensures var before := SignalPaths(u, env, w, env.order(PathsOf(u.c, w).Keys)[..i]);
      SignalledAt(u, if k == Child then before else SignalChild(before, env, w, p), Visit(u, env, w), w, p, k)
  {
    var ps := env.order(PathsOf(u.c, w).Keys);
    var before := SignalPaths(u, env, w, ps[..i]);
    var after := SignalData(SignalChild(before, env, w, p), env, w, p);
    PathsSplit(u, env, w, ps, i);
    assert ps[i..][0] == p && ps[i..][1..] == ps[i + 1..];
    PathsSignal(u, env, w, ps[..i]);
    PathSignalled(before, env, w, p, k);
    PathsSignal(after, env, w, ps[i + 1..]);
    assert p !in ps[i + 1..];
    SignalledEarlier(u, before, if k == Child then before else SignalChild(before, env, w, p), after,
                     Visit(u, env, w), w, p, k);
  }

  lemma ReachedInVisit(s: Sys, env: Env, w: Addr, p: Path, k: Kind)
    requires Enumerates(env)
    ensures var u0 := PassTo(s, env, 0, w);
      SignalledAt(u0, Reached(s, env, w, p, k), Visit(u0, env, w), w, p, k)
  {
    var u0 := PassTo(s, env, 0, w);
    var ps := env.order(PathsOf(u0.c, w).Keys);
    var i := Position(ps, p);
    if Live(u0.c, w) {
      if i < |ps| {
        VisitReaches(u0, env, w, p, k, i);
      } else {
        PathsSignal(u0, env, w, ps);
        assert Untouched(u0, Visit(u0, env, w), w, p) && !Holds(u0, w, p);
      }
    }
  }

  lemma RestOfPass(u: Sys, env: Env, w: Addr, p: Path)
    requires Enumerates(env)
    ensures var v := Visit(u, env, w); var t := TriggerFrom(u, env, w); Progress(v, t) && Untouched(v, t, w, p)
  {
    TurnOf(u, env, w);
    PassFrom(Visit(u, env, w), env, (w as int) + 1);
  }

  lemma PassSignals(s: Sys, env: Env, w: Addr, p: Path, k: Kind)
    requires Enumerates(env)
    ensures SignalledAt(s, Reached(s, env, w, p, k), TriggerAllWatcher(s, env), w, p, k)
  {
    var u0 := PassTo(s, env, 0, w);
    PassToIsPrefix(s, env, 0, w);
    PassToSignals(s, env, 0, w, p);
    ReachedInVisit(s, env, w, p, k);
    RestOfPass(u0, env, w, p);
    SignalledEarlier(s, u0, Reached(s, env, w, p, k), Visit(u0, env, w), TriggerAllWatcher(s, env), w, p, k);
  }

  /** One refresh pass, whatever its callbacks do.  No key is erased from the table at any
      point.  Kind k of (w, p) is signalled only where the pass reaches it, exactly once if
      there the watcher is live, watches that kind and has the path in the table, and not at
      all otherwise; so it is for every path that is in the table at the start, unless the
      path was dropped or the watcher closed before the pass got there. */
  lemma PassIsSafeAndComplete(s: Sys, env: Env, w: Addr, p: Path, k: Kind)
    requires Enumerates(env)
    ensures var u := Reached(s, env, w, p, k); var t := TriggerAllWatcher(s, env);
      && s.c.listeners.Keys <= u.c.listeners.Keys <= t.c.listeners.Keys
      && SignalledAt(s, u, t, w, p, k)
      && (Holds(s, w, p) && Watches(FlagsOf(s.c, w), k) && Undropped(u.c.log, |s.c.log|, w, p) ==>
           Calls(t.c.log, w, p, KindEvent(k)) == Calls(s.c.log, w, p, KindEvent(k)) + 1)
  {
    PassSignals(s, env, w, p, k);
    assert Watches(FlagsOf(s.c, w), k) && Live(Reached(s, env, w, p, k).c, w) ==>
      Watches(FlagsOf(Reached(s, env, w, p, k).c, w), k);
  }

  // ----- the steps of a run that make a pass

  /** From s to t each (watcher, path, kind) is signalled as PassIsSafeAndComplete says: what
      is held and watched at the start exactly once, unless it is dropped or its watcher
      closed before the pass reaches it. */
  ghost predicate AllSignalled(s: Sys, env: Env, t: Sys) {
    && s.c.listeners.Keys <= t.c.listeners.Keys
    && (forall w, p, k :: SignalledAt(s, Reached(s, env, w, p, k), t, w, p, k))
    && (forall w, p, k ::
         Holds(s, w, p) && Watches(FlagsOf(s.c, w), k)
         && Undropped(Reached(s, env, w, p, k).c.log, |s.c.log|, w, p) ==>
           Calls(t.c.log, w, p, KindEvent(k)) == Calls(s.c.log, w, p, KindEvent(k)) + 1)
  }

  lemma PassSignalsAll(s: Sys, env: Env)
    requires Enumerates(env)
    ensures AllSignalled(s, env, TriggerAllWatcher(s, env))
  {
    var t := TriggerAllWatcher(s, env);
    PassFrom(s, env, 0);
    forall w, p, k
      ensures SignalledAt(s, Reached(s, env, w, p, k), t, w, p, k)
      ensures Holds(s, w, p) && Watches(FlagsOf(s.c, w), k)
              && Undropped(Reached(s, env, w, p, k).c.log, |s.c.log|, w, p) ==>
                Calls(t.c.log, w, p, KindEvent(k)) == Calls(s.c.log, w, p, KindEvent(k)) + 1
    {
      PassIsSafeAndComplete(s, env, w, p, k);
    }
  }

  /** A round of the background loop signals everything if there is a connection, and does
      nothing otherwise. */
  lemma RefreshSignals(s: Sys, env: Env)
    requires Enumerates(env)
    ensures var t := Next(s, env, Refresh);
      if s.c.handle.Open? && s.c.handle.link == Connected then AllSignalled(s, env, t) else t == s
  {
    PassSignalsAll(s, env);
  }

  /** So does a connection that comes back within its session, and a new session. */
  lemma ReconnectingSignals(s: Sys, env: Env, session: nat)
    requires Enumerates(env)
    requires s.c.handle.Open? && s.c.handle.link == Connecting
    ensures var linked := s.(c := s.c.(handle := Open(s.c.handle.session, Connected)));
      AllSignalled(linked, env, Next(s, env, LinkUp))
    ensures var zk := EndSession(s.c.zk, s.c.handle.session);
      var reopened := s.(c := s.c.(handle := Open(session, Connected), zk := zk));
      Fresh(s.c, session) ==> AllSignalled(reopened, env, Next(s, env, Reopen(session)))
  {
    PassSignalsAll(s.(c := s.c.(handle := Open(s.c.handle.session, Connected))), env);
    PassSignalsAll(s.(c := Connect(s.c, session)), env);
  }

  /** The callback of an event starts with the watches of its path armed again, and nothing
      else changed. */
  lemma SignalRearms(s: Sys, env: Env, what: EventType, p: Path, w: Addr) returns (u: Sys)
    requires what != Session && Live(s.c, w) && p in PathsOf(s.c, w) && Available(s.c) && p in s.c.zk.tree
    ensures forall x :: x in u.c.zk.armed <==>
      x in s.c.zk.armed || (x.who == w && x.path == p &&
        if x.kind == Data then s.c.watchers[w].data else s.c.watchers[w].child)
    ensures u == s.(c := s.c.(zk := s.c.zk.(armed := u.c.zk.armed), log := u.c.log))
    ensures |u.c.log| == |s.c.log| + 1 && s.c.log <= u.c.log && u.c.log[|s.c.log|].Rearmed?
    ensures EventWatcher(s, env, what, p, w) ==
      Callback(u, env, w, p, if what == Removed || what == Created then DataChanged else what)
  {
    u := s.(c := AddListener(s.c, w, p, true).0);
    AddOutcome(s.c, w, p);
    assert s.c.listeners[w := s.c.listeners[w]] == s.c.listeners;
  }
}
