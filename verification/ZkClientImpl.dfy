/**
The client and the registry as the objects they are: fields updated in place,
loops over the tables.  Every method is proved against the function of the same
name in Client and Registry, so what is proved there about runs holds of them.
*/
module ZkClientImpl {
  import opened Wrappers
  import opened ZooKeeper
  import opened Powers
  import C = Client
  import R = Registry

  newtype int32 = x: int | -0x8000_0000 <= x < 0x8000_0000

  /** C++ division truncates toward zero. */
  function Truncate(a: int, b: int): int
    requires 0 < b
  {
    if 0 <= a then a / b else -((-a) / b)
  }

  /** The quotient is the one with a remainder smaller than the divisor and of the sign of the
      dividend. */
  lemma TruncateIs(a: int, b: int)
    requires 0 < b
    ensures var r := a - b * Truncate(a, b); (0 <= a ==> 0 <= r < b) && (a < 0 ==> -b < r <= 0)
  {
    var q := (if 0 <= a then a else -a) / b;
    assert 0 <= (if 0 <= a then a else -a) - b * q < b;
  }

  /** One attempt at a session: whether zookeeper_init gives a handle, and at which polls
      the session is connected. */
  datatype Attempt = Attempt(session: nat, started: bool, ready: nat -> bool)

  datatype SessionState = Expired | Connecting | Connected | Other

  class ZkClient {
    /** The server, which other clients change between calls. */
    var zk: Server
    var handle: C.Handle
    /** The Watcher objects, by address. */
    var watchers: map<Addr, C.Flags>
    var listeners: map<Addr, C.Paths>
    /** History, for the specification only. */
    var log: seq<C.LogEntry>

    function View(): C.Client
      reads this
    {
      C.Client(zk, handle, watchers, listeners, log)
    }

    /** The table holds pointers to Watcher objects. */
    ghost predicate Valid()
      reads this
    {
      listeners.Keys <= watchers.Keys
    }

    constructor (server: Server)
      ensures Valid() && View() == C.Client(server, C.NoHandle, map[], map[], [])
    {
      zk, handle, watchers, listeners, log := server, C.NoHandle, map[], map[], [];
    }

    // ----- Watcher objects

    method NewWatcher(w: Addr, watchData: bool, watchChild: bool)
      requires Valid() && w !in watchers
      modifies this`watchers
      ensures Valid() && View() == old(View()).(watchers := old(watchers)[w := C.Flags(watchData, watchChild)])
    {
      watchers := watchers[w := C.Flags(watchData, watchChild)];
    }

    method CloseWatcher(w: Addr)
      requires Valid() && w in watchers
      modifies this`watchers
      ensures Valid() && watchers == old(watchers)[w := C.DEAD]
    {
      watchers := watchers[w := watchers[w].(child := false)];
      watchers := watchers[w := watchers[w].(data := false)];
    }

    predicate IsWatchData(w: Addr)
      reads this`watchers
    {
      w in watchers && watchers[w].data
    }

    predicate IsWatchChild(w: Addr)
      reads this`watchers
    {
      w in watchers && watchers[w].child
    }

    predicate IsLive(w: Addr)
      reads this`watchers
    {
      IsWatchData(w) || IsWatchChild(w)
    }

    // ----- the connection

    predicate IsAvailable()
      reads this`handle
    {
      handle.Open? && handle.link == C.Connected
    }

    method Close()
      requires Valid()
      modifies this
      ensures Valid() && View() == C.Close(old(View()))
    {
      if handle != C.NoHandle {
        zk := EndSession(zk, handle.session);
        handle := C.NoHandle;
      }
    }

    /** Polls with a doubling interval; gives up once the interval exceeds the session
        timeout in seconds.  `slept` is the time spent, `polls` how often it slept. */
    method CreateConnection(attempt: Attempt, timeout: int32) returns (connected: bool, ghost slept: nat, polls: nat)
      requires Valid()
      modifies this
      ensures Valid()
      ensures connected <==> handle.Open?
      ensures View() ==
        if connected then C.Connect(old(View()), attempt.session)
        else if attempt.started then C.Close(C.Connect(old(View()), attempt.session))
        else C.Close(old(View()))
      ensures var T := Truncate(timeout as int, 1000);
        && slept == Pow2(polls) - 1
        && slept <= (if 1 <= T then 4 * T - 1 else 1)
        && (2 <= polls ==> Pow2(polls - 2) <= T)
        && (forall k :: 0 <= k < polls ==> !attempt.ready(k))
        && (connected ==> attempt.started && attempt.ready(polls))
        && (attempt.started && !connected ==> 1 <= polls && T < Pow2(polls - 1))
    {
      Close();
      slept, polls, connected := 0, 0, false;
      if !attempt.started { return; }
      handle := C.Open(attempt.session, C.Connecting);
      var interval: int32 := 1;
      ghost var T := Truncate(timeout as int, 1000);
      while !attempt.ready(polls)
        invariant handle == C.Open(attempt.session, C.Connecting) && unchanged(`watchers, `listeners, `log)
        invariant zk == C.Close(old(View())).zk
        invariant interval as int == Pow2(polls) && slept == Pow2(polls) - 1
        invariant 1 <= polls ==> Pow2(polls - 1) <= T
        invariant T <= 2147483
        invariant forall k :: 0 <= k < polls ==> !attempt.ready(k)
        decreases 2 * T - interval as int
      {
        Pow2Positive(polls);
        slept := slept + interval as nat;
        polls := polls + 1;
        if interval as int > Truncate(timeout as int, 1000) {
          zk := EndSession(zk, attempt.session);
          handle := C.NoHandle;
          return;
        }
        interval := interval * 2;
      }
      handle := C.Open(attempt.session, C.Connected);
      connected := true;
      if polls == 0 { assert slept == 0; }
    }

    // ----- nodes

    method Exist(path: Path) returns (rc: ReturnCode)
      ensures rc == C.Exist(View(), path)
    {
      if !IsAvailable() { return Error; }
      return if path in zk.tree then Ok else NoNode;
    }

    method CreateNode(path: Path, data: string, mode: CreateMode) returns (rc: ReturnCode)
      requires Valid()
      modifies this`zk
      ensures Valid() && (View(), rc) == C.CreateNode(old(View()), path, data, mode)
    {
      if !IsAvailable() { return Error; }
      if |data| > MAX_LENGTH { return Error; }
      var owner := if mode == Ephemeral then handle.session else 0;
      if |data| == 0 {
        var result := Create(zk, path, None, owner);
        zk, rc := result.0, result.1;
      } else {
        var result := Create(zk, path, Some(data), owner);
        zk, rc := result.0, result.1;
      }
    }

    method DeleteNode(path: Path) returns (rc: ReturnCode)
      requires Valid()
      modifies this`zk
      ensures Valid() && (View(), rc) == C.DeleteNode(old(View()), path)
    {
      if !IsAvailable() { return Error; }
      var result := Delete(zk, path);
      zk, rc := result.0, result.1;
    }

    method SetDataOfNode(path: Path, value: string) returns (rc: ReturnCode)
      requires Valid()
      modifies this`zk
      ensures Valid() && (View(), rc) == C.SetDataOfNode(old(View()), path, value)
    {
      if !IsAvailable() { return Error; }
      if |value| > MAX_LENGTH { return Error; }
      rc := Exist(path);
      if rc != Ok { return; }
      var result := Set(zk, path, if |value| == 0 then None else Some(value));
      zk := result.0;
      if result.1 != Ok { rc := result.1; }
    }

    method GetDataOfNode(path: Path) returns (rc: ReturnCode, value: string)
      ensures (rc, value) == C.GetDataOfNode(View(), path)
    {
      value := "";
      if !IsAvailable() { return Error, value; }
      rc := Exist(path);
      if rc != Ok { return; }
      match zk.tree[path].data
      case None => value := "";
      case Some(d) => value := d;
    }

    // ----- listeners

    /** Arms the watches of a listener on a path that exists. */
    method ArmWatches(listener: Addr, path: Path)
      requires listener in watchers
      modifies this`zk
      ensures zk == old(zk).(armed := old(zk.armed) + C.WatchesOf(listener, path, watchers[listener]))
    {
      if IsWatchData(listener) {
        zk := zk.(armed := zk.armed + {Watch(listener, path, Data)});
      }
      if IsWatchChild(listener) {
        zk := zk.(armed := zk.armed + {Watch(listener, path, Child)});
      }
      assert zk.armed == old(zk.armed) + C.WatchesOf(listener, path, watchers[listener]);
    }

    /** The entry of a path; one that is there stays as it is. */
    method EnterPath(listener: Addr, path: Path)
      requires Valid() && listener in watchers
      modifies this`listeners
      ensures Valid()
      ensures var paths := C.PathsOf(old(View()), listener);
        listeners == old(listeners)[listener := if path in paths then paths else paths[path := watchers[listener]]]
    {
      if listener in listeners {
        if path !in listeners[listener] {
          var flags := C.Flags(IsWatchData(listener), IsWatchChild(listener));
          listeners := listeners[listener := listeners[listener][path := flags]];
        }
      } else {
        listeners := listeners[listener := map[path := C.Flags(IsWatchData(listener), IsWatchChild(listener))]];
      }
      assert listeners == old(listeners)[listener := listeners[listener]];
    }

    /** `again` marks the call event_watcher makes; it matters to the history only. */
    method AddListener(listener: Addr, path: Path, again: bool := false) returns (rc: ReturnCode)
      requires Valid() && listener in watchers
      modifies this`zk, this`listeners, this`log
      ensures Valid() && (View(), rc) == C.AddListener(old(View()), listener, path, again)
    {
      if !IsAvailable() { return Error; }
      rc := Exist(path);
      if rc != Ok { return; }
      if listener in listeners && !IsLive(listener) { return Error; }
      log := log + [C.ListenEntry(View(), listener, path, again)];
      EnterPath(listener, path);
      ArmWatches(listener, path);
    }

    method DropListenerWithPath(listener: Addr, path: Path) returns (rc: ReturnCode)
      requires Valid()
      modifies this`listeners, this`log
      ensures Valid() && (View(), rc) == C.DropListenerWithPath(old(View()), listener, path)
    {
      if !IsAvailable() { return Error; }
      if listener in listeners {
        if path in listeners[listener] {
          listeners := listeners[listener := listeners[listener] - {path}];
        } else {
          assert listeners[listener] - {path} == listeners[listener];
          assert listeners == listeners[listener := listeners[listener]];
        }
        log := log + [C.PathDropped(listener, path)];
        return Ok;
      } else {
        return Error;
      }
    }

    method DropListener(listener: Addr) returns (rc: ReturnCode)
      requires Valid()
      modifies this`watchers, this`log
      ensures Valid() && (View(), rc) == C.DropListener(old(View()), listener)
    {
      if !IsAvailable() { return Error; }
      if listener in listeners {
        log := log + [C.Closed({listener})];
        if IsLive(listener) {
          CloseWatcher(listener);
        } else {
          assert watchers[listener] == C.DEAD;
        }
        assert watchers == C.CloseWatchers(old(View()), {listener}).watchers;
        return Ok;
      } else {
        return Error;
      }
    }

    method Clear()
      requires Valid()
      modifies this`watchers, this`log
      ensures Valid() && View() == C.Clear(old(View()))
    {
      var rest := listeners.Keys;
      while rest != {}
        invariant rest <= listeners.Keys && Valid() && log == old(log)
        invariant watchers == map w | w in old(watchers) ::
                    if w in listeners.Keys - rest then C.DEAD else old(watchers)[w]
        decreases rest
      {
        var w :| w in rest;
        CloseWatcher(w);
        rest := rest - {w};
      }
      log := log + [C.Closed(listeners.Keys)];
    }

    // ----- events; `registry` is the object the registry's callback is bound to

    ghost predicate Wired(registry: ServiceRegistry)
      reads this
    {
      registry.client == this && Valid() && registry.listener in watchers
    }

    /** A call made by the callback of a user's watcher. */
    method Perform(registry: ServiceRegistry, act: R.Action)
      requires Wired(registry)
      modifies this, registry
      ensures Wired(registry) && registry.View() == R.Do(old(registry.View()), act)
    {
      var rc;
      match act
      case Add(w, p) => if w in watchers { rc := AddListener(w, p); }
      case DropPath(w, p) => rc := DropListenerWithPath(w, p);
      case Drop(w) => rc := DropListener(w);
      case ClearAll => Clear();
      case CreateAt(p, value, mode) => rc := CreateNode(p, value, mode);
      case SetAt(p, value) => rc := SetDataOfNode(p, value);
      case DeleteAt(p) => rc := DeleteNode(p);
      case CloseHandle => Close();
      case Publish(service, version, stat, name, content, temporary) =>
        var code := registry.PublishService(service, version, stat, name, content, temporary);
    }

    method RunScript(registry: ServiceRegistry, acts: seq<R.Action>)
      requires Wired(registry)
      modifies this, registry
      ensures Wired(registry) && registry.View() == R.DoAll(old(registry.View()), acts)
    {
      for i := 0 to |acts|
        invariant Wired(registry)
        invariant R.DoAll(old(registry.View()), acts) == R.DoAll(registry.View(), acts[i..])
      {
        Perform(registry, acts[i]);
      }
    }

    method EventWatcher(registry: ServiceRegistry, env: R.Env, what: EventType, path: Path, w: Addr)
      requires Wired(registry)
      modifies this, registry
      ensures Wired(registry) && registry.View() == R.EventWatcher(old(registry.View()), env, what, path, w)
    {
      var state := what;
      if what != Session && (what == Removed || what == Created) {
        state := DataChanged;
      }
      if w !in listeners { return; }
      var paths := listeners[w];
      if !IsLive(w) {
        if path in paths {
          if state == DataChanged {
            paths := paths[path := paths[path].(data := false)];
          } else if state == ChildrenChanged {
            paths := paths[path := paths[path].(child := false)];
          }
          if !paths[path].data && !paths[path].child {
            assert paths - {path} == listeners[w] - {path};
            paths := paths - {path};
            if paths == map[] {
              listeners := listeners - {w};
            } else {
              listeners := listeners[w := paths];
            }
          } else {
            assert paths == listeners[w][path := paths[path]];
            listeners := listeners[w := paths];
          }
        }
        return;
      } else if path !in paths {
        return;
      }
      var rc := AddListener(w, path, true);
      if what != Session {
        var scripted := |log|;
        log := log + [C.Called(w, path, state)];
        if w == registry.listener {
          registry.ContentChangeListener(path, state);
        } else {
          RunScript(registry, env.script(scripted));
        }
      }
    }

    /** Iterates the table in place while the callbacks it makes update it. */
    method TriggerAllWatcher(registry: ServiceRegistry, env: R.Env)
      requires Wired(registry)
      modifies this, registry
      ensures Wired(registry) && registry.View() == R.TriggerAllWatcher(old(registry.View()), env)
    {
      var next: int := 0;
      var it := R.NextKey(listeners.Keys, next);
      while it.Some?
        invariant Wired(registry) && 0 <= next <= ADDRESS_LIMIT && it == R.NextKey(listeners.Keys, next)
        invariant R.TriggerAllWatcher(old(registry.View()), env) == R.TriggerFrom(registry.View(), env, next)
        decreases ADDRESS_LIMIT - next
      {
        var key := it.value;
        if IsLive(key) {
          var paths := env.order(listeners[key].Keys);
          SignalAll(registry, env, key, paths);
        }
        next := (key as int) + 1;
        it := R.NextKey(listeners.Keys, next);
      }
    }

    method SignalAll(registry: ServiceRegistry, env: R.Env, key: Addr, paths: seq<Path>)
      requires Wired(registry)
      modifies this, registry
      ensures Wired(registry) && registry.View() == R.SignalPaths(old(registry.View()), env, key, paths)
    {
      for j := 0 to |paths|
        invariant Wired(registry)
        invariant R.SignalPaths(old(registry.View()), env, key, paths)
               == R.SignalPaths(registry.View(), env, key, paths[j..])
      {
        ghost var s := registry.View();
        if IsWatchChild(key) {
          EventWatcher(registry, env, ChildrenChanged, paths[j], key);
        }
        assert registry.View() == R.SignalChild(s, env, key, paths[j]);
        if IsWatchData(key) {
          EventWatcher(registry, env, DataChanged, paths[j], key);
        }
      }
    }

    /** One round of the background loop. */
    method Refresh(registry: ServiceRegistry, env: R.Env)
      requires Wired(registry)
      modifies this, registry
      ensures Wired(registry) && registry.View() == R.Next(old(registry.View()), env, R.Refresh)
    {
      if IsAvailable() {
        TriggerAllWatcher(registry, env);
      }
    }

    /** The session callback.  On expiry the handle is closed and attempts are made until
        one connects, if ever: `rounds` is how many of them are followed here.  A new session
        is new to the server. */
    method InitWatcher(registry: ServiceRegistry, env: R.Env, state: SessionState,
                       attempts: nat -> Attempt, timeout: int32, rounds: nat) returns (done: bool, session: nat)
      requires Wired(registry)
      requires state == Expired ==> handle.Open? && forall i: nat :: C.Fresh(View(), attempts(i).session)
      modifies this, registry
      ensures Wired(registry)
      ensures state != Expired ==> done
      ensures !done ==> forall i :: 0 <= i < rounds ==> !attempts(i).started || !attempts(i).ready(0)
      ensures var s := old(registry.View());
        match state
        case Connecting => registry.View() == s
        case Expired =>
          if done then
            && C.Fresh(s.c, session)
            && registry.View() == R.TriggerAllWatcher(s.(c := C.Connect(s.c, session)), env)
          else registry.View() == s.(c := C.Close(s.c))
        case _ => registry.View() == R.TriggerAllWatcher(s, env)
    {
      done, session := true, 0;
      if state == Expired {
        Close();
        var i, connected := 0, false;
        while !connected && i < rounds
          invariant Wired(registry) && registry.nodes == old(registry.nodes) && i <= rounds
          invariant connected ==> C.Fresh(old(View()), session) && View() == C.Connect(old(View()), session)
          invariant !connected ==> View() == C.Close(old(View()))
          invariant !connected ==> forall j :: 0 <= j < i ==> !attempts(j).started || !attempts(j).ready(0)
        {
          session := attempts(i).session;
          ghost var slept, polls;
          connected, slept, polls := CreateConnection(attempts(i), timeout);
          if !connected { FreshSessionLeavesNothing(old(View()), session); }
          i := i + 1;
        }
        done := connected;
      }
      if done && state != Connecting {
        TriggerAllWatcher(registry, env);
      }
    }
  }

  /** An attempt that fails leaves the server as closing the old session left it. */
  lemma FreshSessionLeavesNothing(c: C.Client, session: nat)
    requires c.handle.Open? && C.Fresh(c, session)
    ensures C.Close(C.Connect(C.Close(c), session)) == C.Close(c)
    ensures C.Close(C.Close(c)) == C.Close(c)
    ensures C.Connect(C.Close(c), session) == C.Connect(c, session)
  {
    var zk := C.Close(c).zk;
    assert EndSession(zk, session).tree == zk.tree;
  }

  class ServiceRegistry {
    const client: ZkClient
    const listener: Addr
    var nodes: map<Path, R.Entry>

    ghost function View(): R.Sys
      reads this, client
    {
      R.Sys(client.View(), nodes, listener)
    }

    constructor (client: ZkClient, listener: Addr)
      requires client.Valid() && listener !in client.watchers
      modifies client
      ensures this.client == client && this.listener == listener && client.Wired(this)
      ensures View() ==
        R.Sys(old(client.View()).(watchers := old(client.watchers)[listener := C.Flags(true, false)]), map[], listener)
    {
      this.client, this.listener, nodes := client, listener, map[];
      new;
      client.NewWatcher(listener, true, false);
    }

    method PublishService(service: string, version: string, stat: string, name: string, content: string, isTmp: bool)
      returns (code: int)
      requires client.Wired(this)
      modifies this, client
      ensures client.Wired(this)
      ensures (View(), code) == R.PublishService(old(View()), service, version, stat, name, content, isTmp)
    {
      if |service| == 0 || |version| == 0 || |stat| == 0 || |name| == 0 {
        return -1;
      }
      var path := "/" + service + "/" + version + "/" + stat + "/" + name;
      var rc := client.CreateNode(path, content, if isTmp then Ephemeral else Persistent);
      if rc != Ok { return -2; }
      if isTmp {
        nodes := nodes[path := R.Entry(isTmp, content)];
        rc := client.AddListener(listener, path);
        if rc != Ok { return -3; }
      }
      return 0;
    }

    method ContentChangeListener(path: Path, what: EventType)
      requires client.Wired(this)
      modifies this, client
      ensures client.Wired(this)
      ensures View() == R.ContentChangeListener(old(View()), path, what)
    {
      if what == DataChanged {
        if path in nodes {
          var oldValue := nodes[path].content;
          var rc, zkValue := client.GetDataOfNode(path);
          if rc != Ok {
            rc := client.Exist(path);
            if rc != Ok {
              var isTmp := nodes[path].temporary;
              rc := client.CreateNode(path, oldValue, if isTmp then Ephemeral else Persistent);
              rc := client.AddListener(listener, path);
            }
          } else if zkValue != oldValue {
            nodes := nodes[path := nodes[path].(content := zkValue)];
          }
        }
      }
    }

    method Destroy(env: R.Env)
      requires client.Wired(this)
      modifies client
      ensures client.Wired(this)
      ensures View() == R.Destroy(old(View()), env)
    {
      var rc := client.DropListener(listener);
      ghost var c := client.View();
      var paths := env.order(nodes.Keys);
      for i := 0 to |paths|
        invariant client.Wired(this)
        invariant R.DeleteAll(c, paths) == R.DeleteAll(client.View(), paths[i..])
      {
        rc := client.DeleteNode(paths[i]);
      }
    }
  }
}
