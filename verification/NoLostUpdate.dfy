/**
The registry's handler of a data event, taken apart into the steps between which
other clients can write: the event is fetched, the watch armed again, the node
read, the cache stored.
*/
module NoLostUpdate {
  import opened Wrappers
  import opened ZooKeeper
  import opened Client
  import opened Registry
  import opened ClientInvariants
  import opened Convergence

  /** Where the handler stands. */
  datatype Pc = Idle | Fetched(p: Path) | Watching(p: Path) | HasRead(p: Path, value: string)

  datatype Machine = Machine(s: Sys, pc: Pc)

  datatype Move =
    | Write(p: Path, data: Option<string>)
    | Fetch(e: Event)
    | Signal(p: Path)
    | Arm
    | Read
    | Store

  /** A data event of the registry's watcher that event_watcher lets through. */
  ghost predicate Deliverable(s: Sys, e: Event) {
    e in s.c.zk.queue && e.who == s.listener && e.what != Session && KindOf(e.what) == Data && Held(s, e.path)
  }

  /** `Signal` is the refresh pass reaching a registered path. */
  ghost function Step(m: Machine, move: Move): Machine {
    match move
    case Write(p, data) =>
      if |Value(Znode(data, 0))| <= MAX_LENGTH then m.(s := m.s.(c := m.s.c.(zk := Set(m.s.c.zk, p, data).0))) else m
    case Fetch(e) =>
      if m.pc == Idle && Deliverable(m.s, e) then Machine(Take(m.s, e), Fetched(e.path)) else m
    case Signal(p) =>
      if m.pc == Idle && Held(m.s, p) then m.(pc := Fetched(p)) else m
    case Arm =>
      if m.pc.Fetched? then
        var s1 := m.s.(c := AddListener(m.s.c, m.s.listener, m.pc.p, true).0);
        Machine(StartCallback(s1, m.s.listener, m.pc.p, DataChanged), Watching(m.pc.p))
      else m
    case Read =>
      if m.pc.Watching? then
        var (rc, value) := GetDataOfNode(m.s.c, m.pc.p);
        if m.pc.p in m.s.nodes && rc == Ok then m.(pc := HasRead(m.pc.p, value))
        else Machine(ContentChangeListener(m.s, m.pc.p, DataChanged), Idle)
      else m
    case Store =>
      if m.pc.HasRead? && m.pc.p in m.s.nodes then
        var cached := m.s.nodes[m.pc.p];
        Machine(if m.pc.value != cached.content
                then m.s.(nodes := m.s.nodes[m.pc.p := cached.(content := m.pc.value)]) else m.s, Idle)
      else m
  }

  ghost function Steps(m: Machine, moves: seq<Move>): Machine
    decreases |moves|
  {
    if moves == [] then m else Steps(Step(m, moves[0]), moves[1..])
  }

  ghost predicate Queued(s: Sys, p: Path) {
    exists e :: Deliverable(s, e) && e.path == p
  }

  /** No write to p is ever unseen: the watch is armed, or its event is on the way, or the
      handler is about to arm; and the cache is right, or it is about to be put right. */
  ghost predicate Follows(m: Machine, p: Path) {
    && p in m.s.c.zk.tree
    && Held(m.s, p)
    && (Armed(m.s, p) || Queued(m.s, p) || m.pc == Fetched(p))
    && (|| Queued(m.s, p)
        || m.pc == Fetched(p)
        || m.pc == Watching(p)
        || (if m.pc.HasRead? && m.pc.p == p then m.pc.value == Value(m.s.c.zk.tree[p])
            else p in m.s.nodes && Mirrors(m.s, p)))
  }

  ghost predicate FollowsAll(m: Machine) {
    && Available(m.s.c)
    && FlagsOf(m.s.c, m.s.listener).data
    && (forall p :: p in m.s.nodes ==> Follows(m, p))
    && (!m.pc.Idle? ==> Held(m.s, m.pc.p) && (m.pc.HasRead? ==> m.pc.p in m.s.nodes))
  }

  /** Every published path registered and watched, and cached as the server has it. */
  ghost predicate InSync(m: Machine) {
    && m.pc == Idle
    && Available(m.s.c)
    && FlagsOf(m.s.c, m.s.listener).data
    && (forall p :: p in m.s.nodes ==> Held(m.s, p) && Mirrors(m.s, p) && Armed(m.s, p))
  }

  lemma ArmedWriteQueues(s: Sys, p: Path, data: Option<string>, q: Path)
    requires p in s.c.zk.tree && Armed(s, q) && Held(s, q)
    ensures var t := s.(c := s.c.(zk := Set(s.c.zk, p, data).0));
      if q == p then Queued(t, q) else Armed(t, q)
  {
    var t := s.(c := s.c.(zk := Set(s.c.zk, p, data).0));
    WriteSignals(s.c.zk, p, data, Watch(s.listener, q, Data));
    if q == p { assert Deliverable(t, Event(s.listener, p, DataChanged)); }
  }

  lemma WriteKeepsQueue(s: Sys, p: Path, data: Option<string>, q: Path)
    requires p in s.c.zk.tree
    ensures var t := s.(c := s.c.(zk := Set(s.c.zk, p, data).0));
      && (Queued(s, q) ==> Queued(t, q))
      && (q in s.c.zk.tree ==> q in t.c.zk.tree && (q != p ==> t.c.zk.tree[q] == s.c.zk.tree[q]))
  {
    var t := s.(c := s.c.(zk := Set(s.c.zk, p, data).0));
    if Queued(s, q) {
      var e :| Deliverable(s, e) && e.path == q;
      assert Deliverable(t, e);
    }
  }

  lemma PathFollowsWrite(m: Machine, p: Path, data: Option<string>, q: Path)
    requires Follows(m, q)
    ensures Follows(m.(s := m.s.(c := m.s.c.(zk := Set(m.s.c.zk, p, data).0))), q)
  {
    if p in m.s.c.zk.tree {
      WriteKeepsQueue(m.s, p, data, q);
      if Armed(m.s, q) { ArmedWriteQueues(m.s, p, data, q); }
    }
  }

  lemma WriteFollows(m: Machine, p: Path, data: Option<string>)
    requires FollowsAll(m)
    ensures FollowsAll(Step(m, Write(p, data)))
  {
    var m' := Step(m, Write(p, data));
    if m' != m {
      forall q | q in m'.s.nodes ensures Follows(m', q) { PathFollowsWrite(m, p, data, q); }
    }
  }

  lemma FetchFollows(m: Machine, e: Event)
    requires FollowsAll(m)
    ensures FollowsAll(Step(m, Fetch(e)))
  {
    var m' := Step(m, Fetch(e));
    if m' != m {
      assert forall q :: Held(m.s, q) <==> Held(m'.s, q);
      forall q | q in m'.s.nodes ensures Follows(m', q) {
        assert Follows(m, q);
        if Queued(m.s, q) && q != e.path {
          var d :| Deliverable(m.s, d) && d.path == q;
          assert Deliverable(m'.s, d);
        }
      }
    }
  }

  lemma ArmFollows(m: Machine)
    requires FollowsAll(m)
    ensures FollowsAll(Step(m, Arm))
  {
    var m' := Step(m, Arm);
    if m.pc.Fetched? {
      assert forall q :: Held(m.s, q) <==> Held(m'.s, q);
      assert forall e :: Deliverable(m.s, e) <==> Deliverable(m'.s, e);
      forall q | q in m'.s.nodes ensures Follows(m', q) {
        assert Follows(m, q);
        if Armed(m.s, q) { assert Armed(m'.s, q); }
        if q == m.pc.p { assert Armed(m'.s, q); }
      }
    }
  }

  lemma ReadFollows(m: Machine)
    requires FollowsAll(m)
    ensures FollowsAll(Step(m, Read))
  {
    var m' := Step(m, Read);
    if m.pc.Watching? {
      if m.pc.p in m.s.nodes { assert Follows(m, m.pc.p); }
      assert m'.s == m.s;
      forall q | q in m'.s.nodes ensures Follows(m', q) { assert Follows(m, q); }
    }
  }

  lemma StoreFollows(m: Machine)
    requires FollowsAll(m)
    ensures FollowsAll(Step(m, Store))
  {
    var m' := Step(m, Store);
    if m' != m {
      assert m'.s.c == m.s.c;
      assert forall e :: Deliverable(m.s, e) <==> Deliverable(m'.s, e);
      forall q | q in m'.s.nodes ensures Follows(m', q) {
        assert Follows(m, q);
        if q != m.pc.p && Mirrors(m.s, q) { assert Mirrors(m'.s, q); }
      }
    }
  }

  lemma StepFollows(m: Machine, move: Move)
    requires FollowsAll(m)
    ensures FollowsAll(Step(m, move))
  {
    match move
    case Write(p, data) => WriteFollows(m, p, data);
    case Fetch(e) => FetchFollows(m, e);
    case Signal(p) => assert forall q :: Follows(m, q) && m.pc == Idle ==> Follows(m.(pc := Fetched(p)), q);
    case Arm => ArmFollows(m);
    case Read => ReadFollows(m);
    case Store => StoreFollows(m);
  }

  lemma {:induction false} StepsFollow(m: Machine, moves: seq<Move>)
    requires FollowsAll(m)
    ensures FollowsAll(Steps(m, moves))
    decreases |moves|
  {
    if moves != [] {
      StepFollows(m, moves[0]);
      StepsFollow(Step(m, moves[0]), moves[1..]);
    }
  }

  /** In every interleaving of other clients' writes with deliveries, refresh signals and
      the steps of the handler: a published path that the cache has wrong has an event on
      the way or a handler at work on it. */
  lemma NoUpdateIsLost(m: Machine, moves: seq<Move>, p: Path)
    requires InSync(m) && p in Steps(m, moves).s.nodes
    ensures var t := Steps(m, moves);
      Mirrors(t.s, p) || Queued(t.s, p) || (!t.pc.Idle? && t.pc.p == p)
  {
    assert FollowsAll(m);
    StepsFollow(m, moves);
    assert Follows(Steps(m, moves), p);
  }

  /** Why the watch is armed before the callback reads: a handler that reads without having
      armed, and arms at the end, can finish with the cache wrong and nothing on the way. */
  lemma ArmingAfterReadingLosesWrites(m: Machine, p: Path, data: Option<string>)
    requires m.pc == Watching(p) && Held(m.s, p) && !Armed(m.s, p) && !Queued(m.s, p)
    requires Available(m.s.c) && p in m.s.nodes && Mirrors(m.s, p)
    requires |Value(Znode(data, 0))| <= MAX_LENGTH && Value(Znode(data, 0)) != m.s.nodes[p].content
    ensures var t := Step(Step(Step(m, Read), Write(p, data)), Store);
      var t' := t.s.(c := AddListener(t.s.c, t.s.listener, p, true).0);
      t.pc == Idle && p in t'.nodes && !Mirrors(t', p) && !Queued(t', p)
  {
    var s1 := m.s.(c := m.s.c.(zk := Set(m.s.c.zk, p, data).0));
    ReadWriteStore(m, p, data);
    UnwatchedWrite(m.s, p, data);
    AddingChangesNoQueue(s1, p);
  }

  /** The value read before the write is the one the cache already had. */
  lemma ReadWriteStore(m: Machine, p: Path, data: Option<string>)
    requires m.pc == Watching(p) && Available(m.s.c) && p in m.s.nodes && Mirrors(m.s, p)
    requires |Value(Znode(data, 0))| <= MAX_LENGTH
    ensures Step(Step(Step(m, Read), Write(p, data)), Store)
      == Machine(m.s.(c := m.s.c.(zk := Set(m.s.c.zk, p, data).0)), Idle)
  {
    var m1 := Step(m, Read);
    assert m1 == Machine(m.s, HasRead(p, m.s.nodes[p].content));
    var m2 := Step(m1, Write(p, data));
    assert m2 == Machine(m.s.(c := m.s.c.(zk := Set(m.s.c.zk, p, data).0)), m1.pc);
  }

  lemma AddingChangesNoQueue(s: Sys, p: Path)
    requires Held(s, p) && !Queued(s, p)
    ensures var t := s.(c := AddListener(s.c, s.listener, p, true).0);
      !Queued(t, p) && t.nodes == s.nodes && t.c.zk.tree == s.c.zk.tree
  {
    var t := s.(c := AddListener(s.c, s.listener, p, true).0);
    assert forall e :: Deliverable(t, e) && e.path == p ==> Deliverable(s, e);
  }

  lemma UnwatchedWrite(s: Sys, p: Path, data: Option<string>)
    requires p in s.c.zk.tree && !Armed(s, p) && !Queued(s, p)
    ensures var t := s.(c := s.c.(zk := Set(s.c.zk, p, data).0));
      !Queued(t, p) && p in t.c.zk.tree && Value(t.c.zk.tree[p]) == Value(Znode(data, 0))
  {
    var t := s.(c := s.c.(zk := Set(s.c.zk, p, data).0));
    assert forall w :: w in FiredBySet(s.c.zk, p) ==> w.who != s.listener by {
      assert forall w :: w in FiredBySet(s.c.zk, p) ==> w == Watch(w.who, p, Data);
    }
    assert forall e :: Deliverable(t, e) && e.path == p ==> Deliverable(s, e);
  }

  // ----- the steps together are event_watcher

  ghost function Finish(m: Machine): Machine {
    Step(Step(Step(m, Arm), Read), Store)
  }

  ghost function Handle(m: Machine, e: Event): Machine {
    Finish(Step(m, Fetch(e)))
  }

  /** Undisturbed, the four steps are one delivery of the event. */
  lemma HandlingIsOneDelivery(m: Machine, env: Env, e: Event)
    requires m.pc == Idle && Deliverable(m.s, e)
    ensures Handle(m, e) == Machine(Next(m.s, env, Deliver(e)), Idle)
  {
    var m1 := Step(m, Fetch(e));
    var m2 := Step(m1, Arm);
    assert Held(m1.s, e.path);
    assert Next(m.s, env, Deliver(e)) == ContentChangeListener(m2.s, e.path, DataChanged);
  }

  // ----- once the writes stop

  predicate Quiet(move: Move) { !move.Write? && !move.Signal? }

  /** What is left to do: four steps for each event of the queue, and what the handler has begun. */
  function Work(m: Machine): nat {
    4 * |m.s.c.zk.queue| + match m.pc
      case Idle => 0
      case HasRead(_, _) => 1
      case Watching(_) => 2
      case Fetched(_) => 3
  }

  /** How many of the moves change the machine. */
  ghost function Changes(m: Machine, moves: seq<Move>): nat
    decreases |moves|
  {
    if moves == [] then 0
    else (if Step(m, moves[0]) == m then 0 else 1) + Changes(Step(m, moves[0]), moves[1..])
  }

  /** How many of the moves deliver an event. */
  ghost function Fetches(m: Machine, moves: seq<Move>): nat
    decreases |moves|
  {
    if moves == [] then 0
    else (if moves[0].Fetch? && Step(m, moves[0]) != m then 1 else 0) + Fetches(Step(m, moves[0]), moves[1..])
  }

  lemma QuietStepWorks(m: Machine, move: Move)
    requires FollowsAll(m) && Quiet(move) && Step(m, move) != m
    ensures Work(Step(m, move)) < Work(m)
    ensures |Step(m, move).s.c.zk.queue| == |m.s.c.zk.queue| - (if move.Fetch? then 1 else 0)
  {
    match move
    case Fetch(e) => assert |Take(m.s, e).c.zk.queue| == |m.s.c.zk.queue| - 1;
    case Arm =>
    case Read => if m.pc.p in m.s.nodes { assert Follows(m, m.pc.p); }
    case Store =>
  }

  lemma {:induction false} QuietMovesEnd(m: Machine, moves: seq<Move>)
    requires FollowsAll(m) && forall move :: move in moves ==> Quiet(move)
    ensures Changes(m, moves) + Work(Steps(m, moves)) <= Work(m)
    ensures Fetches(m, moves) + |Steps(m, moves).s.c.zk.queue| == |m.s.c.zk.queue|
    decreases |moves|
  {
    if moves != [] {
      if Step(m, moves[0]) != m { QuietStepWorks(m, moves[0]); }
      StepFollows(m, moves[0]);
      QuietMovesEnd(Step(m, moves[0]), moves[1..]);
    }
  }

  /** No delivery and no step of the handler is possible any more. */
  ghost predicate Settled(m: Machine) {
    forall move :: Quiet(move) ==> Step(m, move) == m
  }

  lemma BusyMoves(m: Machine)
    requires FollowsAll(m) && m.pc != Idle
    ensures Step(m, Arm) != m || Step(m, Read) != m || Step(m, Store) != m
  {
    if m.pc.p in m.s.nodes { assert Follows(m, m.pc.p); }
  }

  lemma DeliverableMoves(m: Machine, e: Event)
    requires m.pc == Idle && Deliverable(m.s, e)
    ensures Step(m, Fetch(e)) != m
  {
    assert Step(m, Fetch(e)).pc == Fetched(e.path);
  }

  lemma SettledIsIdle(m: Machine)
    requires FollowsAll(m)
    ensures Settled(m) <==> m.pc == Idle && forall e :: !Deliverable(m.s, e)
  {
    if m.pc != Idle { BusyMoves(m); }
    forall e | m.pc == Idle && Deliverable(m.s, e) ensures !Settled(m) {
      DeliverableMoves(m, e);
      assert Quiet(Fetch(e));
    }
  }

  lemma IdleAgrees(m: Machine)
    requires FollowsAll(m) && m.pc == Idle && forall e :: !Deliverable(m.s, e)
    ensures Agree(m.s)
  {
    forall p | p in m.s.nodes ensures Mirrors(m.s, p) { assert Follows(m, p); }
  }

  /** Whatever was written and delivered before: wherever the handler is idle and nothing is
      left to deliver, cache and server agree everywhere. */
  lemma NothingPendingMeansAgreement(m: Machine, moves: seq<Move>)
    requires InSync(m)
    requires Steps(m, moves).pc == Idle && forall e :: !Deliverable(Steps(m, moves).s, e)
    ensures Agree(Steps(m, moves).s)
  {
    StepsFollow(m, moves);
    IdleAgrees(Steps(m, moves));
  }

  /** Once writes and refresh signals stop, in whatever order the deliveries and the steps of
      the handler come: only so many of them can happen, and when no more can, cache and
      server agree everywhere. */
  lemma WritesSettle(m: Machine, moves: seq<Move>, quiet: seq<Move>)
    requires InSync(m) && forall move :: move in quiet ==> Quiet(move)
    ensures var t := Steps(m, moves); var u := Steps(t, quiet);
      && Changes(t, quiet) + Work(u) <= Work(t)
      && Fetches(t, quiet) + |u.s.c.zk.queue| == |t.s.c.zk.queue|
      && (Settled(u) ==> Agree(u.s))
      && (Work(u) == 0 ==> Settled(u))
  {
    var t := Steps(m, moves);
    var u := Steps(t, quiet);
    StepsFollow(m, moves);
    QuietMovesEnd(t, quiet);
    StepsFollow(t, quiet);
    SettledIsIdle(u);
    if Settled(u) { IdleAgrees(u); }
  }
}
