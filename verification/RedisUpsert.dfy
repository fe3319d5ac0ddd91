/** The Redis feature store (stores/redis/src/redis.c): any number of connections run the optimistic
    WATCH / HGET / MULTI / HSET / EXEC loop of `storeUpsertInternal` and the MULTI / DEL / HSET / SET / EXEC
    transaction of `storeInit` against one shared database. One `Step` is one command on one connection,
    so a run is an arbitrary interleaving.

    Redis itself is modelled by its documented transaction rule: a committed write marks every other
    connection that watches a touched key, EXEC on a marked connection answers nil and writes nothing,
    and EXEC always clears the connection's watches and mark. */
module RedisUpsert {
  import opened Basics

  type Kind = string
  type Key = string
  type ConnId = nat

  /** What a hash field holds, as the SDK reads it back. */
  datatype Stored =
    | Feature(version: nat, deleted: bool, body: string)
    | Unparsable(text: string)

  /** One hash per kind, and the marker key written by `storeInit`. */
  datatype Database = Database(hashes: map<Kind, map<Key, Stored>>, inited: bool)

  datatype Command = Del(kind: Kind) | HSet(kind: Kind, key: Key, value: Stored) | SetInited

  datatype Item = Item(key: Key, value: Stored)
  datatype Collection = Collection(kind: Kind, items: seq<Item>)

  /** A call of the store interface. `Upsert` carries the placeholder when it deletes. */
  datatype Call =
    | Upsert(kind: Kind, key: Key, version: nat, deleted: bool, body: string)
    | Init(collections: seq<Collection>)

  datatype Outcome = Wrote | Skipped | Failed

  datatype Entry = Entry(conn: ConnId, call: Call, outcome: Outcome)

  /** Where a connection stands: in the pool, before WATCH (or MULTI for `storeInit`), before HGET,
      decided to write, or inside MULTI with some commands queued. */
  datatype Phase =
    | Idle
    | Start(call: Call)
    | Watching(call: Call)
    | Chosen(call: Call)
    | InMulti(call: Call, queued: seq<Command>, todo: seq<Command>)

  datatype Connection = Connection(watched: set<Kind>, dirty: bool, phase: Phase, begun: seq<Call>)

  datatype State = State(
    db: Database,
    conns: map<ConnId, Connection>,
    log: seq<Entry>,
    nils: nat,
    commits: nat)

  datatype Step =
    | Open(c: ConnId)
    | Begin(c: ConnId, call: Call)
    | Watch(c: ConnId)
    | Read(c: ConnId)
    | Multi(c: ConnId)
    | Enqueue(c: ConnId)
    | Exec(c: ConnId, touched: set<Kind>)

  // ---------- the sequential store: what a call does when nothing interleaves ----------

  function Hash(db: Database, kind: Kind): map<Key, Stored> {
    if kind in db.hashes then db.hashes[kind] else map[]
  }

  function Apply(db: Database, cmd: Command): Database {
    match cmd
    case Del(kind) => db.(hashes := db.hashes - {kind})
    case HSet(kind, key, value) => db.(hashes := db.hashes[kind := Hash(db, kind)[key := value]])
    case SetInited => db.(inited := true)
  }

  function ApplyAll(db: Database, cmds: seq<Command>): Database {
    if cmds == [] then db else Apply(ApplyAll(db, cmds[..|cmds| - 1]), cmds[|cmds| - 1])
  }

  /** The decision after HGET: a missing item or a tombstone of any version counts as absent. */
  function Decide(db: Database, u: Call): Outcome
    requires u.Upsert?
  {
    var hash := Hash(db, u.kind);
    if u.key !in hash then Wrote
    else match hash[u.key]
      case Unparsable(_) => Failed
      case Feature(version, deleted, _) => if !deleted && version >= u.version then Skipped else Wrote
  }

  function Commands(call: Call): seq<Command> {
    match call
    case Upsert(kind, key, version, deleted, body) => [HSet(kind, key, Feature(version, deleted, body))]
    case Init(collections) => Fills(collections) + [SetInited]
  }

  /** storeInit empties each hash and fills it item by item. */
  function Fills(collections: seq<Collection>): seq<Command> {
    if collections == [] then []
    else
      var last := collections[|collections| - 1];
      Fills(collections[..|collections| - 1]) + ([Del(last.kind)] + Sets(last.kind, last.items))
  }

  function Sets(kind: Kind, items: seq<Item>): seq<Command> {
    if items == [] then []
    else Sets(kind, items[..|items| - 1]) + [HSet(kind, items[|items| - 1].key, items[|items| - 1].value)]
  }

  /** The entry describes what the atomic call would have done to `db`; `storeInit` may also give up. */
  predicate Legal(db: Database, e: Entry) {
    match e.call
    case Upsert(_, _, _, _, _) => e.outcome == Decide(db, e.call)
    case Init(_) => e.outcome != Skipped
  }

  function Effect(db: Database, e: Entry): Database {
    if e.outcome == Wrote then ApplyAll(db, Commands(e.call)) else db
  }

  function Replay(log: seq<Entry>): Database {
    if log == [] then Database(map[], false) else Effect(Replay(log[..|log| - 1]), log[|log| - 1])
  }

  /** `log` is a legal sequential history of atomic calls. */
  predicate Sequential(log: seq<Entry>) {
    forall i :: 0 <= i < |log| ==> Legal(Replay(log[..i]), log[i])
  }

  /** The calls of one connection, in the order the log linearises them. */
  function Issued(log: seq<Entry>, c: ConnId): seq<Call> {
    if log == [] then []
    else
      var last := log[|log| - 1];
      Issued(log[..|log| - 1], c) + (if last.conn == c then [last.call] else [])
  }

  // ---------- the interleaved protocol ----------

  predicate Enabled(s: State, step: Step) {
    match step
    case Open(c) => c !in s.conns
    case Begin(c, _) => c in s.conns && s.conns[c].phase.Idle?
    case Watch(c) => c in s.conns && s.conns[c].phase.Start? && s.conns[c].phase.call.Upsert?
    case Read(c) => c in s.conns && s.conns[c].phase.Watching? && s.conns[c].phase.call.Upsert?
    case Multi(c) =>
      && c in s.conns
      && (s.conns[c].phase.Chosen? || (s.conns[c].phase.Start? && s.conns[c].phase.call.Init?))
    case Enqueue(c) => c in s.conns && s.conns[c].phase.InMulti? && s.conns[c].phase.todo != []
    case Exec(c, touched) =>
      && c in s.conns
      && s.conns[c].phase.InMulti?
      && s.conns[c].phase.todo == []
      && Touches(s.db, s.conns[c].phase.queued, touched)
  }

  /** The keys Redis may signal as modified: an HSET always signals, a DEL only if the hash exists. */
  function Signalled(db: Database, cmds: seq<Command>): set<Kind> {
    set cmd | cmd in cmds && (cmd.HSet? || (cmd.Del? && cmd.kind in db.hashes)) :: cmd.kind
  }

  /** The keys it does signal: every HSET and every key whose hash changes, and no others than those. */
  predicate Touches(db: Database, cmds: seq<Command>, touched: set<Kind>) {
    && touched <= Signalled(db, cmds)
    && (forall cmd :: cmd in cmds && cmd.HSet? ==> cmd.kind in touched)
    && (forall kind :: kind in db.hashes && kind !in touched ==> Hash(ApplyAll(db, cmds), kind) == Hash(db, kind))
  }

  function Finish(s: State, c: ConnId, conn: Connection, call: Call, outcome: Outcome): State {
    s.(conns := s.conns[c := conn.(phase := Idle)], log := s.log + [Entry(c, call, outcome)])
  }

  /** A commit marks every other connection watching a touched key. */
  function MarkOthers(conns: map<ConnId, Connection>, c: ConnId, touched: set<Kind>): map<ConnId, Connection> {
    map d | d in conns ::
      if d != c && conns[d].watched * touched != {} then conns[d].(dirty := true) else conns[d]
  }

  /** WATCH adds to whatever the connection still watches from an earlier call. */
  function WatchReply(conn: Connection): Connection
    requires conn.phase.Start? && conn.phase.call.Upsert?
  {
    conn.(watched := conn.watched + {conn.phase.call.kind}, phase := Watching(conn.phase.call))
  }

  /** HGET and the version test. The early exits return the connection with its watches still in place. */
  function ReadReply(s: State, c: ConnId): State
    requires c in s.conns && s.conns[c].phase.Watching? && s.conns[c].phase.call.Upsert?
  {
    var conn := s.conns[c];
    var decision := Decide(s.db, conn.phase.call);
    if decision == Wrote then s.(conns := s.conns[c := conn.(phase := Chosen(conn.phase.call))])
    else Finish(s, c, conn, conn.phase.call, decision)
  }

  /** EXEC on a marked connection: nothing is written; the upsert starts over, `storeInit` gives up. */
  function NilReply(s: State, c: ConnId): State
    requires c in s.conns && s.conns[c].phase.InMulti?
  {
    var conn := s.conns[c];
    var clean := conn.(watched := {}, dirty := false);
    var s' := s.(nils := s.nils + 1);
    if conn.phase.call.Upsert? then s'.(conns := s.conns[c := clean.(phase := Start(conn.phase.call))])
    else Finish(s', c, clean, conn.phase.call, Failed)
  }

  /** EXEC on an unmarked connection. */
  function CommitReply(s: State, c: ConnId, touched: set<Kind>): State
    requires c in s.conns && s.conns[c].phase.InMulti?
  {
    var conn := s.conns[c];
    Finish(s.(db := ApplyAll(s.db, conn.phase.queued),
              conns := MarkOthers(s.conns, c, touched),
              commits := s.commits + 1),
           c, conn.(watched := {}, dirty := false), conn.phase.call, Wrote)
  }

  /** Steps that change nothing but their own connection. */
  function LocalMove(conn: Connection, step: Step): Connection
    requires step.Begin? ==> conn.phase.Idle?
    requires step.Watch? ==> conn.phase.Start? && conn.phase.call.Upsert?
    requires step.Multi? ==> conn.phase.Start? || conn.phase.Chosen?
    requires step.Enqueue? ==> conn.phase.InMulti? && conn.phase.todo != []
  {
    match step
    case Begin(_, call) => conn.(phase := Start(call), begun := conn.begun + [call])
    case Watch(_) => WatchReply(conn)
    case Multi(_) => conn.(phase := InMulti(conn.phase.call, [], Commands(conn.phase.call)))
    case Enqueue(_) =>
      conn.(phase := InMulti(conn.phase.call, conn.phase.queued + [conn.phase.todo[0]], conn.phase.todo[1..]))
    case _ => conn
  }

  function Next(s: State, step: Step): State
    requires Enabled(s, step)
  {
    match step
    case Open(c) => s.(conns := s.conns[c := Connection({}, false, Idle, [])])
    case Read(c) => ReadReply(s, c)
    case Exec(c, touched) => if s.conns[c].dirty then NilReply(s, c) else CommitReply(s, c, touched)
    case _ => s.(conns := s.conns[step.c := LocalMove(s.conns[step.c], step)])
  }

  const EMPTY := State(Database(map[], false), map[], [], 0, 0)

  predicate ValidRun(s: State, steps: seq<Step>)
    decreases |steps|
  {
    steps != [] ==> Enabled(s, steps[0]) && ValidRun(Next(s, steps[0]), steps[1..])
  }

  function After(s: State, steps: seq<Step>): State
    requires ValidRun(s, steps)
    decreases |steps|
  {
    if steps == [] then s else After(Next(s, steps[0]), steps[1..])
  }

  ghost predicate Reachable(s: State) {
    exists steps :: ValidRun(EMPTY, steps) && After(EMPTY, steps) == s
  }

  // ---------- invariant ----------

  predicate PhaseInv(db: Database, conn: Connection) {
    match conn.phase
    case Idle => true
    case Start(_) => true
    case Watching(call) => call.Upsert? && call.kind in conn.watched
    case Chosen(call) => call.Upsert? && call.kind in conn.watched && (!conn.dirty ==> Decide(db, call) == Wrote)
    case InMulti(call, queued, todo) =>
      && queued + todo == Commands(call)
      && (call.Upsert? ==> call.kind in conn.watched && (!conn.dirty ==> Decide(db, call) == Wrote))
  }

  function Current(phase: Phase): seq<Call> {
    if phase.Idle? then [] else [phase.call]
  }

  ghost predicate LogInv(db: Database, log: seq<Entry>) {
    db == Replay(log) && Sequential(log)
  }

  predicate PhasesInv(db: Database, conns: map<ConnId, Connection>) {
    forall c :: c in conns ==> PhaseInv(db, conns[c])
  }

  /** Calls end in the order each connection begins them. */
  ghost predicate OrderInv(conns: map<ConnId, Connection>, log: seq<Entry>) {
    && (forall c :: c in conns ==> conns[c].begun == Issued(log, c) + Current(conns[c].phase))
    && (forall c :: c !in conns ==> Issued(log, c) == [])
  }

  ghost predicate Inv(s: State) {
    LogInv(s.db, s.log) && PhasesInv(s.db, s.conns) && OrderInv(s.conns, s.log)
  }

  function DirtyConns(conns: map<ConnId, Connection>): set<ConnId> {
    set c | c in conns && conns[c].dirty
  }

  ghost predicate NilBudget(s: State) {
    && (s.conns == map[] ==> s.commits == 0)
    && s.nils + |DirtyConns(s.conns)| <= (|s.conns| - 1) * s.commits
  }

  // ---------- proofs ----------

  lemma {:induction false} LogGrows(log: seq<Entry>, e: Entry)
    requires Sequential(log)
    requires Legal(Replay(log), e)
    ensures LogInv(Effect(Replay(log), e), log + [e])
  {
    var log' := log + [e];
    assert log'[..|log|] == log;
    forall i | 0 <= i < |log'| ensures Legal(Replay(log'[..i]), log'[i]) {
      assert log'[..i] == log[..i];
      if i == |log| { assert log[..i] == log; }
    }
  }

  lemma {:induction false} IssuedGrows(log: seq<Entry>, e: Entry, c: ConnId)
    ensures Issued(log + [e], c) == Issued(log, c) + (if e.conn == c then [e.call] else [])
  {
    assert (log + [e])[..|log|] == log;
  }

  /** Connection `c` ends its call: the log and the connection's own order stay in step. */
  lemma {:induction false} EndingKeepsOrder(
    conns: map<ConnId, Connection>, conns': map<ConnId, Connection>, log: seq<Entry>, e: Entry)
    requires OrderInv(conns, log)
    requires e.conn in conns && !conns[e.conn].phase.Idle? && e.call == conns[e.conn].phase.call
    requires conns'.Keys == conns.Keys
    requires forall d :: d in conns ==> conns'[d].begun == conns[d].begun
    requires forall d :: d in conns ==> conns'[d].phase == if d == e.conn then Idle else conns[d].phase
    ensures OrderInv(conns', log + [e])
  {
    forall d | d in conns' ensures conns'[d].begun == Issued(log + [e], d) + Current(conns'[d].phase) {
      IssuedGrows(log, e, d);
      EmptyEnds(conns[d].begun);
      EmptyEnds(Issued(log, d));
    }
    forall d | d !in conns' ensures Issued(log + [e], d) == [] {
      IssuedGrows(log, e, d);
    }
  }

  /** Hashes that a transaction leaves alone keep every decision taken on them. */
  lemma {:induction false} DecideFrame(db: Database, db': Database, u: Call)
    requires u.Upsert?
    requires Hash(db', u.kind) == Hash(db, u.kind)
    ensures Decide(db', u) == Decide(db, u)
  {
  }

  lemma {:induction false} UntouchedStaysAbsent(db: Database, cmds: seq<Command>, kind: Kind)
    requires kind !in db.hashes
    requires forall cmd :: cmd in cmds && cmd.HSet? ==> cmd.kind != kind
    ensures kind !in ApplyAll(db, cmds).hashes
  {
    if cmds != [] {
      UntouchedStaysAbsent(db, cmds[..|cmds| - 1], kind);
      assert cmds[|cmds| - 1] in cmds;
    }
  }

  lemma {:induction false} CommitKeepsUntouchedHashes(db: Database, cmds: seq<Command>, touched: set<Kind>, kind: Kind)
    requires Touches(db, cmds, touched)
    requires kind !in touched
    ensures Hash(ApplyAll(db, cmds), kind) == Hash(db, kind)
  {
    if kind !in db.hashes {
      UntouchedStaysAbsent(db, cmds, kind);
    }
  }

  /** A step that moves connection `c` alone and ends no call. */
  lemma {:induction false} OneConnectionMoves(s: State, c: ConnId, conn: Connection)
    requires Inv(s)
    requires PhaseInv(s.db, conn)
    requires conn.begun == Issued(s.log, c) + Current(conn.phase)
    ensures PhasesInv(s.db, s.conns[c := conn]) && OrderInv(s.conns[c := conn], s.log)
  {
  }

  lemma {:induction false} LocalMoveKeepsInv(s: State, step: Step)
    requires Inv(s) && Enabled(s, step)
    requires !step.Open? && !step.Read? && !step.Exec?
    ensures Inv(s.(conns := s.conns[step.c := LocalMove(s.conns[step.c], step)]))
  {
    var conn := s.conns[step.c];
    assert PhaseInv(s.db, conn);
    assert conn.begun == Issued(s.log, step.c) + Current(conn.phase);
    if step.Enqueue? {
      assert (conn.phase.queued + [conn.phase.todo[0]]) + conn.phase.todo[1..] == conn.phase.queued + conn.phase.todo;
    }
    OneConnectionMoves(s, step.c, LocalMove(conn, step));
  }

  lemma {:induction false} ReadKeepsInv(s: State, c: ConnId)
    requires Inv(s) && c in s.conns && s.conns[c].phase.Watching? && s.conns[c].phase.call.Upsert?
    ensures Inv(ReadReply(s, c))
  {
    var conn := s.conns[c];
    assert PhaseInv(s.db, conn);
    assert conn.begun == Issued(s.log, c) + Current(conn.phase);
    var decision := Decide(s.db, conn.phase.call);
    if decision == Wrote {
      OneConnectionMoves(s, c, conn.(phase := Chosen(conn.phase.call)));
    } else {
      var e := Entry(c, conn.phase.call, decision);
      LogGrows(s.log, e);
      EndingKeepsOrder(s.conns, s.conns[c := conn.(phase := Idle)], s.log, e);
    }
  }

  lemma {:induction false} NilKeepsInv(s: State, c: ConnId)
    requires Inv(s) && c in s.conns && s.conns[c].phase.InMulti?
    ensures Inv(NilReply(s, c))
  {
    var conn := s.conns[c];
    assert conn.begun == Issued(s.log, c) + Current(conn.phase);
    if conn.phase.call.Upsert? {
      OneConnectionMoves(s, c, conn.(watched := {}, dirty := false, phase := Start(conn.phase.call)));
    } else {
      var e := Entry(c, conn.phase.call, Failed);
      LogGrows(s.log, e);
      EndingKeepsOrder(s.conns, NilReply(s, c).conns, s.log, e);
    }
  }

  /** A connection the commit leaves unmarked watched nothing it touched, so its decision still stands. */
  lemma {:induction false} UnmarkedDecisionsStand(
    db: Database, cmds: seq<Command>, touched: set<Kind>, conn: Connection)
    requires PhaseInv(db, conn) && Touches(db, cmds, touched)
    ensures PhaseInv(ApplyAll(db, cmds), if conn.watched * touched != {} then conn.(dirty := true) else conn)
  {
    if !conn.phase.Idle? && conn.phase.call.Upsert? && conn.watched * touched == {} {
      var kind := conn.phase.call.kind;
      assert kind in conn.watched && kind in touched ==> kind in conn.watched * touched;
      if kind !in touched {
        CommitKeepsUntouchedHashes(db, cmds, touched, kind);
        DecideFrame(db, ApplyAll(db, cmds), conn.phase.call);
      }
    }
  }

  /** At EXEC a clean connection writes what it decided, and the decision is still the atomic one. */
  lemma {:induction false} CommitIsAtomic(s: State, c: ConnId)
    requires PhasesInv(s.db, s.conns)
    requires c in s.conns && s.conns[c].phase.InMulti? && s.conns[c].phase.todo == [] && !s.conns[c].dirty
    ensures s.conns[c].phase.queued == Commands(s.conns[c].phase.call)
    ensures Legal(s.db, Entry(c, s.conns[c].phase.call, Wrote))
  {
  }

  lemma {:induction false} CommitKeepsPhases(s: State, c: ConnId, touched: set<Kind>)
    requires PhasesInv(s.db, s.conns) && c in s.conns && s.conns[c].phase.InMulti?
    requires Touches(s.db, s.conns[c].phase.queued, touched)
    ensures PhasesInv(CommitReply(s, c, touched).db, CommitReply(s, c, touched).conns)
  {
    var s' := CommitReply(s, c, touched);
    forall d | d in s'.conns ensures PhaseInv(s'.db, s'.conns[d]) {
      if d != c {
        assert PhaseInv(s.db, s.conns[d]);
        UnmarkedDecisionsStand(s.db, s.conns[c].phase.queued, touched, s.conns[d]);
      }
    }
  }

  lemma {:induction false} CommitKeepsInv(s: State, c: ConnId, touched: set<Kind>)
    requires Inv(s)
    requires c in s.conns && s.conns[c].phase.InMulti? && s.conns[c].phase.todo == [] && !s.conns[c].dirty
    requires Touches(s.db, s.conns[c].phase.queued, touched)
    ensures Inv(CommitReply(s, c, touched))
  {
    var e := Entry(c, s.conns[c].phase.call, Wrote);
    CommitKeepsPhases(s, c, touched);
    CommitIsAtomic(s, c);
    LogGrows(s.log, e);
    EndingKeepsOrder(s.conns, CommitReply(s, c, touched).conns, s.log, e);
  }

  lemma {:induction false} StepKeepsInv(s: State, step: Step)
    requires Inv(s) && Enabled(s, step)
    ensures Inv(Next(s, step))
  {
    match step
    case Open(c) => OneConnectionMoves(s, c, Connection({}, false, Idle, []));
    case Read(c) => ReadKeepsInv(s, c);
    case Exec(c, touched) =>
      if s.conns[c].dirty {
        NilKeepsInv(s, c);
      } else {
        CommitKeepsInv(s, c, touched);
      }
    case _ => LocalMoveKeepsInv(s, step);
  }

  /** Linearisability over whole runs. After every interleaving, the log of ended calls is a legal history of
      atomic calls, the database is that history replayed, and per connection the log lists exactly the
      calls it began, in order, up to the one still running. */
  lemma {:induction false} EveryRunIsSequential(s: State, steps: seq<Step>)
    requires Inv(s) && ValidRun(s, steps)
    ensures Inv(After(s, steps))
    decreases |steps|
  {
    if steps != [] {
      StepKeepsInv(s, steps[0]);
      EveryRunIsSequential(Next(s, steps[0]), steps[1..]);
    }
  }

  lemma {:induction false} RefinesAtomicCalls(s: State)
    requires Reachable(s)
    ensures Sequential(s.log) && s.db == Replay(s.log)
    ensures forall c :: c in s.conns ==> s.conns[c].begun == Issued(s.log, c) + Current(s.conns[c].phase)
  {
    var steps :| ValidRun(EMPTY, steps) && After(EMPTY, steps) == s;
    assert Inv(EMPTY);
    EveryRunIsSequential(EMPTY, steps);
  }

  /** What ended stays ended, in the same place. */
  lemma {:induction false} HistoryGrows(s: State, steps: seq<Step>, c: ConnId)
    requires ValidRun(s, steps) && c in s.conns
    ensures s.log <= After(s, steps).log
    ensures c in After(s, steps).conns && s.conns[c].begun <= After(s, steps).conns[c].begun
    decreases |steps|
  {
    if steps != [] {
      StepExtends(s, steps[0], c);
      HistoryGrows(Next(s, steps[0]), steps[1..], c);
    }
  }

  lemma {:induction false} StepExtends(s: State, step: Step, c: ConnId)
    requires Enabled(s, step) && c in s.conns
    ensures s.log <= Next(s, step).log && c in Next(s, step).conns && s.conns[c].begun <= Next(s, step).conns[c].begun
  {
  }

  lemma {:induction false} IssuedConcat(first: seq<Entry>, second: seq<Entry>, c: ConnId)
    ensures Issued(first + second, c) == Issued(first, c) + Issued(second, c)
    decreases |second|
  {
    if second == [] {
      assert first + second == first;
    } else {
      var n := |second| - 1;
      IssuedConcat(first, second[..n], c);
      assert (first + second)[..|first| + n] == first + second[..n];
    }
  }

  /** Real time: a call that begins now is logged, if at all, after everything that has already ended; the
      first call the connection ends from here on is this one, or it is still running. */
  lemma {:induction false} RespectsRealTime(s: State, c: ConnId, call: Call, steps: seq<Step>)
    requires Reachable(s) && Enabled(s, Begin(c, call)) && ValidRun(Next(s, Begin(c, call)), steps)
    ensures
      var t := After(Next(s, Begin(c, call)), steps);
      && s.log <= t.log && c in t.conns
      && [call] <= Issued(t.log[|s.log|..], c) + Current(t.conns[c].phase)
  {
    var past :| ValidRun(EMPTY, past) && After(EMPTY, past) == s;
    var s1 := Next(s, Begin(c, call));
    EveryRunIsSequential(EMPTY, past);
    StepKeepsInv(s, Begin(c, call));
    EveryRunIsSequential(s1, steps);
    HistoryGrows(s1, steps, c);
    BeganBefore(s, s1, After(s1, steps), c, call);
  }

  lemma {:induction false} BeganBefore(s: State, s1: State, t: State, c: ConnId, call: Call)
    requires c in s.conns && c in s1.conns && c in t.conns
    requires s.conns[c].begun == Issued(s.log, c) && s1.conns[c].begun == s.conns[c].begun + [call]
    requires s1.log == s.log && s1.log <= t.log && s1.conns[c].begun <= t.conns[c].begun
    requires t.conns[c].begun == Issued(t.log, c) + Current(t.conns[c].phase)
    ensures [call] <= Issued(t.log[|s.log|..], c) + Current(t.conns[c].phase)
  {
    var before, later := Issued(s.log, c), t.log[|s.log|..];
    assert t.log == s.log + later;
    IssuedConcat(s.log, later, c);
    var rest := Issued(later, c) + Current(t.conns[c].phase);
    assert t.conns[c].begun == before + rest;
    assert rest[0] == (before + rest)[|before|] == (before + [call])[|before|];
  }

  predicate LiveAt(db: Database, kind: Kind, key: Key) {
    key in Hash(db, kind) && Hash(db, kind)[key].Feature? && !Hash(db, kind)[key].deleted
  }

  /** Whatever the interleaving, leftover watches or concurrent `storeInit` calls: a step that is not the commit
      of a `storeInit` keeps every live item or replaces it by one of strictly higher version. */
  lemma {:induction false} LiveItemsOnlyGoForward(s: State, step: Step, kind: Kind, key: Key)
    requires Reachable(s) && Enabled(s, step)
    requires step.Exec? ==> s.conns[step.c].phase.call.Upsert?
    requires LiveAt(s.db, kind, key)
    ensures
      var old' := Hash(s.db, kind)[key];
      var db' := Next(s, step).db;
      && key in Hash(db', kind)
      && (Hash(db', kind)[key] == old'
        || (Hash(db', kind)[key].Feature? && Hash(db', kind)[key].version > old'.version))
  {
    var steps :| ValidRun(EMPTY, steps) && After(EMPTY, steps) == s;
    EveryRunIsSequential(EMPTY, steps);
    if step.Exec? && !s.conns[step.c].dirty {
      CommitIsAtomic(s, step.c);
      var u := s.conns[step.c].phase.call;
      SingletonTransaction(s.db, Commands(u)[0]);
      UpsertGoesForward(s.db, u, kind, key);
    }
  }

  lemma {:induction false} UpsertGoesForward(db: Database, u: Call, kind: Kind, key: Key)
    requires u.Upsert? && Decide(db, u) == Wrote && LiveAt(db, kind, key)
    ensures
      var was, hash' := Hash(db, kind)[key], Hash(Apply(db, Commands(u)[0]), kind);
      key in hash' && (hash'[key] == was || (hash'[key].Feature? && hash'[key].version > was.version))
  {
  }

  lemma {:induction false} SingletonTransaction(db: Database, cmd: Command)
    ensures ApplyAll(db, [cmd]) == Apply(db, cmd)
  {
  }

  /** Newest-version-wins fails at tombstones: an upsert commit lowers the stored version of its key exactly
      when a tombstone of a higher version was stored there. */
  lemma {:induction false} CommitLowersVersionIff(s: State, step: Step)
    requires Reachable(s) && Enabled(s, step)
    requires step.Exec? && !s.conns[step.c].dirty && s.conns[step.c].phase.call.Upsert?
    ensures
      var u := s.conns[step.c].phase.call;
      var before, after := Hash(s.db, u.kind), Hash(Next(s, step).db, u.kind);
      && u.key in after && after[u.key] == Feature(u.version, u.deleted, u.body)
      && ((u.key in before && before[u.key].Feature? && after[u.key].version < before[u.key].version)
          <==> (u.key in before && before[u.key].Feature? && before[u.key].deleted
            && before[u.key].version > u.version))
  {
    var steps :| ValidRun(EMPTY, steps) && After(EMPTY, steps) == s;
    EveryRunIsSequential(EMPTY, steps);
    CommitIsAtomic(s, step.c);
    SingletonTransaction(s.db, s.conns[step.c].phase.queued[0]);
  }

  function ChooseSteps(c: ConnId, u: Call): seq<Step> {
    [Begin(c, u)] + ([Watch(c)] + [Read(c)])
  }

  function CommitSteps(c: ConnId, kind: Kind): seq<Step> {
    [Multi(c)] + ([Enqueue(c)] + [Exec(c, {kind})])
  }

  function UpsertSteps(c: ConnId, u: Call): seq<Step>
    requires u.Upsert?
  {
    ChooseSteps(c, u) + CommitSteps(c, u.kind)
  }

  lemma {:induction false} RunsCompose(s: State, first: seq<Step>, second: seq<Step>)
    requires ValidRun(s, first) && ValidRun(After(s, first), second)
    ensures ValidRun(s, first + second) && After(s, first + second) == After(After(s, first), second)
    decreases |first|
  {
    if first == [] {
      assert first + second == second;
    } else {
      RunsCompose(Next(s, first[0]), first[1..], second);
      assert (first + second)[1..] == first[1..] + second;
    }
  }

  lemma {:induction false} StepThen(s: State, step: Step, rest: seq<Step>)
    requires Enabled(s, step) && ValidRun(Next(s, step), rest)
    ensures ValidRun(s, [step] + rest) && After(s, [step] + rest) == After(Next(s, step), rest)
    ensures [step] + [] == [step]
  {
  }

  lemma {:induction false} UndisturbedChoice(s: State, c: ConnId, u: Call)
    requires u.Upsert? && c in s.conns && s.conns[c].phase.Idle? && !s.conns[c].dirty
    requires Decide(s.db, u) == Wrote
    ensures ValidRun(s, ChooseSteps(c, u))
    ensures
      var s' := After(s, ChooseSteps(c, u));
      s'.db == s.db && c in s'.conns && s'.conns[c].phase == Chosen(u) && !s'.conns[c].dirty
      && OthersStay(s, s', c) && s'.log == s.log
  {
    var s1 := Next(s, Begin(c, u));
    var s2 := Next(s1, Watch(c));
    StepThen(s2, Read(c), []);
    StepThen(s1, Watch(c), [Read(c)]);
    StepThen(s, Begin(c, u), [Watch(c)] + [Read(c)]);
  }

  lemma {:induction false} UndisturbedCommit(s: State, c: ConnId, u: Call)
    requires u.Upsert? && c in s.conns && s.conns[c].phase == Chosen(u) && !s.conns[c].dirty
    ensures ValidRun(s, CommitSteps(c, u.kind))
    ensures
      var s' := After(s, CommitSteps(c, u.kind));
      s'.db == Apply(s.db, Commands(u)[0]) && c in s'.conns && s'.conns[c].phase.Idle? && !s'.conns[c].dirty
      && OthersSee(s, s', c, u.kind) && s'.log == s.log + [Entry(c, u, Wrote)]
  {
    var s1 := Next(s, Multi(c));
    var s2 := Next(s1, Enqueue(c));
    assert s2.conns[c].phase.queued == Commands(u);
    SingletonTransaction(s.db, Commands(u)[0]);
    MarksWatchers(s2.conns, c, u.kind);
    StepThen(s2, Exec(c, {u.kind}), []);
    StepThen(s1, Enqueue(c), [Exec(c, {u.kind})]);
    StepThen(s, Multi(c), [Enqueue(c)] + [Exec(c, {u.kind})]);
  }

  lemma {:induction false} MarksWatchers(conns: map<ConnId, Connection>, c: ConnId, kind: Kind)
    ensures forall d :: d in conns && d != c ==>
      MarkOthers(conns, c, {kind})[d] == if kind in conns[d].watched then conns[d].(dirty := true) else conns[d]
  {
    forall d | d in conns ensures conns[d].watched * {kind} != {} <==> kind in conns[d].watched {
      assert kind in conns[d].watched ==> kind in conns[d].watched * {kind};
    }
  }

  /** An undisturbed upsert that decides to write goes through. */
  lemma {:induction false} UndisturbedUpsert(s: State, c: ConnId, u: Call)
    requires u.Upsert? && c in s.conns && s.conns[c].phase.Idle? && !s.conns[c].dirty
    requires Decide(s.db, u) == Wrote
    ensures ValidRun(s, UpsertSteps(c, u))
    ensures
      var s' := After(s, UpsertSteps(c, u));
      s'.db == Apply(s.db, Commands(u)[0]) && c in s'.conns && s'.conns[c].phase.Idle? && !s'.conns[c].dirty
      && OthersSee(s, s', c, u.kind) && s'.log == s.log + [Entry(c, u, Wrote)]
  {
    UndisturbedChoice(s, c, u);
    UndisturbedCommit(After(s, ChooseSteps(c, u)), c, u);
    RunsCompose(s, ChooseSteps(c, u), CommitSteps(c, u.kind));
  }

  /** A run that ends with version 1 stored where version 2 had been: the tombstone did not protect the key. */
  lemma {:induction false} TombstoneIsReplacedByOlderItem() returns (steps: seq<Step>, split: nat)
    ensures split <= |steps| && ValidRun(EMPTY, steps[..split]) && ValidRun(EMPTY, steps)
    ensures
      var before, after := Hash(After(EMPTY, steps[..split]).db, "features"), Hash(After(EMPTY, steps).db, "features");
      before == map["a" := Feature(2, true, "")] && after == map["a" := Feature(1, false, "")]
  {
    var delete, older := Upsert("features", "a", 2, true, ""), Upsert("features", "a", 1, false, "");
    StepThen(EMPTY, Open(0), []);
    var connected := After(EMPTY, [Open(0)]);
    UndisturbedUpsert(connected, 0, delete);
    var deleted := After(connected, UpsertSteps(0, delete));
    assert Hash(deleted.db, "features") == map["a" := Feature(2, true, "")];
    UndisturbedUpsert(deleted, 0, older);
    var first := [Open(0)] + UpsertSteps(0, delete);
    RunsCompose(EMPTY, [Open(0)], UpsertSteps(0, delete));
    RunsCompose(EMPTY, first, UpsertSteps(0, older));
    steps, split := first + UpsertSteps(0, older), |first|;
    assert steps[..split] == first;
  }

  // ---------- initialisation against leftover watches ----------

  /** An upsert on this connection that ended without EXEC, and so without clearing its watch. */
  predicate EndedEarly(e: Entry, c: ConnId, kind: Kind) {
    e.conn == c && e.call.Upsert? && e.call.kind == kind && e.outcome != Wrote
  }

  ghost predicate LeftWatching(log: seq<Entry>, c: ConnId, kind: Kind) {
    exists i :: 0 <= i < |log| && EndedEarly(log[i], c, kind)
  }

  /** A watch is that of the current upsert or a leftover; a mark needs a watch. */
  ghost predicate WatchInv(log: seq<Entry>, c: ConnId, conn: Connection) {
    && (conn.dirty ==> conn.watched != {})
    && forall kind :: kind in conn.watched ==>
         (!conn.phase.Idle? && conn.phase.call.Upsert? && conn.phase.call.kind == kind) || LeftWatching(log, c, kind)
  }

  ghost predicate WatchesInv(s: State) {
    forall c :: c in s.conns ==> WatchInv(s.log, c, s.conns[c])
  }

  lemma {:induction false} LeftWatchingStays(log: seq<Entry>, e: Entry, c: ConnId, kind: Kind)
    ensures LeftWatching(log, c, kind) ==> LeftWatching(log + [e], c, kind)
    ensures EndedEarly(e, c, kind) ==> LeftWatching(log + [e], c, kind)
  {
    if i :| 0 <= i < |log| && EndedEarly(log[i], c, kind) {
      assert (log + [e])[i] == log[i];
    }
    assert (log + [e])[|log|] == e;
  }

  lemma {:induction false} StepKeepsWatches(s: State, step: Step)
    requires WatchesInv(s) && Enabled(s, step)
    ensures WatchesInv(Next(s, step))
  {
    var s' := Next(s, step);
    forall c | c in s'.conns ensures WatchInv(s'.log, c, s'.conns[c]) {
      if c in s.conns {
        assert WatchInv(s.log, c, s.conns[c]);
      }
      if |s'.log| > |s.log| {
        forall kind ensures LeftWatching(s.log, c, kind) ==> LeftWatching(s'.log, c, kind) {
          LeftWatchingStays(s.log, s'.log[|s.log|], c, kind);
        }
        if step.Read? && c == step.c {
          LeftWatchingStays(s.log, s'.log[|s.log|], c, s.conns[c].phase.call.kind);
        }
      }
    }
  }

  lemma {:induction false} EveryRunKeepsWatches(s: State, steps: seq<Step>)
    requires WatchesInv(s) && ValidRun(s, steps)
    ensures WatchesInv(After(s, steps))
    decreases |steps|
  {
    if steps != [] {
      StepKeepsWatches(s, steps[0]);
      EveryRunKeepsWatches(Next(s, steps[0]), steps[1..]);
    }
  }

  /** `storeInit` watches nothing, yet it fails, and writes nothing, exactly when its connection is marked at
      EXEC; the watch that was marked is left over from an upsert of the same connection that found a newer or
      unreadable item. */
  lemma {:induction false} InitFailsIff(s: State, step: Step)
    requires Reachable(s) && Enabled(s, step) && step.Exec? && s.conns[step.c].phase.call.Init?
    ensures
      var c, conn, s' := step.c, s.conns[step.c], Next(s, step);
      && s'.log == s.log + [Entry(c, conn.phase.call, if conn.dirty then Failed else Wrote)]
      && (conn.dirty ==> s'.db == s.db && exists kind :: kind in conn.watched && LeftWatching(s.log, c, kind))
  {
    var steps :| ValidRun(EMPTY, steps) && After(EMPTY, steps) == s;
    EveryRunKeepsWatches(EMPTY, steps);
    var conn := s.conns[step.c];
    assert WatchInv(s.log, step.c, conn);
    if conn.dirty {
      var kind :| kind in conn.watched;
      assert LeftWatching(s.log, step.c, kind);
    }
  }

  /** An undisturbed upsert that finds a newer item leaves its watch. */
  lemma {:induction false} UndisturbedSkip(s: State, c: ConnId, u: Call)
    requires u.Upsert? && c in s.conns && s.conns[c].phase.Idle? && Decide(s.db, u) == Skipped
    ensures ValidRun(s, ChooseSteps(c, u))
    ensures
      var s' := After(s, ChooseSteps(c, u));
      s'.db == s.db && c in s'.conns && s'.conns[c].phase.Idle? && u.kind in s'.conns[c].watched
      && OthersStay(s, s', c) && s'.log == s.log + [Entry(c, u, Skipped)]
  {
    var s1 := Next(s, Begin(c, u));
    var s2 := Next(s1, Watch(c));
    StepThen(s2, Read(c), []);
    StepThen(s1, Watch(c), [Read(c)]);
    StepThen(s, Begin(c, u), [Watch(c)] + [Read(c)]);
  }

  ghost predicate OthersStay(s: State, s': State, c: ConnId) {
    forall d :: d in s.conns && d != c ==> d in s'.conns && s'.conns[d] == s.conns[d]
  }

  /** The others are marked where they watch `kind`, and else as they were. */
  ghost predicate OthersSee(s: State, s': State, c: ConnId, kind: Kind) {
    forall d :: d in s.conns && d != c ==>
      d in s'.conns && s'.conns[d] == if kind in s.conns[d].watched then s.conns[d].(dirty := true) else s.conns[d]
  }

  function OpenInitSteps(c: ConnId): seq<Step> {
    [Begin(c, Init([]))] + ([Multi(c)] + [Enqueue(c)])
  }

  function InitSteps(c: ConnId): seq<Step> {
    OpenInitSteps(c) + [Exec(c, {})]
  }

  lemma {:induction false} SetTouchesNothing(db: Database)
    ensures Touches(db, [SetInited], {})
  {
    SingletonTransaction(db, SetInited);
  }

  lemma {:induction false} OpenInit(s: State, c: ConnId)
    requires c in s.conns && s.conns[c].phase.Idle?
    ensures ValidRun(s, OpenInitSteps(c))
    ensures
      var s' := After(s, OpenInitSteps(c));
      && s'.db == s.db && s'.log == s.log && c in s'.conns && s'.conns[c].dirty == s.conns[c].dirty
      && s'.conns[c].phase == InMulti(Init([]), [SetInited], [])
  {
    var s1 := Next(s, Begin(c, Init([])));
    var s2 := Next(s1, Multi(c));
    assert s2.conns[c].phase == InMulti(Init([]), [], [SetInited]);
    StepThen(s2, Enqueue(c), []);
    StepThen(s1, Multi(c), [Enqueue(c)]);
    StepThen(s, Begin(c, Init([])), [Multi(c)] + [Enqueue(c)]);
  }

  lemma {:induction false} MarkedExec(s: State, c: ConnId)
    requires c in s.conns && s.conns[c].dirty && s.conns[c].phase == InMulti(Init([]), [SetInited], [])
    ensures ValidRun(s, [Exec(c, {})])
    ensures
      var s' := After(s, [Exec(c, {})]);
      s'.db == s.db && s'.log == s.log + [Entry(c, Init([]), Failed)]
  {
    SetTouchesNothing(s.db);
    StepThen(s, Exec(c, {}), []);
  }

  lemma {:induction false} MarkedInit(s: State, c: ConnId)
    requires c in s.conns && s.conns[c].phase.Idle? && s.conns[c].dirty
    ensures ValidRun(s, InitSteps(c))
    ensures After(s, InitSteps(c)).db == s.db && After(s, InitSteps(c)).log == s.log + [Entry(c, Init([]), Failed)]
  {
    OpenInit(s, c);
    MarkedExec(After(s, OpenInitSteps(c)), c);
    RunsCompose(s, OpenInitSteps(c), [Exec(c, {})]);
  }

  const SECOND := Upsert("features", "a", 2, false, "")
  const FIRST := Upsert("features", "a", 1, false, "")
  const THIRD := Upsert("features", "a", 3, false, "")

  /** Two connections, an item of version 2, and an upsert of version 1 that is skipped. */
  lemma {:induction false} LeaveWatch() returns (steps: seq<Step>)
    ensures ValidRun(EMPTY, steps)
    ensures
      var s := After(EMPTY, steps);
      && s.conns.Keys >= {0, 1} && s.conns[0].phase.Idle? && "features" in s.conns[0].watched
      && s.conns[1] == Connection({}, false, Idle, []) && Decide(s.db, THIRD) == Wrote && |s.log| == 2
  {
    StepThen(Next(EMPTY, Open(0)), Open(1), []);
    StepThen(EMPTY, Open(0), [Open(1)]);
    var opening := [Open(0)] + [Open(1)];
    var s0 := After(EMPTY, opening);
    UndisturbedUpsert(s0, 0, SECOND);
    var s1 := After(s0, UpsertSteps(0, SECOND));
    UndisturbedSkip(s1, 0, FIRST);
    RunsCompose(s0, UpsertSteps(0, SECOND), ChooseSteps(0, FIRST));
    RunsCompose(EMPTY, opening, UpsertSteps(0, SECOND) + ChooseSteps(0, FIRST));
    steps := opening + (UpsertSteps(0, SECOND) + ChooseSteps(0, FIRST));
  }

  /** A run in which it does: connection 0 skips an upsert, connection 1 writes the hash, connection 0 initialises. */
  lemma {:induction false} LeftoverWatchFailsInit() returns (steps: seq<Step>)
    ensures ValidRun(EMPTY, steps) && |After(EMPTY, steps).log| == 4
    ensures After(EMPTY, steps).log[3] == Entry(0, Init([]), Failed)
  {
    var before := LeaveWatch();
    var s2 := After(EMPTY, before);
    UndisturbedUpsert(s2, 1, THIRD);
    var s3 := After(s2, UpsertSteps(1, THIRD));
    MarkedInit(s3, 0);
    RunsCompose(s2, UpsertSteps(1, THIRD), InitSteps(0));
    RunsCompose(EMPTY, before, UpsertSteps(1, THIRD) + InitSteps(0));
    steps := before + (UpsertSteps(1, THIRD) + InitSteps(0));
  }

  // ---------- progress ----------

  lemma {:induction false} DirtyAfterCommit(
    conns: map<ConnId, Connection>, c: ConnId, touched: set<Kind>, conn: Connection)
    requires c in conns && !conn.dirty
    ensures |DirtyConns(MarkOthers(conns, c, touched)[c := conn])| <= |conns| - 1
  {
    var dirty := DirtyConns(MarkOthers(conns, c, touched)[c := conn]);
    assert dirty <= conns.Keys - {c};
    SubsetSize(dirty, conns.Keys - {c});
  }

  lemma {:induction false} BudgetGrows(n: nat, commits: nat)
    ensures n * commits == (n - 1) * commits + commits
    ensures (n - 1) * (commits + 1) == (n - 1) * commits + (n - 1)
  {
  }

  lemma {:induction false} CommitKeepsNilBudget(s: State, c: ConnId, touched: set<Kind>)
    requires NilBudget(s) && c in s.conns && s.conns[c].phase.InMulti?
    ensures NilBudget(CommitReply(s, c, touched))
  {
    var s' := CommitReply(s, c, touched);
    assert s'.conns.Keys == s.conns.Keys;
    assert |s'.conns| == |s.conns|;
    DirtyAfterCommit(s.conns, c, touched, s'.conns[c]);
    BudgetGrows(|s.conns|, s.commits);
  }

  lemma {:induction false} NilKeepsNilBudget(s: State, c: ConnId)
    requires NilBudget(s) && c in s.conns && s.conns[c].phase.InMulti? && s.conns[c].dirty
    ensures NilBudget(NilReply(s, c))
  {
    var s' := NilReply(s, c);
    assert s'.conns.Keys == s.conns.Keys;
    assert |s'.conns| == |s.conns|;
    assert DirtyConns(s'.conns) == DirtyConns(s.conns) - {c};
  }

  lemma {:induction false} QuietMoveKeepsNilBudget(s: State, s': State, c: ConnId, conn: Connection)
    requires NilBudget(s) && c in s.conns && conn.dirty == s.conns[c].dirty
    requires s'.conns == s.conns[c := conn] && s'.nils == s.nils && s'.commits == s.commits
    ensures NilBudget(s')
  {
    assert s'.conns.Keys == s.conns.Keys;
    assert |s'.conns| == |s.conns|;
    assert DirtyConns(s'.conns) == DirtyConns(s.conns);
  }

  lemma {:induction false} OpeningKeepsNilBudget(s: State, c: ConnId, conn: Connection)
    requires NilBudget(s) && c !in s.conns && !conn.dirty
    ensures NilBudget(s.(conns := s.conns[c := conn]))
  {
    var s' := s.(conns := s.conns[c := conn]);
    assert |s'.conns| == |s.conns| + 1;
    assert DirtyConns(s'.conns) == DirtyConns(s.conns);
    BudgetGrows(|s.conns|, s.commits);
  }

  lemma {:induction false} StepKeepsNilBudget(s: State, step: Step)
    requires NilBudget(s) && Enabled(s, step)
    ensures NilBudget(Next(s, step))
  {
    match step
    case Open(c) => OpeningKeepsNilBudget(s, c, Connection({}, false, Idle, []));
    case Exec(c, touched) =>
      if s.conns[c].dirty {
        NilKeepsNilBudget(s, c);
      } else {
        CommitKeepsNilBudget(s, c, touched);
      }
    case _ => QuietMoveKeepsNilBudget(s, Next(s, step), step.c, Next(s, step).conns[step.c]);
  }

  lemma {:induction false} EveryRunKeepsNilBudget(s: State, steps: seq<Step>)
    requires NilBudget(s) && ValidRun(s, steps)
    ensures NilBudget(After(s, steps))
    decreases |steps|
  {
    if steps != [] {
      StepKeepsNilBudget(s, steps[0]);
      EveryRunKeepsNilBudget(Next(s, steps[0]), steps[1..]);
    }
  }

  /** System-wide progress: over any run, each nil EXEC reply is paid for by another connection's commit, so
      retries are at most (connections opened - 1) per committed transaction. */
  lemma {:induction false} NilRepliesAreBounded(s: State)
    requires Reachable(s) && s.conns != map[]
    ensures s.nils <= (|s.conns| - 1) * s.commits
  {
    var steps :| ValidRun(EMPTY, steps) && After(EMPTY, steps) == s;
    assert DirtyConns(EMPTY.conns) == {};
    EveryRunKeepsNilBudget(EMPTY, steps);
  }
}
