/** Index events (LDi_maybeMakeIndexEvent in src/event_processor.c): which users get one, decided from the whole run. */
module IndexEvents {
  import opened Basics
  import opened EventSpec
  import LruSpec

  /** The calls on the user list when a user is seen: a clear if the flush interval has passed, then an insertion. */
  function Visit(config: Config, s: State, user: string, now: real): seq<LruSpec.Op<string>> {
    if config.inlineUsers then []
    else Flush(config, s, now) + [LruSpec.Insert(user)]
  }

  function Flush(config: Config, s: State, now: real): seq<LruSpec.Op<string>> {
    if now > s.lastUserFlush + config.flushInterval then [LruSpec.Clear] else []
  }

  /** The user an operation sees, and when. */
  function UserOf(op: Op): Option<(string, real)> {
    match op
    case Evaluation(user, _, _, _, now) => Some((user, now))
    case Track(user, _, now) => Some((user, now))
    case _ => None
  }

  /** All calls on the user list over a run. */
  function Visits(config: Config, start: real, ops: seq<Op>): seq<LruSpec.Op<string>> {
    if ops == [] then []
    else
      var past, seen := ops[..|ops| - 1], UserOf(ops[|ops| - 1]);
      var s := Run(config, start, past).state;
      Visits(config, start, past) + if seen.None? then [] else Visit(config, s, seen.value.0, seen.value.1)
  }

  lemma {:induction false} FlushHistory(config: Config, s: State, now: real, history: seq<LruSpec.Op<string>>)
    requires s.users == LruSpec.After(config.userKeys, history)
    ensures Remembered(config, s, now) == LruSpec.After(config.userKeys, history + Flush(config, s, now))
  {
    if Flush(config, s, now) != [] {
      assert (history + [LruSpec.Clear])[|history|] == LruSpec.Clear;
    } else {
      assert history + [] == history;
    }
  }

  lemma {:induction false} VisitHistory(
    config: Config, s: State, user: string, now: real, history: seq<LruSpec.Op<string>>)
    requires s.users == LruSpec.After(config.userKeys, history)
    ensures Seen(config, s, user, now).users == LruSpec.After(config.userKeys, history + Visit(config, s, user, now))
  {
    FlushHistory(config, s, now, history);
    if config.inlineUsers {
      assert history + [] == history;
    } else {
      var flushed := history + Flush(config, s, now);
      assert history + Visit(config, s, user, now) == flushed + [LruSpec.Insert(user)];
      assert (flushed + [LruSpec.Insert(user)])[..|flushed|] == flushed;
    }
  }

  lemma {:induction false} UsersFollowVisit(config: Config, t: Trace, op: Op, history: seq<LruSpec.Op<string>>)
    requires t.state.users == LruSpec.After(config.userKeys, history)
    ensures var seen := UserOf(op);
      Next(config, t, op).state.users == LruSpec.After(config.userKeys,
        history + if seen.None? then [] else Visit(config, t.state, seen.value.0, seen.value.1))
  {
    if UserOf(op).Some? {
      VisitHistory(config, t.state, UserOf(op).value.0, UserOf(op).value.1, history);
    } else {
      EmptyEnds(history);
    }
  }

  lemma {:induction false} UsersFollowVisits(config: Config, start: real, ops: seq<Op>)
    ensures Run(config, start, ops).state.users == LruSpec.After(config.userKeys, Visits(config, start, ops))
    decreases |ops|
  {
    if ops != [] {
      var past := ops[..|ops| - 1];
      UsersFollowVisits(config, start, past);
      UsersFollowVisit(config, Run(config, start, past), ops[|ops| - 1], Visits(config, start, past));
    }
  }

  /** After any run, a user gets an index event unless it was seen since the last flush with fewer than
      `userKeys` other users seen after it. */
  lemma {:induction false} IndexEventIff(config: Config, start: real, ops: seq<Op>, user: string, now: real)
    requires !config.inlineUsers && config.userKeys >= 1
    ensures var s := Run(config, start, ops).state;
      var history := Visits(config, start, ops) + Flush(config, s, now);
      MakesIndex(config, s, user, now) <==>
        !exists p :: LruSpec.LatestInsertion(history, user, p) && |LruSpec.KeysAfter(history, p)| < config.userKeys
  {
    var s := Run(config, start, ops).state;
    UsersFollowVisits(config, start, ops);
    FlushHistory(config, s, now, Visits(config, start, ops));
    LruSpec.StackDistanceLaw(config.userKeys, Visits(config, start, ops) + Flush(config, s, now), user);
  }

  // ---------- one index event per user and window ----------

  /** The users seen since the user list was last flushed. */
  function SeenSince(config: Config, start: real, ops: seq<Op>): seq<string> {
    if ops == [] then []
    else
      var past, seen := ops[..|ops| - 1], UserOf(ops[|ops| - 1]);
      var users := SeenSince(config, start, past);
      if seen.None? || config.inlineUsers then users
      else (if Flush(config, Run(config, start, past).state, seen.value.1) != [] then [] else users) + [seen.value.0]
  }

  /** The users an index event was made for since then. */
  function MadeSince(config: Config, start: real, ops: seq<Op>): seq<string> {
    if ops == [] then []
    else
      var past, seen := ops[..|ops| - 1], UserOf(ops[|ops| - 1]);
      var s, users := Run(config, start, past).state, MadeSince(config, start, past);
      if seen.None? || config.inlineUsers then users
      else (if Flush(config, s, seen.value.1) != [] then [] else users)
           + if MakesIndex(config, s, seen.value.0, seen.value.1) then [seen.value.0] else []
  }

  function Inserts(users: seq<string>): seq<LruSpec.Op<string>> {
    seq(|users|, i requires 0 <= i < |users| => LruSpec.Insert(users[i]))
  }

  /** The calls on the user list end with the insertions of the current window, after a clear or from the beginning. */
  lemma {:induction false} VisitsEndInWindow(
    config: Config, start: real, ops: seq<Op>) returns (before: seq<LruSpec.Op<string>>)
    requires !config.inlineUsers
    ensures before == [] || before[|before| - 1] == LruSpec.Clear
    ensures Visits(config, start, ops) == before + Inserts(SeenSince(config, start, ops))
    decreases |ops|
  {
    if ops == [] {
      before := [];
    } else {
      var past, seen := ops[..|ops| - 1], UserOf(ops[|ops| - 1]);
      before := VisitsEndInWindow(config, start, past);
      if seen.Some? {
        var s, users := Run(config, start, past).state, SeenSince(config, start, past);
        InsertsGrow(before, users, seen.value.0);
        if Flush(config, s, seen.value.1) != [] {
          before := before + Inserts(users) + [LruSpec.Clear];
        }
      }
    }
  }

  lemma {:induction false} InsertsGrow(before: seq<LruSpec.Op<string>>, users: seq<string>, user: string)
    ensures (before + Inserts(users)) + ([] + [LruSpec.Insert(user)]) == before + Inserts(users + [user])
    ensures (before + Inserts(users)) + ([LruSpec.Clear] + [LruSpec.Insert(user)])
         == (before + Inserts(users) + [LruSpec.Clear]) + Inserts([] + [user])
  {
  }

  function Distinct(users: seq<string>): set<string> {
    set i | 0 <= i < |users| :: users[i]
  }

  lemma {:induction false} InsertedKeys(users: seq<string>)
    ensures LruSpec.AllInserts(Inserts(users)) && LruSpec.KeysOf(Inserts(users)) == Distinct(users)
  {
    forall u | u in Distinct(users) ensures u in LruSpec.KeysOf(Inserts(users)) {
      var i :| 0 <= i < |users| && users[i] == u;
      assert Inserts(users)[i] == LruSpec.Insert(u);
    }
  }

  lemma {:induction false} NewAfterInserts(
    capacity: nat, before: seq<LruSpec.Op<string>>, users: seq<string>, user: string)
    requires before == [] || before[|before| - 1] == LruSpec.Clear
    requires |Distinct(users + [user])| <= capacity
    ensures LruSpec.AnswerTo(LruSpec.After(capacity, before + Inserts(users)), capacity, user) == LruSpec.New
      <==> user !in users
  {
    var window := Inserts(users + [user]);
    InsertedKeys(users + [user]);
    LruSpec.OneNewAnswerPerWindow(capacity, before, window, |users|);
    assert window[..|users|] == Inserts(users);
    assert forall q :: 0 <= q < |users| ==> window[q] == LruSpec.Insert(users[q]);
  }

  /** In a window whose distinct users fit the list, a user is new exactly when not yet seen in it. */
  lemma {:induction false} NewInWindow(config: Config, start: real, past: seq<Op>, user: string, now: real)
    requires !config.inlineUsers && Flush(config, Run(config, start, past).state, now) == []
    requires |Distinct(SeenSince(config, start, past) + [user])| <= config.userKeys
    ensures MakesIndex(config, Run(config, start, past).state, user, now) <==> user !in SeenSince(config, start, past)
  {
    UsersFollowVisits(config, start, past);
    var before := VisitsEndInWindow(config, start, past);
    NewAfterInserts(config.userKeys, before, SeenSince(config, start, past), user);
  }

  lemma {:induction false} FewerBefore(users: seq<string>, user: string)
    ensures |Distinct(users)| <= |Distinct(users + [user])|
  {
    assert forall i :: 0 <= i < |users| ==> (users + [user])[i] == users[i];
    SubsetSize(Distinct(users), Distinct(users + [user]));
  }

  /** While the distinct users of a window fit the user list, every user seen in it gets exactly one index event. */
  lemma {:induction false} OneIndexEventPerWindow(config: Config, start: real, ops: seq<Op>, user: string)
    requires !config.inlineUsers && |Distinct(SeenSince(config, start, ops))| <= config.userKeys
    ensures multiset(MadeSince(config, start, ops))[user] == if user in SeenSince(config, start, ops) then 1 else 0
    decreases |ops|
  {
    if ops != [] {
      var past, seen := ops[..|ops| - 1], UserOf(ops[|ops| - 1]);
      if seen.None? {
        OneIndexEventPerWindow(config, start, past, user);
      } else {
        var (u, now) := seen.value;
        if Flush(config, Run(config, start, past).state, now) == [] {
          NewInWindow(config, start, past, u, now);
          FewerBefore(SeenSince(config, start, past), u);
          OneIndexEventPerWindow(config, start, past, user);
        }
      }
    }
  }
}
