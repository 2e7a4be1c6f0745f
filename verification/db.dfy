/**
 * `ManagedConnection` of `jlr/db.py`: the single database connection, its
 * busy flag, the time it was last used and the rollback-only flag.
 *
 * The behaviour is stated twice: as pure step functions on the manager's
 * fields (`ManagerState`), about which the properties are proved, and as a
 * class whose methods update those fields in place and are proved to take
 * exactly the steps the functions describe. The physical connection is
 * abstract; a ghost log records what is sent to it.
 */
module Db {
  import opened Wrappers

  /** What the manager asks of the physical connection. */
  datatype Event = Connect | Commit | Rollback | Close

  /** The manager's fields; `connected` stands for `self.con` being set. */
  datatype ManagerState = ManagerState(connected: bool, busy: bool, lastUsed: Option<real>, commitAfterComplete: bool)

  /** The new fields and what was sent to the connection on the way. */
  datatype Step = Step(next: ManagerState, events: seq<Event>)

  /** `__init__`: no connection, not busy, never used, commit on completion. */
  function InitialState(): ManagerState
  {
    ManagerState(false, false, None, true)
  }

  /** An open connection has been used at some time. */
  predicate Consistent(s: ManagerState)
  {
    s.connected ==> s.lastUsed.Some?
  }

  /** `close()` */
  function CloseStep(s: ManagerState): Step
  {
    Step(s.(connected := false, busy := false), if s.connected then [Close] else [])
  }

  /** `begin_transaction()` at time `now`; None when opening the connection
    * fails, in which case nothing has changed. */
  function BeginStep(s: ManagerState, now: real, connectOk: bool): Option<Step>
  {
    if !s.connected && !connectOk then None
    else Some(Step(s.(connected := true, busy := true, lastUsed := Some(now)),
                   (if s.connected then [] else [Connect]) + (if s.busy then [Rollback] else [])))
  }

  /** `set_rollback_only()` */
  function SetRollbackOnlyStep(s: ManagerState): ManagerState
  {
    s.(commitAfterComplete := false)
  }

  /** `complete_transaction()` */
  function CompleteStep(s: ManagerState): Step
  {
    if !s.connected then Step(s.(busy := false), [])
    else if s.commitAfterComplete then Step(s.(busy := false), [Commit])
    else Step(s.(busy := false, commitAfterComplete := true), [Rollback])
  }

  /** The test of the closing thread: idle, connected, and unused for
    * strictly longer than the timeout. */
  predicate IdleExpired(s: ManagerState, now: real, timeoutSecs: real)
    requires Consistent(s)
  {
    !s.busy && s.connected && now > s.lastUsed.value + timeoutSecs
  }

  /** One wake-up of the closing thread. */
  function ReaperStep(s: ManagerState, now: real, timeoutSecs: real): Step
    requires Consistent(s)
  {
    if IdleExpired(s, now, timeoutSecs) then CloseStep(s) else Step(s, [])
  }

  /** What the function wrapped by `with_transaction` does to the manager:
    * whether it calls `set_rollback_only()` and whether it raises an
    * `Exception`, which the wrapper catches. */
  datatype Action = Action(setsRollbackOnly: bool, raises: bool)

  datatype TxOutcome = TxOutcome(next: ManagerState, events: seq<Event>, raised: bool)

  /** `with_transaction(func)(...)`: begin, run the function, set rollback-only
    * if it raised, and complete in every case; a failing connect raises
    * before the `try`. */
  function WithTransactionStep(s: ManagerState, now: real, connectOk: bool, action: Action): TxOutcome
  {
    match BeginStep(s, now, connectOk)
    case None => TxOutcome(s, [], true)
    case Some(b) =>
      var s1 := if action.setsRollbackOnly then SetRollbackOnlyStep(b.next) else b.next;
      var s2 := if action.raises then SetRollbackOnlyStep(s1) else s1;
      var c := CompleteStep(s2);
      TxOutcome(c.next, b.events + c.events, action.raises)
  }

  // ---------------------------------------------------------------------
  // Properties of single steps

  /** A connection is opened only when none exists and a stale transaction
    * is rolled back only when the manager is busy; afterwards the manager is
    * connected, busy and stamped with `now`. */
  lemma BeginSpec(s: ManagerState, now: real, connectOk: bool)
    ensures BeginStep(s, now, connectOk).None? <==> !s.connected && !connectOk
    ensures BeginStep(s, now, connectOk).Some? ==>
              var st := BeginStep(s, now, connectOk).value;
              && st.next.connected && st.next.busy && st.next.lastUsed == Some(now)
              && st.next.commitAfterComplete == s.commitAfterComplete
              && (Connect in st.events <==> !s.connected)
              && (Rollback in st.events <==> s.busy)
              && Commit !in st.events && Close !in st.events
  {
  }

  /** Beginning while busy rolls the stale transaction back, and nothing
    * else is sent to an open connection. */
  lemma BeginWhileBusyRollsBack(s: ManagerState, now: real, connectOk: bool)
    requires s.connected && s.busy
    ensures BeginStep(s, now, connectOk) == Some(Step(s.(lastUsed := Some(now)), [Rollback]))
  {
    assert [] + [Rollback] == [Rollback];
  }

  /** Rollback-only then complete rolls back instead of committing and leaves
    * the flag set to commit for the next transaction. */
  lemma RollbackOnlyThenCompleteRollsBack(s: ManagerState)
    requires s.connected
    ensures CompleteStep(SetRollbackOnlyStep(s)).events == [Rollback]
    ensures CompleteStep(SetRollbackOnlyStep(s)).next.commitAfterComplete
    ensures !CompleteStep(SetRollbackOnlyStep(s)).next.busy
  {
  }

  lemma SetRollbackOnlyIdempotent(s: ManagerState)
    ensures SetRollbackOnlyStep(SetRollbackOnlyStep(s)) == SetRollbackOnlyStep(s)
  {
  }

  /** Completing commits exactly when connected with the flag set, always
    * leaves the manager idle, and without a connection sends nothing and
    * keeps the flag as it was. */
  lemma CompleteSpec(s: ManagerState)
    ensures !CompleteStep(s).next.busy
    ensures CompleteStep(s).events == [Commit] <==> s.connected && s.commitAfterComplete
    ensures CompleteStep(s).events == [Rollback] <==> s.connected && !s.commitAfterComplete
    ensures !s.connected ==> CompleteStep(s).events == [] && CompleteStep(s).next.commitAfterComplete == s.commitAfterComplete
    ensures s.connected ==> CompleteStep(s).next.commitAfterComplete
    ensures CompleteStep(s).next.connected == s.connected && CompleteStep(s).next.lastUsed == s.lastUsed
  {
  }

  /** Closing drops the connection and the busy flag and keeps the rest;
    * closing again changes and sends nothing. */
  lemma CloseIdempotent(s: ManagerState)
    ensures !CloseStep(s).next.connected && !CloseStep(s).next.busy
    ensures CloseStep(s).next == s.(connected := false, busy := false)
    ensures CloseStep(CloseStep(s).next) == Step(CloseStep(s).next, [])
  {
  }

  /** The closing thread closes exactly an idle, expired connection; it never
    * touches a busy one. */
  lemma ReaperSpec(s: ManagerState, now: real, timeoutSecs: real)
    requires Consistent(s)
    ensures s.busy ==> ReaperStep(s, now, timeoutSecs) == Step(s, [])
    ensures ReaperStep(s, now, timeoutSecs).events == [Close] <==>
              !s.busy && s.connected && now > s.lastUsed.value + timeoutSecs
    ensures ReaperStep(s, now, timeoutSecs).events == [] ==> ReaperStep(s, now, timeoutSecs).next == s
  {
  }

  /** A transaction run through `with_transaction` ends in one commit or one
    * rollback: a commit exactly when the flag was set, the function did not
    * ask for rollback and did not raise. The exception is passed on, and the
    * next transaction starts with the flag set to commit. */
  lemma WithTransactionSpec(s: ManagerState, now: real, connectOk: bool, action: Action)
    requires s.connected || connectOk
    ensures var t := WithTransactionStep(s, now, connectOk, action);
            && t.raised == action.raises
            && |t.events| >= 1
            && t.events[|t.events| - 1] == (if s.commitAfterComplete && !action.setsRollbackOnly && !action.raises
                                             then Commit else Rollback)
            && Commit !in t.events[..|t.events| - 1]
            && t.next.connected && !t.next.busy && t.next.commitAfterComplete
            && t.next.lastUsed == Some(now)
  {
    var last := if s.commitAfterComplete && !action.setsRollbackOnly && !action.raises then Commit else Rollback;
    var begin := BeginStep(s, now, connectOk).value.events;
    WithTransactionUnfold(s, now, connectOk, action);
    BeginNeverCommits(s, now, connectOk);
    var t := WithTransactionStep(s, now, connectOk, action);
    assert t.events == begin + [last];
    assert t.events[|t.events| - 1] == last;
    assert t.events[..|t.events| - 1] == begin;
  }

  /** The outcome of a transaction whose connection is open or opens. */
  lemma WithTransactionUnfold(s: ManagerState, now: real, connectOk: bool, action: Action)
    requires s.connected || connectOk
    ensures WithTransactionStep(s, now, connectOk, action) ==
              TxOutcome(s.(connected := true, busy := false, lastUsed := Some(now), commitAfterComplete := true),
                        BeginStep(s, now, connectOk).value.events
                        + [if s.commitAfterComplete && !action.setsRollbackOnly && !action.raises then Commit else Rollback],
                        action.raises)
  {
    var b := BeginStep(s, now, connectOk).value;
    BeginNeverCommits(s, now, connectOk);
    var s1 := if action.setsRollbackOnly then SetRollbackOnlyStep(b.next) else b.next;
    var s2 := if action.raises then SetRollbackOnlyStep(s1) else s1;
    assert s2 == b.next.(commitAfterComplete := s.commitAfterComplete && !action.setsRollbackOnly && !action.raises);
    CompleteConnected(s2);
  }

  lemma BeginNeverCommits(s: ManagerState, now: real, connectOk: bool)
    requires BeginStep(s, now, connectOk).Some?
    ensures Commit !in BeginStep(s, now, connectOk).value.events
    ensures BeginStep(s, now, connectOk).value.next == s.(connected := true, busy := true, lastUsed := Some(now))
  {
  }

  lemma CompleteConnected(s: ManagerState)
    requires s.connected
    ensures CompleteStep(s).events == [if s.commitAfterComplete then Commit else Rollback]
    ensures CompleteStep(s).next == s.(busy := false, commitAfterComplete := true)
  {
  }

  /** A failing connect raises before anything runs and changes nothing. */
  lemma WithTransactionConnectFails(s: ManagerState, now: real, action: Action)
    requires !s.connected
    ensures WithTransactionStep(s, now, false, action) == TxOutcome(s, [], true)
  {
  }

  // ---------------------------------------------------------------------
  // Whole runs: the connection protocol

  /** An operation a caller (or the closing thread) performs on the manager. */
  datatype Op =
    | BeginOp(now: real, connectOk: bool)
    | SetRollbackOnlyOp
    | CompleteOp
    | CloseOp
    | ReaperTickOp(now: real)
    | WithTransactionOp(now: real, connectOk: bool, action: Action)

  function Apply(s: ManagerState, op: Op, timeoutSecs: real): Step
    requires Consistent(s)
  {
    match op
    case BeginOp(now, ok) => (match BeginStep(s, now, ok) case None => Step(s, []) case Some(st) => st)
    case SetRollbackOnlyOp => Step(SetRollbackOnlyStep(s), [])
    case CompleteOp => CompleteStep(s)
    case CloseOp => CloseStep(s)
    case ReaperTickOp(now) => ReaperStep(s, now, timeoutSecs)
    case WithTransactionOp(now, ok, a) =>
      var t := WithTransactionStep(s, now, ok, a);
      Step(t.next, t.events)
  }

  /** Every operation keeps the manager consistent. */
  lemma ApplyConsistent(s: ManagerState, op: Op, timeoutSecs: real)
    requires Consistent(s)
    ensures Consistent(Apply(s, op, timeoutSecs).next)
  {
  }

  function Run(s: ManagerState, ops: seq<Op>, timeoutSecs: real): (r: Step)
    requires Consistent(s)
    ensures Consistent(r.next)
    decreases |ops|
  {
    if ops == [] then Step(s, [])
    else
      var first := Apply(s, ops[0], timeoutSecs);
      ApplyConsistent(s, ops[0], timeoutSecs);
      var rest := Run(first.next, ops[1..], timeoutSecs);
      Step(rest.next, first.events + rest.events)
  }

  /** Replays events against "is a connection open": a connection is opened
    * only when none is open, and commit, rollback and close go only to an
    * open one. None when the events break that protocol. */
  function Replay(open: bool, events: seq<Event>): Option<bool>
    decreases |events|
  {
    if events == [] then Some(open)
    else match events[0]
      case Connect => if open then None else Replay(true, events[1..])
      case Close => if open then Replay(false, events[1..]) else None
      case _ => if open then Replay(open, events[1..]) else None
  }

  lemma {:induction false} ReplayAppend(open: bool, a: seq<Event>, b: seq<Event>)
    ensures Replay(open, a + b) == match Replay(open, a) case None => None case Some(o) => Replay(o, b)
    decreases |a|
  {
    if a != [] {
      assert (a + b)[0] == a[0] && (a + b)[1..] == a[1..] + b;
      match a[0]
      case Connect => if !open { ReplayAppend(true, a[1..], b); }
      case Close => if open { ReplayAppend(false, a[1..], b); }
      case _ => if open { ReplayAppend(open, a[1..], b); }
    } else {
      assert a + b == b;
    }
  }

  lemma BeginFollowsProtocol(s: ManagerState, now: real, connectOk: bool)
    requires BeginStep(s, now, connectOk).Some?
    ensures Replay(s.connected, BeginStep(s, now, connectOk).value.events) == Some(true)
  {
    var events := BeginStep(s, now, connectOk).value.events;
    if !s.connected {
      assert events[0] == Connect;
      if s.busy {
        assert events[1..] == [Rollback];
        assert Replay(true, [Rollback]) == Replay(true, []);
      } else {
        assert events[1..] == [];
      }
    }
  }

  lemma CompleteFollowsProtocol(s: ManagerState)
    ensures Replay(s.connected, CompleteStep(s).events) == Some(CompleteStep(s).next.connected)
  {
  }

  /** Each operation follows the protocol from the state it starts in. */
  lemma ApplyFollowsProtocol(s: ManagerState, op: Op, timeoutSecs: real)
    requires Consistent(s)
    ensures Replay(s.connected, Apply(s, op, timeoutSecs).events) == Some(Apply(s, op, timeoutSecs).next.connected)
  {
    match op
    case WithTransactionOp(now, ok, a) =>
      if BeginStep(s, now, ok).Some? {
        var b := BeginStep(s, now, ok).value;
        var s1 := if a.setsRollbackOnly then SetRollbackOnlyStep(b.next) else b.next;
        var s2 := if a.raises then SetRollbackOnlyStep(s1) else s1;
        BeginFollowsProtocol(s, now, ok);
        CompleteFollowsProtocol(s2);
        ReplayAppend(s.connected, b.events, CompleteStep(s2).events);
      }
    case BeginOp(now, ok) =>
      if BeginStep(s, now, ok).Some? {
        BeginFollowsProtocol(s, now, ok);
      }
    case CompleteOp => CompleteFollowsProtocol(s);
    case _ =>
  }

  /** Over any run, at most one physical connection exists at a time: the
    * events never open a second connection, and never commit, roll back or
    * close when none is open. */
  lemma {:induction false} RunFollowsProtocol(s: ManagerState, ops: seq<Op>, timeoutSecs: real)
    requires Consistent(s)
    ensures Replay(s.connected, Run(s, ops, timeoutSecs).events) == Some(Run(s, ops, timeoutSecs).next.connected)
    decreases |ops|
  {
    if ops != [] {
      var first := Apply(s, ops[0], timeoutSecs);
      ApplyConsistent(s, ops[0], timeoutSecs);
      ApplyFollowsProtocol(s, ops[0], timeoutSecs);
      RunFollowsProtocol(first.next, ops[1..], timeoutSecs);
      ReplayAppend(s.connected, first.events, Run(first.next, ops[1..], timeoutSecs).events);
    }
  }

  // ---------------------------------------------------------------------
  // The class

  /** The physical connection, opened by `psycopg2.connect`. */
  class Connection {
    constructor ()
    {
    }
  }

  class ManagedConnection {
    const timeoutSecs: real
    var con: Connection?
    var busy: bool
    var lastUsed: Option<real>
    var commitAfterComplete: bool
    /** What has been sent to physical connections, oldest first. */
    ghost var log: seq<Event>

    function State(): ManagerState
      reads this
    {
      ManagerState(con != null, busy, lastUsed, commitAfterComplete)
    }

    ghost predicate Valid()
      reads this
    {
      Consistent(State()) && Replay(false, log) == Some(con != null)
    }

    /** `ManagedConnection(params, cursor_factory, timeout_secs)`; the
      * connection parameters are not modelled. */
    constructor (timeoutSecs: real)
      ensures Valid() && State() == InitialState() && log == []
      ensures this.timeoutSecs == timeoutSecs
    {
      this.timeoutSecs := timeoutSecs;
      con := null;
      busy := false;
      lastUsed := None;
      commitAfterComplete := true;
      log := [];
    }

    /** Records that `events` were sent, keeping the log's protocol. */
    ghost method Record(events: seq<Event>, wasOpen: bool)
      requires Replay(false, log) == Some(wasOpen)
      requires Replay(wasOpen, events) == Some(con != null)
      modifies this`log
      ensures log == old(log) + events
      ensures Replay(false, log) == Some(con != null)
    {
      ReplayAppend(false, log, events);
      log := log + events;
    }

    /** `close()`: takes `CloseStep`. */
    method Close()
      requires Valid()
      modifies this
      ensures Valid()
      ensures State() == CloseStep(old(State())).next
      ensures log == old(log) + CloseStep(old(State())).events
    {
      ghost var wasOpen := con != null;
      if con != null {
        con := null;
        Record([Event.Close], wasOpen);
      }
      busy := false;
    }

    /** `begin_transaction()`: takes `BeginStep`. Returns the connection, or
      * null when opening it failed (the exception of `psycopg2.connect`);
      * `now` is `time.time()`. */
    method BeginTransaction(now: real, connectOk: bool) returns (c: Connection?)
      requires Valid()
      modifies this
      ensures Valid()
      ensures BeginStep(old(State()), now, connectOk).None? ==>
                c == null && State() == old(State()) && log == old(log)
      ensures BeginStep(old(State()), now, connectOk).Some? ==>
                && c != null && c == con
                && State() == BeginStep(old(State()), now, connectOk).value.next
                && log == old(log) + BeginStep(old(State()), now, connectOk).value.events
      ensures old(con) != null ==> c == old(con)
      ensures old(con) == null && c != null ==> fresh(c)
    {
      ghost var wasOpen := con != null;
      if con == null {
        if !connectOk {
          return null;
        }
        con := new Connection();
        Record([Connect], wasOpen);
      }
      if busy {
        Record([Rollback], true);
      }
      busy := true;
      lastUsed := Some(now);
      return con;
    }

    /** `set_rollback_only()`: takes `SetRollbackOnlyStep`, keeping the
      * connection. */
    method SetRollbackOnly()
      requires Valid()
      modifies this
      ensures Valid()
      ensures State() == SetRollbackOnlyStep(old(State())) && log == old(log)
      ensures con == old(con)
    {
      commitAfterComplete := false;
    }

    /** `complete_transaction()`: takes `CompleteStep`, keeping the
      * connection. */
    method CompleteTransaction()
      requires Valid()
      modifies this
      ensures Valid()
      ensures State() == CompleteStep(old(State())).next
      ensures log == old(log) + CompleteStep(old(State())).events
      ensures con == old(con)
    {
      if con != null {
        if commitAfterComplete {
          Record([Commit], true);
        } else {
          Record([Rollback], true);
          commitAfterComplete := true;
        }
      }
      busy := false;
    }

    /** The closing thread's test at time `now`: `IdleExpired`. */
    function ShouldClose(now: real): (r: bool)
      reads this
      requires Valid()
      ensures r == IdleExpired(State(), now, timeoutSecs)
    {
      !busy && con != null && now > lastUsed.value + timeoutSecs
    }

    /** One wake-up of the closing thread, at time `now`: takes `ReaperStep`.
      * It drops an expired connection and otherwise keeps the one it has. */
    method ReaperTick(now: real)
      requires Valid()
      modifies this
      ensures Valid()
      ensures State() == ReaperStep(old(State()), now, timeoutSecs).next
      ensures log == old(log) + ReaperStep(old(State()), now, timeoutSecs).events
      ensures old(ShouldClose(now)) ==> con == null
      ensures !old(ShouldClose(now)) ==> con == old(con)
    {
      if ShouldClose(now) {
        Close();
      }
    }

    /** A call of the function returned by `with_transaction(func)`: takes
      * `WithTransactionStep` and reuses an open connection. Returns whether
      * an exception propagates to the caller. */
    method WithTransaction(now: real, connectOk: bool, action: Action) returns (raised: bool)
      requires Valid()
      modifies this
      ensures Valid()
      ensures State() == WithTransactionStep(old(State()), now, connectOk, action).next
      ensures log == old(log) + WithTransactionStep(old(State()), now, connectOk, action).events
      ensures raised == WithTransactionStep(old(State()), now, connectOk, action).raised
      ensures old(con) != null ==> con == old(con)
    {
      var c := BeginTransaction(now, connectOk);
      if c == null {
        return true;
      }
      ghost var afterBegin := log;
      if action.setsRollbackOnly {
        SetRollbackOnly();
      }
      if action.raises {
        SetRollbackOnly();
      }
      CompleteTransaction();
      raised := action.raises;
    }
  }
}
