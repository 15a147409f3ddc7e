/**
 The exception to three sends: the row of a test outlives a restart with its attempt count unchanged, so
 each restart that cuts a send off lets it be sent once more, every 30 s until it expires after 300 s. Nine
 such restarts and three failures make the twelve sends that no row exceeds.
 */
module PushInterruption {
  import opened Basics
  import opened PushTables
  import opened PushProtocol
  import opened PushSafety

  const ROW := Row(5, 7)
  const MESSAGE := Payload(Test, 60000, 100)

  function Stored(nextAt: real): Delivery { Tried(nextAt, 0) }

  function Tried(nextAt: real, attempts: nat): Delivery { Delivery(MESSAGE, 360.0, nextAt, attempts, TestEpoch) }

  function Subscribed(lastTestAt: real): map<SubId, Subscription> { map[7 := Subscription("", {}, 0.0, lastTestAt)] }

  ghost predicate Common(s: System, nextAt: real, n: nat, epochs: nat) {
    && s.available && |s.workers| == 1 && s.again == {} && s.mixed == {} && Sent(s, ROW) == n
    && s.tables == Tables(Subscribed(60.0), map[5 := 60.0], map[ROW := Stored(nextAt)])
    && forall e :: e in s.epochs ==> e.SourceEpoch? && e.id < epochs
  }

  /** The one worker is at rest; the row is due at `nextAt` and was sent `n` times. */
  ghost predicate Waiting(s: System, nextAt: real, n: nat) {
    Common(s, nextAt, n, n + 1) && Cuts(s, ROW) == n && s.workers[0].None? && s.clock <= nextAt
  }

  /** The worker is sending the row, leased at `t`. */
  ghost predicate Sending(s: System, t: real, n: nat) {
    Common(s, t + 30.0, n, n) && Cuts(s, ROW) + 1 == n && s.clock == t && s.workers[0] == Some(Flight(ROW, Stored(t), t, false))
  }

  lemma RegisterFirst()
    ensures var s := Initial(1, SourceEpoch(0), 0.0);
      && Enabled(s, Action.Register(7, "", {}, 0.0))
      && Step(s, Action.Register(7, "", {}, 0.0)) == s.(tables := Tables(Subscribed(0.0), map[], map[]))
  {
    var s := Initial(1, SourceEpoch(0), 0.0);
    assert WithoutSub(EMPTY.deliveries, 7) == map[];
    assert Cancel(s.workers, (f: Flight) => f.row.sub == 7) == s.workers;
  }

  lemma TestEnqueued()
    ensures Enqueue(Tables(Subscribed(60.0), map[], map[]), 5, MESSAGE, [7], 60.0, TestEpoch) ==
      (Queued, Tables(Subscribed(60.0), map[5 := 60.0], map[ROW := Stored(60.0)]))
  {
    var t := Tables(Subscribed(60.0), map[], map[]);
    assert Expire(t, 60.0) == t;
    assert |map[5 := 60.0]| == 1;
    assert Remember(map[], 5, 60.0) == map[5 := 60.0];
    assert Selected(t, [7]) == [7];
    assert [7][..0] == [];
    assert Fill(map[], 5, [7], Stored(60.0)) == map[ROW := Stored(60.0)];
    assert Fresh(MESSAGE, 60.0, TestEpoch) == Stored(60.0);
  }

  lemma SendsTest(s: System)
    requires s == Initial(1, SourceEpoch(0), 0.0).(tables := Tables(Subscribed(0.0), map[], map[]))
    ensures Enabled(s, SendTest(5, MESSAGE, 7, true, 60.0)) && Waiting(Step(s, SendTest(5, MESSAGE, 7, true, 60.0)), 60.0, 0)
  {
    hide Enqueued, Waiting;
    assert Expire(s.tables, 60.0) == s.tables;
    assert Subscribed(0.0)[7 := Subscription("", {}, 0.0, 60.0)] == Subscribed(60.0);
    assert AllowTest(s.tables, 7, 60.0) == (true, s.tables.(subscriptions := Subscribed(60.0)));
    TestWaits(s.(tables := Tables(Subscribed(60.0), map[], map[]), clock := 60.0));
  }

  lemma TestWaits(s: System)
    requires s == Initial(1, SourceEpoch(0), 0.0).(tables := Tables(Subscribed(60.0), map[], map[]), clock := 60.0)
    ensures Waiting(Enqueued(s, 5, MESSAGE, [7], 60.0, TestEpoch), 60.0, 0)
  {
    hide Enqueue;
    TestEnqueued();
  }

  lemma TestIsQueued() returns (s: System)
    ensures Reachable(s) && Waiting(s, 60.0, 0)
  {
    var s0 := Initial(1, SourceEpoch(0), 0.0);
    assert Leads(s0, [], s0);
    RegisterFirst();
    StillReachable(s0, Action.Register(7, "", {}, 0.0));
    var s1 := Step(s0, Action.Register(7, "", {}, 0.0));
    SendsTest(s1);
    StillReachable(s1, SendTest(5, MESSAGE, 7, true, 60.0));
    s := Step(s1, SendTest(5, MESSAGE, 7, true, 60.0));
  }

  lemma RowIsNext(t: Tables, nextAt: real, attempts: nat)
    requires t == Tables(Subscribed(60.0), map[5 := 60.0], map[ROW := Tried(nextAt, attempts)]) && nextAt < 360.0
    ensures Expire(t, nextAt) == t && IsNext(t, nextAt, Some(ROW))
  {
    assert Expire(t, nextAt) == t;
  }

  lemma PollSends(s: System, nextAt: real, n: nat)
    requires Waiting(s, nextAt, n) && nextAt < 360.0
    ensures Enabled(s, Poll(0, Some(ROW), nextAt)) && Sending(Step(s, Poll(0, Some(ROW), nextAt)), nextAt, n + 1)
  {
    hide Polled, IsNext, Expire;
    RowIsNext(s.tables, nextAt, 0);
    assert Lease(s.tables, ROW, nextAt).deliveries == map[ROW := Stored(nextAt + 30.0)];
    PolledLaunches(s, 0, ROW, nextAt);
  }

  /** A restart cuts the send off and keeps the row as it is. */
  lemma RestartWaits(s: System, t: real, n: nat)
    requires Sending(s, t, n)
    ensures Enabled(s, Restart(SourceEpoch(n)))
    ensures Waiting(Step(s, Restart(SourceEpoch(n))), t + 30.0, n)
  {
    var s' := Step(s, Restart(SourceEpoch(n)));
    assert s.workers[0].Some? && s.workers[0].value.row == ROW;
    assert s'.tables.deliveries == map[ROW := Stored(t + 30.0)];
  }

  lemma {:induction false} SentManyTimes(n: nat) returns (s: System)
    requires 1 <= n <= 10
    ensures Reachable(s) && Waiting(s, 60.0 + 30.0 * n as real, n)
  {
    hide Reachable, Waiting;
    if n == 1 {
      var first := TestIsQueued();
      s := SentOnceMore(first, 60.0, 0);
    } else {
      var before := SentManyTimes(n - 1);
      s := SentOnceMore(before, 60.0 + 30.0 * (n - 1) as real, n - 1);
    }
  }

  lemma SentOnceMore(s: System, nextAt: real, n: nat) returns (s': System)
    requires Reachable(s) && Waiting(s, nextAt, n) && nextAt < 360.0
    ensures Reachable(s') && Waiting(s', nextAt + 30.0, n + 1)
  {
    PollSends(s, nextAt, n);
    var sending := Step(s, Poll(0, Some(ROW), nextAt));
    StillReachable(s, Poll(0, Some(ROW), nextAt));
    RestartWaits(sending, nextAt, n + 1);
    StillReachable(sending, Restart(SourceEpoch(n + 1)));
    s' := Step(sending, Restart(SourceEpoch(n + 1)));
  }

  /** Any number of sends up to ten is reached for one row whose event id was recorded once. */
  lemma TestSentTenTimes(n: nat)
    requires 1 <= n <= 10
    ensures exists s: System, r: Row :: Reachable(s) && r.event !in s.again && Cuts(s, r) == n && Sent(s, r) == n
  {
    var s := SentManyTimes(n);
    assert ROW.event !in s.again && Sent(s, ROW) == n;
  }

  // ----- and then three times more

  /** The row has been tried before, and a send of it is due at `nextAt`. */
  ghost predicate Trying(s: System, nextAt: real, attempts: nat, n: nat) {
    && s.available && |s.workers| == 1 && s.workers[0].None? && s.mixed == {} && s.clock <= nextAt
    && Sent(s, ROW) == n && Cuts(s, ROW) == 9
    && s.tables == Tables(Subscribed(60.0), map[5 := 60.0], map[ROW := Tried(nextAt, attempts)])
  }

  lemma PollTries(s: System, nextAt: real, attempts: nat, n: nat)
    requires Trying(s, nextAt, attempts, n) && nextAt < 360.0
    ensures Enabled(s, Poll(0, Some(ROW), nextAt))
    ensures var s' := Step(s, Poll(0, Some(ROW), nextAt));
      && s' == s.(tables := s'.tables, clock := nextAt, sent := s'.sent, workers := [Some(Flight(ROW, Tried(nextAt, attempts), nextAt, false))])
      && Sent(s', ROW) == n + 1
      && s'.tables == Tables(Subscribed(60.0), map[5 := 60.0], map[ROW := Tried(nextAt + 30.0, attempts)])
  {
    hide Polled, IsNext, Expire;
    RowIsNext(s.tables, nextAt, attempts);
    assert Lease(s.tables, ROW, nextAt).deliveries == map[ROW := Tried(nextAt + 30.0, attempts)];
    assert s.workers == [None];
    PolledLaunches(s, 0, ROW, nextAt);
  }

  /** A send that fails is tried again after its backoff. */
  lemma FailureTries(s: System, t: real, attempts: nat, n: nat)
    requires s.available && s.mixed == {} && s.clock == t < 360.0 && attempts < 2 && Sent(s, ROW) == n && Cuts(s, ROW) == 9
    requires s.workers == [Some(Flight(ROW, Tried(t, attempts), t, false))]
    requires s.tables == Tables(Subscribed(60.0), map[5 := 60.0], map[ROW := Tried(t + 30.0, attempts)])
    ensures Enabled(s, Complete(0, Broken, t, t, t))
    ensures Trying(Step(s, Complete(0, Broken, t, t, t)), t + Backoff(attempts), attempts + 1, n)
  {
    var f := Flight(ROW, Tried(t, attempts), t, false);
    assert s.workers[0].value == f;
    assert OwnsDelivery(s, s.tables, f, t);
    assert Finish(s.tables, ROW, Tried(t, attempts), Some(t + Backoff(attempts))).deliveries
      == map[ROW := Tried(t + Backoff(attempts), attempts + 1)];
  }

  lemma TriedOnceMore(s: System, nextAt: real, attempts: nat, n: nat) returns (s': System)
    requires Reachable(s) && Trying(s, nextAt, attempts, n) && nextAt < 360.0 && attempts < 2
    ensures Reachable(s') && Trying(s', nextAt + Backoff(attempts), attempts + 1, n + 1)
  {
    PollTries(s, nextAt, attempts, n);
    StillReachable(s, Poll(0, Some(ROW), nextAt));
    var sending := Step(s, Poll(0, Some(ROW), nextAt));
    FailureTries(sending, nextAt, attempts, n + 1);
    StillReachable(sending, Complete(0, Broken, nextAt, nextAt, nextAt));
    s' := Step(sending, Complete(0, Broken, nextAt, nextAt, nextAt));
  }

  /** Both bounds are met at once: nine sends cut off, then three that fail. */
  lemma TwelveSends()
    ensures exists s: System, r: Row :: Reachable(s) && r !in s.mixed && Cuts(s, r) == 9 && Sent(s, r) == 3 + Cuts(s, r) == 12
  {
    hide Step, Enabled, Reachable;
    var s0 := SentManyTimes(9);
    var s1 := TriedOnceMore(s0, 330.0, 0, 9);
    var s2 := TriedOnceMore(s1, 335.0, 1, 10);
    PollTries(s2, 345.0, 2, 11);
    StillReachable(s2, Poll(0, Some(ROW), 345.0));
    var s3 := Step(s2, Poll(0, Some(ROW), 345.0));
    assert Sent(s3, ROW) == 12 && Cuts(s3, ROW) == 9;
  }
}
