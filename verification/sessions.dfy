/**
 Sequences of button presses after mount: what a whole session does to the
 mode, to the value and to the number of calls made to the backend.
 */
module Sessions {
  import opened Counters
  import opened CounterView

  /** One call of `handleOperation`: the operation, what `updateCounter`
      would answer if called, and the instant `new Date()` would return. */
  datatype Press = Press(op: Operation, reply: Reply, now: Timestamp)

  /** The state after the presses `ps`, one after the other, from `s`. */
  function Run(s: ViewState, ps: seq<Press>): (r: ViewState)
    ensures s.counter.None? ==> r == s
    ensures s.useStubData ==> r.useStubData
    ensures Settled(s) ==> Settled(r)
    decreases |ps|
  {
    if ps == [] then s
    else
      ApplyKeepsSettled(s, ps[0].op, ps[0].reply, ps[0].now);
      Run(Apply(s, ps[0].op, ps[0].reply, ps[0].now), ps[1..])
  }

  /** A whole session: mount with the fetch answering `loaded`, then the
      presses `ps`. `t0` is the instant that stamps the stub counter. */
  function Session(loaded: Reply, t0: Timestamp, ps: seq<Press>): (r: ViewState)
    ensures Settled(r)
    ensures loaded.Fail? ==> r.useStubData
  {
    LoadSettles(loaded, t0);
    Run(Load(Initial, loaded, t0), ps)
  }

  /** How many times the presses call `updateCounter`: at most once per
      press, and never while no counter is held. */
  function RemoteCalls(s: ViewState, ps: seq<Press>): (n: nat)
    ensures n <= |ps|
    ensures s.counter.None? ==> n == 0
    decreases |ps|
  {
    if ps == [] then 0
    else
      (if CallsRemote(s) then 1 else 0)
      + RemoteCalls(Apply(s, ps[0].op, ps[0].reply, ps[0].now), ps[1..])
  }

  /** How many of those calls fail. */
  function RemoteFailures(s: ViewState, ps: seq<Press>): (n: nat)
    ensures n <= RemoteCalls(s, ps)
    decreases |ps|
  {
    if ps == [] then 0
    else
      (if CallsRemote(s) && ps[0].reply.Fail? then 1 else 0)
      + RemoteFailures(Apply(s, ps[0].op, ps[0].reply, ps[0].now), ps[1..])
  }

  /** The net change the operations of `ps` ask for. */
  function Net(ps: seq<Press>): int
    decreases |ps|
  {
    if ps == [] then 0 else Shift(ps[0].op) + Net(ps[1..])
  }

  /** Once in local mode, no press ever calls the backend again. */
  lemma {:induction false} LocalModeIsOffline(s: ViewState, ps: seq<Press>)
    requires s.useStubData
    ensures RemoteCalls(s, ps) == 0
    decreases |ps|
  {
    if ps != [] {
      LocalModeIsOffline(Apply(s, ps[0].op, ps[0].reply, ps[0].now), ps[1..]);
    }
  }

  /** The backend fails at most once per session: the first failure switches
      to local mode for good. */
  lemma {:induction false} AtMostOneRemoteFailure(s: ViewState, ps: seq<Press>)
    ensures RemoteFailures(s, ps) <= 1
    decreases |ps|
  {
    if ps != [] {
      var next := Apply(s, ps[0].op, ps[0].reply, ps[0].now);
      if CallsRemote(s) && ps[0].reply.Fail? {
        LocalModeIsOffline(next, ps[1..]);
      } else {
        AtMostOneRemoteFailure(next, ps[1..]);
      }
    }
  }

  /** From a state holding a counter, a run ends in local mode exactly when
      it started there or some remote update failed along the way. */
  lemma {:induction false} LocalIffFailed(s: ViewState, ps: seq<Press>)
    requires s.counter.Some?
    ensures Run(s, ps).useStubData <==> s.useStubData || RemoteFailures(s, ps) > 0
    decreases |ps|
  {
    if ps != [] {
      var next := Apply(s, ps[0].op, ps[0].reply, ps[0].now);
      if CallsRemote(s) && ps[0].reply.Fail? {
        LocalModeIsOffline(next, ps[1..]);
      } else {
        LocalIffFailed(next, ps[1..]);
      }
    }
  }

  /** In local mode the value moves by exactly the net of the operations,
      without bounds; after at least one press the counter has id 1 and
      no warning is left. */
  lemma {:induction false} LocalRunNet(s: ViewState, ps: seq<Press>)
    requires s.useStubData && s.counter.Some?
    ensures Run(s, ps).counter.Some?
    ensures Run(s, ps).counter.value.value == s.counter.value.value + Net(ps)
    ensures ps != [] ==> Run(s, ps).counter.value.id == StubId && Run(s, ps).error == None
    decreases |ps|
  {
    if ps != [] {
      var next := Apply(s, ps[0].op, ps[0].reply, ps[0].now);
      LocalRunNet(next, ps[1..]);
      if ps[1..] == [] {
        assert Run(next, ps[1..]) == next;
      }
    }
  }

  /** Whether two press sequences differ at most in the backend's replies. */
  predicate SameButReplies(ps: seq<Press>, qs: seq<Press>)
  {
    && |ps| == |qs|
    && forall i :: 0 <= i < |ps| ==> ps[i].op == qs[i].op && ps[i].now == qs[i].now
  }

  /** In local mode the backend's replies play no part in a session. */
  lemma {:induction false} LocalRunIgnoresReplies(s: ViewState, ps: seq<Press>, qs: seq<Press>)
    requires s.useStubData
    requires SameButReplies(ps, qs)
    ensures Run(s, ps) == Run(s, qs)
    decreases |ps|
  {
    if ps != [] {
      ReplyIgnoredOffline(s, ps[0].op, ps[0].reply, qs[0].reply, ps[0].now);
      var next := Apply(s, ps[0].op, ps[0].reply, ps[0].now);
      assert SameButReplies(ps[1..], qs[1..]) by {
        forall i | 0 <= i < |ps[1..]|
          ensures ps[1..][i].op == qs[1..][i].op && ps[1..][i].now == qs[1..][i].now
        {
          assert ps[1..][i] == ps[i + 1] && qs[1..][i] == qs[i + 1];
        }
      }
      LocalRunIgnoresReplies(next, ps[1..], qs[1..]);
    }
  }

  /** Whether the backend answers every press. */
  predicate AllAnswered(ps: seq<Press>)
  {
    forall i :: 0 <= i < |ps| ==> ps[i].reply.Ok?
  }

  /** While the backend answers every update, the view stays in remote mode,
      shows exactly the backend's last answer and no warning; nothing else
      changes. */
  lemma {:induction false} RemoteRunFollowsServer(s: ViewState, ps: seq<Press>)
    requires CallsRemote(s)
    requires ps != [] && AllAnswered(ps)
    ensures Run(s, ps) == s.(counter := Some(ps[|ps| - 1].reply.counter), error := None, isLoading := false)
    decreases |ps|
  {
    var next := Apply(s, ps[0].op, ps[0].reply, ps[0].now);
    assert ps[0].reply.Ok?;
    if |ps| == 1 {
      assert Run(next, ps[1..]) == next;
    } else {
      assert AllAnswered(ps[1..]) by {
        forall i | 0 <= i < |ps[1..]|
          ensures ps[1..][i].reply.Ok?
        {
          assert ps[1..][i] == ps[i + 1];
        }
      }
      RemoteRunFollowsServer(next, ps[1..]);
      assert ps[1..][|ps[1..]| - 1] == ps[|ps| - 1];
    }
  }

  /** From any value in local mode, an increment followed by a decrement
      gives back the value, and the warning is gone after the first press. */
  lemma IncrementThenDecrement(s: ViewState, r1: Reply, t1: Timestamp, r2: Reply, t2: Timestamp)
    requires s.useStubData && s.counter.Some?
    ensures var s1 := Apply(s, Increment, r1, t1);
            var s2 := Apply(s1, Decrement, r2, t2);
            && s1.error == None
            && s2.counter == Some(Counter(StubId, s.counter.value.value, t2))
  {
  }

  /** The load-failure warning does not outlive the first press: the first
      local step clears it. */
  lemma FirstPressClearsLoadWarning(t0: Timestamp, op: Operation, r: Reply, t1: Timestamp)
    ensures Load(Initial, Fail, t0).error == Some(LoadFailedMessage)
    ensures Apply(Load(Initial, Fail, t0), op, r, t1).error == None
  {
  }

  /** The backend is down from the start: the page shows 0 and the load
      warning in local mode; three increments show 3, and the backend is
      never called. The warning is cleared by the first increment. */
  lemma ScenarioBackendDown(t0: Timestamp, r1: Reply, t1: Timestamp, r2: Reply, t2: Timestamp, r3: Reply, t3: Timestamp)
    ensures Render(Session(Fail, t0, [])) == Page(Some(LoadFailedMessage), true, 0, true, false)
    ensures var ps := [Press(Increment, r1, t1), Press(Increment, r2, t2), Press(Increment, r3, t3)];
            && RemoteCalls(Load(Initial, Fail, t0), ps) == 0
            && Render(Session(Fail, t0, ps)) == Page(None, true, 3, true, false)
  {
    var ps := [Press(Increment, r1, t1), Press(Increment, r2, t2), Press(Increment, r3, t3)];
    var s := Load(Initial, Fail, t0);
    LocalModeIsOffline(s, ps);
    LocalRunNet(s, ps);
    assert Net(ps) == 3 by {
      assert ps[1..] == [Press(Increment, r2, t2), Press(Increment, r3, t3)];
      assert ps[1..][1..] == [Press(Increment, r3, t3)];
      assert Net(ps[1..][1..]) == 1;
    }
    SettledPage(Session(Fail, t0, ps));
  }

  /** The backend serves value 5, then fails on an increment: the view falls
      back to local mode, shows 6 and the switching warning. */
  lemma ScenarioBackendDropsOut(t0: Timestamp, t: Timestamp, t1: Timestamp)
    ensures var loaded := Ok(Counter(1, 5, t));
            var s := Session(loaded, t0, [Press(Increment, Fail, t1)]);
            && RemoteCalls(Load(Initial, loaded, t0), [Press(Increment, Fail, t1)]) == 1
            && s.useStubData
            && Render(s) == Page(Some(SwitchMessage), true, 6, true, false)
  {
    var ps := [Press(Increment, Fail, t1)];
    var loaded := Load(Initial, Ok(Counter(1, 5, t)), t0);
    assert ps[1..] == [];
    assert Run(loaded, ps) == Apply(loaded, Increment, Fail, t1);
  }
}
