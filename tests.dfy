/** `Test` (common.py): a named list of actions run one after another, where an
    action that raises is logged and skipped; and the driver loop of __main__.py
    that repeats a test while `carry()` returns something truthy. */
module Tests {
  import opened Outcomes
  import opened Actions

  /** `Test(name, actions)`; `str(t)` is `t.name`. */
  datatype Test = Test(name: string, actions: seq<Action>)

  /** What an observer of `carry` sees, in order: an action being executed, and a
      warning written to the log. */
  datatype Event = Executed(action: Action) | Warning(message: string)

  /** The warning logged when action `a` of test `testName` raised `message`. */
  function WarningText(testName: string, a: Action, message: string): string {
    "Error while executing action " + Str(a) + " in " + testName + ": " + message
  }

  /** One pass of the loop body: execute `a`; if it raised, log the warning. */
  function StepEvents(testName: string, a: Action, o: Outcome): seq<Event> {
    [Executed(a)] + if o.Fail? then [Warning(WarningText(testName, a, o.message))] else []
  }

  /** The events of running `actions` in order when the i-th call of `execute`
      ends as `outcomes[i]`. */
  function CarryEvents(testName: string, actions: seq<Action>, outcomes: seq<Outcome>): seq<Event>
    requires |actions| == |outcomes|
    decreases |actions|
  {
    if |actions| == 0 then []
    else
      var n := |actions| - 1;
      CarryEvents(testName, actions[..n], outcomes[..n]) + StepEvents(testName, actions[n], outcomes[n])
  }

  /** The number of failing outcomes. */
  function FailCount(outcomes: seq<Outcome>): nat
    decreases |outcomes|
  {
    if |outcomes| == 0 then 0
    else FailCount(outcomes[..|outcomes| - 1]) + if outcomes[|outcomes| - 1].Fail? then 1 else 0
  }

  /** The actions executed in `events`, in order. */
  function Executions(events: seq<Event>): seq<Action>
    decreases |events|
  {
    if |events| == 0 then []
    else
      var e := events[|events| - 1];
      Executions(events[..|events| - 1]) + if e.Executed? then [e.action] else []
  }

  /** The warnings logged in `events`, in order. */
  function Warnings(events: seq<Event>): seq<string>
    decreases |events|
  {
    if |events| == 0 then []
    else
      var e := events[|events| - 1];
      Warnings(events[..|events| - 1]) + if e.Warning? then [e.message] else []
  }

  lemma {:induction false} ExecutionsAppend(a: seq<Event>, b: seq<Event>)
    ensures Executions(a + b) == Executions(a) + Executions(b)
    decreases |b|
  {
    if |b| > 0 {
      var n := |b| - 1;
      assert (a + b)[..|a + b| - 1] == a + b[..n];
      ExecutionsAppend(a, b[..n]);
    } else {
      assert a + b == a;
    }
  }

  lemma {:induction false} WarningsAppend(a: seq<Event>, b: seq<Event>)
    ensures Warnings(a + b) == Warnings(a) + Warnings(b)
    decreases |b|
  {
    if |b| > 0 {
      var n := |b| - 1;
      assert (a + b)[..|a + b| - 1] == a + b[..n];
      WarningsAppend(a, b[..n]);
    } else {
      assert a + b == a;
    }
  }

  /** One event per action, plus one per failure. */
  lemma {:induction false} CarryLength(testName: string, actions: seq<Action>, outcomes: seq<Outcome>)
    requires |actions| == |outcomes|
    ensures |CarryEvents(testName, actions, outcomes)| == |actions| + FailCount(outcomes)
    decreases |actions|
  {
    if |actions| > 0 {
      var n := |actions| - 1;
      CarryLength(testName, actions[..n], outcomes[..n]);
    }
  }

  /** Action `a` with outcome `o` is executed at position `p` of `events`, and if
      it raised, its warning comes right after it. */
  ghost predicate PlacedAt(events: seq<Event>, testName: string, a: Action, o: Outcome, p: nat) {
    p < |events| && events[p] == Executed(a) &&
    (o.Fail? ==> p + 1 < |events| && events[p + 1] == Warning(WarningText(testName, a, o.message)))
  }

  lemma PlacedAtAppend(events: seq<Event>, more: seq<Event>, testName: string, a: Action, o: Outcome, p: nat)
    requires PlacedAt(events, testName, a, o, p)
    ensures PlacedAt(events + more, testName, a, o, p)
  {
  }

  /** Where action `i` shows up: it is executed after every earlier action and
      every earlier warning, whatever the earlier outcomes were, and if it raised
      its warning, naming the action and the test, comes right after it. */
  lemma {:induction false} CarryLayout(testName: string, actions: seq<Action>, outcomes: seq<Outcome>, i: nat)
    requires |actions| == |outcomes| && i < |actions|
    ensures PlacedAt(CarryEvents(testName, actions, outcomes), testName, actions[i], outcomes[i],
                     i + FailCount(outcomes[..i]))
    decreases |actions|
  {
    var n := |actions| - 1;
    var prefix := CarryEvents(testName, actions[..n], outcomes[..n]);
    var step := StepEvents(testName, actions[n], outcomes[n]);
    assert CarryEvents(testName, actions, outcomes) == prefix + step;
    if i < n {
      CarryLayout(testName, actions[..n], outcomes[..n], i);
      assert outcomes[..n][..i] == outcomes[..i];
      assert actions[..n][i] == actions[i] && outcomes[..n][i] == outcomes[i];
      PlacedAtAppend(prefix, step, testName, actions[i], outcomes[i], i + FailCount(outcomes[..i]));
    } else {
      CarryLength(testName, actions[..n], outcomes[..n]);
      assert outcomes[..i] == outcomes[..n];
      assert PlacedAt(step, testName, actions[i], outcomes[i], 0);
    }
  }

  /** One pass of the loop body executes its action once and warns once if it raised. */
  lemma StepCounts(testName: string, a: Action, o: Outcome)
    ensures Executions(StepEvents(testName, a, o)) == [a]
    ensures |Warnings(StepEvents(testName, a, o))| == if o.Fail? then 1 else 0
  {
    var first := [Executed(a)];
    assert first[..0] == [];
    assert Executions(first) == [a] && Warnings(first) == [];
    if o.Fail? {
      var w := Warning(WarningText(testName, a, o.message));
      var step := first + [w];
      assert StepEvents(testName, a, o) == step;
      assert step[..|step| - 1] == first;
      assert Executions(step) == [a];
      assert Warnings(step) == [w.message];
    }
  }

  /** `carry` executes every action exactly once, in list order. */
  lemma {:induction false} CarryExecutesAllInOrder(testName: string, actions: seq<Action>, outcomes: seq<Outcome>)
    requires |actions| == |outcomes|
    ensures Executions(CarryEvents(testName, actions, outcomes)) == actions
    decreases |actions|
  {
    if |actions| > 0 {
      var n := |actions| - 1;
      var prefix := CarryEvents(testName, actions[..n], outcomes[..n]);
      var step := StepEvents(testName, actions[n], outcomes[n]);
      calc {
        Executions(CarryEvents(testName, actions, outcomes));
        Executions(prefix + step);
        { ExecutionsAppend(prefix, step); }
        Executions(prefix) + Executions(step);
        { CarryExecutesAllInOrder(testName, actions[..n], outcomes[..n]);
          StepCounts(testName, actions[n], outcomes[n]); }
        actions[..n] + [actions[n]];
        actions;
      }
    }
  }

  /** `carry` logs exactly one warning per action that raised. */
  lemma {:induction false} CarryWarnsOncePerFailure(testName: string, actions: seq<Action>, outcomes: seq<Outcome>)
    requires |actions| == |outcomes|
    ensures |Warnings(CarryEvents(testName, actions, outcomes))| == FailCount(outcomes)
    decreases |actions|
  {
    if |actions| > 0 {
      var n := |actions| - 1;
      CarryWarnsOncePerFailure(testName, actions[..n], outcomes[..n]);
      WarningsAppend(CarryEvents(testName, actions[..n], outcomes[..n]), StepEvents(testName, actions[n], outcomes[n]));
      StepCounts(testName, actions[n], outcomes[n]);
    }
  }

  /** A Python value, as far as the driver loop looks at it. */
  datatype PyValue = PyNone | PyBool(b: bool)

  predicate Truthy(v: PyValue) {
    v.PyBool? && v.b
  }

  /** `t.carry()`: execute the actions of `t` in order; an action that raises an
      `Exception` is logged and the loop moves on. Nothing stops the loop early,
      and the method returns Python's implicit `None`. */
  method Carry(t: Test, outcomes: seq<Outcome>) returns (events: seq<Event>, result: PyValue)
    requires |outcomes| == |t.actions|
    ensures events == CarryEvents(t.name, t.actions, outcomes)
    ensures result == PyNone
  {
    events := [];
    for i := 0 to |t.actions|
      invariant events == CarryEvents(t.name, t.actions[..i], outcomes[..i])
    {
      var action := t.actions[i];
      assert t.actions[..i + 1][..i] == t.actions[..i];
      assert outcomes[..i + 1][..i] == outcomes[..i];
      events := events + [Executed(action)];
      match outcomes[i]
      case Ok =>
      case Fail(e) =>
        events := events + [Warning(WarningText(t.name, action, e))];
    }
    assert t.actions[..|t.actions|] == t.actions;
    assert outcomes[..|outcomes|] == outcomes;
    result := PyNone;
  }

  /** The number of passes of `while True: go_on = carry(); if not go_on: break`
      when successive calls return `returned`. */
  function DriverPasses(returned: seq<PyValue>): (n: nat)
    requires exists k :: 0 <= k < |returned| && !Truthy(returned[k])
    ensures 1 <= n <= |returned| && !Truthy(returned[n - 1])
    ensures forall k :: 0 <= k < n - 1 ==> Truthy(returned[k])
  {
    if !Truthy(returned[0]) then 1
    else
      assert exists k :: 0 <= k < |returned[1..]| && !Truthy(returned[1..][k]) by {
        var k :| 0 <= k < |returned| && !Truthy(returned[k]);
        assert k >= 1 && returned[1..][k - 1] == returned[k];
      }
      1 + DriverPasses(returned[1..])
  }

  /** `carry` returns `None`, so the driver loop of __main__.py stops after its
      first pass. */
  lemma DriverStopsAfterOnePass(later: seq<PyValue>)
    ensures var returned := [PyNone] + later;
            (exists k :: 0 <= k < |returned| && !Truthy(returned[k])) && DriverPasses(returned) == 1
  {
    assert !Truthy(([PyNone] + later)[0]);
  }
}
