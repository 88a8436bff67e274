/**
 * The read-write view over one store transaction: `queue_commands` parses
 * all of a text before executing any of it, then executes the commands in
 * order and stops at the first failure; `add_users` inserts roster users in
 * order under their derived identity and stops at the first failure.
 *
 * The store, the command parser, the command executor, serde's command
 * serialisation and `insert_with_id` belong to other libraries: the store
 * is a type parameter and the operations are function-valued fields of the
 * transaction. A failing operation still yields a store state, so no
 * rollback behaviour is assumed.
 */
module WriteTransactions {
  import opened Base
  import opened Users

  /** One call the transaction makes into the store, in the order made. */
  datatype Call = Execute(command: Command) | Insert(id: ObjectId, value: Json)

  /** What one store operation leaves: the new state and whether it succeeded. */
  datatype Step<S> = Step(state: S, outcome: Outcome)

  /** What a run of operations leaves: the state, the calls made and the outcome. */
  datatype Run<S> = Run(state: S, calls: seq<Call>, outcome: Outcome)

  /**
   * Runs `step` on each element of `xs` in order, threading the state,
   * and stops at the first failing element (the `for x in xs { f(x)?; }`
   * loop of the source).
   */
  function Chain<S, X>(s: S, xs: seq<X>, step: (S, X) -> Run<S>): Run<S>
  {
    if xs == [] then Run(s, [], Pass)
    else
      var first := step(s, xs[0]);
      if first.outcome.Fail? then first
      else
        var rest := Chain(first.state, xs[1..], step);
        Run(rest.state, first.calls + rest.calls, rest.outcome)
  }

  /** Continues a run with the elements `ys`, unless the run already failed. */
  function Then<S, X>(first: Run<S>, ys: seq<X>, step: (S, X) -> Run<S>): Run<S>
  {
    if first.outcome.Fail? then first
    else
      var rest := Chain(first.state, ys, step);
      Run(rest.state, first.calls + rest.calls, rest.outcome)
  }

  /** Running `xs + ys` is running `xs` and then, if that passed, `ys` from where it left the store. */
  lemma {:induction false} ChainAppend<S, X>(s: S, xs: seq<X>, ys: seq<X>, step: (S, X) -> Run<S>)
    ensures Chain(s, xs + ys, step) == Then(Chain(s, xs, step), ys, step)
  {
    if xs == [] {
      assert xs + ys == ys;
    } else {
      assert (xs + ys)[0] == xs[0];
      assert (xs + ys)[1..] == xs[1..] + ys;
      var first := step(s, xs[0]);
      if first.outcome.Pass? {
        ChainAppend(first.state, xs[1..], ys, step);
        var mid := Chain(first.state, xs[1..], step);
        if mid.outcome.Pass? {
          var rest := Chain(mid.state, ys, step);
          assert first.calls + (mid.calls + rest.calls) == (first.calls + mid.calls) + rest.calls;
        }
      }
    }
  }

  /** Once a run has failed, no later element is touched: appending anything changes nothing. */
  lemma NothingAfterFailure<S, X>(s: S, xs: seq<X>, ys: seq<X>, step: (S, X) -> Run<S>)
    requires Chain(s, xs, step).outcome.Fail?
    ensures Chain(s, xs + ys, step) == Chain(s, xs, step)
  {
    ChainAppend(s, xs, ys, step);
  }

  /**
   * One more element of a passing run: its step either fails, which ends
   * the run there, or passes and the run carries on from the new state.
   */
  lemma ChainStep<S, X>(s: S, calls: seq<Call>, xs: seq<X>, step: (S, X) -> Run<S>)
    requires xs != []
    ensures var next := step(s, xs[0]);
      var whole := Then(Run(s, calls, Pass), xs, step);
      && (next.outcome.Fail? ==> whole == Run(next.state, calls + next.calls, next.outcome))
      && (next.outcome.Pass? ==> whole == Then(Run(next.state, calls + next.calls, Pass), xs[1..], step))
  {
    var next := step(s, xs[0]);
    if next.outcome.Pass? {
      var rest := Chain(next.state, xs[1..], step);
      assert calls + (next.calls + rest.calls) == (calls + next.calls) + rest.calls;
    }
  }

  /**
   * The run failed at the element `k`: the run over the elements before it
   * passed, that element's step failed, and the run is those two together.
   */
  ghost predicate FailedAt<S, X>(s: S, xs: seq<X>, step: (S, X) -> Run<S>, k: nat)
  {
    k < |xs| &&
    var before := Chain(s, xs[..k], step);
    var last := step(before.state, xs[k]);
    && before.outcome.Pass?
    && last.outcome.Fail?
    && Chain(s, xs, step) == Run(last.state, before.calls + last.calls, last.outcome)
  }

  /** A failed run failed at some element. */
  lemma {:induction false} ChainFailsAt<S, X>(s: S, xs: seq<X>, step: (S, X) -> Run<S>)
    requires Chain(s, xs, step).outcome.Fail?
    ensures exists k: nat :: FailedAt(s, xs, step, k)
  {
    var first := step(s, xs[0]);
    if first.outcome.Fail? {
      assert xs[..0] == [];
      assert [] + first.calls == first.calls;
      assert FailedAt(s, xs, step, 0);
    } else {
      var tail := xs[1..];
      ChainFailsAt(first.state, tail, step);
      var k: nat :| FailedAt(first.state, tail, step, k);
      var before := Chain(first.state, tail[..k], step);
      var last := step(before.state, tail[k]);
      assert xs[..k + 1][0] == xs[0];
      assert xs[..k + 1][1..] == tail[..k];
      assert xs[k + 1] == tail[k];
      assert first.calls + (before.calls + last.calls) == (first.calls + before.calls) + last.calls;
      assert FailedAt(s, xs, step, k + 1);
    }
  }

  /** `execute_command` on one command, as a step that records the call. */
  function ExecuteStep<S>(execute: (S, Command) -> Step<S>): (S, Command) -> Run<S>
  {
    (s: S, c: Command) => var st := execute(s, c); Run(st.state, [Execute(c)], st.outcome)
  }

  function Executions(cs: seq<Command>): (r: seq<Call>)
  {
    MapSeq(cs, (c: Command) => Execute(c))
  }

  /**
   * Commands are executed in the order given: the calls are the executions
   * of a prefix of the commands, all of them when the run passes, and the
   * last one attempted is the failing one when it fails.
   */
  lemma {:induction false} ExecutedInOrder<S>(s: S, cs: seq<Command>, execute: (S, Command) -> Step<S>)
    ensures var r := Chain(s, cs, ExecuteStep(execute));
      && |r.calls| <= |cs|
      && r.calls == Executions(cs[..|r.calls|])
      && (r.outcome.Pass? ==> |r.calls| == |cs|)
      && (r.outcome.Fail? ==>
            (|r.calls| >= 1 &&
             var before := Chain(s, cs[..|r.calls| - 1], ExecuteStep(execute));
             before.outcome.Pass? && execute(before.state, cs[|r.calls| - 1]).outcome == r.outcome))
  {
    var step := ExecuteStep(execute);
    if cs != [] {
      var st := execute(s, cs[0]);
      var r := Chain(s, cs, step);
      if st.outcome.Fail? {
        assert r.calls == [Execute(cs[0])];
        assert cs[..0] == [];
        assert Executions(cs[..1]) == [Execute(cs[0])];
      } else {
        ExecutedInOrder(st.state, cs[1..], execute);
        var rest := Chain(st.state, cs[1..], step);
        var k := |rest.calls|;
        assert cs[..k + 1][1..] == cs[1..][..k];
        assert r.calls == [Execute(cs[0])] + rest.calls;
        assert r.calls == Executions(cs[..k + 1]);
        if rest.outcome.Fail? {
          assert cs[..k][1..] == cs[1..][..k - 1];
          assert cs[..k][0] == cs[0];
          assert cs[..k] != [];
        }
      }
    }
  }

  /**
   * The whole of `queue_commands`: the text is parsed against the store as
   * it is before any command runs, every parsed item is collected, and only
   * then are the commands executed in order.
   */
  function QueueSpec<S>(s: S, text: string, parse: (S, string) -> seq<Result<Command>>,
                        execute: (S, Command) -> Step<S>): Run<S>
  {
    match CollectAll(parse(s, text))
    case Err(e) => Run(s, [], Fail(e))
    case Ok(cs) => Chain(s, cs, ExecuteStep(execute))
  }

  /** If any part of the text fails to parse, nothing is executed, the store is untouched and an error is returned. */
  lemma ParseFailureExecutesNothing<S>(s: S, text: string, parse: (S, string) -> seq<Result<Command>>,
                                       execute: (S, Command) -> Step<S>, k: nat)
    requires k < |parse(s, text)| && parse(s, text)[k].Err?
    ensures QueueSpec(s, text, parse, execute).outcome.Fail?
    ensures QueueSpec(s, text, parse, execute).calls == []
    ensures QueueSpec(s, text, parse, execute).state == s
  {
    CollectAllOk(parse(s, text));
  }

  /** A text that parses to no command leaves the store as it was and succeeds. */
  lemma EmptyParseIsNoOp<S>(s: S, text: string, parse: (S, string) -> seq<Result<Command>>,
                            execute: (S, Command) -> Step<S>)
    requires parse(s, text) == []
    ensures QueueSpec(s, text, parse, execute) == Run(s, [], Pass)
  {
  }

  /**
   * `queue_commands` run twice on the same text, as the relay does: when the
   * text parses the same both times and every command succeeds, each command
   * is executed twice, the whole list once and then again.
   */
  lemma QueuedTwiceExecutesTwice<S>(s: S, text: string, parse: (S, string) -> seq<Result<Command>>,
                                    execute: (S, Command) -> Step<S>)
    requires QueueSpec(s, text, parse, execute).outcome.Pass?
    requires parse(QueueSpec(s, text, parse, execute).state, text) == parse(s, text)
    requires QueueSpec(QueueSpec(s, text, parse, execute).state, text, parse, execute).outcome.Pass?
    ensures CollectAll(parse(s, text)).Ok?
    ensures var cs := CollectAll(parse(s, text)).value;
      QueueSpec(s, text, parse, execute).calls
        + QueueSpec(QueueSpec(s, text, parse, execute).state, text, parse, execute).calls
      == Executions(cs) + Executions(cs)
  {
    var first := QueueSpec(s, text, parse, execute);
    var cs := CollectAll(parse(s, text)).value;
    ExecutedInOrder(s, cs, execute);
    ExecutedInOrder(first.state, cs, execute);
    assert cs[..|cs|] == cs;
  }

  /**
   * One iteration of `add_users`: serialise the user (the `?` stops the
   * loop before any insert if that fails), then insert the value under the
   * user's identity.
   */
  function InsertStep<S>(insert: (S, ObjectId, Json) -> Step<S>, encode: Command -> Result<Json>,
                         xxh3: Hash128): (S, User) -> Run<S>
  {
    (s: S, u: User) =>
      match ToValue(u, encode)
      case Err(e) => Run(s, [], Fail(e))
      case Ok(v) =>
        var st := insert(s, Id(u, xxh3), v);
        Run(st.state, [Insert(Id(u, xxh3), v)], st.outcome)
  }

  /** A step that makes at most the one call `c`, and passes only after making it. */
  ghost predicate AtMostCall<S>(r: Run<S>, c: Option<Call>)
  {
    |r.calls| <= 1 && (r.calls != [] ==> c == Some(r.calls[0])) && (r.outcome.Pass? ==> r.calls != [])
  }

  /**
   * When every step makes at most its element's own call, a run makes the
   * calls of a prefix of the elements, in order, and of all of them when it
   * passes.
   */
  lemma {:induction false} ChainCallsInOrder<S, X>(s: S, xs: seq<X>, step: (S, X) -> Run<S>, call: X -> Option<Call>)
    requires forall t: S, x: X :: AtMostCall(step(t, x), call(x))
    ensures var r := Chain(s, xs, step);
      && |r.calls| <= |xs|
      && (forall i :: 0 <= i < |r.calls| ==> call(xs[i]) == Some(r.calls[i]))
      && (r.outcome.Pass? ==> |r.calls| == |xs|)
  {
    if xs != [] {
      var first := step(s, xs[0]);
      assert AtMostCall(first, call(xs[0]));
      if first.outcome.Pass? {
        ChainCallsInOrder(first.state, xs[1..], step, call);
        var rest := Chain(first.state, xs[1..], step);
        var r := Chain(s, xs, step);
        forall i | 0 <= i < |r.calls| ensures call(xs[i]) == Some(r.calls[i]) {
          if i > 0 { assert r.calls[i] == rest.calls[i - 1] && xs[i] == xs[1..][i - 1]; }
        }
      }
    }
  }

  /** The call one iteration of `add_users` makes for a user, if its value serialises. */
  function InsertCall(u: User, encode: Command -> Result<Json>, xxh3: Hash128): Option<Call>
  {
    match ToValue(u, encode)
    case Ok(v) => Some(Insert(Id(u, xxh3), v))
    case Err(_) => None
  }

  /**
   * Users are inserted in roster order: the i-th insert is the i-th user,
   * under its identity, with its serialised value. All are inserted when the
   * run passes.
   */
  lemma InsertedInRosterOrder<S>(s: S, users: seq<User>, insert: (S, ObjectId, Json) -> Step<S>,
                                 encode: Command -> Result<Json>, xxh3: Hash128)
    ensures var r := Chain(s, users, InsertStep(insert, encode, xxh3));
      && |r.calls| <= |users|
      && (forall i :: 0 <= i < |r.calls| ==>
            ToValue(users[i], encode).Ok? && r.calls[i] == Insert(Id(users[i], xxh3), ToValue(users[i], encode).value))
      && (r.outcome.Pass? ==> |r.calls| == |users|)
  {
    var step := InsertStep(insert, encode, xxh3);
    var call := (u: User) => InsertCall(u, encode, xxh3);
    forall t: S, u: User ensures AtMostCall(step(t, u), call(u)) {
    }
    ChainCallsInOrder(s, users, step, call);
    var r := Chain(s, users, step);
    forall i | 0 <= i < |r.calls|
      ensures ToValue(users[i], encode).Ok? && r.calls[i] == Insert(Id(users[i], xxh3), ToValue(users[i], encode).value)
    {
      assert call(users[i]) == Some(r.calls[i]);
    }
  }

  /**
   * A failed `add_users` stopped at the user after the last one inserted,
   * whose value did not serialise, or at the last insert itself, which
   * failed; either way with that error and the store it left, after every
   * earlier user was inserted. No later user is touched.
   */
  lemma AddUsersStopsAtFailure<S>(s: S, users: seq<User>, insert: (S, ObjectId, Json) -> Step<S>,
                                  encode: Command -> Result<Json>, xxh3: Hash128)
    requires Chain(s, users, InsertStep(insert, encode, xxh3)).outcome.Fail?
    ensures var r := Chain(s, users, InsertStep(insert, encode, xxh3));
      var n := |r.calls|;
      || (&& n < |users|
          && Chain(s, users[..n], InsertStep(insert, encode, xxh3)).outcome.Pass?
          && Chain(s, users[..n], InsertStep(insert, encode, xxh3)).state == r.state
          && ToValue(users[n], encode).Err?
          && r.outcome == Fail(ToValue(users[n], encode).error))
      || (&& 1 <= n <= |users|
          && Chain(s, users[..n - 1], InsertStep(insert, encode, xxh3)).outcome.Pass?
          && ToValue(users[n - 1], encode).Ok?
          && insert(Chain(s, users[..n - 1], InsertStep(insert, encode, xxh3)).state,
                    Id(users[n - 1], xxh3), ToValue(users[n - 1], encode).value)
               == Step(r.state, r.outcome))
  {
    var step := InsertStep(insert, encode, xxh3);
    var call := (u: User) => InsertCall(u, encode, xxh3);
    forall t: S, u: User ensures AtMostCall(step(t, u), call(u)) {
    }
    ChainFailsAt(s, users, step);
    var k: nat :| FailedAt(s, users, step, k);
    var before := Chain(s, users[..k], step);
    ChainCallsInOrder(s, users[..k], step, call);
    var r := Chain(s, users, step);
    if ToValue(users[k], encode).Err? {
      assert step(before.state, users[k]) == Run(before.state, [], Fail(ToValue(users[k], encode).error));
      assert |r.calls| == k;
    } else {
      var st := insert(before.state, Id(users[k], xxh3), ToValue(users[k], encode).value);
      assert step(before.state, users[k]) == Run(st.state, [Insert(Id(users[k], xxh3), ToValue(users[k], encode).value)], st.outcome);
      assert |r.calls| == k + 1;
    }
  }

  /**
   * Every inserted value is the whole user: it reads back as that user,
   * role and queue included, whenever commands read back as written.
   */
  lemma InsertedValueIsWholeUser<S>(s: S, users: seq<User>, insert: (S, ObjectId, Json) -> Step<S>,
                                    encode: Command -> Result<Json>, decode: Json -> Result<Command>,
                                    xxh3: Hash128, i: nat)
    requires forall c :: encode(c).Ok? ==> decode(encode(c).value) == Ok(c)
    requires i < |Chain(s, users, InsertStep(insert, encode, xxh3)).calls|
    ensures i < |users|
    ensures Chain(s, users, InsertStep(insert, encode, xxh3)).calls[i].Insert?
    ensures FromValue(Chain(s, users, InsertStep(insert, encode, xxh3)).calls[i].value, decode) == Ok(users[i])
  {
    InsertedInRosterOrder(s, users, insert, encode, xxh3);
    ValueRoundTrip(users[i], encode, decode);
  }

  /** The read-write view over one store transaction. */
  class WriteTransaction<S> {
    /** The store as this transaction sees it. */
    var state: S
    /** The calls this transaction has made into the store, in order. */
    ghost var calls: seq<Call>

    /** The command parser, given the store for alias resolution. */
    const parse: (S, string) -> seq<Result<Command>>
    const execute: (S, Command) -> Step<S>
    const insert: (S, ObjectId, Json) -> Step<S>
    const encode: Command -> Result<Json>
    const xxh3: Hash128

    constructor (state: S, parse: (S, string) -> seq<Result<Command>>, execute: (S, Command) -> Step<S>,
                 insert: (S, ObjectId, Json) -> Step<S>, encode: Command -> Result<Json>, xxh3: Hash128)
      ensures this.state == state && calls == []
      ensures this.parse == parse && this.execute == execute && this.insert == insert
      ensures this.encode == encode && this.xxh3 == xxh3
    {
      this.state := state;
      this.calls := [];
      this.parse := parse;
      this.execute := execute;
      this.insert := insert;
      this.encode := encode;
      this.xxh3 := xxh3;
    }

    /** Parses all of `text`, then executes the commands one by one, stopping at the first error. */
    method QueueCommands(text: string) returns (r: Outcome)
      modifies this
      ensures var run := QueueSpec(old(state), text, parse, execute);
        state == run.state && calls == old(calls) + run.calls && r == run.outcome
    {
      var collected := CollectAll(parse(state, text));
      if collected.Err? {
        return Fail(collected.error);
      }
      var commands := collected.value;
      ghost var whole := Chain(state, commands, ExecuteStep(execute));
      ghost var done: seq<Call> := [];
      assert [] + whole.calls == whole.calls;
      var i := 0;
      while i < |commands|
        invariant 0 <= i <= |commands|
        invariant calls == old(calls) + done
        invariant whole == Then(Run(state, done, Pass), commands[i..], ExecuteStep(execute))
      {
        ChainStep(state, done, commands[i..], ExecuteStep(execute));
        assert commands[i..][1..] == commands[i + 1..];
        var command := commands[i];
        var result := execute(state, command);
        assert ExecuteStep(execute)(state, command) == Run(result.state, [Execute(command)], result.outcome);
        calls := calls + [Execute(command)];
        done := done + [Execute(command)];
        state := result.state;
        if result.outcome.Fail? {
          return result.outcome;
        }
        i := i + 1;
      }
      assert done + [] == done;
      return Pass;
    }

    /** Inserts the users in order, each under its identity, stopping at the first error. */
    method AddUsers(users: seq<User>) returns (r: Outcome)
      modifies this
      ensures var run := Chain(old(state), users, InsertStep(insert, encode, xxh3));
        state == run.state && calls == old(calls) + run.calls && r == run.outcome
    {
      ghost var whole := Chain(state, users, InsertStep(insert, encode, xxh3));
      ghost var done: seq<Call> := [];
      assert [] + whole.calls == whole.calls;
      var i := 0;
      while i < |users|
        invariant 0 <= i <= |users|
        invariant calls == old(calls) + done
        invariant whole == Then(Run(state, done, Pass), users[i..], InsertStep(insert, encode, xxh3))
      {
        ChainStep(state, done, users[i..], InsertStep(insert, encode, xxh3));
        assert users[i..][1..] == users[i + 1..];
        var user := users[i];
        var value := ToValue(user, encode);
        if value.Err? {
          assert InsertStep(insert, encode, xxh3)(state, user) == Run(state, [], Fail(value.error));
          assert done + [] == done;
          return Fail(value.error);
        }
        var id := Id(user, xxh3);
        var result := insert(state, id, value.value);
        assert InsertStep(insert, encode, xxh3)(state, user) == Run(result.state, [Insert(id, value.value)], result.outcome);
        calls := calls + [Insert(id, value.value)];
        done := done + [Insert(id, value.value)];
        state := result.state;
        if result.outcome.Fail? {
          return result.outcome;
        }
        i := i + 1;
      }
      assert done + [] == done;
      return Pass;
    }
  }
}
