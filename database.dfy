/** SqlAzureDatabase as an object: a handle whose driver calls are appended to
    a trace and answered from a script of replies. Each operation runs step by
    step, as the class does, and is proved to end in exactly the result, trace
    and script of the Orchestration function its contract names; what those
    functions promise is proved there. OpenConnection is the corrected form,
    `Orchestration.OpenConnectionClosingOnFault`, which closes the connection
    when the context switch fails; `Orchestration.OpenConnection` keeps the
    form that leaves it open. A thrown exception is a `Failure` result: the method stops
    at that point, after the clean-up a `using` block or a `catch` performs. */
module AzureDatabase {
  import opened Driver
  import opened Federation
  import Orchestration

  /** Where the fan-out loop stands: at the key of the next member to visit,
      or done once the key has been set to null. */
  datatype Cursor = Done | At(key: int)

  class SqlAzureDatabase {
    /** The federation configuration, fixed when the handle is made. */
    const handle: Handle
    /** Every driver call made so far, in order. */
    var trace: seq<Event>
    /** The driver's replies still to come. */
    var replies: seq<Reply>

    constructor (h: Handle, script: seq<Reply>)
      ensures handle == h && trace == [] && replies == script
    {
      handle := h;
      trace := [];
      replies := script;
    }

    /** A driver call that takes the next reply. */
    method Call(e: Event) returns (reply: Reply)
      modifies this
      ensures reply == Next(old(replies)) && replies == Drop(old(replies)) && trace == old(trace) + [e]
    {
      reply := Next(replies);
      replies := Drop(replies);
      trace := trace + [e];
    }

    /** A driver call that always succeeds and takes no reply. */
    method Log(e: Event)
      modifies this
      ensures replies == old(replies) && trace == old(trace) + [e]
    {
      trace := trace + [e];
    }

    method DoExecuteNonQueryWithRetry(c: nat, command: Command) returns (r: Result<int>)
      modifies this
      ensures var o := Orchestration.DoExecuteNonQuery(c, command, old(replies));
        r == o.result && trace == old(trace) + o.events && replies == o.rest
    {
      if command.NullCommand? {
        return Failure(ArgumentNull("command"));
      }
      if command.SqlCommand? {
        var reply := Call(Exec(c, command.text, NonQuery));
        if reply.Fault? {
          return Failure(DriverFault(reply.reason));
        }
        return Success(reply.rows);
      }
      return Success(0);
    }

    method DoExecuteReaderWithRetry(c: nat, command: Command) returns (r: Result<DataReader>)
      modifies this
      ensures var o := Orchestration.DoExecuteReader(c, command, old(replies));
        r == o.result && trace == old(trace) + o.events && replies == o.rest
    {
      if command.SqlCommand? {
        var reply := Call(Exec(c, command.text, Reader));
        if reply.Fault? {
          return Failure(DriverFault(reply.reason));
        }
        return Success(ReaderOn(c));
      }
      return Success(NullReader);
    }

    method DoExecuteScalarWithRetry(c: nat, command: Command) returns (r: Result<ScalarValue>)
      modifies this
      ensures var o := Orchestration.DoExecuteScalar(c, command, old(replies));
        r == o.result && trace == old(trace) + o.events && replies == o.rest
    {
      if command.SqlCommand? {
        var reply := Call(Exec(c, command.text, Scalar));
        if reply.Fault? {
          return Failure(DriverFault(reply.reason));
        }
        return Success(reply.scalar);
      }
      return Success(Null);
    }

    /** The new connection is named by the position of its creation in the
        trace. */
    method GetNewOpenConnection() returns (r: Result<nat>)
      modifies this
      ensures var o := Orchestration.GetNewOpenConnection(|old(trace)|, old(replies));
        r == o.result && trace == old(trace) + o.events && replies == o.rest
    {
      var connection := |trace|;
      var created := Call(Create(connection));
      if created.Fault? {
        return Failure(DriverFault(created.reason));
      }
      var opening := Call(Open(connection));
      if opening.Fault? {
        Log(Close(connection));
        return Failure(DriverFault(opening.reason));
      }
      return Success(connection);
    }

    /** ExecuteFederationCommand(connection, type, key, filterOn). */
    method ExecuteFederationCommandFor(c: nat, t: FederationType, key: Key, filterOn: bool) returns (r: Result<()>)
      modifies this
      ensures var o := Orchestration.SwitchFederation(handle, c, t, key, filterOn, old(replies));
        r == o.result && trace == old(trace) + o.events && replies == o.rest
    {
      var done := DoExecuteNonQueryWithRetry(c, SqlCommand(UseFederationStatement(handle, t, key, filterOn)));
      if done.Failure? {
        return Failure(done.error);
      }
      return Success(());
    }

    /** ExecuteFederationCommand(connection). */
    method ExecuteFederationCommand(c: nat) returns (r: Result<()>)
      modifies this
      ensures var o := Orchestration.DefaultSwitch(handle, c, old(replies));
        r == o.result && trace == old(trace) + o.events && replies == o.rest
    {
      if handle.federationType != None {
        r := ExecuteFederationCommandFor(c, handle.federationType, handle.federationKey, true);
      } else {
        r := Success(());
      }
    }

    /** OpenConnection, corrected so that a connection whose context switch
        fails is closed before the error surfaces; the method as written
        leaks it (Orchestration.OpenConnectionLeaksOnSwitchFault). */
    method OpenConnection() returns (r: Result<nat>)
      modifies this
      ensures var o := Orchestration.OpenConnectionClosingOnFault(handle, |old(trace)|, old(replies));
        r == o.result && trace == old(trace) + o.events && replies == o.rest
    {
      ghost var opening := Orchestration.GetNewOpenConnection(|trace|, replies);
      var connection := GetNewOpenConnection();
      if connection.Failure? {
        return connection;
      }
      ghost var inside := trace;
      ghost var sw := Orchestration.DefaultSwitch(handle, connection.value, opening.rest);
      var switched := ExecuteFederationCommand(connection.value);
      assert trace == inside + sw.events && inside == old(trace) + opening.events;
      Regroup(old(trace), opening.events, sw.events);
      if switched.Failure? {
        Log(Close(connection.value));
        Regroup(old(trace), opening.events + sw.events, [Close(connection.value)]);
        return Failure(switched.error);
      }
      return connection;
    }

    /** The wrapper from GetOpenConnection is released when the `using`
        block ends, on every path. */
    method ExecuteNonQuery(command: Command) returns (r: Result<int>)
      modifies this
      ensures var o := Orchestration.ExecuteNonQuery(handle, command, |old(trace)|, old(replies));
        r == o.result && trace == old(trace) + o.events && replies == o.rest
    {
      ghost var rs := replies;
      ghost var opening := Orchestration.GetNewOpenConnection(|trace|, rs);
      var wrapper := GetNewOpenConnection();
      if wrapper.Failure? {
        return Failure(wrapper.error);
      }
      var c := wrapper.value;
      ghost var inside := trace;
      ghost var body := if handle.federationType != All then Orchestration.SwitchThenNonQuery(handle, c, command, opening.rest)
                        else Orchestration.Fanout(handle, c, command, 0, opening.rest);
      if handle.federationType != All {
        var switched := ExecuteFederationCommand(c);
        if switched.Failure? {
          r := Failure(switched.error);
        } else {
          ghost var sw := Orchestration.DefaultSwitch(handle, c, opening.rest);
          ghost var run := Orchestration.DoExecuteNonQuery(c, command, sw.rest);
          r := DoExecuteNonQueryWithRetry(c, command);
          Regroup(inside, sw.events, run.events);
        }
      } else {
        r := ExecuteNonQueryFanout(c, command);
      }
      assert r == body.result && trace == inside + body.events && replies == body.rest;
      Log(Release(c));
      ghost var o := Orchestration.ExecuteNonQuery(handle, command, |old(trace)|, rs);
      assert o == Outcome(body.result, opening.events + body.events + [Release(c)], body.rest);
      Regroup(old(trace), opening.events, body.events);
      Regroup(old(trace), opening.events + body.events, [Release(c)]);
    }

    method ExecuteNonQueryFanout(c: nat, command: Command) returns (r: Result<int>)
      modifies this
      ensures var o := Orchestration.Fanout(handle, c, command, 0, old(replies));
        r == o.result && trace == old(trace) + o.events && replies == o.rest
    {
      ghost var start := trace;
      ghost var goal := Orchestration.Fanout(handle, c, command, 0, replies);
      ghost var visited: seq<Event> := [];
      ThenNothing(goal);
      var federationKey := At(0);
      while federationKey.At?
        invariant trace == start + visited
        invariant federationKey.At? ==>
          goal == Then(visited, Orchestration.Fanout(handle, c, command, federationKey.key, replies))
        invariant federationKey.Done? ==> goal == Outcome(Success(0), visited, replies)
        decreases if federationKey.At? then |replies| + 1 else 0
      {
        ghost var before := trace;
        ghost var step := Orchestration.Fanout(handle, c, command, federationKey.key, replies);
        ghost var sw := Orchestration.SwitchFederation(handle, c, Member, IntKey(federationKey.key), false, replies);
        var switched := ExecuteFederationCommandFor(c, Member, IntKey(federationKey.key), false);
        if switched.Failure? {
          assert step == Outcome(Failure(switched.error), sw.events, sw.rest);
          Regroup(start, visited, sw.events);
          return Failure(switched.error);
        }
        ghost var run := Orchestration.DoExecuteNonQuery(c, command, sw.rest);
        var rows := DoExecuteNonQueryWithRetry(c, command);
        Regroup(before, sw.events, run.events);
        Regroup(start, visited, sw.events + run.events);
        if rows.Failure? {
          assert step == Outcome(Failure(rows.error), sw.events + run.events, run.rest);
          return Failure(rows.error);
        }
        ghost var probe := Orchestration.DoExecuteScalar(c, SqlCommand(Orchestration.DiscoveryQuery), run.rest);
        var key := DoExecuteScalarWithRetry(c, SqlCommand(Orchestration.DiscoveryQuery));
        ghost var v := sw.events + run.events + probe.events;
        Regroup(before, sw.events + run.events, probe.events);
        Regroup(start, visited, v);
        if key.Failure? {
          assert step == Outcome(Failure(key.error), v, probe.rest);
          return Failure(key.error);
        }
        if key.value != DbNull {
          federationKey := At(Orchestration.ToInt64(key.value));
          assert step == Then(v, Orchestration.Fanout(handle, c, command, federationKey.key, replies));
          ThenAssociates(visited, v, Orchestration.Fanout(handle, c, command, federationKey.key, replies));
        } else {
          federationKey := Done;
          assert step == Outcome(Success(0), v, replies);
        }
        visited := visited + v;
      }
      return Success(0);
    }

    /** ExecuteReader(command, transaction): the transaction's connection is
        used as it is. */
    method ExecuteReaderInTransaction(command: Command, tx: nat) returns (r: Result<DataReader>)
      modifies this
      ensures var o := Orchestration.ExecuteReaderInTransaction(command, tx, old(replies));
        r == o.result && trace == old(trace) + o.events && replies == o.rest
    {
      r := DoExecuteReaderWithRetry(tx, command);
    }

    /** ExecuteReader(command): the reader is handed back wrapped together
        with the connection wrapper, and the `using` block still releases the
        wrapper once. */
    method ExecuteReader(command: Command) returns (r: Result<Orchestration.WrappedReader>)
      modifies this
      ensures var o := Orchestration.ExecuteReader(handle, command, |old(trace)|, old(replies));
        r == o.result && trace == old(trace) + o.events && replies == o.rest
    {
      ghost var opening := Orchestration.GetNewOpenConnection(|trace|, replies);
      var wrapper := GetNewOpenConnection();
      if wrapper.Failure? {
        return Failure(wrapper.error);
      }
      var c := wrapper.value;
      ghost var inside := trace;
      ghost var body := Orchestration.SwitchThenReader(handle, c, command, opening.rest);
      ghost var sw := Orchestration.DefaultSwitch(handle, c, opening.rest);
      var switched := ExecuteFederationCommand(c);
      if switched.Failure? {
        r := Failure(switched.error);
      } else {
        ghost var run := Orchestration.DoExecuteReader(c, command, sw.rest);
        var realReader := DoExecuteReaderWithRetry(c, command);
        Regroup(inside, sw.events, run.events);
        if realReader.Failure? {
          r := Failure(realReader.error);
        } else {
          r := Success(Orchestration.WrappedReader(c, realReader.value));
        }
      }
      assert r == body.result && trace == inside + body.events && replies == body.rest;
      Log(Release(c));
      Regroup(old(trace), opening.events, body.events);
      Regroup(old(trace), opening.events + body.events, [Release(c)]);
    }

    method ExecuteScalar(command: Command) returns (r: Result<ScalarValue>)
      modifies this
      ensures var o := Orchestration.ExecuteScalar(handle, command, |old(trace)|, old(replies));
        r == o.result && trace == old(trace) + o.events && replies == o.rest
    {
      if command.NullCommand? {
        return Failure(ArgumentNull("command"));
      }
      ghost var opening := Orchestration.GetNewOpenConnection(|trace|, replies);
      var wrapper := GetNewOpenConnection();
      if wrapper.Failure? {
        return Failure(wrapper.error);
      }
      var c := wrapper.value;
      ghost var inside := trace;
      ghost var body := Orchestration.SwitchThenScalar(handle, c, command, opening.rest);
      ghost var sw := Orchestration.DefaultSwitch(handle, c, opening.rest);
      var switched := ExecuteFederationCommand(c);
      if switched.Failure? {
        r := Failure(switched.error);
      } else {
        ghost var run := Orchestration.DoExecuteScalar(c, command, sw.rest);
        r := DoExecuteScalarWithRetry(c, command);
        Regroup(inside, sw.events, run.events);
      }
      assert r == body.result && trace == inside + body.events && replies == body.rest;
      Log(Release(c));
      Regroup(old(trace), opening.events, body.events);
      Regroup(old(trace), opening.events + body.events, [Release(c)]);
    }
  }
}
