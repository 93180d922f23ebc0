/** What each operation of SqlAzureDatabase does, as a function of the handle's
    configuration and the driver's script: its result, the driver calls it
    makes, and the replies it leaves. The class in AzureDatabase runs the same
    operations step by step and is proved to agree with these functions; the
    lemmas here state what the operations promise. */
module Orchestration {
  import opened Driver
  import opened Federation

  /** The query that finds the upper boundary of the current member's range. */
  const DiscoveryQuery := "SELECT CAST(range_high as bigint) FROM sys.federation_member_distributions"

  /** The reader ExecuteReader(command) hands back: the real reader wrapped
      together with the connection wrapper it keeps alive. */
  datatype WrappedReader = WrappedReader(conn: nat, inner: DataReader)

  /** The first two scripted replies let a new connection be created and
      opened. */
  predicate Opens(rs: seq<Reply>) {
    Next(rs).Ok? && Next(Drop(rs)).Ok?
  }

  /** `e` is the last of `events` and occurs nowhere before it. */
  predicate LastAndOnly(events: seq<Event>, e: Event) {
    |events| > 0 && events[|events| - 1] == e && e !in events[..|events| - 1]
  }

  predicate AllExecOn(events: seq<Event>, c: nat) {
    forall i :: 0 <= i < |events| ==> events[i].Exec? && events[i].conn == c
  }

  // ---------------------------------------------------------------------
  // The three execution shapes: DoExecuteNonQueryWithRetry,
  // DoExecuteScalarWithRetry, DoExecuteReaderWithRetry. The retry policy is
  // one call that either returns or fails.

  function DoExecuteNonQuery(c: nat, command: Command, rs: seq<Reply>): (o: Outcome<int>)
    ensures o.rest == rs || o.rest == Drop(rs)
  {
    if command.NullCommand? then Outcome(Failure(ArgumentNull("command")), [], rs)
    else if command.SqlCommand? then
      var reply := Next(rs);
      Outcome(if reply.Ok? then Success(reply.rows) else Failure(DriverFault(reply.reason)),
              [Exec(c, command.text, NonQuery)], Drop(rs))
    else Outcome(Success(0), [], rs)
  }

  function DoExecuteScalar(c: nat, command: Command, rs: seq<Reply>): (o: Outcome<ScalarValue>)
    ensures o.rest == rs || o.rest == Drop(rs)
  {
    if command.SqlCommand? then
      var reply := Next(rs);
      Outcome(if reply.Ok? then Success(reply.scalar) else Failure(DriverFault(reply.reason)),
              [Exec(c, command.text, Scalar)], Drop(rs))
    else Outcome(Success(Null), [], rs)
  }

  function DoExecuteReader(c: nat, command: Command, rs: seq<Reply>): (o: Outcome<DataReader>)
    ensures o.rest == rs || o.rest == Drop(rs)
  {
    if command.SqlCommand? then
      var reply := Next(rs);
      Outcome(if reply.Ok? then Success(ReaderOn(c)) else Failure(DriverFault(reply.reason)),
              [Exec(c, command.text, Reader)], Drop(rs))
    else Outcome(Success(NullReader), [], rs)
  }

  /** A command that is not the native SQL client type is never executed:
      the three shapes give 0, a null object and a null reader. A null command
      is an argument error for the non-query shape only. */
  lemma UnsupportedCommandIsSkipped(c: nat, command: Command, rs: seq<Reply>)
    requires !command.SqlCommand?
    ensures DoExecuteScalar(c, command, rs) == Outcome(Success(Null), [], rs)
    ensures DoExecuteReader(c, command, rs) == Outcome(Success(NullReader), [], rs)
    ensures DoExecuteNonQuery(c, command, rs)
         == Outcome(if command.NullCommand? then Failure(ArgumentNull("command")) else Success(0), [], rs)
  {
  }

  /** A native SQL command is executed exactly once, in the requested
      shape, on `c`, taking one reply; a driver fault surfaces with the
      driver's reason. */
  lemma SqlCommandRunsOnce(c: nat, text: string, rs: seq<Reply>)
    ensures var n := DoExecuteNonQuery(c, SqlCommand(text), rs);
      && n.events == [Exec(c, text, NonQuery)] && n.rest == Drop(rs)
      && n.result == (if Next(rs).Ok? then Success(Next(rs).rows) else Failure(DriverFault(Next(rs).reason)))
    ensures var s := DoExecuteScalar(c, SqlCommand(text), rs);
      && s.events == [Exec(c, text, Scalar)] && s.rest == Drop(rs)
      && s.result == (if Next(rs).Ok? then Success(Next(rs).scalar) else Failure(DriverFault(Next(rs).reason)))
    ensures var r := DoExecuteReader(c, SqlCommand(text), rs);
      && r.events == [Exec(c, text, Reader)] && r.rest == Drop(rs)
      && r.result == (if Next(rs).Ok? then Success(ReaderOn(c)) else Failure(DriverFault(Next(rs).reason)))
  {
  }

  // ---------------------------------------------------------------------
  // Context switching: both ExecuteFederationCommand overloads.

  /** ExecuteFederationCommand(connection, type, key, filterOn): one
      non-query execution of the built statement on `c`. */
  function SwitchFederation(h: Handle, c: nat, t: FederationType, key: Key, filterOn: bool, rs: seq<Reply>): (o: Outcome<()>)
    ensures o.events == [Exec(c, UseFederationStatement(h, t, key, filterOn), NonQuery)]
    ensures o.rest == Drop(rs)
    ensures o.result.Success? <==> Next(rs).Ok?
    ensures o.result.Failure? ==> o.result.error == DriverFault(Next(rs).reason)
  {
    var run := DoExecuteNonQuery(c, SqlCommand(UseFederationStatement(h, t, key, filterOn)), rs);
    Outcome(if run.result.Success? then Success(()) else Failure(run.result.error), run.events, run.rest)
  }

  /** ExecuteFederationCommand(connection): the handle's own context, filtered. */
  function DefaultSwitch(h: Handle, c: nat, rs: seq<Reply>): (o: Outcome<()>)
    ensures o.rest == rs || o.rest == Drop(rs)
    ensures o.events == DefaultSwitchEvents(h, c)
  {
    if h.federationType != None then SwitchFederation(h, c, h.federationType, h.federationKey, true, rs)
    else Outcome(Success(()), [], rs)
  }

  /** The statements the default context switch issues, as a list. */
  function DefaultSwitchEvents(h: Handle, c: nat): seq<Event> {
    if h.federationType == None then []
    else [Exec(c, UseFederationStatement(h, h.federationType, h.federationKey, true), NonQuery)]
  }

  /** The default context switch issues nothing for a plain database, and
      otherwise exactly one statement on `c`, built from the handle's own type
      and key with filtering on: the root statement for a root handle, the
      filtered member template for a member or fan-out handle. */
  lemma DefaultSwitchUsesOwnTarget(h: Handle, c: nat, rs: seq<Reply>)
    ensures var o := DefaultSwitch(h, c, rs);
      && (h.federationType == None ==> o == Outcome(Success(()), [], rs))
      && (h.federationType != None ==>
            && o.events == DefaultSwitchEvents(h, c)
            && |o.events| == 1
            && o.rest == Drop(rs)
            && (o.result.Success? <==> Next(rs).Ok?))
      && (h.federationType == Root ==> o.events == [Exec(c, RootStatement, NonQuery)])
      && (h.federationType in {Member, All} ==>
            o.events == [Exec(c, MemberTemplate(h.federationName, h.distributionName, KeyText(h.federationKey), true), NonQuery)])
  {
  }

  // ---------------------------------------------------------------------
  // Connections: GetNewOpenConnection and OpenConnection.

  /** GetNewOpenConnection: create a connection, open it, and close it again
      when opening fails. */
  function GetNewOpenConnection(at: nat, rs: seq<Reply>): (o: Outcome<nat>)
    ensures o.result.Success? <==> Opens(rs)
    ensures o.result.Success? ==> o.result.value == at && o.events == [Create(at), Open(at)]
    ensures |o.rest| <= |rs|
  {
    var created := Next(rs);
    if created.Fault? then Outcome(Failure(DriverFault(created.reason)), [Create(at)], Drop(rs))
    else
      var opening := Next(Drop(rs));
      if opening.Fault? then
        Outcome(Failure(DriverFault(opening.reason)), [Create(at), Open(at), Close(at)], Drop(Drop(rs)))
      else Outcome(Success(at), [Create(at), Open(at)], Drop(Drop(rs)))
  }

  /** A connection that was created but failed to open is closed exactly
      once, and then the driver's fault surfaces; a connection that could not
      even be created is not closed; an opened connection is returned open. */
  lemma GetNewOpenConnectionClosesOnFault(at: nat, rs: seq<Reply>)
    ensures var o := GetNewOpenConnection(at, rs);
      && (Next(rs).Fault? ==> o.events == [Create(at)] && o.result == Failure(DriverFault(Next(rs).reason)))
      && (Next(rs).Ok? && !Opens(rs) ==>
            o.events == [Create(at), Open(at), Close(at)] && o.result == Failure(DriverFault(Next(Drop(rs)).reason)))
      && (Opens(rs) ==> Close(at) !in o.events && o.events[|o.events| - 1] == Open(at))
  {
  }

  /** OpenConnection, as written: a new open connection, then the default
      context switch on it. */
  function OpenConnection(h: Handle, at: nat, rs: seq<Reply>): (o: Outcome<nat>)
    ensures o.result.Success? ==>
      o.result.value == at && o.events == [Create(at), Open(at)] + DefaultSwitchEvents(h, at)
      && Close(at) !in o.events
  {
    var w := GetNewOpenConnection(at, rs);
    if w.result.Failure? then w
    else
      var s := DefaultSwitch(h, w.result.value, w.rest);
      Outcome(if s.result.Success? then w.result else Failure(s.result.error), w.events + s.events, s.rest)
  }

  /** When the context switch fails, OpenConnection ends with an error after
      opening the connection, and never closes it: the connection leaks. */
  lemma OpenConnectionLeaksOnSwitchFault(h: Handle, at: nat, rs: seq<Reply>)
    requires h.federationType != None && Opens(rs) && Next(Drop(Drop(rs))).Fault?
    ensures var o := OpenConnection(h, at, rs);
      o.result.Failure? && Open(at) in o.events && Close(at) !in o.events
  {
    var w := GetNewOpenConnection(at, rs);
    assert w == Outcome(Success(at), [Create(at), Open(at)], Drop(Drop(rs)));
    var s := DefaultSwitch(h, at, w.rest);
    DefaultSwitchUsesOwnTarget(h, at, w.rest);
    assert s.result.Failure? && s.events == DefaultSwitchEvents(h, at);
    assert OpenConnection(h, at, rs).events == [Create(at), Open(at)] + DefaultSwitchEvents(h, at);
  }

  /** OpenConnection as GetNewOpenConnection's own discipline calls for: a
      connection that is not handed to the caller is closed first. */
  function OpenConnectionClosingOnFault(h: Handle, at: nat, rs: seq<Reply>): (o: Outcome<nat>)
    ensures o.result.Success? ==> o.result.value == at && Close(at) !in o.events
    ensures Opens(rs) && o.result.Failure? ==> |o.events| > 0 && o.events[|o.events| - 1] == Close(at)
  {
    var w := GetNewOpenConnection(at, rs);
    if w.result.Failure? then w
    else
      var s := DefaultSwitch(h, w.result.value, w.rest);
      var events := w.events + s.events;
      if s.result.Success? then Outcome(w.result, events, s.rest)
      else Outcome(Failure(s.result.error), events + [Close(at)], s.rest)
  }

  /** With the correction every opened connection is either handed to the
      caller open, or closed exactly once before the error surfaces. */
  lemma CorrectedOpenConnectionNeverLeaks(h: Handle, at: nat, rs: seq<Reply>)
    ensures var o := OpenConnectionClosingOnFault(h, at, rs);
      && (o.result.Success? ==>
            o.result.value == at && o.events == [Create(at), Open(at)] + DefaultSwitchEvents(h, at)
            && Close(at) !in o.events)
      && (Opens(rs) && o.result.Failure? ==> LastAndOnly(o.events, Close(at)))
  {
    var o := OpenConnectionClosingOnFault(h, at, rs);
    if Opens(rs) {
      var s := DefaultSwitch(h, at, Drop(Drop(rs)));
      assert s.events == DefaultSwitchEvents(h, at) || s.events == [];
      if s.result.Failure? {
        assert o.events[..|o.events| - 1] == [Create(at), Open(at)] + s.events;
      }
    }
  }

  // ---------------------------------------------------------------------
  // ExecuteNonQuery and the fan-out.

  /** The non-fan-out body of ExecuteNonQuery: switch, then run the command. */
  function SwitchThenNonQuery(h: Handle, c: nat, command: Command, rs: seq<Reply>): (o: Outcome<int>)
  {
    var s := DefaultSwitch(h, c, rs);
    if s.result.Failure? then Outcome(Failure(s.result.error), s.events, s.rest)
    else Then(s.events, DoExecuteNonQuery(c, command, s.rest))
  }

  /** Convert.ToInt64 of the object a discovery query returns, for anything
      but the database null. A null reference converts to 0. */
  function ToInt64(v: ScalarValue): (n: int)
    requires v != DbNull
    ensures v.Value? ==> n == v.n
    ensures v.Null? ==> n == 0
  {
    if v.Value? then v.n else 0
  }

  /** ExecuteNonQueryFanout, from cursor `key` on: switch unfiltered to the
      member holding `key`, run the command, ask for the member's upper
      boundary, and go on from there until the boundary is the database null.
      Every statement goes to connection `c`, and a successful fan-out
      reports 0 rows. */
  function Fanout(h: Handle, c: nat, command: Command, key: int, rs: seq<Reply>): (o: Outcome<int>)
    ensures o.result.Success? ==> o.result.value == 0
    decreases |rs|
  {
    var s := SwitchFederation(h, c, Member, IntKey(key), false, rs);
    if s.result.Failure? then Outcome(Failure(s.result.error), s.events, s.rest)
    else
      var run := DoExecuteNonQuery(c, command, s.rest);
      if run.result.Failure? then Outcome(Failure(run.result.error), s.events + run.events, run.rest)
      else
        var probe := DoExecuteScalar(c, SqlCommand(DiscoveryQuery), run.rest);
        var visited := s.events + run.events + probe.events;
        if probe.result.Failure? then Outcome(Failure(probe.result.error), visited, probe.rest)
        else if probe.result.value == DbNull then Outcome(Success(0), visited, probe.rest)
        else Then(visited, Fanout(h, c, command, ToInt64(probe.result.value), probe.rest))
  }

  /** ExecuteNonQuery: open a connection; unless the handle fans out, switch
      to its context and run the command, otherwise fan out; release the
      connection wrapper however the body ends. */
  function ExecuteNonQuery(h: Handle, command: Command, at: nat, rs: seq<Reply>): (o: Outcome<int>)
    ensures Opens(rs) ==>
      |o.events| >= 3 && o.events[0] == Create(at) && o.events[1] == Open(at)
      && o.events[|o.events| - 1] == Release(at)
    ensures !Opens(rs) ==> o.result.Failure? && Release(at) !in o.events
  {
    var w := GetNewOpenConnection(at, rs);
    if w.result.Failure? then Outcome(Failure(w.result.error), w.events, w.rest)
    else
      var c := w.result.value;
      var body := if h.federationType != All then SwitchThenNonQuery(h, c, command, w.rest)
                  else Fanout(h, c, command, 0, w.rest);
      Outcome(body.result, w.events + body.events + [Release(c)], body.rest)
  }

  /** The default context switch of `h` issues nothing, or its statement
      gets a successful reply, the first of `rs`. */
  predicate SwitchAnswered(h: Handle, rs: seq<Reply>) {
    h.federationType != None ==> |rs| >= 1 && rs[0].Ok?
  }

  /** On a handle that does not fan out, once the connection opens and the
      default context switch succeeds, a SQL command runs on the same new
      connection; its row count, or the driver's fault, is the result, and
      the wrapper is released last. */
  lemma NonQuerySwitchesBeforeCommand(h: Handle, text: string, at: nat, rs: seq<Reply>)
    requires h.federationType != All
    requires |rs| >= 3 + |DefaultSwitchEvents(h, at)| && rs[0].Ok? && rs[1].Ok? && SwitchAnswered(h, rs[2..])
    ensures var o := ExecuteNonQuery(h, SqlCommand(text), at, rs);
      var n := |DefaultSwitchEvents(h, at)|;
      && o.events == [Create(at), Open(at)] + DefaultSwitchEvents(h, at) + [Exec(at, text, NonQuery), Release(at)]
      && o.result == (if rs[2 + n].Ok? then Success(rs[2 + n].rows) else Failure(DriverFault(rs[2 + n].reason)))
      && o.rest == rs[3 + n..]
  {
    OpensWithTwoReplies(at, rs);
    SwitchThenRunsSql(h, at, text, rs[2..]);
    var n := |DefaultSwitchEvents(h, at)|;
    assert rs[2..][n] == rs[2 + n];
    assert rs[2..][n + 1..] == rs[3 + n..];
    Bracket([Create(at), Open(at)], DefaultSwitchEvents(h, at), Exec(at, text, NonQuery), Release(at));
  }

  lemma SwitchThenRunsSql(h: Handle, c: nat, text: string, rs: seq<Reply>)
    requires |rs| >= 1 + |DefaultSwitchEvents(h, c)| && SwitchAnswered(h, rs)
    ensures var n := |DefaultSwitchEvents(h, c)|;
      SwitchThenNonQuery(h, c, SqlCommand(text), rs)
      == Outcome(if rs[n].Ok? then Success(rs[n].rows) else Failure(DriverFault(rs[n].reason)),
                 DefaultSwitchEvents(h, c) + [Exec(c, text, NonQuery)], rs[n + 1..])
  {
    var n := |DefaultSwitchEvents(h, c)|;
    SwitchThenRuns(h, c, SqlCommand(text), rs);
    assert rs[n..][0] == rs[n];
    assert rs[n..][1..] == rs[n + 1..];
  }

  lemma OpensWithTwoReplies(at: nat, rs: seq<Reply>)
    requires |rs| >= 2 && rs[0].Ok? && rs[1].Ok?
    ensures GetNewOpenConnection(at, rs) == Outcome(Success(at), [Create(at), Open(at)], rs[2..])
  {
    assert Drop(rs) == rs[1..];
    assert Drop(rs[1..]) == rs[2..];
  }

  /** With successful replies, the default switch takes one reply per
      statement it issues. */
  lemma DefaultSwitchSucceeds(h: Handle, c: nat, rs: seq<Reply>)
    requires SwitchAnswered(h, rs)
    ensures var n := |DefaultSwitchEvents(h, c)|;
      n <= |rs| && DefaultSwitch(h, c, rs) == Outcome(Success(()), DefaultSwitchEvents(h, c), rs[n..])
  {
    if h.federationType != None {
      assert Drop(rs) == rs[1..];
    }
  }

  /** A failed default switch issues its one statement and surfaces the
      driver's fault. */
  lemma DefaultSwitchFails(h: Handle, c: nat, rs: seq<Reply>)
    requires h.federationType != None && Next(rs).Fault?
    ensures DefaultSwitch(h, c, rs)
         == Outcome(Failure(DriverFault(Next(rs).reason)), DefaultSwitchEvents(h, c), Drop(rs))
  {
  }

  lemma SwitchThenRuns(h: Handle, c: nat, command: Command, rs: seq<Reply>)
    requires SwitchAnswered(h, rs)
    ensures var n := |DefaultSwitchEvents(h, c)|;
      n <= |rs| && SwitchThenNonQuery(h, c, command, rs) == Then(DefaultSwitchEvents(h, c), DoExecuteNonQuery(c, command, rs[n..]))
  {
    DefaultSwitchSucceeds(h, c, rs);
  }

  /** On a handle that does not fan out, a failed default context switch
      stops the call before the command: the driver's fault is the result, and
      the wrapper is still released last. */
  lemma NonQueryStopsAtSwitchFault(h: Handle, command: Command, at: nat, rs: seq<Reply>)
    requires h.federationType !in {All, None} && Opens(rs) && Next(Drop(Drop(rs))).Fault?
    ensures var o := ExecuteNonQuery(h, command, at, rs);
      && o.events == [Create(at), Open(at), Exec(at, UseFederationStatement(h, h.federationType, h.federationKey, true), NonQuery), Release(at)]
      && o.result == Failure(DriverFault(Next(Drop(Drop(rs))).reason))
      && o.rest == Drop(Drop(Drop(rs)))
  {
    DefaultSwitchFails(h, at, Drop(Drop(rs)));
  }

  /** On a handle that does not fan out, a null command is rejected after the
      context switch, and the connection is still released. */
  lemma NonQueryRejectsNullCommand(h: Handle, at: nat, rs: seq<Reply>)
    requires h.federationType != All
    requires |rs| >= 3 && forall i :: 0 <= i < |rs| ==> rs[i].Ok?
    ensures var o := ExecuteNonQuery(h, NullCommand, at, rs);
      && o.result == Failure(ArgumentNull("command"))
      && o.events == [Create(at), Open(at)] + DefaultSwitchEvents(h, at) + [Release(at)]
  {
    OpensWithTwoReplies(at, rs);
    var n := |DefaultSwitchEvents(h, at)|;
    assert rs[2..][0].Ok?;
    DefaultSwitchSucceeds(h, at, rs[2..]);
    assert SwitchThenNonQuery(h, at, NullCommand, rs[2..])
        == Outcome(Failure(ArgumentNull("command")), DefaultSwitchEvents(h, at), rs[2..][n..]);
  }

  /** On a fan-out handle, ExecuteNonQuery is the fan-out from key 0 on the
      new connection, between opening it and releasing it. */
  lemma NonQueryOnAllFansOut(h: Handle, command: Command, at: nat, rs: seq<Reply>)
    requires h.federationType == All && Opens(rs)
    ensures var f := Fanout(h, at, command, 0, Drop(Drop(rs)));
      ExecuteNonQuery(h, command, at, rs) == Outcome(f.result, [Create(at), Open(at)] + f.events + [Release(at)], f.rest)
  {
  }

  /** The statements one fan-out step issues for member key `key`. */
  function Visit(h: Handle, c: nat, text: string, key: int): seq<Event> {
    [ Exec(c, UseFederationStatement(h, Member, IntKey(key), false), NonQuery),
      Exec(c, text, NonQuery),
      Exec(c, DiscoveryQuery, Scalar) ]
  }

  /** The statements a fan-out issues when it visits `keys` in order. */
  function Walk(h: Handle, c: nat, text: string, keys: seq<int>): seq<Event> {
    if keys == [] then [] else Visit(h, c, text, keys[0]) + Walk(h, c, text, keys[1..])
  }

  /** The discovery answers `Value(d)` for each `d` of `ds`. */
  function Values(ds: seq<int>): (vs: seq<ScalarValue>)
    ensures |vs| == |ds| && forall i :: 0 <= i < |ds| ==> vs[i] == Value(ds[i])
  {
    if ds == [] then [] else [Value(ds[0])] + Values(ds[1..])
  }

  /** `rs` answers successive fan-out steps: each step's switch and command
      succeed, and its discovery query returns the next of `scalars`. */
  predicate Answers(rs: seq<Reply>, scalars: seq<ScalarValue>)
    decreases |scalars|
  {
    if scalars == [] then rs == []
    else |rs| >= 3 && rs[0].Ok? && rs[1].Ok? && rs[2].Ok? && rs[2].scalar == scalars[0]
         && Answers(rs[3..], scalars[1..])
  }

  /** One fan-out step whose switch, command and discovery query all get a
      successful reply: the step issues its three statements, and the
      discovered value decides whether and where the fan-out goes on. */
  lemma FanoutVisits(h: Handle, c: nat, text: string, key: int, rs: seq<Reply>)
    requires |rs| >= 3 && rs[0].Ok? && rs[1].Ok? && rs[2].Ok?
    ensures Fanout(h, c, SqlCommand(text), key, rs)
         == if rs[2].scalar == DbNull then Outcome(Success(0), Visit(h, c, text, key), rs[3..])
            else Then(Visit(h, c, text, key), Fanout(h, c, SqlCommand(text), ToInt64(rs[2].scalar), rs[3..]))
  {
    var s := SwitchFederation(h, c, Member, IntKey(key), false, rs);
    assert s.rest == rs[1..];
    var run := DoExecuteNonQuery(c, SqlCommand(text), s.rest);
    assert run.rest == rs[2..];
    var probe := DoExecuteScalar(c, SqlCommand(DiscoveryQuery), run.rest);
    assert probe.rest == rs[3..] && probe.result == Success(rs[2].scalar);
    assert s.events + run.events + probe.events == Visit(h, c, text, key);
  }

  /** One successful fan-out step that discovers `next`: the database null
      ends the fan-out, a value moves it to that key, and a missing row (a
      null reference, which converts to 0) sends it back to key 0. */
  lemma FanoutStep(h: Handle, c: nat, text: string, key: int, rs: seq<Reply>, next: ScalarValue)
    requires |rs| >= 3 && rs[0].Ok? && rs[1].Ok? && rs[2].Ok? && rs[2].scalar == next
    ensures next == DbNull ==>
      Fanout(h, c, SqlCommand(text), key, rs) == Outcome(Success(0), Visit(h, c, text, key), rs[3..])
    ensures next.Value? ==>
      Fanout(h, c, SqlCommand(text), key, rs) == Then(Visit(h, c, text, key), Fanout(h, c, SqlCommand(text), next.n, rs[3..]))
    ensures next == Null ==>
      Fanout(h, c, SqlCommand(text), key, rs) == Then(Visit(h, c, text, key), Fanout(h, c, SqlCommand(text), 0, rs[3..]))
  {
    FanoutVisits(h, c, text, key, rs);
  }

  /** The members a fan-out from `key` has visited once its discovery
      queries have returned `ds`: the start key and every discovered key but
      the last. */
  function Visited(key: int, ds: seq<int>): seq<int>
    decreases |ds|
  {
    if ds == [] then [] else [key] + Visited(ds[0], ds[1..])
  }

  /** The member a fan-out from `key` is at once its discovery queries have
      returned `ds`. */
  function Reached(key: int, ds: seq<int>): int
    decreases |ds|
  {
    if ds == [] then key else Reached(ds[0], ds[1..])
  }

  /** Visited and Reached split the start key followed by the discoveries
      into everything but the last, and the last. */
  lemma {:induction false} VisitedThenReached(key: int, ds: seq<int>)
    ensures Visited(key, ds) + [Reached(key, ds)] == [key] + ds
    decreases |ds|
  {
    if ds != [] {
      VisitedThenReached(ds[0], ds[1..]);
      assert [ds[0]] + ds[1..] == ds;
    }
  }

  lemma WalkCons(h: Handle, c: nat, text: string, key: int, keys: seq<int>)
    ensures Walk(h, c, text, [key] + keys) == Visit(h, c, text, key) + Walk(h, c, text, keys)
  {
    assert ([key] + keys)[1..] == keys;
  }

  /** After members whose discovery queries return `ds`, the fan-out goes on
      exactly as a fan-out from the last discovered key, having visited the
      start key and every discovered key but the last. */
  lemma {:induction false} FanoutResumes(h: Handle, c: nat, text: string, key: int, ds: seq<int>, rs: seq<Reply>, tail: seq<Reply>)
    requires Answers(rs, Values(ds))
    ensures Fanout(h, c, SqlCommand(text), key, rs + tail)
         == Then(Walk(h, c, text, Visited(key, ds)), Fanout(h, c, SqlCommand(text), Reached(key, ds), tail))
    decreases |ds|
  {
    var command := SqlCommand(text);
    if ds == [] {
      assert rs + tail == tail;
      ThenNothing(Fanout(h, c, command, key, tail));
    } else {
      assert Values(ds)[0] == Value(ds[0]) && Values(ds)[1..] == Values(ds[1..]);
      FanoutAnswered(h, c, text, key, rs, tail, Values(ds));
      FanoutResumes(h, c, text, ds[0], ds[1..], rs[3..], tail);
      WalkCons(h, c, text, key, Visited(ds[0], ds[1..]));
      ThenAssociates(Visit(h, c, text, key), Walk(h, c, text, Visited(ds[0], ds[1..])),
                     Fanout(h, c, command, Reached(ds[0], ds[1..]), tail));
    }
  }

  /** Given discovery results `ds` and then the database null, the fan-out
      from `key` visits `key`, then every discovered key in order, and
      succeeds with 0, leaving exactly the replies after the last
      discovery. */
  lemma FanoutFollowsDiscovery(h: Handle, c: nat, text: string, key: int, ds: seq<int>,
                               rs: seq<Reply>, last: seq<Reply>, tail: seq<Reply>)
    requires Answers(rs, Values(ds)) && Answers(last, [DbNull])
    ensures Fanout(h, c, SqlCommand(text), key, rs + last + tail) == Outcome(Success(0), Walk(h, c, text, [key] + ds), tail)
  {
    var final := Reached(key, ds);
    assert rs + last + tail == rs + (last + tail);
    FanoutResumes(h, c, text, key, ds, rs, last + tail);
    FanoutAnswered(h, c, text, final, last, tail, [DbNull]);
    assert last[3..] + tail == tail;
    WalkOfVisitedAndReached(h, c, text, key, ds);
  }

  lemma WalkOfVisitedAndReached(h: Handle, c: nat, text: string, key: int, ds: seq<int>)
    ensures Walk(h, c, text, Visited(key, ds)) + Visit(h, c, text, Reached(key, ds)) == Walk(h, c, text, [key] + ds)
  {
    WalkAppend(h, c, text, Visited(key, ds), [Reached(key, ds)]);
    WalkCons(h, c, text, Reached(key, ds), []);
    VisitedThenReached(key, ds);
  }

  /** The walk over two key lists in turn is the walk over both. */
  lemma {:induction false} WalkAppend(h: Handle, c: nat, text: string, a: seq<int>, b: seq<int>)
    ensures Walk(h, c, text, a + b) == Walk(h, c, text, a) + Walk(h, c, text, b)
  {
    if a != [] {
      var v := Visit(h, c, text, a[0]);
      assert a + b == [a[0]] + (a[1..] + b);
      WalkCons(h, c, text, a[0], a[1..] + b);
      WalkAppend(h, c, text, a[1..], b);
      assert a == [a[0]] + a[1..];
      WalkCons(h, c, text, a[0], a[1..]);
      Regroup(v, Walk(h, c, text, a[1..]), Walk(h, c, text, b));
    } else {
      assert a + b == b;
    }
  }

  /** The first step of a fan-out whose replies, followed by `tail`, answer
      `scalars`. */
  lemma FanoutAnswered(h: Handle, c: nat, text: string, key: int, rs: seq<Reply>, tail: seq<Reply>, scalars: seq<ScalarValue>)
    requires Answers(rs, scalars) && scalars != []
    ensures Answers(rs[3..], scalars[1..])
    ensures Fanout(h, c, SqlCommand(text), key, rs + tail)
         == if scalars[0] == DbNull then Outcome(Success(0), Visit(h, c, text, key), rs[3..] + tail)
            else Then(Visit(h, c, text, key), Fanout(h, c, SqlCommand(text), ToInt64(scalars[0]), rs[3..] + tail))
  {
    var all := rs + tail;
    assert all[0] == rs[0] && all[1] == rs[1] && all[2] == rs[2] && all[3..] == rs[3..] + tail;
    FanoutVisits(h, c, text, key, all);
  }

  /** A fan-out step whose switch succeeds and whose command fails stops
      right after the command, with the driver's fault. */
  lemma FanoutStopsAtCommand(h: Handle, c: nat, text: string, key: int, rs: seq<Reply>)
    requires |rs| >= 2 && rs[0].Ok? && rs[1].Fault?
    ensures Fanout(h, c, SqlCommand(text), key, rs)
         == Outcome(Failure(DriverFault(rs[1].reason)),
                    [Exec(c, UseFederationStatement(h, Member, IntKey(key), false), NonQuery), Exec(c, text, NonQuery)],
                    rs[2..])
  {
    var s := SwitchFederation(h, c, Member, IntKey(key), false, rs);
    assert s.rest == rs[1..];
    var run := DoExecuteNonQuery(c, SqlCommand(text), s.rest);
    assert run.rest == rs[2..];
  }

  /** A fan-out step whose switch fails issues only the switch. */
  lemma FanoutStopsAtSwitch(h: Handle, c: nat, command: Command, key: int, rs: seq<Reply>)
    requires Next(rs).Fault?
    ensures Fanout(h, c, command, key, rs)
         == Outcome(Failure(DriverFault(Next(rs).reason)),
                    [Exec(c, UseFederationStatement(h, Member, IntKey(key), false), NonQuery)],
                    Drop(rs))
  {
  }

  /** A fan-out step whose discovery query fails stops after that query:
      the member's command has run, and no further member is tried. */
  lemma FanoutStopsAtDiscovery(h: Handle, c: nat, text: string, key: int, rs: seq<Reply>)
    requires |rs| >= 3 && rs[0].Ok? && rs[1].Ok? && rs[2].Fault?
    ensures Fanout(h, c, SqlCommand(text), key, rs)
         == Outcome(Failure(DriverFault(rs[2].reason)), Visit(h, c, text, key), rs[3..])
  {
    var s := SwitchFederation(h, c, Member, IntKey(key), false, rs);
    assert s.rest == rs[1..];
    var run := DoExecuteNonQuery(c, SqlCommand(text), s.rest);
    assert run.rest == rs[2..];
    var probe := DoExecuteScalar(c, SqlCommand(DiscoveryQuery), run.rest);
    assert probe.rest == rs[3..];
    assert s.events + run.events + probe.events == Visit(h, c, text, key);
  }

  /** If the command fails on the member reached after discoveries `ds`, the
      fan-out stops there: nothing follows the failing command, no further
      member is tried, and the driver's fault is the result. */
  lemma FanoutAbortsOnCommandFault(h: Handle, c: nat, text: string, key: int, ds: seq<int>, rs: seq<Reply>,
                                   switchReply: Reply, reason: string, tail: seq<Reply>)
    requires Answers(rs, Values(ds)) && switchReply.Ok?
    ensures Fanout(h, c, SqlCommand(text), key, rs + [switchReply, Fault(reason)] + tail)
      == Outcome(Failure(DriverFault(reason)),
                 Walk(h, c, text, Visited(key, ds))
                 + [Exec(c, UseFederationStatement(h, Member, IntKey(Reached(key, ds)), false), NonQuery), Exec(c, text, NonQuery)],
                 tail)
  {
    var more := [switchReply, Fault(reason)] + tail;
    assert rs + [switchReply, Fault(reason)] + tail == rs + more;
    FanoutResumes(h, c, text, key, ds, rs, more);
    assert more[1] == Fault(reason) && more[2..] == tail;
    FanoutStopsAtCommand(h, c, text, Reached(key, ds), more);
  }

  /** If the member switch fails for the member reached after discoveries
      `ds`, the fan-out stops there with the driver's fault, before that
      member's command. */
  lemma FanoutAbortsOnSwitchFault(h: Handle, c: nat, text: string, key: int, ds: seq<int>, rs: seq<Reply>,
                                  reason: string, tail: seq<Reply>)
    requires Answers(rs, Values(ds))
    ensures Fanout(h, c, SqlCommand(text), key, rs + [Fault(reason)] + tail)
      == Outcome(Failure(DriverFault(reason)),
                 Walk(h, c, text, Visited(key, ds))
                 + [Exec(c, UseFederationStatement(h, Member, IntKey(Reached(key, ds)), false), NonQuery)],
                 tail)
  {
    var more := [Fault(reason)] + tail;
    var next := Reached(key, ds);
    var stop := Outcome(Failure(DriverFault(reason)),
                        [Exec(c, UseFederationStatement(h, Member, IntKey(next), false), NonQuery)], tail);
    assert Fanout(h, c, SqlCommand(text), next, more) == stop by {
      assert Next(more) == Fault(reason) && Drop(more) == tail;
      FanoutStopsAtSwitch(h, c, SqlCommand(text), next, more);
    }
    assert Fanout(h, c, SqlCommand(text), key, rs + [Fault(reason)] + tail)
        == Then(Walk(h, c, text, Visited(key, ds)), Fanout(h, c, SqlCommand(text), next, more)) by {
      assert rs + [Fault(reason)] + tail == rs + more;
      FanoutResumes(h, c, text, key, ds, rs, more);
    }
  }

  /** If the discovery query fails on the member reached after discoveries
      `ds`, the fan-out stops after that member's visit with the driver's
      fault, and no further member is tried. */
  lemma FanoutAbortsOnDiscoveryFault(h: Handle, c: nat, text: string, key: int, ds: seq<int>, rs: seq<Reply>,
                                     switchReply: Reply, commandReply: Reply, reason: string, tail: seq<Reply>)
    requires Answers(rs, Values(ds)) && switchReply.Ok? && commandReply.Ok?
    ensures Fanout(h, c, SqlCommand(text), key, rs + [switchReply, commandReply, Fault(reason)] + tail)
      == Outcome(Failure(DriverFault(reason)),
                 Walk(h, c, text, Visited(key, ds)) + Visit(h, c, text, Reached(key, ds)),
                 tail)
  {
    var more := [switchReply, commandReply, Fault(reason)] + tail;
    var next := Reached(key, ds);
    var stop := Outcome(Failure(DriverFault(reason)), Visit(h, c, text, next), tail);
    assert Fanout(h, c, SqlCommand(text), next, more) == stop by {
      assert more[0].Ok? && more[1].Ok? && more[2] == Fault(reason) && more[3..] == tail;
      FanoutStopsAtDiscovery(h, c, text, next, more);
    }
    assert Fanout(h, c, SqlCommand(text), key, rs + [switchReply, commandReply, Fault(reason)] + tail)
        == Then(Walk(h, c, text, Visited(key, ds)), Fanout(h, c, SqlCommand(text), next, more)) by {
      assert rs + [switchReply, commandReply, Fault(reason)] + tail == rs + more;
      FanoutResumes(h, c, text, key, ds, rs, more);
    }
    assert Then(Walk(h, c, text, Visited(key, ds)), stop)
        == Outcome(stop.result, Walk(h, c, text, Visited(key, ds)) + stop.events, stop.rest);
  }

  lemma {:induction false} WalkLength(h: Handle, c: nat, text: string, keys: seq<int>)
    ensures |Walk(h, c, text, keys)| == 3 * |keys|
  {
    if keys != [] {
      WalkLength(h, c, text, keys[1..]);
    }
  }

  /** A walk over `keys` issues the statements of the i-th key's visit at
      positions 3i, 3i+1 and 3i+2: its unfiltered member switch, the command
      and the discovery query, so the command runs exactly once per key, in
      key order. */
  lemma {:induction false} WalkAt(h: Handle, c: nat, text: string, keys: seq<int>, i: nat, j: nat)
    requires i < |keys| && j < 3
    ensures |Walk(h, c, text, keys)| == 3 * |keys|
    ensures Walk(h, c, text, keys)[3 * i + j] == Visit(h, c, text, keys[i])[j]
  {
    WalkLength(h, c, text, keys);
    var v := Visit(h, c, text, keys[0]);
    var rest := Walk(h, c, text, keys[1..]);
    assert Walk(h, c, text, keys) == v + rest;
    if i > 0 {
      WalkAt(h, c, text, keys[1..], i - 1, j);
      assert keys[1..][i - 1] == keys[i];
      assert 3 * i + j == |v| + (3 * (i - 1) + j);
    }
  }

  /** Two discoveries and then the database null: the fan-out visits key 0
      and then the two discovered keys in order, consumes the whole script
      and reports 0. */
  lemma FanoutThreeMembers(h: Handle, c: nat, text: string, first: int, second: int, rs: seq<Reply>, last: seq<Reply>)
    requires Answers(rs, [Value(first), Value(second)]) && Answers(last, [DbNull])
    ensures Fanout(h, c, SqlCommand(text), 0, rs + last) == Outcome(Success(0), Walk(h, c, text, [0, first, second]), [])
  {
    assert Values([first, second]) == [Value(first), Value(second)];
    FanoutFollowsDiscovery(h, c, text, 0, [first, second], rs, last, []);
    assert rs + last + [] == rs + last;
    assert [0] + [first, second] == [0, first, second];
  }

  /** The statements of the worked case, with discoveries 100 and 500 on a
      fan-out handle: the command runs three times, each time after the
      unfiltered switch to the next key. */
  lemma ThreeMemberWalk(h: Handle, c: nat, text: string)
    requires h.federationType == All
    ensures var w := Walk(h, c, text, [0, 100, 500]);
      && |w| == 9
      && w[1] == w[4] == w[7] == Exec(c, text, NonQuery)
      && w[2] == w[5] == w[8] == Exec(c, DiscoveryQuery, Scalar)
      && w[0] == Exec(c, MemberTemplate(h.federationName, h.distributionName, "0", false), NonQuery)
      && w[3] == Exec(c, MemberTemplate(h.federationName, h.distributionName, "100", false), NonQuery)
      && w[6] == Exec(c, MemberTemplate(h.federationName, h.distributionName, "500", false), NonQuery)
  {
    ThreeVisits(h, c, text);
    KeyTexts();
    UnfilteredMemberSwitch(h, 0, "0");
    UnfilteredMemberSwitch(h, 100, "100");
    UnfilteredMemberSwitch(h, 500, "500");
  }

  lemma ThreeVisits(h: Handle, c: nat, text: string)
    ensures Walk(h, c, text, [0, 100, 500]) == Visit(h, c, text, 0) + Visit(h, c, text, 100) + Visit(h, c, text, 500)
  {
    WalkCons(h, c, text, 0, [100, 500]);
    WalkCons(h, c, text, 100, [500]);
    WalkCons(h, c, text, 500, []);
    assert [0] + [100, 500] == [0, 100, 500] && [100] + [500] == [100, 500] && [500] + [] == [500];
  }

  lemma KeyTexts()
    ensures Decimal.IntToText(0) == "0" && Decimal.IntToText(100) == "100" && Decimal.IntToText(500) == "500"
  {
    assert Decimal.NatToText(10) == "10" && Decimal.NatToText(50) == "50";
  }

  lemma UnfilteredMemberSwitch(h: Handle, key: int, keyText: string)
    requires h.federationType != Root && Decimal.IntToText(key) == keyText
    ensures UseFederationStatement(h, Member, IntKey(key), false)
         == MemberTemplate(h.federationName, h.distributionName, keyText, false)
  {
  }

  // ---------------------------------------------------------------------
  // ExecuteReader and ExecuteScalar.

  /** ExecuteReader(command, transaction): run on the transaction's
      connection, with no context switch and no connection of its own. */
  function ExecuteReaderInTransaction(command: Command, tx: nat, rs: seq<Reply>): (o: Outcome<DataReader>)
    ensures command.SqlCommand? ==> o.events == [Exec(tx, command.text, Reader)]
    ensures command.SqlCommand? && Next(rs).Ok? ==> o.result == Success(ReaderOn(tx))
    ensures !command.SqlCommand? ==> o == Outcome(Success(NullReader), [], rs)
  {
    DoExecuteReader(tx, command, rs)
  }

  /** The body of ExecuteReader(command) inside its connection wrapper:
      switch, then run the command as a reader on the same connection. */
  function SwitchThenReader(h: Handle, c: nat, command: Command, rs: seq<Reply>): (o: Outcome<WrappedReader>)
    ensures o.result.Success? ==> o.result.value.conn == c
  {
    var s := DefaultSwitch(h, c, rs);
    if s.result.Failure? then Outcome(Failure(s.result.error), s.events, s.rest)
    else
      var run := DoExecuteReader(c, command, s.rest);
      Outcome(if run.result.Success? then Success(WrappedReader(c, run.result.value)) else Failure(run.result.error),
              s.events + run.events, run.rest)
  }

  /** ExecuteReader(command): open a connection, run the body, and release
      the connection wrapper however the body ends. */
  function ExecuteReader(h: Handle, command: Command, at: nat, rs: seq<Reply>): (o: Outcome<WrappedReader>)
    ensures Opens(rs) ==>
      |o.events| >= 3 && o.events[0] == Create(at) && o.events[1] == Open(at)
      && o.events[|o.events| - 1] == Release(at)
    ensures !Opens(rs) ==> o.result.Failure? && Release(at) !in o.events
    ensures o.result.Success? ==> o.result.value.conn == at
  {
    var w := GetNewOpenConnection(at, rs);
    if w.result.Failure? then Outcome(Failure(w.result.error), w.events, w.rest)
    else
      var body := SwitchThenReader(h, w.result.value, command, w.rest);
      Outcome(body.result, w.events + body.events + [Release(w.result.value)], body.rest)
  }

  /** The body of ExecuteScalar inside its connection wrapper. */
  function SwitchThenScalar(h: Handle, c: nat, command: Command, rs: seq<Reply>): (o: Outcome<ScalarValue>)
  {
    var s := DefaultSwitch(h, c, rs);
    if s.result.Failure? then Outcome(Failure(s.result.error), s.events, s.rest)
    else Then(s.events, DoExecuteScalar(c, command, s.rest))
  }

  /** ExecuteScalar: a null command is rejected before any connection is
      made; otherwise open, run the body, release. */
  function ExecuteScalar(h: Handle, command: Command, at: nat, rs: seq<Reply>): (o: Outcome<ScalarValue>)
    ensures command.NullCommand? ==> o == Outcome(Failure(ArgumentNull("command")), [], rs)
  {
    if command.NullCommand? then Outcome(Failure(ArgumentNull("command")), [], rs)
    else
      var w := GetNewOpenConnection(at, rs);
      if w.result.Failure? then Outcome(Failure(w.result.error), w.events, w.rest)
      else
        var body := SwitchThenScalar(h, w.result.value, command, w.rest);
        Outcome(body.result, w.events + body.events + [Release(w.result.value)], body.rest)
  }

  /** ExecuteReader(command) runs a SQL command after the default context
      switch on the same new connection, on every handle, including a fan-out
      handle (whose switch is the filtered member statement with the handle's
      own key); the wrapped reader on that connection, or the driver's fault,
      is the result, and the wrapper is released last. */
  lemma ReaderSwitchesBeforeCommand(h: Handle, text: string, at: nat, rs: seq<Reply>)
    requires |rs| >= 3 + |DefaultSwitchEvents(h, at)| && rs[0].Ok? && rs[1].Ok? && SwitchAnswered(h, rs[2..])
    ensures var n := |DefaultSwitchEvents(h, at)|;
      var r := ExecuteReader(h, SqlCommand(text), at, rs);
      && r.events == [Create(at), Open(at)] + DefaultSwitchEvents(h, at) + [Exec(at, text, Reader), Release(at)]
      && r.result == (if rs[2 + n].Ok? then Success(WrappedReader(at, ReaderOn(at))) else Failure(DriverFault(rs[2 + n].reason)))
      && r.rest == rs[3 + n..]
  {
    OpensWithTwoReplies(at, rs);
    var n := |DefaultSwitchEvents(h, at)|;
    SwitchThenReadsSql(h, at, text, rs[2..]);
    assert rs[2..][n] == rs[2 + n] && rs[2..][n + 1..] == rs[3 + n..];
    Bracket([Create(at), Open(at)], DefaultSwitchEvents(h, at), Exec(at, text, Reader), Release(at));
  }

  lemma SwitchThenReadsSql(h: Handle, c: nat, text: string, rs: seq<Reply>)
    requires |rs| >= 1 + |DefaultSwitchEvents(h, c)| && SwitchAnswered(h, rs)
    ensures var n := |DefaultSwitchEvents(h, c)|;
      SwitchThenReader(h, c, SqlCommand(text), rs)
      == Outcome(if rs[n].Ok? then Success(WrappedReader(c, ReaderOn(c))) else Failure(DriverFault(rs[n].reason)),
                 DefaultSwitchEvents(h, c) + [Exec(c, text, Reader)], rs[n + 1..])
  {
    var n := |DefaultSwitchEvents(h, c)|;
    DefaultSwitchSucceeds(h, c, rs);
    assert rs[n..][0] == rs[n];
    assert rs[n..][1..] == rs[n + 1..];
  }

  /** A failed default context switch stops ExecuteReader(command) before
      the command, and the wrapper is still released last. */
  lemma ReaderStopsAtSwitchFault(h: Handle, command: Command, at: nat, rs: seq<Reply>)
    requires h.federationType != None && Opens(rs) && Next(Drop(Drop(rs))).Fault?
    ensures var o := ExecuteReader(h, command, at, rs);
      && o.events == [Create(at), Open(at), Exec(at, UseFederationStatement(h, h.federationType, h.federationKey, true), NonQuery), Release(at)]
      && o.result == Failure(DriverFault(Next(Drop(Drop(rs))).reason))
      && o.rest == Drop(Drop(Drop(rs)))
  {
    DefaultSwitchFails(h, at, Drop(Drop(rs)));
  }

  /** ExecuteScalar runs a SQL command after the default context switch on
      the same new connection, on every handle; its scalar, or the driver's
      fault, is the result, and the wrapper is released last. */
  lemma ScalarSwitchesBeforeCommand(h: Handle, text: string, at: nat, rs: seq<Reply>)
    requires |rs| >= 3 + |DefaultSwitchEvents(h, at)| && rs[0].Ok? && rs[1].Ok? && SwitchAnswered(h, rs[2..])
    ensures var n := |DefaultSwitchEvents(h, at)|;
      var s := ExecuteScalar(h, SqlCommand(text), at, rs);
      && s.events == [Create(at), Open(at)] + DefaultSwitchEvents(h, at) + [Exec(at, text, Scalar), Release(at)]
      && s.result == (if rs[2 + n].Ok? then Success(rs[2 + n].scalar) else Failure(DriverFault(rs[2 + n].reason)))
      && s.rest == rs[3 + n..]
  {
    OpensWithTwoReplies(at, rs);
    var n := |DefaultSwitchEvents(h, at)|;
    SwitchThenScalarSql(h, at, text, rs[2..]);
    assert rs[2..][n] == rs[2 + n] && rs[2..][n + 1..] == rs[3 + n..];
    Bracket([Create(at), Open(at)], DefaultSwitchEvents(h, at), Exec(at, text, Scalar), Release(at));
  }

  lemma SwitchThenScalarSql(h: Handle, c: nat, text: string, rs: seq<Reply>)
    requires |rs| >= 1 + |DefaultSwitchEvents(h, c)| && SwitchAnswered(h, rs)
    ensures var n := |DefaultSwitchEvents(h, c)|;
      SwitchThenScalar(h, c, SqlCommand(text), rs)
      == Outcome(if rs[n].Ok? then Success(rs[n].scalar) else Failure(DriverFault(rs[n].reason)),
                 DefaultSwitchEvents(h, c) + [Exec(c, text, Scalar)], rs[n + 1..])
  {
    var n := |DefaultSwitchEvents(h, c)|;
    DefaultSwitchSucceeds(h, c, rs);
    assert rs[n..][0] == rs[n];
    assert rs[n..][1..] == rs[n + 1..];
  }

  /** A failed default context switch stops ExecuteScalar before a non-null
      command, and the wrapper is still released last. */
  lemma ScalarStopsAtSwitchFault(h: Handle, command: Command, at: nat, rs: seq<Reply>)
    requires h.federationType != None && !command.NullCommand? && Opens(rs) && Next(Drop(Drop(rs))).Fault?
    ensures var o := ExecuteScalar(h, command, at, rs);
      && o.events == [Create(at), Open(at), Exec(at, UseFederationStatement(h, h.federationType, h.federationKey, true), NonQuery), Release(at)]
      && o.result == Failure(DriverFault(Next(Drop(Drop(rs))).reason))
      && o.rest == Drop(Drop(Drop(rs)))
  {
    DefaultSwitchFails(h, at, Drop(Drop(rs)));
  }

  // ---------------------------------------------------------------------
  // Every operation that opens a connection releases its wrapper.

  /** The statements of a switch-then-run body all go to `c`: no close and no
      release happen inside it. */
  lemma BodiesAreAllExec(h: Handle, c: nat, command: Command, rs: seq<Reply>)
    ensures AllExecOn(SwitchThenNonQuery(h, c, command, rs).events, c)
    ensures AllExecOn(SwitchThenReader(h, c, command, rs).events, c)
    ensures AllExecOn(SwitchThenScalar(h, c, command, rs).events, c)
  {
    var s := DefaultSwitch(h, c, rs);
    assert AllExecOn(s.events, c);
    if s.result.Success? {
      assert AllExecOn(DoExecuteNonQuery(c, command, s.rest).events, c);
      assert AllExecOn(DoExecuteReader(c, command, s.rest).events, c);
      assert AllExecOn(DoExecuteScalar(c, command, s.rest).events, c);
    }
  }

  lemma AllExecOnAppend(a: seq<Event>, b: seq<Event>, c: nat)
    requires AllExecOn(a, c) && AllExecOn(b, c)
    ensures AllExecOn(a + b, c)
  {
    forall i | 0 <= i < |a + b|
      ensures (a + b)[i].Exec? && (a + b)[i].conn == c
    {
      if i >= |a| {
        assert (a + b)[i] == b[i - |a|];
      }
    }
  }

  /** Every statement of a fan-out goes to its connection. */
  lemma {:induction false} FanoutIsAllExec(h: Handle, c: nat, command: Command, key: int, rs: seq<Reply>)
    ensures AllExecOn(Fanout(h, c, command, key, rs).events, c)
    decreases |rs|
  {
    var s := SwitchFederation(h, c, Member, IntKey(key), false, rs);
    if s.result.Success? {
      var run := DoExecuteNonQuery(c, command, s.rest);
      assert AllExecOn(run.events, c);
      AllExecOnAppend(s.events, run.events, c);
      if run.result.Success? {
        var probe := DoExecuteScalar(c, SqlCommand(DiscoveryQuery), run.rest);
        var visited := s.events + run.events + probe.events;
        assert AllExecOn(probe.events, c);
        AllExecOnAppend(s.events + run.events, probe.events, c);
        if probe.result.Success? && probe.result.value != DbNull {
          var next := Fanout(h, c, command, ToInt64(probe.result.value), probe.rest);
          FanoutIsAllExec(h, c, command, ToInt64(probe.result.value), probe.rest);
          AllExecOnAppend(visited, next.events, c);
        }
      }
    }
  }

  /** A body that issues only statements on `c`, between opening `c` and
      releasing it, leaves the release as the last call and the only one. */
  lemma ReleasedOnceAtEnd(events: seq<Event>, c: nat)
    requires AllExecOn(events, c)
    ensures LastAndOnly([Create(c), Open(c)] + events + [Release(c)], Release(c))
  {
    var all := [Create(c), Open(c)] + events + [Release(c)];
    assert all[..|all| - 1] == [Create(c), Open(c)] + events;
  }

  /** Once ExecuteNonQuery has a connection, the wrapper is released exactly
      once, as its last call, whatever happens in between (switch fault,
      command fault, null command, fan-out fault); without a connection there
      is nothing to release. */
  lemma NonQueryReleasesConnection(h: Handle, command: Command, at: nat, rs: seq<Reply>)
    ensures var o := ExecuteNonQuery(h, command, at, rs);
      && (Opens(rs) ==> LastAndOnly(o.events, Release(at)))
      && (!Opens(rs) ==> o.result.Failure? && Release(at) !in o.events)
  {
    if Opens(rs) {
      var rest := Drop(Drop(rs));
      if h.federationType != All {
        BodiesAreAllExec(h, at, command, rest);
        ReleasedOnceAtEnd(SwitchThenNonQuery(h, at, command, rest).events, at);
      } else {
        FanoutIsAllExec(h, at, command, 0, rest);
        ReleasedOnceAtEnd(Fanout(h, at, command, 0, rest).events, at);
      }
    }
  }

  lemma ReaderReleasesConnection(h: Handle, command: Command, at: nat, rs: seq<Reply>)
    ensures var o := ExecuteReader(h, command, at, rs);
      && (Opens(rs) ==> LastAndOnly(o.events, Release(at)) && (o.result.Success? ==> o.result.value.conn == at))
      && (!Opens(rs) ==> o.result.Failure? && Release(at) !in o.events)
  {
    if Opens(rs) {
      BodiesAreAllExec(h, at, command, Drop(Drop(rs)));
      ReleasedOnceAtEnd(SwitchThenReader(h, at, command, Drop(Drop(rs))).events, at);
    }
  }

  lemma ScalarReleasesConnection(h: Handle, command: Command, at: nat, rs: seq<Reply>)
    requires !command.NullCommand?
    ensures var o := ExecuteScalar(h, command, at, rs);
      && (Opens(rs) ==> LastAndOnly(o.events, Release(at)))
      && (!Opens(rs) ==> o.result.Failure? && Release(at) !in o.events)
  {
    if Opens(rs) {
      BodiesAreAllExec(h, at, command, Drop(Drop(rs)));
      ReleasedOnceAtEnd(SwitchThenScalar(h, at, command, Drop(Drop(rs))).events, at);
    }
  }
}
