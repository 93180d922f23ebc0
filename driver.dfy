/** The database driver as SqlAzureDatabase sees it: the calls it makes, the
    replies it gets back, and the values and errors those calls produce.

    The driver is a script. Creating a connection, opening it and executing a
    command each take the next scripted reply; closing a connection and
    releasing a connection wrapper always succeed and take none. When the
    script runs out, every further call fails. */
module Driver {

  /** The three shapes in which a command is executed. */
  datatype CommandKind = NonQuery | Scalar | Reader

  /** One driver call, as recorded in the trace. A connection is named by the
      position in the trace of the call that created it. */
  datatype Event =
    | Create(conn: nat)
    | Open(conn: nat)
    | Close(conn: nat)
    | Exec(conn: nat, text: string, kind: CommandKind)
    | Release(conn: nat)

  /** The object a scalar execution returns: a null reference (no row),
      the database null, or a value (only integer values are modelled). */
  datatype ScalarValue = Null | DbNull | Value(n: int)

  /** The driver's answer to one call. A successful execution reports both the
      number of rows it affected and its first cell; which of the two the
      caller sees depends on the shape in which it executed the command. */
  datatype Reply = Fault(reason: string) | Ok(rows: int, scalar: ScalarValue)

  /** The errors an operation can end with. A driver fault surfaces with the
      driver's own reason, unchanged. */
  datatype Error = ArgumentNull(parameter: string) | DriverFault(reason: string)

  datatype Result<T> = Success(value: T) | Failure(error: Error)

  /** A command handed in by a caller: a null reference, a command of the
      native SQL client type, or a command of some other provider's type. */
  datatype Command = NullCommand | SqlCommand(text: string) | OtherCommand

  /** A data reader: a null reference, or a reader streaming the rows of a
      command executed on connection `conn`. */
  datatype DataReader = NullReader | ReaderOn(conn: nat)

  /** What one operation did: its result, the driver calls it made, in order,
      and the replies left in the script afterwards. */
  datatype Outcome<T> = Outcome(result: Result<T>, events: seq<Event>, rest: seq<Reply>)

  /** The reply every call gets once the script has run out. */
  const NoReply: Reply := Fault("no reply")

  /** The reply the next driver call gets. */
  function Next(rs: seq<Reply>): (r: Reply)
    ensures rs == [] ==> r == NoReply
    ensures r.Ok? ==> rs != [] && r == rs[0]
  {
    if rs == [] then NoReply else rs[0]
  }

  /** The script left after one driver call. */
  function Drop(rs: seq<Reply>): (r: seq<Reply>)
    ensures |r| <= |rs|
    ensures rs != [] ==> |r| == |rs| - 1 && rs == [rs[0]] + r
  {
    if rs == [] then [] else rs[1..]
  }

  /** `o` with `prefix` recorded before its own driver calls. */
  function Then<T>(prefix: seq<Event>, o: Outcome<T>): (r: Outcome<T>)
    ensures r.result == o.result && r.rest == o.rest
    ensures |r.events| == |prefix| + |o.events|
    ensures r.events[..|prefix|] == prefix && r.events[|prefix|..] == o.events
  {
    Outcome(o.result, prefix + o.events, o.rest)
  }

  /** Concatenation regroups. */
  lemma Regroup<T>(a: seq<T>, b: seq<T>, c: seq<T>)
    ensures a + b + c == a + (b + c)
  {
  }

  /** The events of an operation that wraps a body ending in `x` and then
      issues `y`. */
  lemma Bracket<T>(a: seq<T>, b: seq<T>, x: T, y: T)
    ensures a + (b + [x]) + [y] == a + b + [x, y]
  {
    assert a + (b + [x]) + [y] == (a + b) + ([x] + [y]);
  }

  lemma ThenAssociates<T>(a: seq<Event>, b: seq<Event>, o: Outcome<T>)
    ensures Then(a, Then(b, o)) == Then(a + b, o)
  {
    assert a + (b + o.events) == (a + b) + o.events;
  }

  lemma ThenNothing<T>(o: Outcome<T>)
    ensures Then([], o) == o
  {
    assert [] + o.events == o.events;
  }
}
