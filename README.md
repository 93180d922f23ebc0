# SqlAzureDatabase federation routing, modelled in Dafny

This project models the routing core of `SqlAzureDatabase`. That class sits on
top of a database driver and sends every command to the right federation
context of a federated Azure SQL database. It covers:

- the context-switch statements (`USE FEDERATION ROOT WITH RESET` and
  `USE FEDERATION <name> (<distribution>='<key>') WITH RESET, FILTERING = ON|OFF`);
- the two `ExecuteFederationCommand` overloads;
- connection opening (`GetNewOpenConnection`, `OpenConnection`);
- `ExecuteNonQuery`, with its fan-out over every federation member
  (`ExecuteNonQueryFanout`);
- both `ExecuteReader` overloads and `ExecuteScalar`;
- the three `DoExecute*WithRetry` helpers, including their fallbacks when a
  command is not the native SQL client type.

The driver is a script. Creating a connection, opening it and executing a
command each take the next scripted reply. Closing a connection and releasing a
connection wrapper always succeed and take none. When the script runs out,
every further call faults. Every driver call is recorded in a trace, and a
connection is named by the position of its `Create` in that trace.

A thrown exception is a `Failure` result. A driver exception surfaces as
`DriverFault` with the driver's own reason. `ArgumentNullException("command")`
surfaces as `ArgumentNull("command")`.

Files:

- `driver.dfy` (`Driver`): trace events, replies, results, and the `Outcome`
  of one operation (result, driver calls made, replies left).
- `decimal.dfy` (`Decimal`): the decimal text of a `long`, as string formatting
  embeds a key in the member statement, and its inverse.
- `federation.dfy` (`Federation`): the handle's configuration and the two
  statement builders.
- `orchestration.dfy` (`Orchestration`): every operation as a function of the
  configuration and the script, plus the lemmas stating what the operations
  promise.
- `database.dfy` (`AzureDatabase`): class `SqlAzureDatabase`. Its `trace` and
  `replies` fields are updated step by step, and its fan-out is a `while` loop
  over a nullable key. Each method is proved to end in exactly the result,
  trace and script of the `Orchestration` function that its row in the table
  below names. The class's `OpenConnection` is the corrected form
  `Orchestration.OpenConnectionClosingOnFault`, not the source's as-written
  `OpenConnection` (see Findings); `Orchestration.OpenConnection` keeps the
  as-written form.

Three points of the code's behaviour deserve a note. The model follows the
code in each:

- A failed context switch has no error of its own. The code runs the switch
  statement through the same execution helper as any other command, so a
  failed switch surfaces the same driver fault as a failed command.
- `GetNewOpenConnection` closes a connection that fails to open, but
  `OpenConnection` does not close a connection whose context switch fails.
  The class method uses the corrected behaviour (see Findings).
- The fan-out does not check that the keys it visits increase: it visits
  whatever keys the discovery query returns. A discovery query that returns
  no row converts to key 0 and sends the fan-out back to the first member.
  `Orchestration.FanoutStep` states this case.

## Model

| member | source | states |
|---|---|---|
| Decimal.NatToText | SqlAzureApplicationBlock/SqlAzureDatabase.cs:241-242 | the text of a key is a non-empty run of decimal digits with no leading zero |
| Decimal.IntToText | SqlAzureApplicationBlock/SqlAzureDatabase.cs:241-242 | the text of a `long` key starts with '-' exactly when the key is negative |
| Decimal.IntToTextRoundTrip | SqlAzureApplicationBlock/SqlAzureDatabase.cs:241-242 | reading the formatted key back as an integer gives the key |
| Decimal.IntToTextInjective | SqlAzureApplicationBlock/SqlAzureDatabase.cs:241-242 | distinct keys format to distinct texts |
| Federation.KeyText | SqlAzureApplicationBlock/SqlAzureDatabase.cs:241-242 | the text an integer key formats to is an optionally signed digit string that reads back as that key |
| Federation.TemplateKeyReadsBack | SqlAzureApplicationBlock/SqlAzureDatabase.cs:241-242 | the key text is recovered from the filled member template as what lies between its head and its tail |
| Federation.MemberFederationStatement | SqlAzureApplicationBlock/SqlAzureDatabase.cs:237-243 | a root-configured handle gets the root statement; from any other handle's statement the key text reads back |
| Federation.UseFederationStatement | SqlAzureApplicationBlock/SqlAzureDatabase.cs:230-235 | the root statement whenever the root is requested or configured; otherwise a member statement from which the key text reads back |
| Federation.RootStatementExactly | SqlAzureApplicationBlock/SqlAzureDatabase.cs:230-243 | the statement is the root statement if and only if the root is requested or the handle is configured for it |
| Federation.RootIsNoTemplate | SqlAzureApplicationBlock/SqlAzureDatabase.cs:230-243 | the root statement ends in neither filtering clause, so it is no member statement |
| Federation.RootArgumentWins | SqlAzureApplicationBlock/SqlAzureDatabase.cs:230-235 | requesting the root gives the root statement, whatever the key and the filtering |
| Federation.RootHandleWins | SqlAzureApplicationBlock/SqlAzureDatabase.cs:230-243 | a root-configured handle gets the root statement, whatever type, key or filtering is requested |
| Federation.MemberStatementOtherwise | SqlAzureApplicationBlock/SqlAzureDatabase.cs:230-243 | otherwise the statement is the member template, and it ends in `FILTERING = ON` exactly when filtering is on, and in `FILTERING = OFF` exactly when it is off |
| Federation.FilteringSuffix | SqlAzureApplicationBlock/SqlAzureDatabase.cs:241-242 | the filled template ends in `FILTERING = ON` if and only if filtering is on, and in `FILTERING = OFF` if and only if it is off |
| Federation.MemberTemplateDeterminesKey | SqlAzureApplicationBlock/SqlAzureDatabase.cs:241-242 | for fixed names and filtering, equal member statements have equal key texts |
| Federation.DistinctKeysGiveDistinctSwitches | SqlAzureApplicationBlock/SqlAzureDatabase.cs:230-243 | on a non-root handle, member switches to different integer keys are different statements |
| Federation.OrdersFedExample | SqlAzureApplicationBlock/SqlAzureDatabase.cs:230-243 | federation Orders_Fed, distribution Tenant_ID, key 42, filtering on gives exactly `USE FEDERATION Orders_Fed (Tenant_ID='42') WITH RESET, FILTERING = ON` |
| Orchestration.DoExecuteNonQuery | SqlAzureApplicationBlock/SqlAzureDatabase.cs:138-151 | the non-query shape takes no reply or exactly the first one: what is left is the script or the script without its first reply |
| Orchestration.DoExecuteReader | SqlAzureApplicationBlock/SqlAzureDatabase.cs:153-164 | the reader shape takes no reply or exactly the first one: what is left is the script or the script without its first reply |
| Orchestration.DoExecuteScalar | SqlAzureApplicationBlock/SqlAzureDatabase.cs:166-177 | the scalar shape takes no reply or exactly the first one: what is left is the script or the script without its first reply |
| Orchestration.UnsupportedCommandIsSkipped | SqlAzureApplicationBlock/SqlAzureDatabase.cs:138-177 | a command that is not a native SQL command is never executed: the three shapes give 0, a null object and a null reader; a null command is an argument error for the non-query shape only |
| Orchestration.SqlCommandRunsOnce | SqlAzureApplicationBlock/SqlAzureDatabase.cs:138-177 | a native SQL command runs once, in the requested shape, on the given connection, and takes one reply; the result is the row count, the scalar or a reader on that connection, or the driver's fault |
| Orchestration.SwitchFederation | SqlAzureApplicationBlock/SqlAzureDatabase.cs:208-213 | the explicit switch runs exactly the built statement once, as a non-query, on the given connection; it succeeds exactly when the driver does, and otherwise fails with the driver's fault |
| Orchestration.DefaultSwitch | SqlAzureApplicationBlock/SqlAzureDatabase.cs:214-220 | the default switch issues exactly the default switch statements (none, or the one built from the handle) and takes no reply or exactly the first one |
| Orchestration.DefaultSwitchFails | SqlAzureApplicationBlock/SqlAzureDatabase.cs:214-220 | on a federated handle whose switch statement faults, the default switch issues that one statement, takes that one reply and fails with the driver's fault |
| Orchestration.DefaultSwitchUsesOwnTarget | SqlAzureApplicationBlock/SqlAzureDatabase.cs:214-220 | the default switch does nothing for a plain database; otherwise it runs one statement built from the handle's own type and key with filtering on: the root statement for a root handle, the filtered member template for a member or fan-out handle |
| Orchestration.GetNewOpenConnection | SqlAzureApplicationBlock/SqlAzureDatabase.cs:179-201 | a connection is returned exactly when both creating and opening it succeed, and it is then returned open |
| Orchestration.GetNewOpenConnectionClosesOnFault | SqlAzureApplicationBlock/SqlAzureDatabase.cs:179-201 | a connection that fails to open is closed once before the fault surfaces; a connection that could not be created is not closed; an opened connection is not closed |
| Orchestration.OpenConnection | SqlAzureApplicationBlock/SqlAzureDatabase.cs:55-60 | on success the new connection is returned open, after the default switch, and never closed |
| Orchestration.OpenConnectionLeaksOnSwitchFault | SqlAzureApplicationBlock/SqlAzureDatabase.cs:55-60 | when the switch fails, the opened connection is never closed |
| Orchestration.OpenConnectionClosingOnFault | SqlAzureApplicationBlock/SqlAzureDatabase.cs:55-60 | the corrected form returns the connection it opened, never closed, or, once the connection is open, fails with a close of it as the last call |
| Orchestration.CorrectedOpenConnectionNeverLeaks | SqlAzureApplicationBlock/SqlAzureDatabase.cs:55-60 | with the correction, an opened connection is either returned open or closed exactly once, as the last call before the error |
| Orchestration.ExecuteNonQuery | SqlAzureApplicationBlock/SqlAzureDatabase.cs:62-78 | once a connection is created and opened, the call ends by releasing its wrapper; without a connection it fails and releases nothing |
| Orchestration.NonQuerySwitchesBeforeCommand | SqlAzureApplicationBlock/SqlAzureDatabase.cs:62-71 | on a handle that does not fan out, once the connection opens and the switch succeeds, a SQL command runs after the default switch on the same new connection; the result is its row count or the driver's fault, only the replies taken are needed, and the wrapper is released last |
| Orchestration.NonQueryStopsAtSwitchFault | SqlAzureApplicationBlock/SqlAzureDatabase.cs:62-71 | on a member or root handle, when the switch statement faults after the connection opens, the command never runs: the calls are create, open, the switch and the release, and the result is the driver's fault |
| Orchestration.NonQueryRejectsNullCommand | SqlAzureApplicationBlock/SqlAzureDatabase.cs:62-71 | on such a handle a null command is rejected after the switch, and the wrapper is still released |
| Orchestration.NonQueryOnAllFansOut | SqlAzureApplicationBlock/SqlAzureDatabase.cs:72-77 | on a fan-out handle, ExecuteNonQuery is the fan-out from key 0 on the new connection, between opening it and releasing the wrapper |
| Orchestration.NonQueryReleasesConnection | SqlAzureApplicationBlock/SqlAzureDatabase.cs:62-78 | once a connection is open, its wrapper is released exactly once, as the last call, on every path; without a connection nothing is released and the result is an error |
| Orchestration.ToInt64 | SqlAzureApplicationBlock/SqlAzureDatabase.cs:94 | `Convert.ToInt64` gives a boxed `long` back unchanged and converts a null reference to 0 |
| Orchestration.Values | SqlAzureApplicationBlock/SqlAzureDatabase.cs:91-99 | the discovery answers for keys `ds` hold, position by position, the values of `ds` |
| Orchestration.Fanout | SqlAzureApplicationBlock/SqlAzureDatabase.cs:80-104 | a fan-out that succeeds reports 0 rows |
| Orchestration.FanoutIsAllExec | SqlAzureApplicationBlock/SqlAzureDatabase.cs:80-104 | every call of a fan-out is a statement on its one connection: it neither opens, closes nor releases anything |
| Orchestration.FanoutVisits | SqlAzureApplicationBlock/SqlAzureDatabase.cs:83-101 | one step with successful replies runs the unfiltered member switch, the command and the discovery query; the database null ends the fan-out with 0, any other answer continues it at the converted key |
| Orchestration.FanoutStep | SqlAzureApplicationBlock/SqlAzureDatabase.cs:83-101 | after one step the database null ends the fan-out, a value moves it to that key, and a missing row moves it back to key 0 |
| Orchestration.FanoutResumes | SqlAzureApplicationBlock/SqlAzureDatabase.cs:83-102 | after discoveries `ds` the fan-out has visited the start key and every discovered key but the last, and goes on as a fan-out from the last one |
| Orchestration.FanoutFollowsDiscovery | SqlAzureApplicationBlock/SqlAzureDatabase.cs:80-104 | given discoveries `ds` and then the database null, the fan-out visits the start key and then every discovered key in order, and succeeds with 0 |
| Orchestration.FanoutThreeMembers | SqlAzureApplicationBlock/SqlAzureDatabase.cs:80-104 | two discoveries and then the database null: the fan-out visits key 0 and the two discovered keys, in order, and consumes exactly their replies |
| Orchestration.ThreeMemberWalk | SqlAzureApplicationBlock/SqlAzureDatabase.cs:83-101 | with discoveries 100 and 500, the command runs exactly three times, after unfiltered switches to keys 0, 100 and 500, each followed by the discovery query |
| Orchestration.WalkAt | SqlAzureApplicationBlock/SqlAzureDatabase.cs:83-101 | a walk over `keys` runs, for the i-th key, its switch, the command and the discovery query at positions 3i, 3i+1 and 3i+2 |
| Orchestration.FanoutStopsAtSwitch | SqlAzureApplicationBlock/SqlAzureDatabase.cs:85 | a failed member switch ends the fan-out with the driver's fault, before the command runs |
| Orchestration.FanoutStopsAtCommand | SqlAzureApplicationBlock/SqlAzureDatabase.cs:86 | a failed command ends the fan-out with the driver's fault, before the discovery query |
| Orchestration.FanoutStopsAtDiscovery | SqlAzureApplicationBlock/SqlAzureDatabase.cs:91 | a failed discovery query ends the fan-out with the driver's fault, and no further member is tried |
| Orchestration.FanoutAbortsOnCommandFault | SqlAzureApplicationBlock/SqlAzureDatabase.cs:80-104 | if the command fails on the member reached after discoveries `ds`, no further member is tried and the fault surfaces unchanged |
| Orchestration.FanoutAbortsOnSwitchFault | SqlAzureApplicationBlock/SqlAzureDatabase.cs:80-104 | if the member switch fails for the member reached after discoveries `ds`, the fan-out ends there with the driver's fault: the members visited so far, then that failed switch, and the command does not run on it |
| Orchestration.FanoutAbortsOnDiscoveryFault | SqlAzureApplicationBlock/SqlAzureDatabase.cs:80-104 | if the discovery query fails on the member reached after discoveries `ds`, the fan-out ends after that member's full visit with the driver's fault, and no further member is tried |
| Orchestration.ExecuteReaderInTransaction | SqlAzureApplicationBlock/SqlAzureDatabase.cs:107-112 | the command runs as a reader on the transaction's connection, with no switch and no connection of its own |
| Orchestration.ExecuteReader | SqlAzureApplicationBlock/SqlAzureDatabase.cs:113-122 | once a connection is created and opened, the call ends by releasing its wrapper, and a returned reader is bound to that connection; without a connection it fails and releases nothing |
| Orchestration.SwitchThenReader | SqlAzureApplicationBlock/SqlAzureDatabase.cs:115-121 | a wrapped reader is bound to the connection the command ran on |
| Orchestration.ReaderSwitchesBeforeCommand | SqlAzureApplicationBlock/SqlAzureDatabase.cs:113-122 | once the connection opens and the switch succeeds, ExecuteReader runs a SQL command after the default switch on the same new connection and returns the wrapped reader on it or the driver's fault; only the replies taken are needed, and the wrapper is released last |
| Orchestration.ReaderStopsAtSwitchFault | SqlAzureApplicationBlock/SqlAzureDatabase.cs:113-122 | on a federated handle, when the switch statement faults after the connection opens, the command never runs: the calls are create, open, the switch and the release, and the result is the driver's fault |
| Orchestration.ReaderReleasesConnection | SqlAzureApplicationBlock/SqlAzureDatabase.cs:113-122 | once a connection is open, its wrapper is released exactly once, as the last call, on every path, and a returned reader is bound to that connection |
| Orchestration.ExecuteScalar | SqlAzureApplicationBlock/SqlAzureDatabase.cs:124-126 | a null command is rejected before any driver call |
| Orchestration.ScalarSwitchesBeforeCommand | SqlAzureApplicationBlock/SqlAzureDatabase.cs:124-134 | once the connection opens and the switch succeeds, ExecuteScalar runs a SQL command after the default switch on the same new connection and returns its scalar or the driver's fault; only the replies taken are needed, and the wrapper is released last |
| Orchestration.ScalarStopsAtSwitchFault | SqlAzureApplicationBlock/SqlAzureDatabase.cs:124-134 | on a federated handle and a non-null command, when the switch statement faults after the connection opens, the command never runs: the calls are create, open, the switch and the release, and the result is the driver's fault |
| Orchestration.ScalarReleasesConnection | SqlAzureApplicationBlock/SqlAzureDatabase.cs:128-134 | once a connection is open, its wrapper is released exactly once, as the last call, on every path |
| AzureDatabase.SqlAzureDatabase.DoExecuteNonQueryWithRetry | SqlAzureApplicationBlock/SqlAzureDatabase.cs:138-151 | result, trace and script are those of `Orchestration.DoExecuteNonQuery` |
| AzureDatabase.SqlAzureDatabase.DoExecuteReaderWithRetry | SqlAzureApplicationBlock/SqlAzureDatabase.cs:153-164 | result, trace and script are those of `Orchestration.DoExecuteReader` |
| AzureDatabase.SqlAzureDatabase.DoExecuteScalarWithRetry | SqlAzureApplicationBlock/SqlAzureDatabase.cs:166-177 | result, trace and script are those of `Orchestration.DoExecuteScalar` |
| AzureDatabase.SqlAzureDatabase.GetNewOpenConnection | SqlAzureApplicationBlock/SqlAzureDatabase.cs:179-201 | result, trace and script are those of `Orchestration.GetNewOpenConnection`, with the connection named by its position in the trace |
| AzureDatabase.SqlAzureDatabase.ExecuteFederationCommandFor | SqlAzureApplicationBlock/SqlAzureDatabase.cs:208-213 | result, trace and script are those of `Orchestration.SwitchFederation` |
| AzureDatabase.SqlAzureDatabase.ExecuteFederationCommand | SqlAzureApplicationBlock/SqlAzureDatabase.cs:214-220 | result, trace and script are those of `Orchestration.DefaultSwitch` |
| AzureDatabase.SqlAzureDatabase.OpenConnection | SqlAzureApplicationBlock/SqlAzureDatabase.cs:55-60 | result, trace and script are those of `Orchestration.OpenConnectionClosingOnFault`, the corrected form (see Findings) |
| AzureDatabase.SqlAzureDatabase.ExecuteNonQuery | SqlAzureApplicationBlock/SqlAzureDatabase.cs:62-78 | result, trace and script are those of `Orchestration.ExecuteNonQuery` |
| AzureDatabase.SqlAzureDatabase.ExecuteNonQueryFanout | SqlAzureApplicationBlock/SqlAzureDatabase.cs:80-104 | the loop over the nullable key ends in the result, trace and script of `Orchestration.Fanout` from key 0 |
| AzureDatabase.SqlAzureDatabase.ExecuteReaderInTransaction | SqlAzureApplicationBlock/SqlAzureDatabase.cs:107-112 | result, trace and script are those of `Orchestration.ExecuteReaderInTransaction` |
| AzureDatabase.SqlAzureDatabase.ExecuteReader | SqlAzureApplicationBlock/SqlAzureDatabase.cs:113-122 | result, trace and script are those of `Orchestration.ExecuteReader` |
| AzureDatabase.SqlAzureDatabase.ExecuteScalar | SqlAzureApplicationBlock/SqlAzureDatabase.cs:124-134 | result, trace and script are those of `Orchestration.ExecuteScalar` |

## Left out

- Retry: `OpenWithRetry` and the `*WithRetry` driver extensions are modelled as one call that returns or faults. The retry policy, `RetryPolicyFactory`, attempt counts and delays are not part of this model, because the retrying happens inside library code that is not shown.
- Timing: `DateTime.Now` start times and the commented-out instrumentation events record nothing.
- Constructors and their default arguments are not modelled. The handle's configuration is a value given to the class constructor.
- `PrepareCommand` is base-class code that is not shown. It is modelled as binding the command to the connection without any failure or driver call.
- `GetOpenConnection` is base-class code. It is modelled as `GetWrappedConnection`, i.e. always a new open connection. Reuse of an ambient transaction's connection is not modelled.
- `CreateWrappedReader` and the wrapper's reference count are not modelled. Disposing the wrapper is one `Release` event. Whether that closes the physical connection, and the later disposal of a returned reader, are not modelled.
- `CreateConnection() as SqlConnection` returning null (a provider other than the SQL client) is not modelled. Creation either succeeds or faults.
- Closing a connection and releasing a wrapper always succeed.
- An exhausted script faults every further call with reason "no reply". This also bounds the fan-out loop, so the model does not capture a non-terminating fan-out.
- Scalar values are integers, the database null, or a null reference. `Convert.ToInt64` is modelled for these only. Its 64-bit range check and its conversion of other value types are not modelled.
- A key that is neither null nor a `long` is represented by the text it formats to. Culture-specific formatting is not modelled.
- Orchestration.DoExecuteNonQuery: its own contract states only that it takes no reply or the first one. `SqlCommandRunsOnce` and `UnsupportedCommandIsSkipped` state what it does.
- Orchestration.DoExecuteScalar: its own contract states only that it takes no reply or the first one. `SqlCommandRunsOnce` and `UnsupportedCommandIsSkipped` state what it does.
- Orchestration.DoExecuteReader: its own contract states only that it takes no reply or the first one. `SqlCommandRunsOnce` and `UnsupportedCommandIsSkipped` state what it does.
- Orchestration.DefaultSwitch: its own contract states its statements and that it takes no reply or the first one, not its result. `DefaultSwitchUsesOwnTarget` and `DefaultSwitchFails` state what it does.
- Federation.UseFederationStatement: its own contract states the root case by one implication and the read-back of the key. `RootStatementExactly` states the if-and-only-if, and `MemberStatementOtherwise` states the literal template and the filtering suffix.
- Federation.MemberFederationStatement: its own contract states the root case and the read-back of the key. `MemberStatementOtherwise` and `FilteringSuffix` state the literal template and the filtering suffix.
- Orchestration.OpenConnectionClosingOnFault: its own contract states the two ends. `CorrectedOpenConnectionNeverLeaks` states the exact trace and that the close occurs only once.
- Orchestration.ExecuteNonQuery: its own contract states only how the call begins and ends. `NonQuerySwitchesBeforeCommand`, `NonQueryStopsAtSwitchFault`, `NonQueryRejectsNullCommand`, `NonQueryOnAllFansOut` and `NonQueryReleasesConnection` state its trace and result.
- Orchestration.ExecuteReader: its own contract states only how the call begins and ends. `ReaderSwitchesBeforeCommand`, `ReaderStopsAtSwitchFault` and `ReaderReleasesConnection` state its trace and result.
- Orchestration.ToInt64: its contract is the two conversions by cases. `FanoutStep` states how they steer the fan-out.
- Orchestration.Fanout: its contract states only the 0-row result. Its statements and their order are stated by the fan-out lemmas.

## Findings

| source | as written | input that shows it | evidently intended | confidence | as-written member | corrected member |
|---|---|---|---|---|---|---|
| SqlAzureApplicationBlock/SqlAzureDatabase.cs:55-60 | `OpenConnection` opens a new connection and then runs the default context switch. An exception from the switch leaves the opened connection unclosed. | A member-typed handle, a script in which create and open succeed and the switch statement faults. | Close the connection before the error surfaces, as `GetNewOpenConnection` does for a failed open. | not executed | Orchestration.OpenConnectionLeaksOnSwitchFault | Orchestration.CorrectedOpenConnectionNeverLeaks |
