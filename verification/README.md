# gotest: verified models of its protocols, builders, codecs and trees

This project models six parts of the `gotest` repository in Dafny and proves what they promise, over every
input, every run or every interleaving. Where the code departs from its intent the model keeps the code as
it is, gives a concrete counterexample and proves the exact condition under which the promise does hold.

Check everything with `dafny verify dfyconfig.toml`.

## The parts

**Redis lock** (`RedisScripts`, `LockProtocol`, `LockTheorems`, `LockClient`, `Retry`). `RedisScripts` has the three
Lua scripts and SETNX as functions on the key space and as methods of a `Server` that changes its keys in place.
`LockProtocol` is a step system of clients, one server, a clock and a network. Sent requests and given answers are
never forgotten, so a request may run late, twice or never, and a reply may arrive late or never. Its invariant
says, among other things, that every positive answer whose lease is still on is backed by the server. `LockTheorems`
draws mutual exclusion, harmless stale handles, and the bounds on deadlines from it. `LockClient` has the calls as
the code writes them, with the retry loop of `Lock`; each is shown to be a path of the step system. Expirations are
whole seconds, 0 included: SETNX then sets no deadline, `SET … EX 0` is an error, and EXPIRE 0 removes the key.
`TryLock` leaves the handle's expiration at 0, so a successful `Refresh` of it removes the key;
`RefreshedTryLockIsNotExclusive` gives the run. `Spoiled` calls are therefore left out of the mutual exclusion
theorem, and `RefreshFreesKeyIff` says exactly which refreshes give the key away. A lock attempt that outlives its
Unlock can store the token again; `HeldAgainIff` says exactly when.

**Connection pool** (`PoolProtocol`, `PoolTheorems`, `PoolFaults`, `ConnPool`). Callers of `Get` and `Put`
interleave at every point where the code does not hold the mutex. Conservation is stated through places: every
connection ever made is in exactly one of idle channel, hand-off slot, a Put's or forwarder's hands, one caller's
hands, or dropped. `PoolFaults` says exactly when the code does what its callers would not want: a waiter beside an
idle connection, a closed connection handed out, a mutex left locked, capacity lost for good. `ConnPool` has the
fields and the uninterrupted sections of the code, each proved to be its step.

**SQL builder** (`SqlAst`, `SqlText`, `SqlParser`, `SqlStatements`, `SqlMeaning`, `SqlBuilder`, `SqlSelect`,
`SqlIntent`, `SqlInsertText`, `SqlInsertParser`, `SqlInsertIntent`, `SqlInsert`, `SqlSamples`). Text is a sequence
of tokens. A placeholder token carries the values it was written for; the SQL text is what remains when those are
erased, and the argument list is those values in order. `Bind` is the driver's left-to-right binding. `SqlParser` is
an independent recursive-descent parser with SQL's precedence, and serves as the specification: what
`Selector.Build` returns, bound and parsed, is the query that was asked for; `SqlInsertParser` does the same for
`Inserter.Build` in both dialects. `SqlIntent` and `SqlInsertIntent` say what a tree of the API means as a relation
to the parsed tree, name by name, and that Build finds it. `SqlMeaning` evaluates WHERE in three-valued logic. The
ON loop is bounded by the number of WHERE predicates; `SelectAgreesIff` says exactly when that loses nothing. The
buffer is never reset; `SqlStatements` says exactly when its text is a query.

**RPC wire codec** (`WireBytes`, `WireRequest`, `WireResponse`). Byte level, with any iteration order of the
metadata map. Go's nil and empty slices and maps are told apart with `Option`, and the round trips say exactly which
values come back unchanged.

**Router** (`Strings`, `RouteTree`, `RoutePaths`, `Router`). `RouteTree` is the tree as a value and the map from
patterns to handlers it denotes; `Router` is the linked, mutable tree of the code, each method proved against the
value.

**Caches and model registry** (`MapCache`, `Coherence`, `CoherenceRaces`, `ModelRegistry`). The map cache with
deadlines, its capacity decorator with `int32` wrap-around, read-through, filtered and write-through access to one
store, and the registry's column names, tags and indexes. `Coherence` takes calls one after another. No lock covers
a whole call, so `CoherenceRaces` lets lookups, loads, fills, store writes and cache sets of any number of callers
overlap, and says exactly when a key stays coherent. Field pointers shared by the registry's three views are
positions in the field list.

## Model

| member | source | states |
|---|---|---|
| RedisScripts.Server.Get | cache/lua/lock.lua:1-2 | a key reads as absent from its deadline on, whether or not it was reclaimed |
| RedisScripts.Server.RunSetNX | cache/redis_lock.go:108-114 | SETNX stores the token on a free key only, with a deadline unless the expiration is 0 |
| RedisScripts.Server.RunLock | cache/lua/lock.lua:1-12 | all three branches: acquire a free key, extend an own key, refuse another's; `EX 0` is an error |
| RedisScripts.Server.RunUnlock | cache/lua/unlock.lua:5-10 | compare and delete: only the stored token removes the key, and the reply says so |
| RedisScripts.Server.RunRefresh | cache/lua/refresh.lua:5-10 | compare and extend: only the stored token moves the deadline |
| RedisScripts.Server.RunExpire | cache/lua/refresh.lua:7 | EXPIRE moves the deadline, and with 0 removes the key |
| RedisScripts.RepeatedLockIsOneLock | cache/redis_lock.go:67-83 | any number of runs of the lock script with one token leave the one entry a single run at the last time would leave |
| RedisScripts.RefreshKeepsLockIff | cache/redis_lock.go:183-192 | a refresh that reports success keeps the key if and only if the expiration it sent is positive |
| RedisScripts.SetNXLasts | cache/redis_lock.go:108-114 | SETNX is refused while anyone is seen under the key; otherwise a later GET sees its token for exactly the expiration, or for ever if that is 0 |
| RedisScripts.LockLasts | cache/lua/lock.lua:1-12 | refused while another token is seen; on a free or own key a later GET sees the token for exactly the expiration from now; no other key changes |
| RedisScripts.UnlockAndRefreshLast | cache/lua/refresh.lua:5-10 | unlock and refresh answer 1 exactly when their token is seen; what a later GET sees after each |
| LockProtocol.ExecuteCases | cache/redis_lock.go:63-121 | a command either changes nothing, stores its own token on a free or own key, or removes its own token for a released or spoiled call |
| LockProtocol.OwnerIsUnique | cache/redis_lock.go:64 | a stored token belongs to exactly the call that made it, under that call's key |
| LockProtocol.StepKeepsInv | cache/redis_lock.go:63-192 | every step keeps the whole invariant: distinct tokens, owned and bounded entries, backed answers and handles |
| LockTheorems.RunKeepsInv | cache/redis_lock.go:63-192 | the invariant holds in every state of every run with delayed, lost and repeated messages |
| LockTheorems.LeaseIsBacked | cache/redis_lock.go:63-121 | a caller inside its lease, counted from when the request was sent, has its token stored with a deadline no earlier than that |
| LockTheorems.MutualExclusion | cache/redis_lock.go:63-192 | in every history two callers' leases on one key never overlap |
| LockTheorems.LeaseInWords | cache/redis_lock.go:75-83 | a caller's lease is the expiration it asked for, from when it sent the request that was answered OK or 1 |
| LockTheorems.LeasesDoNotOverlap | cache/redis_lock.go:63-192 | mutual exclusion with every condition written out |
| LockTheorems.TokensStayDistinct | cache/redis_lock.go:64 | no two handles of a history share a token |
| LockTheorems.StaleHandleIsHarmless | cache/redis_lock.go:165-192 | while another call has the key, a late Unlock or Refresh changes nothing and reports that the lock is not held, and a late lock attempt is refused |
| LockTheorems.EntryChange | cache/lua/lock.lua:1-12 | the entry of a token changes only by its own call's commands, to a full expiration from now |
| LockTheorems.DeadlineIsBounded | cache/redis_lock.go:69 | every stored deadline is at most one expiration away; only a TryLock with 0 has none |
| LockTheorems.DeadlineNeverMovesBack | cache/redis_lock.go:67-103 | over any run the deadline stored for a token only moves later, also across expiry and re-acquisition |
| LockTheorems.CrashedClientFreesKey | cache/redis_lock.go:67-103 | if none of a call's requests runs any more, its token holds no key one expiration later |
| LockTheorems.GrantWasStored | cache/redis_lock.go:75-83 | every answer OK was issued by a run of its own request that replied OK and after which the call's token was the stored one |
| LockTheorems.HandleWasStored | cache/redis_lock.go:75-83 | a returned handle came from an answer OK, and its value was the stored token right after the step that issued that OK |
| LockTheorems.RefreshFreesKeyIff | cache/redis_lock.go:183-192 | in any run, the refresh of a holder frees its key at once if and only if the handle's expiration is 0; otherwise it stores a full expiration |
| LockTheorems.RefreshedTryLockIsNotExclusive | cache/redis_lock.go:106-121 | counterexample: TryLock, a successful Refresh, and a second caller gets in while the first counts on its lease |
| LockTheorems.HeldAgainIff | cache/redis_lock.go:165-181 | after the server ran a call's Unlock, its token is held again at some later moment if and only if one of its own lock attempts is granted after it |
| LockTheorems.UnlockedKeyIsLockedAgain | cache/redis_lock.go:67-83 | counterexample: an attempt of `Lock` that timed out on the client runs after a successful Unlock and stores the token again |
| LockClient.World.Attempt | cache/redis_lock.go:68-73 | one lock command ends as the network has it: answered with what the server replied on the way, timed out or broken |
| LockClient.World.Lock | cache/redis_lock.go:63-103 | the attempts decide the result: a handle if and only if the last was answered OK and none before; a network error, exhaustion or the context otherwise, each exactly in its case; a path of the step system |
| LockClient.World.Round | cache/redis_lock.go:67-102 | once round the loop: error, handle, strategy, context, in that order |
| Retry.EveryAnswerIsTheFirst | cache/retry.go:15-20 | every call of Next answers as the first one does: go on if and only if the counter starts below MaxCnt |
| Retry.AllowsIff | cache/retry.go:15-20 | the strategy bounds the retries of Lock if and only if it gives up at once, and then the bound is zero: with a positive MaxCnt Lock never ends by exhaustion |
| Retry.FixedInterval.NextInterval | cache/retry.go:15-20 | compares the counter and leaves it as it is |
| LockClient.World.TryLock | cache/redis_lock.go:106-121 | the handle, with expiration 0, if and only if the answer OK arrives, and the server says OK exactly when the key is free; taken or a network error exactly otherwise |
| LockClient.World.Ask | cache/redis_lock.go:165-192 | an answer was issued by a run of the request on the way, and the world went on before it arrived |
| LockClient.World.Unlock | cache/redis_lock.go:165-181 | the step that issued the answer, either way, left the key not held by this handle; success says that it was held just before |
| LockClient.World.Refresh | cache/redis_lock.go:183-192 | success says that the handle had the key when the answer was issued; right after that step it has it if and only if its expiration is positive too |
| PoolProtocol.InitInv | micro/net/pool.go:40-64 | a new pool satisfies the whole invariant |
| PoolProtocol.GoesTo | micro/net/pool.go:67-136 | where each step takes each connection |
| PoolProtocol.CameFrom | micro/net/pool.go:67-136 | every connection a step leaves somewhere came from the one place it was before |
| PoolProtocol.NewConnection | micro/net/pool.go:105-111 | a connection that is new goes to the Get that made it and nowhere else |
| PoolProtocol.StepConserves | micro/net/pool.go:67-136 | no step loses, shares or invents a connection |
| PoolProtocol.QueueStep | micro/net/pool.go:87-121 | every step keeps the queue first-in first-out, its requests live and unfilled, its senders unique, and no waiter forgotten |
| PoolProtocol.StepKeepsInv | micro/net/pool.go:67-136 | every step keeps conservation, the queue invariant and the bounds |
| PoolTheorems.HistoryKeepsInv | micro/net/pool.go:40-136 | the invariant holds in every state of every interleaving |
| PoolTheorems.EachConnectionHasOnePlace | micro/net/pool.go:67-136 | each connection ever made is in exactly one place |
| PoolTheorems.OnlyMadeConnections | micro/net/pool.go:67-136 | nothing is handed out that the factory did not make |
| PoolTheorems.PoolBounds | micro/net/pool.go:40-64 | `cnt` is the number of connections Get made, `cnt <= maxCnt`, idle within `maxIdleCnt`, at most `initCnt + maxCnt` ever made |
| PoolTheorems.SenderNeverBlocks | micro/net/pool.go:117-123 | a Put that took a request off the queue finds its slot empty and its receiver waiting |
| PoolTheorems.SlotIsFilledOnce | micro/net/pool.go:117-123 | no request is handed two connections in any interleaving |
| PoolTheorems.ServedInOrder | micro/net/pool.go:87-90 | requests leave the queue in the order they joined it |
| PoolTheorems.WaiterIsRemembered | micro/net/pool.go:91-103 | a waiting request is queued, filled or about to be filled, whoever else is cancelled |
| PoolTheorems.ForwardingEnds | micro/net/pool.go:92-103 | a connection put back can go through all cancelled waiters to the first live one, else idle, else closed, with everything else unchanged |
| PoolTheorems.EveryChainDelivers | micro/net/pool.go:92-135 | every run of the connection's own Put and forwarding steps has at most three for each cancelled waiter in front and two more, and where it can go no further the connection is with the first live waiter, else idle, else closed |
| PoolTheorems.HandOffsAreBounded | micro/net/pool.go:114-123 | in any interleaving hand-offs plus waiting requests equal the requests waiting before plus those that joined |
| PoolFaults.OrderlyStepIff | micro/net/pool.go:74-90 | a step leaves a waiter beside an idle connection, where there was none, if and only if it is a Get that queues at capacity beside a connection that has come back |
| PoolFaults.OrderlyIff | micro/net/pool.go:74-90 | a history is free of that exactly as long as it has no such Get |
| PoolFaults.FirstDisorder | micro/net/pool.go:74-90 | the step that first breaks it is such a Get |
| PoolFaults.WaiterBesideIdleConnection | micro/net/pool.go:74-90 | counterexample: such a state is reached |
| PoolFaults.ClosedIff | micro/net/pool.go:76-135 | in every history a connection is closed if and only if Put dropped it or some Get took it off the idle channel too late |
| PoolFaults.CallerHasClosedIff | micro/net/pool.go:76-82 | in every history a connection out with a caller is closed if and only if this Get or an earlier one took it off the idle channel too late |
| PoolFaults.BackTimeIs | micro/net/pool.go:57-60 | an idle connection's time is when NewPool or the last Put laid it there |
| PoolFaults.TakeClosesIff | micro/net/pool.go:76-82 | Get closes what it takes, and nothing else, if and only if more than the expiration has passed since it was laid there |
| PoolFaults.CallerHasClosedInWords | micro/net/pool.go:76-82 | a caller's connection is closed if and only if it was once left on the idle channel for longer than the expiration |
| PoolFaults.TakenInTimeStaysOpen | micro/net/pool.go:78 | a connection taken one second into an expiration of ten is not closed |
| PoolFaults.GetReturnsWhatItClosed | micro/net/pool.go:76-82 | counterexample: Get closes the connection and returns it |
| PoolFaults.GetReturnsWhatWasClosedBefore | micro/net/pool.go:76-82 | counterexample: put back, it is handed out closed by a Get that comes in time |
| PoolFaults.FactoryErrorStopsThePool | micro/net/pool.go:105-108 | after one factory error no Put and no slow Get ever gets further |
| PoolFaults.LeakedIff | micro/net/pool.go:105-108 | the mutex stays locked if and only if the factory has failed once |
| PoolFaults.GoesOnIff | micro/net/pool.go:84-115 | a Put, or a Get that found nothing idle, can go on if and only if the factory has never failed |
| PoolFaults.PutIsStuck | micro/net/pool.go:105-115 | counterexample: a factory error of one caller leaves another's Put stuck |
| PoolFaults.WaiterCanBeServedIff | micro/net/pool.go:84-135 | waiting requests can still be served, in some continuation, if and only if the mutex is not left locked and the pool is not exhausted: count used up, every connection dropped |
| PoolFaults.SecondGetWaitsForEver | micro/net/pool.go:109-135 | counterexample: without idle places one Get and its Put use the pool up, and the next Get is never served |
| ConnPool.Pool.constructor | micro/net/pool.go:40-64 | the loop of NewPool establishes the initial state |
| ConnPool.Pool.TryIdle | micro/net/pool.go:74-82 | takes the oldest idle connection and closes it, and only it, if and only if its time plus the expiration is before now |
| ConnPool.Pool.QueueOrMake | micro/net/pool.go:84-111 | at capacity queues a request, otherwise makes and counts a connection |
| ConnPool.Pool.FailToMake | micro/net/pool.go:105-108 | returns with the mutex still locked |
| ConnPool.Pool.PutLocked | micro/net/pool.go:114-135 | first waiter, else idle channel with the time of now, else closed, and nothing else changes |
| ConnPool.Pool.SendTo | micro/net/pool.go:121 | the send finds the slot empty |
| ConnPool.Pool.Await | micro/net/pool.go:92-102 | receives, or leaves a forwarder behind |
| ConnPool.Pool.TakeToForward | micro/net/pool.go:95-98 | the forwarder takes what arrives and goes on to put it back |
| SqlAst.ApiBuilds | orm/predicate.go:29-52 | whatever the predicate constructors build has the shape the theorems are about |
| SqlAst.BuiltResolves | orm/column.go:25-53 | a predicate the API can build keeps its shape once its names are resolved |
| SqlAst.BuiltSelectResolves | orm/select.go:35-84 | so does a whole query with its nested joins |
| SqlAst.OnIsCompleteIff | orm/select.go:131-140 | the ON text carries every ON predicate if and only if there are as many of them as WHERE predicates, or one and none |
| SqlAst.TableAgreesIff | orm/select.go:87-146 | the table the code builds carries every ON predicate of every join if and only if each join with an ON list meets that length condition |
| SqlAst.SelectAgreesIff | orm/select.go:35-84 | so the query built is the one the caller means exactly then |
| SqlIntent.ColumnIff | orm/builder.go:28-66 | a column of a table means that table's alias and the column of its field, any other the selector's own column without qualifier; resolving finds it if and only if it is there |
| SqlIntent.ColumnErrors | orm/builder.go:31-66 | which error each other column is refused with |
| SqlIntent.ExprErrors | orm/select.go:147-223 | a predicate is refused exactly when an operand is, with the error of the leftmost |
| SqlIntent.TableIff | orm/select.go:87-146 | the same relation for nested joins: table names, aliases, USING columns and ON predicates |
| SqlIntent.SelectIff | orm/select.go:35-84 | the same for whole queries: what is built is what is meant, down to every name, alias, operator and value, and Build fails if and only if nothing is meant |
| SqlIntent.OneMeaning | orm/select.go:35-84 | no query tree is read in two ways |
| SqlSamples.JoinText | orm/select_test.go:85-97 | a join with qualified ON, token by token |
| SqlSamples.ItemsText | orm/select.go:225-266 | a select list with a column and an aggregate, each with its alias, token by token |
| SqlSamples.ConditionText | orm/select.go:147-223 | a nested predicate with its parentheses, token by token |
| SqlSamples.InsertText | orm/insert_test.go:154 | two rows of two columns, token by token |
| SqlSamples.MySQLUpsertText | orm/dialect.go:40-78 | the MySQL upsert clause, token by token |
| SqlSamples.SQLiteUpsertText | orm/dialect.go:86-136 | the SQLite upsert clause, token by token |
| SqlText.BindRestores | orm/select.go:323-332 | binding the arguments in order gives each placeholder the values it was written for, and the counts match |
| SqlText.SelectIsWellMarked | orm/select.go:147-266 | a whole query has one value per placeholder when each raw fragment's count fits its own arguments |
| SqlParser.AtomRoundTrip | orm/select.go:156-181 | a printed operand, parenthesised if it is a predicate, is read back whole |
| SqlParser.PredRoundTrip | orm/select.go:147-223 | every predicate tree, printed and parsed with SQL precedence, comes back, so precedence never changes its meaning |
| SqlParser.TableRoundTrip | orm/select.go:87-146 | every join tree comes back, with USING and ON |
| SqlParser.StatementRoundTrip | orm/select.go:35-84 | select list, join tree and WHERE predicate come back from the text of a statement, whatever follows it |
| SqlParser.SelectRoundTrip | orm/select.go:35-84 | parsing inverts printing on whole queries |
| SqlStatements.QuerySelectsOnce | orm/select.go:44 | no parsing rule but the first takes a SELECT, so a query has exactly one, at its start |
| SqlStatements.QueryIffBufferWasEmpty | orm/select.go:44 | what a Build appends makes a query, and then the one asked for, if and only if the buffer was empty |
| SqlStatements.NoArgsMakeItAQuery | orm/select.go:44 | otherwise no arguments bound to the text make it one |
| SqlParser.TextMeansQuery | orm/select.go:35-84 | text and arguments together, bound and parsed, are the query with its values |
| SqlMeaning.FoldMeansConjunction | orm/select.go:69-72 | the folded predicate is, in three-valued logic, the conjunction of all of them |
| SqlMeaning.WhereMeansConjunction | orm/select.go:67-77 | the WHERE text, parsed and evaluated in three-valued logic, is the conjunction of all predicates given to Where |
| SqlMeaning.ConstructorsMean | orm/column.go:25-53 | `Eq`, `Lt` and `Gt` compare the meant column with the value, each with its own operator |
| SqlMeaning.ConnectivesMean | orm/predicate.go:29-52 | when `Not`, `And` and `Or` are true and when they are false |
| SqlBuilder.Builder.Write | orm/builder.go:8-19 | a written token is added to the text and leaves text and arguments in step |
| SqlBuilder.Builder.WriteMark | orm/select.go:213-215 | a placeholder and its argument are added together |
| SqlBuilder.Builder.WriteRaw | orm/select.go:208-212 | a raw fragment and all its arguments are added together |
| SqlBuilder.Builder.BuildColumn | orm/builder.go:28-66 | writes the column that is meant, with the alias of its table and its own, or returns the error |
| SqlBuilder.Builder.BuildUsing | orm/select.go:117-130 | the USING list, in order, or the first unknown field |
| SqlSelect.Selector.BuildExpression | orm/select.go:147-223 | writes exactly the printed form of the resolved expression, or returns the first error |
| SqlSelect.Selector.BuildPredicate | orm/select.go:151-181 | both sides and the operator, each side that is a predicate in parentheses |
| SqlSelect.Selector.FoldOn | orm/select.go:133-136 | the ON loop as bounded by the number of WHERE predicates, out of range included |
| SqlSelect.Selector.BuildTable | orm/select.go:87-146 | writes exactly the printed form of the resolved join tree, or returns the first error |
| SqlSelect.Selector.BuildColumns | orm/select.go:225-266 | columns, aggregates and raw fragments with aliases and arguments, or `*` |
| SqlSelect.Selector.BuildWhere | orm/select.go:67-77 | the fold of all WHERE predicates |
| SqlSelect.Selector.Build | orm/select.go:35-84 | succeeds if and only if the tree means a query, and appends that one; from an empty buffer the i-th placeholder binds argument i and the text parses to it, from any other no arguments make it a query; a failed Build leaves the buffer not empty |
| SqlInsertText.InsertTakes | orm/insert.go:137-158 | the arguments of an insert are all rows in order, then the assigned values, one for each placeholder |
| SqlInsertText.RowMajor | orm/insert.go:138-158 | argument `j * ncols + k` is field k of row j, and after the rows come exactly the upsert's values |
| SqlInsertText.DialectsTakeTheSame | orm/dialect.go:40-136 | when both dialects accept an insert they take the same arguments |
| SqlInsertIntent.InsertIff | orm/insert.go:82-205 | under each field's column stands that field's value in every row, the upsert assigns the caller's columns and values in order, and Build fails if and only if no such insert exists |
| SqlInsertIntent.FirstUnknownColumn | orm/insert.go:110-118 | a column that is no field is refused, and the first such one is named |
| SqlInsertParser.InsertRoundTrip | orm/insert.go:82-205 | the printed insert of either dialect is read back: table, columns, every row with its values, and the upsert |
| SqlInsertParser.UpsertRoundTrip | orm/dialect.go:40-136 | so is the upsert clause, conflict columns and each assignment |
| SqlInsertParser.InsertTextIsInjective | orm/insert.go:82-205 | two inserts with the same text and values are the same insert |
| SqlInsertParser.TextMeansInsert | orm/insert.go:82-205 | text and arguments together, bound and parsed, are the insert with its values |
| SqlInsert.Inserter.PickFields | orm/insert.go:108-119 | all fields, or the named ones in the caller's order, or the first unknown one |
| SqlInsert.Inserter.BuildRow | orm/insert.go:142-157 | one row's placeholders and arguments, field by field |
| SqlInsert.Inserter.BuildRows | orm/insert.go:138-158 | all rows in order, or the first error |
| SqlInsert.Inserter.BuildAssign | orm/dialect.go:46-75 | one assignment in the dialect's form, with its argument if it has one |
| SqlInsert.Inserter.BuildUpsert | orm/dialect.go:40-136 | conflict columns and assignments as each dialect writes them, or the first error |
| SqlInsert.Inserter.Build | orm/insert.go:82-205 | succeeds if and only if the insert means something; its bound text parses to exactly that, each value under its own field's column; a repeated Build returns an equal query |
| WireBytes.ValueOfBigEndian | micro/rpc/tcp.go:15-25 | a number that fits is read back from its big-endian bytes |
| WireBytes.IndexByte | micro/rpc/message/request.go:70-85 | the first place of a delimiter, or -1 |
| WireBytes.HeadRoundTrip | micro/rpc/message/request.go:63-68 | the fifteen fixed bytes give back all six fields |
| WireBytes.PutHead | micro/rpc/message/request.go:34-39 | the fixed fields are laid out in their fifteen bytes and nothing else is touched |
| WireRequest.MetaLengthAnyOrder | micro/rpc/message/request.go:22-29 | the length does not depend on the order the map is visited in |
| WireRequest.HeadEndsWhereDataStarts | micro/rpc/message/request.go:13-31 | the head length is exactly the offset where the data starts |
| WireRequest.Layout | micro/rpc/message/request.go:32-59 | the offset, byte order and delimiter of every field, written out |
| WireRequest.PairLayout | micro/rpc/message/request.go:49-56 | each pair: key, carriage return, value, line feed |
| WireRequest.MetaRoundTrip | micro/rpc/message/request.go:49-87 | metadata written in any order is read back as the same map |
| WireRequest.DecodeEncode | micro/rpc/message/request.go:32-91 | every delimited request comes back for every order of its metadata |
| WireRequest.DecodedIsDelimited | micro/rpc/message/request.go:61-91 | whatever the decoder returns has no delimiter where it looks for one |
| WireRequest.RoundTripIff | micro/rpc/message/request.go:32-91 | a request comes back unchanged if and only if it is delimited, its metadata is nil or not empty and its data is not nil |
| WireRequest.Request.SetHeadLength | micro/rpc/message/request.go:13-31 | the field is the head size modulo 32 bits, for any visiting order |
| WireRequest.EncodeReq | micro/rpc/message/request.go:32-59 | fills the buffer the length fields ask for, panics exactly when it is too short, and with right lengths gives the encoding |
| WireRequest.AppendMeta | micro/rpc/message/request.go:49-56 | every pair with its delimiters, in order, never out of range |
| WireRequest.DecodeReq | micro/rpc/message/request.go:61-91 | decodes exactly what the specification decodes, and panics exactly where it has no result |
| WireRequest.DecodeMeta | micro/rpc/message/request.go:76-88 | the loop over pairs computes the specified map |
| WireResponse.DecodeEncode | micro/rpc/message/response.go:13-45 | arbitrary error and data bytes come back; unchanged if and only if neither is empty but not nil |
| WireResponse.Layout | micro/rpc/message/response.go:13-26 | the offset and byte order of every field, written out |
| WireResponse.FrameLayout | micro/rpc/tcp.go:23-28 | eight length bytes, most significant first, then the message |
| WireResponse.Response.SetHeadLength | micro/rpc/message/response.go:7-9 | the head length is the offset where the data starts if and only if the sum does not wrap at 32 bits |
| WireResponse.Response.SetBodyLength | micro/rpc/message/response.go:10-12 | after the head length, both lengths are as encoding needs them if and only if the data fits 32 bits |
| WireResponse.SetAndEncode | micro/rpc/message/response_test.go:59-63 | setting both lengths and encoding gives bytes that decode to the response whenever its size fits 32 bits |
| WireResponse.EncodeResp | micro/rpc/message/response.go:13-26 | fills the buffer the length fields ask for, panics exactly when it is too short, and with right lengths gives the encoding |
| WireResponse.DecodeResp | micro/rpc/message/response.go:28-45 | decodes exactly what the specification decodes, and panics exactly where it has no result |
| WireResponse.FramesOfStream | micro/rpc/tcp.go:8-28 | any list of messages sent back to back is read back as that list |
| WireResponse.StreamIsInjective | micro/rpc/tcp.go:23-28 | framing is uniquely decodable: two lists with the same bytes are the same list |
| WireResponse.ResponsesThroughStream | micro/rpc/tcp.go:8-28 | encoding, framing, reading and decoding returns every response |
| WireResponse.EncodeMsg | micro/rpc/tcp.go:23-28 | an eight-byte length and the message |
| WireResponse.ReadMsg | micro/rpc/tcp.go:8-22 | takes exactly one frame off the stream, or fails when it is not all there |
| WireResponse.ReadAll | micro/rpc/tcp.go:8-22 | repeated reading returns every whole frame in order |
| RouteTree.AddDenotes | web/router.go:54-70 | pattern by pattern: the new one has its handler and route, those through a replaced wildcard subtree are gone, all others are as they were |
| RouteTree.RegisterIsMapUpdate | web/router.go:22-70 | the same as one update of the whole denoted map |
| RouteTree.AddSucceedsIff | web/router.go:56-67 | a registration succeeds if and only if no segment is empty, no other kind of wildcard is in the way, and it is no static duplicate |
| RouteTree.AddPanics | web/router.go:56-67 | which panic it is otherwise: the first obstacle on the way down |
| RouteTree.AddKeepsTidy | web/router.go:133-164 | no node ever has both a param and a star child, also after a failed registration |
| RouteTree.AddRegistersNothingElse | web/router.go:22-70 | a registration, also a failed one, registers nothing but what it was asked to |
| RouteTree.FailedAddDenotes | web/router.go:54-67 | pattern by pattern, what a registration that panics leaves: nothing new, and exactly the patterns through a wildcard subtree it had already replaced are gone |
| RouteTree.FailedAddLosesRoute | web/router.go:56-64 | counterexample: after a registration that panics on an empty segment an earlier route is gone |
| RouteTree.FoundIsBest | web/router.go:87-108 | every result is the node of a pattern that matches segment by segment and is static over param over star at each step |
| RouteTree.BestIsFound | web/router.go:112-131 | conversely the pattern preferred at each step is found |
| RouteTree.UnshadowedIsFound | web/router.go:112-131 | a pattern in the tree that matches and is not shadowed by a static child is the preferred one |
| RouteTree.ParamsGiveBackSegments | web/router.go:93-100 | a parameter gives back its request segment; of two with one name, the later one |
| RouteTree.StaticRouteStays | web/router.go:54-70 | a static route keeps handler and route across any later registration, also one that fails |
| RouteTree.StaticRouteIsFound | web/router.go:72-110 | and is found with them, and no parameters |
| RoutePaths.RequestOfRegistered | web/router.go:83-85 | a path without empty segments is looked up by the segments it was registered under |
| RoutePaths.PatternOfJoin | web/router.go:55 | a pattern is the text between the slashes of its path |
| RoutePaths.OuterSlashesDoNotCount | web/router.go:84-85 | slashes before and behind a request path make no difference |
| RoutePaths.RegisterSucceedsIff | web/router.go:22-70 | exactly which paths can be registered, wildcards included; no other method's tree changes |
| RoutePaths.RegisterPanics | web/router.go:23-42 | the checks of a path in their order |
| RoutePaths.RegisteredPathIsFound | web/router.go:72-110 | a path just registered, wildcards or not, is found by every request it matches unshadowed, with its own handler, route and parameters |
| RoutePaths.RequestFindsItsRoute | web/router.go:72-110 | in every router a request that reaches a handler reaches one whose own route matches it, preferred at each step |
| RoutePaths.StaticRouteSurvives | web/router.go:22-110 | from an empty router, a static path registered at any time is found with its own handler and route after any later registrations |
| Router.ChildOrCreate | web/router.go:133-164 | in place: a wildcard always makes a new node, a static segment finds or makes one, a clash panics |
| Router.AddSegments | web/router.go:56-69 | the walk down the linked tree changes it to exactly the specified tree, also when it panics half way |
| Router.ChildOfSegment | web/router.go:116-131 | static, else param, else star |
| Router.FindSegments | web/router.go:86-108 | the lookup loop returns the specified node and parameters |
| Router.Router.AddRoute | web/router.go:22-70 | every check in its order; the trees become the specified ones, and other methods' trees stay |
| Router.Router.FindRoute | web/router.go:72-110 | returns the specified match, or none |
| MapCache.SetKeepsCountIff | cache/max_cnt_cache.go:56-65 | a fresh Set keeps the count right if and only if the counter is not the largest int32; it is refused exactly at capacity |
| MapCache.RunKeepsCount | cache/max_cnt_cache.go:20-66 | in every run the counter is the number of entries, within the cap, and insertions are entries plus eviction callbacks |
| MapCache.SweepPurges | cache/local_cache.go:60-72 | a sweep leaves what one purge of those keys leaves, whatever the order |
| MapCache.GetPurges | cache/local_cache.go:115-133 | a Get leaves what a purge of its key leaves |
| MapCache.PollRemovesExpired | cache/local_cache.go:56-73 | a poll removes only expired entries in any order, and all of them when there are at most 1001 entries |
| MapCache.GetAfterSet | cache/local_cache.go:102-133 | after a Set, a Get gives the new value, whatever was there, and removes it if and only if its expiration is over; no other key changes |
| MapCache.PollAfterSet | cache/local_cache.go:59-73 | a poll that looks at a key removes what a Set put there if and only if its expiration is over |
| MapCache.SetRefusedIff | cache/max_cnt_cache.go:56-65 | only a fresh key at capacity is refused, and then nothing changes |
| MapCache.SweepCallsBack | cache/local_cache.go:81-91 | every entry that is removed is called back with its value, and nothing else is |
| MapCache.BuildInMapCache.EvictKey | cache/local_cache.go:81-91 | counts down and calls back exactly once, for a key that is there |
| MapCache.BuildInMapCache.SetItem | cache/max_cnt_cache.go:36-66 | overwrites without counting, counts a fresh key, refuses at capacity |
| MapCache.BuildInMapCache.GetItem | cache/local_cache.go:115-133 | returns the value, removing it if it is expired |
| MapCache.BuildInMapCache.PollOnce | cache/local_cache.go:59-73 | one tick of the poller over the first 1001 keys |
| Coherence.RunKeepsCoherence | cache/write_through.go:14-22 | in every run of calls one after another, reads, filtered reads, writes and polls, every cached value equals the store's |
| Coherence.StoreHasLastWrite | cache/write_through.go:14-22 | in such a run the store holds for each key the value of the last successful write |
| Coherence.ReadIsLastWrite | cache/read_through.go:87-106 | in such a run a read that returns a value returns the last one written, also from an expired entry |
| Coherence.ReadFailsIff | cache/read_through.go:87-106 | in such a run a read whose load would succeed fails if and only if its key was never written |
| Coherence.ReadFillsCache | cache/read_through.go:87-106 | a read that had to load leaves the value in the cache for its expiration; one that could not load changes nothing |
| Coherence.WriteFillsCache | cache/write_through.go:14-22 | a write leaves its value in store and cache, the latter for its expiration; one the store refused changes nothing |
| Coherence.FilterIsTransparentIff | cache/bloom_cache.go:35-47 | one filtered read does what the plain read does if and only if the filter does not miss a key that would be loaded |
| Coherence.FiltersChangeNothing | cache/bloom_cache.go:35-47 | taking every filter without false negatives out of a run leaves the same states and the same successful reads |
| Coherence.SetV1CoherentIff | cache/write_through.go:23-29 | writing the cache first keeps coherence if and only if the store takes the value or has it already |
| Coherence.SetV1ServesUnstoredValue | cache/write_through.go:23-29 | counterexample: a read returns a value that was never stored |
| Coherence.GetIsHit | cache/local_cache.go:115-133 | the reads here are the map cache's own Get on the same entries |
| Coherence.PollIsPurge | cache/local_cache.go:59-73 | the polls here are the map cache's own, in any order |
| Coherence.ThroughCache.ReadThrough | cache/read_through.go:87-106 | hit, or load and refresh |
| Coherence.ThroughCache.FilteredReadThrough | cache/bloom_cache.go:35-47 | hit, or load and refresh if the filter has the key |
| Coherence.ThroughCache.WriteThrough | cache/write_through.go:14-22 | the store first, the cache only after it succeeded |
| Coherence.ThroughCache.WriteCacheFirst | cache/write_through.go:23-29 | the cache first, whatever the store does |
| Coherence.ThroughCache.PollTick | cache/local_cache.go:59-73 | a tick of the poller is the poll of the runs above |
| CoherenceRaces.ReadInOneGo | cache/read_through.go:87-106 | the three steps of a read, undisturbed, are the call of the sequential runs |
| CoherenceRaces.WriteInOneGo | cache/write_through.go:14-22 | so are the two steps of a write |
| CoherenceRaces.StepCoherentIff | cache/write_through.go:14-22 | exactly what each step of overlapping calls does to a key: a fill or cache set leaves it coherent if and only if the store has that very value then |
| CoherenceRaces.CachedWasSeen | cache/read_through.go:87-106 | in every interleaving a cached value was the store's when whoever put it there loaded or wrote it |
| CoherenceRaces.CoherentIff | cache/write_through.go:14-22 | in every interleaving a key is coherent if and only if it is not cached, or the store's value when the cached one was got is its value now |
| CoherenceRaces.HitWasStored | cache/read_through.go:87-106 | however stale, a value found in the cache is one the store had for that key at some moment |
| CoherenceRaces.CoherentUnlessOvertaken | cache/write_through.go:14-22 | if no put under a key is overtaken by a store write, the key is coherent whenever no write of it is under way, whatever else overlaps |
| CoherenceRaces.OvertakenIsStaleIff | cache/write_through.go:14-22 | a put that is overtaken leaves the key stale if and only if the store's value has changed |
| CoherenceRaces.OverlappingWritesLeaveStaleValue | cache/write_through.go:14-22 | counterexample: two overlapping writes leave the first value in the cache and the second in the store |
| CoherenceRaces.SlowReadLeavesStaleValue | cache/read_through.go:91-102 | counterexample: a read that loads before a write and fills after it leaves the old value in the cache |
| ModelRegistry.CamelOfUnderscoreIff | orm/model/model.go:189-202 | an ASCII name is given back by its column name if and only if it has no underscore and no small first letter |
| ModelRegistry.CleanNamesDoNotCollide | orm/model/model.go:189-202 | such ASCII names have distinct columns |
| ModelRegistry.UncleanNamesCollide | orm/model/model.go:189-202 | counterexamples: names outside that condition that share a column |
| ModelRegistry.CutNamesCollide | orm/model/model.go:198 | counterexample outside ASCII: a code point cut to a byte makes two names share a column |
| ModelRegistry.UnderscoreName | orm/model/model.go:189-202 | the buffer loop computes the specified name for any Unicode tables and any code points, each cut to a byte |
| ModelRegistry.ParseSucceedsIff | orm/model/model.go:170-187 | a tag is taken if and only if each of its pairs holds exactly one equals sign |
| ModelRegistry.ParseNamesFirstBadPair | orm/model/model.go:178-181 | otherwise it is refused over the first pair that does not |
| ModelRegistry.TagRoundTrip | orm/model/model.go:170-187 | a tag written from settings is read back as those settings, the last of a key winning |
| ModelRegistry.ParseTagText | orm/model/model.go:170-187 | the loop computes the specified settings or error |
| ModelRegistry.BuiltIff | orm/model/model.go:93-108 | registration fails on nothing but a value that is no pointer to a struct, or a refused tag |
| ModelRegistry.BuiltIndexes | orm/model/model.go:103-123 | each index maps a key to the last field that has it, and is a bijection if and only if no key repeats |
| ModelRegistry.BuiltInWords | orm/model/model.go:103-138 | name, type, offset and untagged column of each field, and the table: the type's own name for it if it has one, else its name in underscores |
| ModelRegistry.TagNamesColumn | orm/model/model.go:105-113 | a `column` setting, the last one if there are more, names the column unless it is empty |
| ModelRegistry.UntaggedStructIsIndexed | orm/model/model.go:103-123 | an untagged struct with clean distinct ASCII names has Fields, FieldMap and ColumnMap in bijection |
| ModelRegistry.OptionsKeepIndexIff | orm/model/model.go:148-157 | options leave ColumnMap right if and only if each field ends with the column it began with |
| ModelRegistry.OptionsNameTable | orm/model/model.go:158-166 | the last table option names the table |
| ModelRegistry.GetAfterRegister | orm/model/model.go:55-67 | after a registration every Get of the type returns that model |
| ModelRegistry.RegisterRemembers | orm/model/model.go:133-146 | a registration that succeeds is remembered for its type alone; one that fails changes nothing |
| ModelRegistry.GetRegistersOnce | orm/model/model.go:55-67 | a Get registers a type that is not there without options, and looks no further for one that is |
| ModelRegistry.BuildModel | orm/model/model.go:99-138 | the field loop builds the specified list and both maps, or the first tag's error |
| ModelRegistry.RunOptions | orm/model/model.go:139-144 | options are applied in order up to the first error |
| ModelRegistry.Registry.Register | orm/model/model.go:93-147 | only a registration that succeeds is remembered |
| ModelRegistry.Registry.GetModel | orm/model/model.go:55-67 | the remembered model, or a registration without options |

## Left out

- `SingleLock`, `AutoRefresh`, `unlockCh`, timers and contexts of the lock: they rest on singleflight and channel select, and as written can spin or block on their own channel.
- Waiting for the retry strategy that comes with the lock to end: Retry.AllowsIff says that it does so at once or never; `LockClient.World.Lock` takes the number of retries a strategy really allows.
- Negative and fractional expirations, several Redis servers, and failures of the server itself.
- LockTheorems.MutualExclusion: callers whose TryLock handle was refreshed are excluded, because such a refresh removes the key; RefreshedTryLockIsNotExclusive shows it.
- Pools with more initial connections than idle places: `NewPool` then blocks on its own channel and never returns.
- What a connection does, closing it twice, and callers that put a connection they do not hold.
- Characters of SQL text: spaces and quoting are not modelled, tokens are; a raw fragment is one token with its placeholder count.
- Zero-value predicates, pointer operands and selectables, the unfinished PostgreSQL dialect, and running queries, transactions, middleware and result scanning.
- SqlInsert.Inserter.Build: text and argument list are reset together at its start; the code resets the arguments just before the rows, and nothing adds any in between.
- Decoding slices longer than their length but within their capacity, and reads that fill only part of their buffer.
- The RPC client, server, serialisation and reflection proxies, and the plain network client and server.
- Telling nil path parameters from empty ones; middleware, handlers, templates, files, sessions and server life cycle are not modelled.
- Overlapping calls of `SetV1` and of the capacity decorator, whose own mutex covers a whole call; readers that share one load through singleflight add no steps of their own. `Delete` of an absent key, which unlocks a mutex nobody holds, is not an operation.
- The other read-through variants, `SetV2`, `SetV3`, the singleflight cache and the Redis cache.
- A store write that fails is taken to write nothing, and the store to change through the modelled writes only.
- MapCache.RunKeepsCount: the cap is below the largest int32; SetKeepsCountIff says what happens at it.
- Go's Unicode tables themselves: they are a parameter of the column names, and the theorems about names assume only what they say of ASCII.
- Valuers, unsafe access, code generation, concurrency demos and exercises elsewhere in the repository.
