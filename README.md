# A verified model of the TinyWebServer buffer, logger and connection pool

This project models four sequential parts of a small C++ web server:

- The growable byte `Buffer`: a `vector<char>` with a read cursor and a write cursor.
- The bounded `BlockDeque<T>` that carries log lines to the writer thread.
- The `Log` object's bookkeeping:
  - the rotation decision and the file names;
  - the level tags;
  - the assembled line;
  - the choice between queueing a line and writing it directly.
- The `SqlConnPool`: a FIFO of database connection handles, a counting semaphore and three counters.

Stateful code is modelled as Dafny classes:

- `ByteBuffer.Buffer` keeps its storage in an `array<char>`.
- `BlockQueue.BlockDeque` and `ConnPool.SqlConnPool` keep their contents in a `seq`.
- `Logging.Log` owns a `Buffer` and an optional deque.

Pure decisions (the cursor arithmetic, the rotation rule, file names, tags, `printf` digits, the level gate) are functions.

Blocking waits become preconditions. The clock (`struct tm`), the outcome of `readv`/`write`, and the connection handles are parameters. Files are a map from file name to the text written into them.

Modules:

- `Common`: `Option`, the NUL character.
- `ByteBuffer`: `Buffer`, its cursor arithmetic, and the literal and the corrected `SetEnsureWritable`.
- `BufferFacts`: the readable region as a FIFO byte stream, and the shortfall of the literal `SetEnsureWritable`.
- `BlockQueue`: `BlockDeque<T>`.
- `Format`: `%d` and `%0Nd` of non-negative numbers, and reading them back.
- `LogRules`: levels, tags, timestamps, file names, rotation, what `fputs` writes, the `LOG_BASE` gate, and the queue set-up of `Init`.
- `Logging`: the `Log` class.
- `ConnPool`: `SqlConnPool` and its counters.

Three places follow the evident intent rather than the literal code, because the literal code does not compile or always aborts:

- `RefreshWritePos` (buffer/buffer.cpp:87): the model requires `len <= writable` in place of `assert(len < 0)`, which no `size_t` satisfies.
- `PopFront` (log/blockqueue.h:158): the model returns the front item. The source assigns the `void` result of `pop_front()`.
- `LOG_BASE` (log/log.h:65): the model calls `GetLevel()`. The source names it without calling it.

Several more members run the corrected code of a row under "## Findings". Each literal form is modelled and its defect proved beside it:

- `ByteBuffer.Buffer.Append`, `AppendString` and `AppendBuffer` call the corrected `SetEnsureWritable`, and so do the clients `BufferFacts.Replay`, `Session` and `StreamSession` that drive them. The literal one is `MakeSpace(len - writable)` (buffer/buffer.cpp:79).
- `Logging.Log.Init` and `SetUpQueue` use the corrected `InitQueue`, and `Init` the corrected `InitFileName`. The literal set-up is at log/log.cpp:43-44 and the literal file name at log/log.cpp:60.
- `Logging.Log.Write`, `BuildLine` and `LogBase` use the corrected `Timestamp` (log/log.cpp:120) and `LevelTag` (log/log.cpp:187-206). Their final `Append("\n\0", 2)` (log/log.cpp:129) goes through `Buffer.Append`, but they require the line to leave at least two bytes free before it. So the literal `SetEnsureWritable` (buffer/buffer.cpp:79) would not call `MakeSpace` either, and the line buffer's storage stays the same array.
- The clients `Logging.Open`, `QueueLine`, `QueueTwo` and `Session` drive `Init` and `Write`, so their results hold through the corrected `InitQueue`, `InitFileName`, `Timestamp` and `LevelTag`.
- `ConnPool.SqlConnPool.GetSqlConn` and `FreeConn` use the corrected counters `Take` and `Give`. The literal ones are at threadpool/sqlconnpool.cpp:83 and :99. The client `ConnPool.Session` drives them, so its balanced counters hold through the corrected `Take` and `Give`; `ConnPool.Drive` only follows the queue and the semaphore, which the counters do not touch.

`Log::Write` tags every line with the logger's own level (`m_level`), not with its `level` argument; the model does the same.

## Model

| member | source | states |
|---|---|---|
| ByteBuffer.MakeSpacePlan | buffer/buffer.cpp:165-180 | Grows to `write + makeSize` when the writable tail plus the consumed head is short (read cursor kept, exactly `makeSize` writable); otherwise compacts: size kept, read cursor 0, all of tail plus head writable. Readable count kept, size never shrinks. |
| ByteBuffer.EnsureWritablePlan | buffer/buffer.cpp:74-83 | Corrected `SetEnsureWritable`: at least `len` bytes writable afterwards (the assertion at line 82); an already sufficient buffer is untouched; growth gives exactly `len` writable. |
| ByteBuffer.EnsureWritableAsWritten | buffer/buffer.cpp:74-83 | Literal `MakeSpace(len - writable)`: `len` bytes are writable afterwards iff nothing was writable before or writable plus prependable was already at least `len`. |
| ByteBuffer.AppendPlan | buffer/buffer.cpp:13-23 | Appending `len` bytes adds exactly `len` readable bytes and never shrinks the storage. |
| ByteBuffer.Buffer.GetWritableBytes | buffer/buffer.cpp:91-94 | The writable count is `Writable` of the buffer's cursors: storage size minus the write cursor. |
| ByteBuffer.Buffer.GetReadableBytes | buffer/buffer.cpp:96-99 | The readable count is `Readable` of the buffer's cursors: write cursor minus read cursor. In a valid buffer it cannot underflow. |
| ByteBuffer.Buffer.GetPrependableBytes | buffer/buffer.cpp:101-104 | The consumed head is `Prependable` of the buffer's cursors: the read cursor. |
| ByteBuffer.Buffer.constructor | buffer/buffer.h:25 | A new buffer has the requested capacity (default 1024), both cursors at 0, nothing readable, and zeroed storage. |
| ByteBuffer.Buffer.MakeSpace | buffer/buffer.cpp:165-180 | The cursors move as `MakeSpacePlan` says. The readable bytes are the same before and after growth or compaction. |
| ByteBuffer.Buffer.Grow | buffer/buffer.cpp:169 | `resize`: the storage gets the new size, the old bytes stay in place, the added ones are zero, and the readable bytes are kept. |
| ByteBuffer.Buffer.Compact | buffer/buffer.cpp:171-178 | The readable bytes move to the front: read cursor 0, write cursor at the old readable count, the readable bytes and the bytes behind them kept. |
| ByteBuffer.Buffer.SetEnsureWritable | buffer/buffer.cpp:74-83 | Corrected form: cursors as `EnsureWritablePlan` says, readable bytes kept, at least `len` writable. |
| ByteBuffer.Buffer.SetEnsureWritableAsWritten | buffer/buffer.cpp:74-83 | Literal form: cursors as `EnsureWritableAsWritten` says, readable bytes kept, and the exact condition under which `len` bytes end up writable. |
| ByteBuffer.Buffer.RefreshWritePos | buffer/buffer.cpp:85-89 | The write cursor advances by `len` over bytes already in the storage; those bytes join the readable ones. |
| ByteBuffer.Buffer.Append | buffer/buffer.cpp:13-23 | Corrected (uses the corrected `SetEnsureWritable`). A null pointer changes nothing. Otherwise the data must be non-empty (the assertion at line 76), and the readable bytes become the old ones followed by the data, and the cursors move as `AppendPlan` says. |
| ByteBuffer.Buffer.AppendString | buffer/buffer.cpp:25-33 | Corrected, as `Append`. The length argument is ignored. The whole string is appended, and an empty string changes nothing. |
| ByteBuffer.Buffer.AppendBuffer | buffer/buffer.cpp:35-38 | Corrected, as `Append`. Given a distinct buffer with readable bytes (line 76 asserts a positive length), appends exactly its readable bytes and leaves it unchanged. |
| ByteBuffer.Buffer.Retrieve | buffer/buffer.cpp:40-44 | Requires `len <= readable`. Advances the read cursor by exactly `len`, which drops `len` bytes from the front of the readable ones. |
| ByteBuffer.Buffer.RetrieveUntil | buffer/buffer.cpp:46-50 | Requires read cursor ≤ `end` ≤ write cursor. Moves the read cursor to `end`, dropping the readable bytes before it. |
| ByteBuffer.Buffer.Clear | buffer/buffer.cpp:148-153 | Every storage byte is zero, both cursors are 0, and the capacity is kept. |
| ByteBuffer.Buffer.RetrieveToStr | buffer/buffer.cpp:52-57 | Returns exactly the readable bytes. Afterwards the buffer is cleared. |
| ByteBuffer.Buffer.ReadFd | buffer/buffer.cpp:106-133 | A failed read reports the error and changes nothing. Otherwise the readable bytes grow by exactly the bytes read, in order. A read that fits only advances the write cursor; an overflow marks the storage full and then appends the rest. |
| ByteBuffer.Buffer.WriteFd | buffer/buffer.cpp:135-146 | Returns the count written; exactly those front bytes are retrieved and the rest stay readable. |
| BufferFacts.RunIsStreamSuffix | buffer/buffer.cpp:13-50 | After any legal sequence of appends and retrieves, the readable bytes are the initial ones followed by everything appended, minus as many from the front as were retrieved. |
| BufferFacts.ReadableBalance | buffer/buffer.cpp:13-50 | readable = initially readable + appended − retrieved. |
| BufferFacts.Replay | buffer/buffer.cpp:13-50 | Any legal sequence of appends and retrieves, made on a buffer object through `AppendString` and `Retrieve`, leaves its readable bytes exactly as `Run` says. So `RunIsStreamSuffix` and `ReadableBalance` hold of the object. |
| BufferFacts.Session | buffer/buffer.cpp:13-57 | Corrected (through the corrected `Append`). A client run: a new buffer given more bytes than its capacity (capacity 4 and five bytes, for one) grows to exactly their length. All of them are readable, `RetrieveToStr` returns them, and nothing is readable afterwards. On each of these inputs the literal `SetEnsureWritable` (buffer/buffer.cpp:79) leaves fewer than the data's length writable, so the source fails the assertion at line 82 instead (`AsWrittenShortfall`, `FreshBufferShortfall`). |
| BufferFacts.StreamSession | buffer/buffer.cpp:13-57 | Corrected (through the corrected `Append`; the literal code falls short whenever an append finds some but too few writable bytes, `AsWrittenShortfall`). A client run on a new buffer: append, retrieve one byte, append again, `RetrieveToStr`. The string returned is what `Run` gives for those calls: the appended bytes without the first. The buffer ends empty. |
| BufferFacts.FreshBufferShortfall | buffer/buffer.cpp:79 | For an empty buffer of capacity `s` asked for `len`, with `s < len <= 2s` (capacity 4 asked for 5, for one): the literal code compacts, changes nothing, and leaves fewer than `len` bytes writable. The corrected code grows to exactly `len`. |
| BufferFacts.AsWrittenAgreesWhenFull | buffer/buffer.cpp:122-130 | With nothing writable, as when `ReadFd` appends its overflow, the literal and the corrected arithmetic agree. |
| BufferFacts.AsWrittenShortfall | buffer/buffer.cpp:79-82 | When some but too few bytes were writable and compaction does not cover the rest, the literal code falls short. It leaves exactly `len - writable` bytes writable after growing, or writable + prependable after compacting. |
| BlockQueue.BlockDeque.constructor | log/blockqueue.h:43-49 | Capacity must be positive (default 1000). A new deque is empty and not closed. |
| BlockQueue.BlockDeque.Close | log/blockqueue.h:57-68 | Empties the deque and marks it closed. |
| BlockQueue.BlockDeque.Clear | log/blockqueue.h:70-75 | Empties the deque; the closed flag is kept. |
| BlockQueue.BlockDeque.IsEmpty | log/blockqueue.h:77-82 | True iff no item is queued. |
| BlockQueue.BlockDeque.IsFull | log/blockqueue.h:84-89 | True iff size ≥ capacity, which in a valid deque means size = capacity. |
| BlockQueue.BlockDeque.GetQueueSize | log/blockqueue.h:91-96 | Returns the number of queued items. |
| BlockQueue.BlockDeque.GetCapacity | log/blockqueue.h:98-103 | Returns the capacity. |
| BlockQueue.BlockDeque.GetFront | log/blockqueue.h:105-110 | On a non-empty deque, returns the first item. |
| BlockQueue.BlockDeque.GetBack | log/blockqueue.h:112-117 | On a non-empty deque, returns the last item. |
| BlockQueue.BlockDeque.PushBack | log/blockqueue.h:119-130 | When not full, the items become `q + [x]` and size ≤ capacity is kept. A closed deque still accepts the push. |
| BlockQueue.BlockDeque.PushFront | log/blockqueue.h:132-143 | When not full, the items become `[x] + q` and size ≤ capacity is kept. |
| BlockQueue.BlockDeque.Flush | log/blockqueue.h:187-191 | Wakes a consumer. Its frame is empty, so no state changes. |
| BlockQueue.BlockDeque.PopFront | log/blockqueue.h:145-162 | Returns true iff an item was queued, hands out exactly the old front and removes it. A closed, empty deque gives false and changes nothing. |
| BlockQueue.BlockDeque.PopFrontTimed | log/blockqueue.h:164-185 | Same as `PopFront` on a non-empty deque. An empty deque (timeout or close) gives false and changes nothing. |
| Format.DecimalDigits | log/log.cpp:119-120 | `%d` gives at least one digit, only digits, and a leading zero only for 0. |
| Format.DecimalRoundTrip | log/log.cpp:119-120 | Reading back the digits of `%d` gives the number. |
| Format.DecimalInjective | log/log.cpp:106 | Different numbers print differently. |
| Format.ZeroPaddedShape | log/log.cpp:96 | `%0Nd` gives only digits: the number's digits, padded with zeros to width N. |
| Format.ZeroPaddedRoundTrip | log/log.cpp:96 | Reading back a zero-padded number gives the number. |
| LogRules.Truncated | log/log.cpp:100 | `snprintf` into a bounded buffer keeps a prefix of at most the limit, and the whole text when it fits. |
| LogRules.DateTailReadsBack | log/log.cpp:96 | The date tail is ten characters, `YYYY_MM_DD`. Its fields read back as year (counted from 1900), month + 1 and day. |
| LogRules.DayFileName | log/log.cpp:96-103 | Defines the first file of a day: `<path>/<YYYY_MM_DD><suffix>`, cut to the 183 characters that `snprintf` keeps. |
| LogRules.SeqFileName | log/log.cpp:96-107 | Defines the file of a same-day rotation: `<path>/<YYYY_MM_DD>-<N><suffix>`, cut the same way. |
| LogRules.InitFileNameAsWritten | log/log.cpp:60 | Defines the literal `Init` name: path, then the date with the year from 1990, then the suffix, with no `/`, cut to the 254 characters that `snprintf` keeps. |
| LogRules.InitFileName | log/log.cpp:60 | Defines the corrected `Init` name: the day's file name, cut to the 254 characters that `snprintf` keeps. |
| LogRules.SeqFileNamesDistinct | log/log.cpp:104-107 | Same-day rotations with different sequence numbers open different files when the name fits. |
| LogRules.InitNameAsWrittenMissesDayFile | log/log.cpp:60 | The literal `Init` file name differs from the day's file and from the corrected name: it has a year digit where they have the `/`. |
| LogRules.InitFileNameIsDayFile | log/log.cpp:60 | The corrected `Init` name is the day's file whenever it fits the rotation's name buffer. |
| LogRules.NeedsRotation | log/log.cpp:89 | Defines the rotation test: the day of the month differs from the file's day, or the line count is a non-zero multiple of 50000. |
| LogRules.Rotation | log/log.cpp:89-107 | Defines the rotation: no change without the test; on a new day, the day's file with today's day and count 0; on the same day, the next numbered file with the count kept. |
| LogRules.WriteStep | log/log.cpp:89-118 | Defines one `Write`'s bookkeeping: the rotation, then one more line. |
| LogRules.WriteStepCases | log/log.cpp:89-118 | Per `Write`: no rotation counts one more line in the same file. A new day opens `<path>/<YYYY_MM_DD><suffix>` and restarts the count at 1. A full file on the same day opens `-N` with `N = count / 50000 ≥ 1` and keeps counting. The day always becomes today's. |
| LogRules.DayOfWrites | log/log.cpp:89-118 | After a day change, the k-th write of the day has counted k lines. It goes to the day's file for the first 50000 lines, then to `-1`, `-2`, … for each further 50000. |
| LogRules.LevelTagAsWritten | log/log.cpp:187-206 | Always 9 bytes. DEBUG and ERROR carry no NUL; INFO, WARN and unknown levels end in a NUL. |
| LogRules.LevelTag | log/log.cpp:187-206 | The corrected tag has no NUL and 8 or 9 characters. |
| LogRules.LevelTagIsLiteralText | log/log.cpp:187-206 | The corrected tag is the literal tag's text up to its NUL: INFO, WARN and unknown levels are the literal tag minus its final NUL, DEBUG and ERROR are the literal tag itself. |
| LogRules.Timestamp | log/log.cpp:119-120 | The corrected timestamp (year from 1900) is 19 characters with no NUL, well inside the 128 bytes allowed. |
| LogRules.TimestampReadsBack | log/log.cpp:119-120 | The timestamp is `YYYY-MM-DD hh:mm:ss`: the separators sit at their places, and the six fields are digits that read back as year (from 1900), month + 1, day, hour, minute and second. |
| LogRules.ClockTailReadsBack | log/log.cpp:119-120 | The part after the year, `-MM-DD hh:mm:ss`, has its separators in place and its five fields read back as month + 1, day, hour, minute and second. |
| LogRules.TimestampAsWritten | log/log.cpp:119-120 | Defines the literal timestamp: the year from 1990 in `%d`, then the rest of the clock. |
| LogRules.TimestampAsWrittenYearOff | log/log.cpp:119-120 | The literal timestamp (year from 1990) never equals the corrected one. |
| LogRules.Line | log/log.cpp:116-129 | Defines the assembled line: timestamp, tag, message, then `"\n\0"`. |
| LogRules.CString | log/log.cpp:137 | What `fputs` writes has no NUL and is no longer than the line. |
| LogRules.CStringIsPrefix | log/log.cpp:137 | `fputs` writes a prefix of the line that stops exactly at the first NUL, and the whole line when it has none. |
| LogRules.CStringOfConcat | log/log.cpp:137 | A NUL-free prefix passes through `fputs` unchanged. |
| LogRules.InfoLineLosesMessage | log/log.cpp:187-206 | With the literal 9-byte tags, an INFO, WARN or unknown-level line reaches the file as timestamp and tag only. Its message and newline are lost. |
| LogRules.LineReachesFile | log/log.cpp:116-137 | With the corrected tags, every line reaches the file as timestamp, tag, message and newline. |
| LogRules.Gate | log/log.h:62-70 | Defines the `LOG_BASE` test: the log is open and its level is at most the call's level, with `GetLevel()` called as intended. |
| LogRules.InitQueueAsWritten | log/log.cpp:38-52 | Literal queue set-up. With a positive capacity, no deque and a writer thread already running, the process terminates. With no thread yet, the result is async mode, still no deque and one writer thread, a state in which `Flush` (log.cpp:159) and the writer's `PopFront` (log.cpp:180) dereference the null deque. A non-positive capacity changes nothing. |
| LogRules.InitQueue | log/log.cpp:38-52 | Corrected set-up keeps: async ⇒ deque installed, and one writer thread iff a deque exists. A positive capacity installs a deque; async iff it is new. A non-positive capacity changes nothing. |
| LogRules.InitsAsWrittenOutcome | log/log.cpp:38-52 | Over a sequence of literal `Init` calls: with no positive capacity nothing is set up. With exactly one, the logger is async with no deque and one writer thread, which dereferences the null deque. A second positive capacity terminates the process, and exactly then. |
| Logging.Opened | log/log.cpp:72-79 | `fopen(name, "a")` makes the file exist, with its old text if it had any; no other file changes. |
| Logging.Log.constructor | log/log.cpp:8 | Closed, sync, no deque or thread, counters and level 0. The line buffer and its storage are fresh. |
| Logging.Log.IsOpen | log/log.h:34 | Returns the open flag. |
| Logging.Log.GetLevel | log/log.cpp:165-169 | Returns the level. |
| Logging.Log.SetLevel | log/log.cpp:171-175 | Sets the level. |
| Logging.Log.Flush | log/log.cpp:155-163 | Requires a valid log, so in async mode there is a deque to wake. Its frame is empty: files carry no unflushed text in this model, so no state changes. |
| Logging.Log.Init | log/log.cpp:34-81 | Corrected (`InitQueue`, `InitFileName`). Opens the log: queue set-up as `InitQueue`, level, path, suffix, today's day, count 0, and the day's file opened and current. A new deque is empty, open and of capacity 1000. The line buffer object and its storage are kept. |
| Logging.Log.SetUpQueue | log/log.cpp:38-52 | Corrected (through `InitQueue`): the queue part of `Init`, as `InitQueue`. A newly installed deque is fresh, empty, not closed and of the default capacity 1000 (log/blockqueue.h:18). |
| Logging.Log.Write | log/log.cpp:83-142 | Corrected (`Timestamp`, `LevelTag`). Requires the line to leave two bytes free before the final `Append`. The line buffer's storage stays the same array. The bookkeeping moves as `WriteStep`, the line is timestamp + tag of the logger's level + message + `"\n\0"`. It is queued iff async mode has room in the deque; otherwise its text up to the NUL is appended to the current file. Never dropped. |
| Logging.Log.Rotate | log/log.cpp:89-113 | The bookkeeping rotates as `WriteStep` decides, and the new file is opened. |
| Logging.Log.BuildLine | log/log.cpp:119-129 | Corrected (`Timestamp`, `LevelTag`). Requires the same two free bytes as `Write`. The storage array is kept and the line buffer holds exactly timestamp + tag + message + `"\n\0"`. |
| Logging.Log.Deliver | log/log.cpp:131-138 | The line goes to the back of the deque when async mode has room; otherwise its text up to the first NUL is appended to the current file. |
| Logging.Log.AsyncWrite | log/log.cpp:177-185 | The writer thread empties the deque in order, appending each line's text up to its NUL to the current file. |
| Logging.Log.Shutdown | log/log.cpp:13-32 | With a writer thread, all queued lines reach the file in order and the deque ends empty and closed; otherwise no file changes. |
| Logging.Log.LogBase | log/log.h:62-70 | Corrected, as `Write`, with the same fit requirement. Writes, as `Write` does, exactly when the log is open and its level ≤ the call's level; otherwise nothing changes. |
| Logging.Open | log/log.cpp:34-81 | Corrected (through `InitQueue`, `InitFileName`, `Timestamp`, `LevelTag`): a client opens a new logger with a positive queue capacity: a fresh log with a fresh, empty deque of capacity 1000, async, count 0, and the day's file created empty. |
| Logging.QueueLine | log/log.cpp:83-142 | Corrected (through `InitQueue`, `InitFileName`, `Timestamp`, `LevelTag`): one `Write` to an open async logger whose deque has room, on the day of its file and before the file is full, counts one more line, leaves every file as it was, and queues exactly the assembled line. |
| Logging.QueueTwo | log/log.cpp:83-142 | Corrected (through `InitQueue`, `InitFileName`, `Timestamp`, `LevelTag`): two such writes count two lines, leave the files alone, and queue the two lines in order. |
| Logging.PairReachesFile | log/log.cpp:177-185 | Two NUL-free queued lines reach the file, through `fputs`, as their full texts one after the other. |
| Logging.Session | log/log.cpp:13-142 | Corrected (through `InitQueue`, `InitFileName`, `Timestamp`, `LevelTag`): a client run: construct, `Init`, two `Write`s, destruct. The day's file then holds exactly the two stamped, tagged lines, each ending in a newline, and no other file exists. |
| ConnPool.TakeAsWritten | threadpool/sqlconnpool.cpp:83 | Literal `GetSqlConn`: only the used counter goes up. |
| ConnPool.GiveAsWritten | threadpool/sqlconnpool.cpp:99 | Literal `FreeConn`: only the free counter goes up. |
| ConnPool.Take | threadpool/sqlconnpool.cpp:81-83 | Corrected: one connection moves from free to used; the total is kept. |
| ConnPool.Give | threadpool/sqlconnpool.cpp:98-99 | Corrected: one connection moves from used to free; the total is kept. |
| ConnPool.TakeGiveKeepAccounts | threadpool/sqlconnpool.h:30-32 | The corrected counters keep "free = pooled and free + used = made" through a take and a give, and undo each other. |
| ConnPool.TakeGiveAsWrittenDrifts | threadpool/sqlconnpool.h:30-32 | Literal counters: a take then a give counts one more free connection than the pool holds, and the counted total exceeds those made by two. |
| ConnPool.RoundsAsWrittenDrift | threadpool/sqlconnpool.h:31-32 | After k take-and-give rounds, the literal free and used counters have both grown by k. They only ever go up. |
| ConnPool.SqlConnPool.constructor | threadpool/sqlconnpool.cpp:9 | Empty pool, all counters and the semaphore at 0: balanced. |
| ConnPool.SqlConnPool.Init | threadpool/sqlconnpool.cpp:19-48 | The handles are pooled in creation order. Semaphore, maximum and free count equal `connNum`. On an empty pool the result is balanced. |
| ConnPool.SqlConnPool.GetSqlConn | threadpool/sqlconnpool.cpp:69-87 | Corrected (`Take`). An empty pool returns null and changes nothing. Otherwise it returns and removes the front handle, decrements the semaphore, and moves one connection to used. Balance is kept, so the semaphore is positive whenever a handle is pooled. |
| ConnPool.SqlConnPool.FreeConn | threadpool/sqlconnpool.cpp:89-104 | Corrected (`Give`). Null is ignored. Otherwise the handle goes to the back, the semaphore goes up, and one connection moves to free; balance is kept. |
| ConnPool.SqlConnPool.GetFreeConnCount | threadpool/sqlconnpool.cpp:106-110 | Returns the queue length; in a balanced pool that equals the free counter and the semaphore. |
| ConnPool.SqlConnPool.Close | threadpool/sqlconnpool.cpp:50-61 | Closes every pooled handle exactly once, front first, and empties the queue. |
| ConnPool.Session | threadpool/sqlconnpool.cpp:19-104 | Corrected (through `Take` and `Give`): a client run: `Init` with two connections, `GetSqlConn`, `FreeConn` of what it returned, `Close`. The first connection is handed out and goes back behind the second; the counters end balanced (2 made, 2 free, 0 used), and closing closes the second connection, then the first. |
| ConnPool.Drive | threadpool/sqlconnpool.cpp:69-104 | Any sequence of `GetSqlConn` and `FreeConn` calls on a pool object, with the semaphore counting the pooled connections, leaves the pool and the connections handed out exactly as `Replay` says. The semaphore still counts the pooled connections afterwards. So `ReplayConserves` holds of the object. |
| ConnPool.ReplayConserves | threadpool/sqlconnpool.h:34 | FIFO leasing with nothing lost or duplicated: handed-out handles then still-pooled ones equal initially pooled ones then given-back ones, in order. |

## Left out

- threadpool/threadpool.h and threadpool/sqlconnRAII.h are not part of this model. The first is a thread pool of detached workers; the second is a scope guard around `GetSqlConn`/`FreeConn`.
- Threads, mutexes, condition variables and semaphore waits are not modelled.
  - A wait becomes a precondition: not full for a push, an item or a closed deque for `PopFront`, a positive semaphore for `GetSqlConn`.
  - `BlockDeque.Flush` and `Log.Flush` wake a waiting thread and have no modelled effect.
- `Logging.Log.AsyncWrite`: the loop ends when the deque is empty, where the writer thread would wait for more lines.
- The `Log::Instance()` and `SqlConnPool::Instance()` singletons are left out; each model class is constructed directly.
- File I/O (`fopen`, `fputs`, `fflush`, `fclose`, `mkdir`) is a map from names to text. `fopen` always succeeds, so the `mkdir` retry is not modelled.
- The clock (`time`, `localtime`) is a parameter with `localtime`'s field ranges and a four-digit year.
- Message formatting with `va_list` is not modelled; `Write` takes the formatted message text.
- Logging.Log.Write: requires the timestamp, tag and message to leave at least two bytes of the line buffer free. The truncation `snprintf` applies to a longer message, and the cursor overrun that follows at log.cpp:126-127, are not modelled. Nor is a line that leaves exactly one byte free. There the final `Append("\n\0", 2)` reaches the literal `SetEnsureWritable(2)`, which calls `MakeSpace(1)` (buffer/buffer.cpp:79). That compacts and leaves one writable byte, so the assertion at buffer.cpp:82 fails, or without assertions the copy runs one byte past the storage (see the buffer.cpp:79 row under "## Findings").
- Logging.Log.BuildLine: the same fit requirement as `Write`, for the same reason.
- Logging.Log.LogBase: the same fit requirement as `Write`, for the same reason.
- Logging.Log.Write: requires an open log, because the source dereferences the unset file before `Init`.
- ByteBuffer.Buffer.RefreshWritePos: requires `len <= writable` in place of the source's `assert(len < 0)`, which no `size_t` satisfies.
- ByteBuffer.Buffer.WriteFd: handles only counts `n ≥ 0`. A failed `write`, which the source passes as a negative length to `Retrieve`, is not modelled.
- ByteBuffer.Buffer.ReadFd: the `*error = error` pointer assignment is modelled as returning the error code. The `readv` call itself is a parameter.
- ByteBuffer.Buffer.AppendBuffer: requires a different buffer; appending a buffer to itself is not modelled.
- Integers are unbounded. `int` overflow of the line counter and the pool counters is not modelled, and neither is `size_t` wrap-around.
- MySQL calls (`mysql_init`, `mysql_real_connect`, `mysql_close`, `mysql_library_end`) are not modelled. Connections are opaque handles passed to `Init`, every open succeeds, and closing is recorded in `closedHandles`.
- The `LOG_ERROR`/`LOG_WARN` calls inside the pool are not modelled.
- ConnPool.SqlConnPool.constructor: sets the semaphore to 0. In the source, `m_sem` has no value until `sem_init` in `Init` (threadpool/sqlconnpool.cpp:45).
- ByteBuffer.Buffer.constructor: sets the write cursor to 0. The source leaves the atomic `m_write_pos` uninitialised (buffer/buffer.cpp:8), so its first value is indeterminate.
- BlockQueue.BlockDeque.PopFront: on a deque that is already closed and empty, returns false at once. The source checks `m_close` only after a wait (log/blockqueue.h:151-152), so such a call blocks until another push or close wakes it.

## Findings

| source | as written | input that shows it | evidently intended | confidence | as-written member | corrected member |
|---|---|---|---|---|---|---|
| buffer/buffer.cpp:79 | `SetEnsureWritable` asks `MakeSpace` for `len - writable` bytes, so the assertion at line 82 can fail | an empty buffer of capacity 4 asked to take 5 bytes: it compacts, and 4 bytes stay writable | `MakeSpace(len)`, which always leaves `len` bytes writable | high, not executed | BufferFacts.FreshBufferShortfall | ByteBuffer.EnsureWritablePlan |
| log/log.cpp:187-206 | `[INFO]: ` and `[WARN]: ` are appended with length 9, so their NUL goes into the line, and `fputs` (log.cpp:137 in sync mode, log.cpp:183 in async mode) stops there | any `LOG_INFO` or `LOG_WARN` call in either mode: only timestamp and tag reach the file | append the tag's own characters only | high, not executed | LogRules.InfoLineLosesMessage | LogRules.LineReachesFile |
| log/log.cpp:43-44 | the new deque is moved into itself and never stored, yet async mode is set and a writer thread starts; the writer's `PopFront` (line 180) and `Flush` (line 159) then dereference the null deque, and a second `Init` with a positive capacity move-assigns over the running thread at line 46, which terminates the process | `Init` with the default capacity 1024 | store the deque in `m_block_deque` | high, not executed | LogRules.InitsAsWrittenOutcome | LogRules.InitQueue |
| log/log.cpp:60 | `Init`'s file name has no `/` after the path and counts the year from 1990 | `Init(0, "./log", ".log")` in 2026 opens `./log2116_MM_DD.log` instead of `./log/2026_MM_DD.log` | `<path>/<YYYY_MM_DD><suffix>` with the year from 1900, the day's file | high, not executed | LogRules.InitNameAsWrittenMissesDayFile | LogRules.InitFileNameIsDayFile |
| log/log.cpp:119-120 | the timestamp counts the year from 1990 | any date: every line shows a year 90 too high | year from 1900 | high, not executed | LogRules.TimestampAsWrittenYearOff | LogRules.Timestamp |
| threadpool/sqlconnpool.cpp:83 | `GetSqlConn` does not decrement the free counter, and `FreeConn` (line 99) does not decrement the used counter | a pool of one: take and give back the connection; free count 2, used count 1, one connection made | take moves one connection from free to used, give moves it back | medium, not executed | ConnPool.TakeGiveAsWrittenDrifts | ConnPool.TakeGiveKeepAccounts |
