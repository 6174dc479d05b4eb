/** The logger object of log/log.h and log/log.cpp: its bookkeeping, the
    line it assembles in its `Buffer`, and where each line goes (straight
    into the current file, or into the deque that the writer thread drains).
    Files are a map from name to the text written into them; the clock is a
    parameter. The model uses the corrected naming, timestamp, tag and queue
    set-up of `LogRules`. */
module Logging {
  import opened Common
  import opened LogRules
  import opened ByteBuffer
  import opened BlockQueue

  /** `fopen(name, "a")`: the file exists afterwards, with its old text if
      it existed. */
  function Opened(files: map<string, string>, name: string): (r: map<string, string>)
    ensures name in r && r.Keys == files.Keys + {name}
    ensures name in files ==> r == files
    ensures name !in files ==> r[name] == []
    ensures forall other :: other in files ==> r[other] == files[other]
  {
    if name in files then files else files[name := []]
  }

  /** The text `fputs` writes for each queued line, in queue order. */
  function Emitted(lines: seq<seq<char>>): string
  {
    if lines == [] then [] else Emitted(lines[..|lines| - 1]) + CString(lines[|lines| - 1])
  }

  /** Two queued lines come out as the text of the first, then the second. */
  lemma EmittedPair(a: seq<char>, b: seq<char>)
    ensures Emitted([a, b]) == CString(a) + CString(b)
  {
    assert [a, b][..1] == [a] && [a][..0] == [];
    assert Emitted([a]) == [] + CString(a);
  }

  class Log {
    var path: string
    var suffix: string
    var lineCount: nat
    var today: int
    var level: int
    var isOpen: bool
    var isAsync: bool
    var buff: Buffer
    /** The name of the open file; meaningful once the log is open. */
    var fileName: string
    /** Every file: name to the text written into it. */
    var files: map<string, string>
    var deque: BlockDeque?<string>
    /** Writer threads started so far. */
    var writerThreads: nat

    /** Between calls the line buffer is empty and at least its default
        size; a writer thread exists exactly when a deque is installed, only
        after `Init`, and async mode has a deque to queue into. */
    ghost predicate Valid()
      reads this, buff, deque
    {
      buff.Valid() && buff.readPos == 0 && buff.writePos == 0 &&
      buff.buf.Length >= DEFAULT_BUFFER_SIZE &&
      (deque != null ==> deque.Valid() && isOpen) &&
      (isAsync ==> deque != null) &&
      writerThreads == (if deque != null then 1 else 0) &&
      (isOpen ==> fileName in files)
    }

    /** The state `Write` keeps between calls. */
    function Book(): Bookkeeping
      reads this
    {
      Bookkeeping(today, lineCount, fileName)
    }

    /** The queue-related state `Init` sets up. */
    function Setup(): QueueSetup
      reads this
    {
      QueueSetup(isAsync, deque != null, writerThreads)
    }

    /** Whether `Write` queues its line rather than writing it itself. */
    predicate Queues()
      reads this, deque
    {
      isAsync && deque != null && |deque.items| < deque.capacity
    }

    /** The installed deque, if any. */
    function Deques(): set<BlockDeque<string>>
      reads this
    {
      if deque != null then {deque} else {}
    }

    /** The queued lines; none without a deque. */
    function Queued(): seq<string>
      reads this, deque
    {
      if deque != null then deque.items else []
    }

    /** How a line was handed on, from the files `before` and the queued
        lines `queued`: to the back of the deque when `queues`, otherwise
        its text up to the first NUL onto the end of the current file. */
    ghost predicate Delivered(before: map<string, string>, queued: seq<string>, queues: bool, line: seq<char>)
      reads this, deque
    {
      if queues then
        Queued() == queued + [line] && files == before
      else
        fileName in before &&
        files == before[fileName := before[fileName] + CString(line)] && Queued() == queued
    }

    /** The private constructor of the singleton; `disk` is the files that
        already exist. */
    constructor (disk: map<string, string>)
      ensures Valid() && fresh(buff) && fresh(buff.buf)
      ensures !isOpen && !isAsync && deque == null && writerThreads == 0
      ensures lineCount == 0 && today == 0 && level == 0 && files == disk
    {
      path := [];
      suffix := [];
      lineCount := 0;
      today := 0;
      level := 0;
      isOpen := false;
      isAsync := false;
      buff := new Buffer();
      fileName := [];
      files := disk;
      deque := null;
      writerThreads := 0;
    }

    /** `m_buff.Clear()`: both cursors back to the start and the storage
        zeroed. */
    method ClearLine()
      requires buff.Valid()
      modifies buff`readPos, buff`writePos, buff.buf
      ensures buff.Valid() && buff.readPos == 0 && buff.writePos == 0
      ensures AllNul(buff.buf[..])
    {
      buff.Clear();
    }

    method IsOpen() returns (open: bool)
      ensures open == isOpen
    {
      open := isOpen;
    }

    method GetLevel() returns (l: int)
      ensures l == level
    {
      l := level;
    }

    method SetLevel(l: int)
      modifies this`level
      ensures level == l
    {
      level := l;
    }

    /** Wakes the writer thread in async mode, then flushes the file; the
        file model has no unflushed text, so nothing changes. */
    method Flush()
      requires Valid()
    {
      if isAsync {
        deque.Flush();
      }
    }

    /** Opens the log: sets the level, sets up the queue (a deque of the
        default capacity and one writer thread, the first time a positive
        capacity is given), resets the line count, and opens the day's file
        under `logPath`. */
    method Init(now: Tm, newLevel: int := LL_DEBUG, logPath: string := DEFAULT_PATH,
                logSuffix: string := DEFAULT_SUFFIX, maxQueueCapacity: int := DEFAULT_QUEUE_CAPACITY)
      requires Valid() && ValidTm(now)
      modifies this, buff, buff.buf
      ensures Valid() && isOpen && buff == old(buff) && buff.buf == old(buff.buf)
      ensures Setup() == InitQueue(old(Setup()), maxQueueCapacity)
      ensures old(deque) != null ==> deque == old(deque)
      ensures deque != null && old(deque) == null ==>
        fresh(deque) && deque.items == [] && deque.capacity == DEFAULT_DEQUE_CAPACITY && !deque.closed
      ensures level == newLevel && path == logPath && suffix == logSuffix
      ensures Book() == Bookkeeping(now.mday, 0, InitFileName(logPath, logSuffix, now))
      ensures files == Opened(old(files), InitFileName(logPath, logSuffix, now))
    {
      ClearLine();
      Configure(now, newLevel, logPath, logSuffix, maxQueueCapacity);
    }

    /** The fields `Init` sets, in its order: open flag, level, queue,
        line count, path and suffix, day, and the opened file. */
    method Configure(now: Tm, newLevel: int, logPath: string, logSuffix: string, maxQueueCapacity: int)
      requires ValidTm(now) && (deque != null ==> deque.Valid() && isOpen)
      requires (isAsync ==> deque != null) && writerThreads == (if deque != null then 1 else 0)
      modifies this`isOpen, this`level, this`isAsync, this`deque, this`writerThreads
      modifies this`lineCount, this`path, this`suffix, this`today, this`fileName, this`files
      ensures isOpen && fileName in files
      ensures deque != null ==> deque.Valid()
      ensures (isAsync ==> deque != null) && writerThreads == (if deque != null then 1 else 0)
      ensures buff == old(buff)
      ensures Setup() == InitQueue(old(Setup()), maxQueueCapacity)
      ensures old(deque) != null ==> deque == old(deque)
      ensures deque != null && old(deque) == null ==>
        fresh(deque) && deque.items == [] && deque.capacity == DEFAULT_DEQUE_CAPACITY && !deque.closed
      ensures level == newLevel && path == logPath && suffix == logSuffix
      ensures Book() == Bookkeeping(now.mday, 0, InitFileName(logPath, logSuffix, now))
      ensures files == Opened(old(files), InitFileName(logPath, logSuffix, now))
    {
      isOpen := true;
      level := newLevel;
      SetUpQueue(maxQueueCapacity);
      StartFile(now, logPath, logSuffix);
    }

    /** The file part of `Init`: a new line count, the path and suffix, the
        day, and the day's file opened. */
    method StartFile(now: Tm, logPath: string, logSuffix: string)
      requires ValidTm(now)
      modifies this`lineCount, this`path, this`suffix, this`today, this`fileName, this`files
      ensures path == logPath && suffix == logSuffix && fileName in files
      ensures Book() == Bookkeeping(now.mday, 0, InitFileName(logPath, logSuffix, now))
      ensures files == Opened(old(files), InitFileName(logPath, logSuffix, now))
    {
      lineCount := 0;
      path := logPath;
      suffix := logSuffix;
      today := now.mday;
      OpenFile(InitFileName(logPath, logSuffix, now));
    }

    /** `fopen(name, "a")` as the current file. */
    method OpenFile(name: string)
      modifies this`fileName, this`files
      ensures fileName == name && files == Opened(old(files), name)
    {
      fileName := name;
      files := Opened(files, name);
    }

    /** Corrected (through `InitQueue`): the queue part of `Init`: a positive capacity switches to async
        mode with a new deque of the default capacity and a writer thread
        when none is installed yet, and back to sync mode when one is. */
    method SetUpQueue(maxQueueCapacity: int)
      requires isOpen && (deque != null ==> deque.Valid())
      requires (isAsync ==> deque != null) && writerThreads == (if deque != null then 1 else 0)
      modifies this`isAsync, this`deque, this`writerThreads
      ensures deque != null ==> deque.Valid()
      ensures Setup() == InitQueue(old(Setup()), maxQueueCapacity)
      ensures old(deque) != null ==> deque == old(deque)
      ensures deque != null && old(deque) == null ==>
        fresh(deque) && deque.items == [] && deque.capacity == DEFAULT_DEQUE_CAPACITY && !deque.closed
    {
      if maxQueueCapacity > 0 {
        isAsync := true;
        if deque == null {
          deque := new BlockDeque<string>();
          writerThreads := writerThreads + 1;
        } else {
          isAsync := false;
        }
      }
    }

    /** Appends one line for a message already formatted into `message`:
        rotates the file if the day changed or the current file is full,
        counts the line, assembles timestamp, the logger's level tag, the
        message and `"\n\0"` in the line buffer, then queues the line when
        async mode has room in the deque and otherwise writes it into the
        current file up to its first NUL. The `level` argument selects
        nothing here: the tag is that of the logger's own level. */
    method Write(level: int, message: string, now: Tm)
      requires Valid() && isOpen && ValidTm(now)
      requires |Timestamp(now)| + |LevelTag(this.level)| + |message| < buff.buf.Length - 1
      modifies this`today, this`lineCount, this`fileName, this`files, buff, buff.buf, Deques()`items
      ensures Valid() && buff.buf == old(buff.buf)
      ensures Book() == WriteStep(old(Book()), path, suffix, now)
      ensures Delivered(Opened(old(files), fileName), old(Queued()), old(Queues()),
                        Line(Timestamp(now), LevelTag(this.level), message))
    {
      Advance(now);
      Emit(Timestamp(now), LevelTag(this.level), message);
    }

    /** The bookkeeping part of `Write`: rotate when needed, then count the
        line. */
    method Advance(now: Tm)
      requires Valid() && isOpen && ValidTm(now)
      modifies this`today, this`lineCount, this`fileName, this`files
      ensures Valid()
      ensures Book() == WriteStep(old(Book()), path, suffix, now)
      ensures files == Opened(old(files), fileName)
      ensures Queued() == old(Queued()) && Queues() == old(Queues())
    {
      Rotate(now);
      lineCount := lineCount + 1;
    }

    /** The output part of `Write`: assembles the line in the line buffer,
        hands it on, and clears the buffer again. */
    method Emit(timestamp: string, tag: string, message: string)
      requires Valid() && isOpen
      requires 0 < |tag| && |timestamp| + |tag| + |message| < buff.buf.Length - 1
      modifies this`files, buff, buff.buf, Deques()`items
      ensures Valid() && buff.buf == old(buff.buf)
      ensures Delivered(old(files), old(Queued()), old(Queues()), Line(timestamp, tag, message))
    {
      BuildLine(timestamp, tag, message);
      Deliver(Line(timestamp, tag, message));
      ClearLine();
    }

    /** The rotation part of `Write`: when the day changed or the current
        file holds a multiple of `LOG_MAX_LINES` lines, flush and close the
        current file and open the next one. */
    method Rotate(now: Tm)
      requires Valid() && isOpen && ValidTm(now)
      modifies this`today, this`lineCount, this`fileName, this`files
      ensures Valid()
      ensures Book() == Rotation(old(Book()), path, suffix, now)
      ensures files == Opened(old(files), fileName)
    {
      if NeedsRotation(today, lineCount, now.mday) {
        Flush();
        if today != now.mday {
          StartDay(now);
        } else {
          NextPart(now);
        }
      }
    }

    /** A new day: the day's file, and the line count starts again. */
    method StartDay(now: Tm)
      requires ValidTm(now)
      modifies this`today, this`lineCount, this`fileName, this`files
      ensures Book() == Bookkeeping(now.mday, 0, DayFileName(path, suffix, now))
      ensures files == Opened(old(files), fileName)
    {
      var newName := DayFileName(path, suffix, now);
      today := now.mday;
      lineCount := 0;
      OpenFile(newName);
    }

    /** The same day with a full file: the next numbered file, and the line
        count goes on. */
    method NextPart(now: Tm)
      requires ValidTm(now)
      modifies this`fileName, this`files
      ensures Book() == old(Book()).(file := SeqFileName(path, suffix, now, lineCount / LOG_MAX_LINES))
      ensures files == Opened(old(files), fileName)
    {
      OpenFile(SeqFileName(path, suffix, now, lineCount / LOG_MAX_LINES));
    }

    /** The end of `Write`: the assembled line goes to the deque when async
        mode has room in it, and otherwise into the current file up to its
        first NUL. */
    method Deliver(ghost line: seq<char>)
      requires buff.Valid() && buff.Contents() == line
      requires isOpen && fileName in files && (deque != null ==> deque.Valid())
      modifies this`files, buff, buff.buf, Deques()`items
      ensures buff.Valid() && buff.buf == old(buff.buf)
      ensures deque != null ==> deque.Valid()
      ensures Delivered(old(files), old(Queued()), old(Queues()), line)
    {
      var full := true;
      if deque != null {
        full := deque.IsFull();
      }
      if isAsync && deque != null && !full {
        var s := buff.RetrieveToStr();
        deque.PushBack(s);
      } else {
        files := files[fileName := files[fileName] + CString(buff.Contents())];
      }
    }

    /** Assembles `timestamp`, `tag`, `message` and `"\n\0"` in the empty
        line buffer: the timestamp and the message are printed in place and
        the cursor advanced over them, the tag and the end appended. */
    method BuildLine(timestamp: string, tag: string, message: string)
      requires buff.Valid() && buff.readPos == 0 && buff.writePos == 0
      requires buff.buf.Length >= DEFAULT_BUFFER_SIZE
      requires 0 < |tag| && |timestamp| + |tag| + |message| < buff.buf.Length - 1
      modifies buff, buff.buf
      ensures buff == old(buff) && buff.Valid() && buff.buf.Length >= DEFAULT_BUFFER_SIZE
      ensures buff.buf == old(buff.buf)
      ensures buff.Contents() == Line(timestamp, tag, message)
    {
      buff.CopyAt(buff.writePos, timestamp + [NUL]);
      assert buff.buf[..|timestamp|] == timestamp;
      buff.RefreshWritePos(|timestamp|);
      assert buff.Contents() == timestamp;
      buff.Append(Some(tag));
      assert buff.Contents() == timestamp + tag;
      PrintMessage(message);
      buff.Append(Some(['\n', NUL]));
    }

    /** `snprintf` of the message at the write cursor, then the cursor moved
        over it. */
    method PrintMessage(message: string)
      requires buff.Valid() && buff.writePos + |message| < buff.buf.Length
      modifies buff`writePos, buff.buf
      ensures buff.Valid() && buff.Contents() == old(buff.Contents()) + message
      ensures buff.readPos == old(buff.readPos)
      ensures buff.writePos == old(buff.writePos) + |message|
    {
      ghost var before := buff.Contents();
      var at := buff.writePos;
      buff.CopyAt(at, message + [NUL]);
      assert buff.buf[buff.readPos..at] == before;
      assert buff.buf[at..at + |message|] == message;
      buff.RefreshWritePos(|message|);
    }

    /** The writer thread: takes lines off the deque in order and writes
        each into the current file up to its first NUL. The loop ends where
        the thread would wait on the empty deque. */
    method AsyncWrite()
      requires Valid() && deque != null
      modifies this`files, Deques()`items
      ensures Valid() && deque.items == [] && deque.closed == old(deque.closed)
      ensures files == old(files)[fileName := old(files[fileName]) + Emitted(old(deque.items))]
    {
      ghost var queued := deque.items;
      ghost var k := 0;
      var str := [];
      assert queued[..0] == [];
      assert fileName in files && files[fileName] + [] == files[fileName];
      assert files == old(files)[fileName := old(files[fileName]) + []];
      while deque.items != []
        invariant deque.Valid() && 0 <= k <= |queued| && deque.items == queued[k..]
        invariant deque.closed == old(deque.closed)
        invariant files == old(files)[fileName := old(files[fileName]) + Emitted(queued[..k])]
        decreases |deque.items|
      {
        var ok;
        ok, str := deque.PopFront(str);
        assert files[fileName] == old(files[fileName]) + Emitted(queued[..k]);
        assert str == queued[k];
        assert queued[..k + 1][..k] == queued[..k];
        assert Emitted(queued[..k + 1]) == Emitted(queued[..k]) + CString(queued[k]);
        files := files[fileName := files[fileName] + CString(str)];
        assert files[fileName] == old(files[fileName]) + Emitted(queued[..k + 1]);
        k := k + 1;
      }
      assert queued[..k] == queued;
    }

    /** The destructor: with a writer thread, waits until it has drained
        the deque, closes the deque and joins the thread; then flushes and
        closes the file. */
    method Shutdown()
      requires Valid()
      modifies this`files, Deques()`items, Deques()`closed
      ensures Valid()
      ensures deque != null ==> (deque.items == [] && deque.closed &&
        files == old(files)[fileName := old(files[fileName]) + Emitted(old(deque.items))])
      ensures deque == null ==> files == old(files)
    {
      if deque != null {
        AsyncWrite();
        deque.Close();
      }
      Flush();
    }

    /** `LOG_BASE`: a call of level `callLevel` is written, and the file
        flushed, only when the log is open and its level is at most
        `callLevel`; otherwise nothing changes. */
    method LogBase(callLevel: int, message: string, now: Tm)
      requires Valid() && ValidTm(now)
      requires |Timestamp(now)| + |LevelTag(level)| + |message| < buff.buf.Length - 1
      modifies this`today, this`lineCount, this`fileName, this`files, buff, buff.buf, Deques()`items
      ensures Valid() && buff.buf == old(buff.buf)
      ensures !Gate(old(isOpen), old(level), callLevel) ==>
        Book() == old(Book()) && files == old(files) && (deque != null ==> deque.items == old(deque.items))
      ensures Gate(old(isOpen), old(level), callLevel) ==>
        Book() == WriteStep(old(Book()), path, suffix, now) &&
        Delivered(Opened(old(files), fileName), old(Queued()), old(Queues()),
                  Line(Timestamp(now), LevelTag(level), message))
    {
      var open := IsOpen();
      var threshold := GetLevel();
      if open && threshold <= callLevel {
        Write(callLevel, message, now);
        Flush();
      }
    }
  }

  /** Corrected (through `InitQueue`, `InitFileName`, `Timestamp`, `LevelTag`): a whole session of the logger: constructed over no files, opened at
      level `threshold` under `logPath` with the default queue capacity
      (async, with a new deque), two lines written at other levels, then
      destroyed. Both lines wait in the deque and reach the day's file in
      order, each in full and tagged with the logger's own level. */
  method Session(now: Tm, threshold: int, logPath: string, logSuffix: string, first: string, second: string)
    returns (log: Log)
    requires ValidTm(now) && NUL !in first && NUL !in second && |first| < 900 && |second| < 900
    ensures log.fileName == InitFileName(logPath, logSuffix, now)
    ensures log.files == map[log.fileName := Timestamp(now) + LevelTag(threshold) + first + "\n" +
                                             Timestamp(now) + LevelTag(threshold) + second + "\n"]
  {
    log := Open(now, threshold, logPath, logSuffix);
    QueueTwo(log, first, second, now);
    log.Shutdown();
    PairReachesFile(Timestamp(now), LevelTag(threshold), first, second);
  }

  /** Corrected (through `InitQueue`, `InitFileName`, `Timestamp`, `LevelTag`): two writes on a freshly opened async logger, at levels above and
      further above its own: both lines are queued, in order, and no file
      changes. */
  method QueueTwo(log: Log, first: string, second: string, now: Tm)
    requires log.Valid() && log.isOpen && ValidTm(now) && log.Queues() && log.Queued() == []
    requires log.deque.capacity == DEFAULT_DEQUE_CAPACITY
    requires log.today == now.mday && log.lineCount == 0
    requires |first| < 900 && |second| < 900
    modifies log`today, log`lineCount, log`fileName, log`files, log.buff, log.buff.buf, log.Deques()`items
    ensures log.Valid() && log.buff.buf == old(log.buff.buf)
    ensures log.Book() == old(log.Book()).(lineCount := 2) && log.files == old(log.files)
    ensures log.Queued() == [Line(Timestamp(now), LevelTag(log.level), first),
                             Line(Timestamp(now), LevelTag(log.level), second)]
  {
    QueueLine(log, log.level + 1, first, now);
    QueueLine(log, log.level + 2, second, now);
  }

  /** Corrected (through `InitQueue`, `InitFileName`, `Timestamp`, `LevelTag`): one `Write` on a logger in async mode with room in its deque, on the
      day of its file and before the file is full: the line is queued, no
      file changes, and the line count goes up by one. */
  method QueueLine(log: Log, level: int, message: string, now: Tm)
    requires log.Valid() && log.isOpen && ValidTm(now) && log.Queues()
    requires log.today == now.mday && log.lineCount < LOG_MAX_LINES
    requires |message| < 900
    modifies log`today, log`lineCount, log`fileName, log`files, log.buff, log.buff.buf, log.Deques()`items
    ensures log.Valid() && log.buff.buf == old(log.buff.buf)
    ensures log.Book() == old(log.Book()).(lineCount := old(log.lineCount) + 1) && log.files == old(log.files)
    ensures log.Queued() == old(log.Queued()) + [Line(Timestamp(now), LevelTag(log.level), message)]
  {
    WriteStepCases(log.Book(), log.path, log.suffix, now);
    log.Write(level, message, now);
  }

  /** Corrected (through `InitQueue`, `InitFileName`, `Timestamp`, `LevelTag`): a new logger over no files, opened at level `threshold` under
      `logPath` with the default queue capacity: async with an empty deque,
      and the day's file empty. */
  method Open(now: Tm, threshold: int, logPath: string, logSuffix: string) returns (log: Log)
    requires ValidTm(now)
    ensures fresh(log) && fresh(log.buff) && fresh(log.buff.buf) && fresh(log.deque)
    ensures log.Valid() && log.isOpen && log.level == threshold && log.path == logPath && log.suffix == logSuffix
    ensures log.Book() == Bookkeeping(now.mday, 0, InitFileName(logPath, logSuffix, now))
    ensures log.files == map[InitFileName(logPath, logSuffix, now) := []]
    ensures log.Queues() && log.Queued() == [] && log.deque.capacity == DEFAULT_DEQUE_CAPACITY
  {
    log := new Log(map[]);
    log.Init(now, threshold, logPath, logSuffix);
  }

  /** The text the writer thread puts into the file for two lines with
      clean parts: each line in full, first the first. */
  lemma PairReachesFile(stamp: string, tag: string, first: string, second: string)
    requires NUL !in stamp && NUL !in tag && NUL !in first && NUL !in second
    ensures [] + Emitted([Line(stamp, tag, first), Line(stamp, tag, second)]) ==
      stamp + tag + first + "\n" + stamp + tag + second + "\n"
  {
    EmittedPair(Line(stamp, tag, first), Line(stamp, tag, second));
    LineOfCleanParts(stamp, tag, first);
    LineOfCleanParts(stamp, tag, second);
  }
}
