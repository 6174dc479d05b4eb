/** The pure rules of the logger (log/log.h, log/log.cpp): levels and their
    tags, the level gate of the `LOG_*` macros, file naming, the rotation
    decision, the assembled line, and what `fputs` makes of it. */
module LogRules {
  import opened Common
  import opened Format

  // ---------------------------------------------------------------------
  // Constants.
  // ---------------------------------------------------------------------

  /** The four levels of the `LOG_LEVEL` enum. */
  const LL_DEBUG: int := 0
  const LL_INFO: int := 1
  const LL_WARN: int := 2
  const LL_ERROR: int := 3

  const LOG_NAME_LEN: nat := 256
  /** Lines per file before a same-day rotation. */
  const LOG_MAX_LINES: nat := 50000

  /** `Init` defaults. */
  const DEFAULT_PATH: string := "./log"
  const DEFAULT_SUFFIX: string := ".log"
  const DEFAULT_QUEUE_CAPACITY: int := 1024

  /** Characters a rotated file name keeps: `snprintf` is given
      `LOG_NAME_LEN - 72` bytes, one of them for the terminating NUL. */
  const ROTATED_NAME_MAX: nat := LOG_NAME_LEN - 72 - 1
  /** Characters `Init`'s file name keeps (`LOG_NAME_LEN - 1` bytes). */
  const INIT_NAME_MAX: nat := LOG_NAME_LEN - 1 - 1
  /** Bytes `Write` lets the timestamp print take in the line buffer;
      `Timestamp` always fits, so the print is never cut short. */
  const TIMESTAMP_LIMIT: nat := 128

  // ---------------------------------------------------------------------
  // The clock, as `localtime` breaks it down.
  // ---------------------------------------------------------------------

  /** `struct tm`: `year` counts from 1900, `mon` from 0. */
  datatype Tm = Tm(year: nat, mon: nat, mday: nat, hour: nat, min: nat, sec: nat)

  /** The ranges `localtime` produces, for years before 10000. */
  predicate ValidTm(t: Tm)
  {
    t.year + 1900 < 10000 && t.mon < 12 && 1 <= t.mday <= 31 &&
    t.hour < 24 && t.min < 60 && t.sec <= 60
  }

  /** `snprintf` into a buffer that keeps `limit` characters. */
  function Truncated(s: string, limit: nat): (r: string)
    ensures |r| <= limit && |r| <= |s| && r == s[..|r|]
    ensures |s| <= limit ==> r == s
    ensures |s| > limit ==> |r| == limit
  {
    if |s| <= limit then s else s[..limit]
  }

  /** `%02d` of a field below 100 is exactly two digits. */
  lemma TwoDigits(n: nat)
    requires n < 100
    ensures |ZeroPadded(n, 2)| == 2 && AllDigits(ZeroPadded(n, 2)) && NUL !in ZeroPadded(n, 2)
  {
    ZeroPaddedShape(n, 2);
    DecimalBelowPower(n, 2);
    DigitsHaveNoNul(ZeroPadded(n, 2));
  }

  /** `%04d_%02d_%02d` of the date, with the year counted from 1900. */
  function DateTail(t: Tm): string
    requires ValidTm(t)
  {
    ZeroPadded(t.year + 1900, 4) + "_" + ZeroPadded(t.mon + 1, 2) + "_" + ZeroPadded(t.mday, 2)
  }

  /** The date tail is ten characters, `YYYY_MM_DD`, and its three fields
      read back as the year, the month counted from 1 and the day. */
  lemma DateTailReadsBack(t: Tm)
    requires ValidTm(t)
    ensures var r := DateTail(t);
      |r| == 10 && r[4] == '_' && r[7] == '_' &&
      AllDigits(r[..4]) && AllDigits(r[5..7]) && AllDigits(r[8..]) &&
      Value(r[..4]) == t.year + 1900 && Value(r[5..7]) == t.mon + 1 && Value(r[8..]) == t.mday
  {
    var y, m, d := ZeroPadded(t.year + 1900, 4), ZeroPadded(t.mon + 1, 2), ZeroPadded(t.mday, 2);
    DateFields(t);
    Joined(y, m, d);
    assert DateTail(t) == y + "_" + m + "_" + d;
  }

  /** Each field of the date prints in its width and reads back. */
  lemma DateFields(t: Tm)
    requires ValidTm(t)
    ensures |ZeroPadded(t.year + 1900, 4)| == 4 && AllDigits(ZeroPadded(t.year + 1900, 4)) &&
      Value(ZeroPadded(t.year + 1900, 4)) == t.year + 1900
    ensures |ZeroPadded(t.mon + 1, 2)| == 2 && AllDigits(ZeroPadded(t.mon + 1, 2)) &&
      Value(ZeroPadded(t.mon + 1, 2)) == t.mon + 1
    ensures |ZeroPadded(t.mday, 2)| == 2 && AllDigits(ZeroPadded(t.mday, 2)) && Value(ZeroPadded(t.mday, 2)) == t.mday
  {
    assert Pow10(4) == 10000 && Pow10(2) == 100;
    PaddedField(t.year + 1900, 4);
    PaddedField(t.mon + 1, 2);
    PaddedField(t.mday, 2);
  }

  /** A number below `10^w` printed with `%0<w>d` is exactly `w` digits that read back. */
  lemma PaddedField(n: nat, w: nat)
    requires 1 <= w && n < Pow10(w)
    ensures |ZeroPadded(n, w)| == w && AllDigits(ZeroPadded(n, w)) && Value(ZeroPadded(n, w)) == n
  {
    ZeroPaddedShape(n, w);
    ZeroPaddedRoundTrip(n, w);
    DecimalBelowPower(n, w);
  }

  /** The three fields can be cut back out of `y_m_d`. */
  lemma Joined(y: string, m: string, d: string)
    requires |y| == 4 && |m| == 2 && |d| == 2
    ensures var r := y + "_" + m + "_" + d;
      |r| == 10 && r[4] == '_' && r[7] == '_' && r[..4] == y && r[5..7] == m && r[8..] == d
  {
  }

  function Pow10(k: nat): nat
  {
    if k == 0 then 1 else 10 * Pow10(k - 1)
  }

  /** A number below `10^k` prints in at most `k` digits. */
  lemma {:induction false} DecimalBelowPower(n: nat, k: nat)
    requires 1 <= k && n < Pow10(k)
    ensures |Decimal(n)| <= k
    decreases k
  {
    assert Pow10(1) == 10;
    if n >= 10 {
      DecimalBelowPower(n / 10, k - 1);
    }
  }

  /** A number of at least `10^(k-1)` prints in at least `k` digits. */
  lemma {:induction false} DecimalAbovePower(n: nat, k: nat)
    requires 1 <= k && Pow10(k - 1) <= n
    ensures |Decimal(n)| >= k
    decreases k
  {
    if k > 1 {
      assert n >= 10 by {
        PowerAtLeastTen(k - 1);
      }
      DecimalAbovePower(n / 10, k - 1);
    }
  }

  lemma PowerAtLeastTen(k: nat)
    requires k >= 1
    ensures Pow10(k) >= 10
  {
    if k > 1 {
      PowerAtLeastTen(k - 1);
    }
  }

  // ---------------------------------------------------------------------
  // File names.
  // ---------------------------------------------------------------------

  /** The first file of a day: `<path>/<YYYY_MM_DD><suffix>`. */
  function DayFileName(path: string, suffix: string, t: Tm): string
    requires ValidTm(t)
  {
    Truncated(path + "/" + DateTail(t) + suffix, ROTATED_NAME_MAX)
  }

  /** The file of a same-day rotation: `<path>/<YYYY_MM_DD>-<n><suffix>`. */
  function SeqFileName(path: string, suffix: string, t: Tm, n: nat): string
    requires ValidTm(t)
  {
    Truncated(path + "/" + DateTail(t) + "-" + Decimal(n) + suffix, ROTATED_NAME_MAX)
  }

  /** Same-day rotations with different sequence numbers open different
      files, as long as the full name fits the name buffer. */
  lemma SeqFileNamesDistinct(path: string, suffix: string, t: Tm, a: nat, b: nat)
    requires ValidTm(t) && a != b
    requires |path + "/" + DateTail(t) + "-" + Decimal(a) + suffix| <= ROTATED_NAME_MAX
    requires |path + "/" + DateTail(t) + "-" + Decimal(b) + suffix| <= ROTATED_NAME_MAX
    ensures SeqFileName(path, suffix, t, a) != SeqFileName(path, suffix, t, b)
  {
    var head := path + "/" + DateTail(t) + "-";
    var da, db := Decimal(a), Decimal(b);
    if SeqFileName(path, suffix, t, a) == SeqFileName(path, suffix, t, b) {
      assert head + da + suffix == head + db + suffix;
      assert |da| == |db|;
      assert da == (head + da + suffix)[|head|..|head| + |da|];
      assert db == (head + db + suffix)[|head|..|head| + |db|];
      DecimalInjective(a, b);
      assert false;
    }
  }

  /** `Init`'s file name as written: no `/` after the path, and the year
      counted from 1990. */
  function InitFileNameAsWritten(path: string, suffix: string, t: Tm): string
  {
    Truncated(path + DateTailAsWritten(t) + suffix, INIT_NAME_MAX)
  }

  /** The date part of `Init`'s literal file name: it starts with a digit. */
  function DateTailAsWritten(t: Tm): (r: string)
    ensures |r| >= 1 && IsDigit(r[0])
  {
    ZeroPaddedShape(t.year + 1990, 4);
    ZeroPadded(t.year + 1990, 4) + "_" + ZeroPadded(t.mon + 1, 2) + "_" + ZeroPadded(t.mday, 2)
  }

  /** Characters before the truncation limit survive it. */
  lemma TruncatedKeeps(s: string, limit: nat, i: nat)
    requires i < limit && i < |s|
    ensures i < |Truncated(s, limit)| && Truncated(s, limit)[i] == s[i]
  {
  }

  /** `Init`'s file name as evidently intended: the day's file. */
  function InitFileName(path: string, suffix: string, t: Tm): string
    requires ValidTm(t)
  {
    Truncated(path + "/" + DateTail(t) + suffix, INIT_NAME_MAX)
  }

  /** A name that fits the rotation's shorter name buffer is the day's
      file, so the first write of the day after `Init` does not switch
      files. */
  lemma InitFileNameIsDayFile(path: string, suffix: string, t: Tm)
    requires ValidTm(t) && |path + "/" + DateTail(t) + suffix| <= ROTATED_NAME_MAX
    ensures InitFileName(path, suffix, t) == DayFileName(path, suffix, t)
  {
  }

  /** The literal `Init` name never names the day's file: where the day's
      file has the `/` after the path, it has a digit of the year. */
  lemma InitNameAsWrittenMissesDayFile(path: string, suffix: string, t: Tm)
    requires ValidTm(t) && |path| < ROTATED_NAME_MAX
    ensures InitFileNameAsWritten(path, suffix, t) != DayFileName(path, suffix, t)
    ensures InitFileNameAsWritten(path, suffix, t) != InitFileName(path, suffix, t)
  {
    var i := |path|;
    var lit := path + DateTailAsWritten(t) + suffix;
    var day := path + "/" + DateTail(t) + suffix;
    assert lit[i] == DateTailAsWritten(t)[0];
    assert day[i] == '/';
    TruncatedKeeps(lit, INIT_NAME_MAX, i);
    TruncatedKeeps(day, ROTATED_NAME_MAX, i);
    TruncatedKeeps(day, INIT_NAME_MAX, i);
  }

  // ---------------------------------------------------------------------
  // Rotation and the per-write bookkeeping.
  // ---------------------------------------------------------------------

  /** Whether `Write` closes the current file and opens another: the day of
      the month changed, or the line count is a non-zero multiple of
      `LOG_MAX_LINES`. */
  predicate NeedsRotation(today: int, lineCount: nat, mday: int)
  {
    today != mday || (lineCount != 0 && lineCount % LOG_MAX_LINES == 0)
  }

  /** The state `Write` keeps between calls: the day of the month of the
      current file, the line counter and the current file's name. */
  datatype Bookkeeping = Bookkeeping(today: int, lineCount: nat, file: string)

  /** What one `Write` does to the bookkeeping: rotate if needed, then
      count the line. */
  function WriteStep(b: Bookkeeping, path: string, suffix: string, t: Tm): Bookkeeping
    requires ValidTm(t)
  {
    var rotated := Rotation(b, path, suffix, t);
    rotated.(lineCount := rotated.lineCount + 1)
  }

  /** The three cases of `WriteStep`: no rotation counts one more line in
      the same file; a new day opens the day's file and restarts the count
      at 1; a full file on the same day opens the next numbered file, whose
      number is at least 1, and keeps counting. */
  lemma WriteStepCases(b: Bookkeeping, path: string, suffix: string, t: Tm)
    requires ValidTm(t)
    ensures var r := WriteStep(b, path, suffix, t);
      r.today == t.mday &&
      (!NeedsRotation(b.today, b.lineCount, t.mday) ==> r == b.(lineCount := b.lineCount + 1)) &&
      (b.today != t.mday ==> r == Bookkeeping(t.mday, 1, DayFileName(path, suffix, t))) &&
      (b.today == t.mday && NeedsRotation(b.today, b.lineCount, t.mday) ==>
        b.lineCount / LOG_MAX_LINES >= 1 && r.lineCount == b.lineCount + 1 &&
        r.file == SeqFileName(path, suffix, t, b.lineCount / LOG_MAX_LINES))
  {
  }

  /** The rotation part of `WriteStep`: a new day starts its own file and
      a new count; a full file on the same day is followed by the next
      numbered file. */
  function Rotation(b: Bookkeeping, path: string, suffix: string, t: Tm): Bookkeeping
    requires ValidTm(t)
  {
    if !NeedsRotation(b.today, b.lineCount, t.mday) then b
    else if b.today != t.mday then Bookkeeping(t.mday, 0, DayFileName(path, suffix, t))
    else b.(file := SeqFileName(path, suffix, t, b.lineCount / LOG_MAX_LINES))
  }

  /** `k` writes at the same clock reading. */
  function Writes(b: Bookkeeping, path: string, suffix: string, t: Tm, k: nat): Bookkeeping
    requires ValidTm(t)
  {
    if k == 0 then b else WriteStep(Writes(b, path, suffix, t, k - 1), path, suffix, t)
  }

  /** The file that the `k`-th line of a day goes to: the day's file for
      the first `LOG_MAX_LINES` lines, then `-1`, `-2`, ... for each further
      `LOG_MAX_LINES` lines. */
  function FileOfLine(path: string, suffix: string, t: Tm, k: nat): string
    requires ValidTm(t) && k >= 1
  {
    var n := (k - 1) / LOG_MAX_LINES;
    if n == 0 then DayFileName(path, suffix, t) else SeqFileName(path, suffix, t, n)
  }

  /** After a day change, the `k`-th write of the day counts `k` lines and
      writes into `FileOfLine(k)`: every file takes `LOG_MAX_LINES`
      consecutive lines, in order, and the sequence numbers increase. */
  lemma {:induction false} DayOfWrites(b: Bookkeeping, path: string, suffix: string, t: Tm, k: nat)
    requires ValidTm(t) && b.today != t.mday && k >= 1
    ensures Writes(b, path, suffix, t, k) == Bookkeeping(t.mday, k, FileOfLine(path, suffix, t, k))
    decreases k
  {
    if k > 1 {
      DayOfWrites(b, path, suffix, t, k - 1);
      var prev := Writes(b, path, suffix, t, k - 1);
      WriteStepCases(prev, path, suffix, t);
      assert prev.today == t.mday && prev.lineCount == k - 1;
      if (k - 1) % LOG_MAX_LINES != 0 {
        assert (k - 2) / LOG_MAX_LINES == (k - 1) / LOG_MAX_LINES;
      }
    } else {
      WriteStepCases(b, path, suffix, t);
    }
  }

  // ---------------------------------------------------------------------
  // Level tags, the assembled line and what reaches the file.
  // ---------------------------------------------------------------------

  /** The 9 bytes `AppendLogLevelTitle` appends: the 8-character tags of
      INFO and WARN (also used for unknown levels) bring their terminating
      NUL along. */
  function LevelTagAsWritten(level: int): (r: seq<char>)
    ensures |r| == 9
    ensures level == LL_DEBUG || level == LL_ERROR ==> NUL !in r
    ensures level != LL_DEBUG && level != LL_ERROR ==> r[8] == NUL && NUL !in r[..8]
  {
    if level == LL_DEBUG then "[DEBUG]: "
    else if level == LL_WARN then "[WARN]: " + [NUL]
    else if level == LL_ERROR then "[ERROR]: "
    else "[INFO]: " + [NUL]
  }

  /** The tag as evidently intended: the tag's own characters, without
      the NUL. It is what a C string reader sees of the literal bytes. */
  function LevelTag(level: int): (r: string)
    ensures NUL !in r && 8 <= |r| <= 9
  {
    if level == LL_DEBUG then "[DEBUG]: "
    else if level == LL_WARN then "[WARN]: "
    else if level == LL_ERROR then "[ERROR]: "
    else "[INFO]: "
  }

  /** The corrected tag is the text of the literal tag up to its NUL: the
      whole literal tag for DEBUG and ERROR, all but the NUL otherwise. */
  lemma LevelTagIsLiteralText(level: int)
    ensures LevelTag(level) == CString(LevelTagAsWritten(level))
    ensures level != LL_DEBUG && level != LL_ERROR ==> LevelTagAsWritten(level) == LevelTag(level) + [NUL]
    ensures level == LL_DEBUG || level == LL_ERROR ==> LevelTagAsWritten(level) == LevelTag(level)
  {
    var lit := LevelTagAsWritten(level);
    if level == LL_DEBUG || level == LL_ERROR {
      CStringOfConcat(lit, []);
      assert lit + [] == lit;
    } else {
      assert lit == LevelTag(level) + [NUL];
      CStringOfConcat(LevelTag(level), [NUL]);
      assert LevelTag(level) + [] == LevelTag(level);
    }
  }

  /** `"%d-%02d-%02d %02d:%02d:%02d"` of the clock as written, the year
      counted from 1990. */
  function TimestampAsWritten(t: Tm): string
    requires ValidTm(t)
  {
    Decimal(t.year + 1990) + ClockTail(t)
  }

  /** The timestamp as evidently intended, the year counted from 1900. */
  function Timestamp(t: Tm): (r: string)
    requires ValidTm(t)
    ensures NUL !in r && |r| == 19 && r[4] == '-'
    ensures |r| < TIMESTAMP_LIMIT
  {
    assert |Decimal(t.year + 1900)| == 4 by {
      DecimalBelowPower(t.year + 1900, 4);
      assert Pow10(3) == 1000;
      DecimalAbovePower(t.year + 1900, 4);
    }
    DecimalDigits(t.year + 1900);
    DigitsHaveNoNul(Decimal(t.year + 1900));
    Decimal(t.year + 1900) + ClockTail(t)
  }

  /** `-MM-DD hh:mm:ss`. */
  function ClockTail(t: Tm): (r: string)
    requires ValidTm(t)
    ensures NUL !in r && |r| == 15 && r[0] == '-'
  {
    TwoDigits(t.mon + 1);
    TwoDigits(t.mday);
    TwoDigits(t.hour);
    TwoDigits(t.min);
    TwoDigits(t.sec);
    "-" + ZeroPadded(t.mon + 1, 2) + "-" + ZeroPadded(t.mday, 2) + " " +
    ZeroPadded(t.hour, 2) + ":" + ZeroPadded(t.min, 2) + ":" + ZeroPadded(t.sec, 2)
  }

  /** The timestamp is `YYYY-MM-DD hh:mm:ss`, and its six fields read back
      as the year counted from 1900, the month counted from 1, the day, the
      hour, the minute and the second. */
  lemma TimestampReadsBack(t: Tm)
    requires ValidTm(t)
    ensures var r := Timestamp(t);
      r[4] == '-' && r[7] == '-' && r[10] == ' ' && r[13] == ':' && r[16] == ':' &&
      AllDigits(r[..4]) && Value(r[..4]) == t.year + 1900 &&
      AllDigits(r[5..7]) && Value(r[5..7]) == t.mon + 1 &&
      AllDigits(r[8..10]) && Value(r[8..10]) == t.mday &&
      AllDigits(r[11..13]) && Value(r[11..13]) == t.hour &&
      AllDigits(r[14..16]) && Value(r[14..16]) == t.min &&
      AllDigits(r[17..19]) && Value(r[17..19]) == t.sec
  {
    var y, tail := Decimal(t.year + 1900), ClockTail(t);
    DecimalRoundTrip(t.year + 1900);
    assert Timestamp(t) == y + tail;
    ClockTailReadsBack(t);
    YearJoined(y, tail);
  }

  /** The year and the clock tail can be cut back out of the timestamp. */
  lemma YearJoined(y: string, tail: string)
    requires |y| == 4 && |tail| == 15
    ensures var r := y + tail;
      r[..4] == y && r[4] == tail[0] && r[7] == tail[3] && r[10] == tail[6] &&
      r[13] == tail[9] && r[16] == tail[12] &&
      r[5..7] == tail[1..3] && r[8..10] == tail[4..6] && r[11..13] == tail[7..9] &&
      r[14..16] == tail[10..12] && r[17..19] == tail[13..15]
  {
  }

  /** The fields of `-MM-DD hh:mm:ss` read back. */
  lemma ClockTailReadsBack(t: Tm)
    requires ValidTm(t)
    ensures var r := ClockTail(t);
      r[3] == '-' && r[6] == ' ' && r[9] == ':' && r[12] == ':' &&
      AllDigits(r[1..3]) && Value(r[1..3]) == t.mon + 1 &&
      AllDigits(r[4..6]) && Value(r[4..6]) == t.mday &&
      AllDigits(r[7..9]) && Value(r[7..9]) == t.hour &&
      AllDigits(r[10..12]) && Value(r[10..12]) == t.min &&
      AllDigits(r[13..15]) && Value(r[13..15]) == t.sec
  {
    var mo, d, h, mi, sec := ZeroPadded(t.mon + 1, 2), ZeroPadded(t.mday, 2),
      ZeroPadded(t.hour, 2), ZeroPadded(t.min, 2), ZeroPadded(t.sec, 2);
    TwoDigits(t.mon + 1);
    TwoDigits(t.mday);
    TwoDigits(t.hour);
    TwoDigits(t.min);
    TwoDigits(t.sec);
    ZeroPaddedRoundTrip(t.mon + 1, 2);
    ZeroPaddedRoundTrip(t.mday, 2);
    ZeroPaddedRoundTrip(t.hour, 2);
    ZeroPaddedRoundTrip(t.min, 2);
    ZeroPaddedRoundTrip(t.sec, 2);
    ClockJoined(mo, d, h, mi, sec);
  }

  /** The five two-digit fields can be cut back out of `-m-d h:mi:s`. */
  lemma ClockJoined(m: string, d: string, h: string, mi: string, s: string)
    requires |m| == 2 && |d| == 2 && |h| == 2 && |mi| == 2 && |s| == 2
    ensures var r := "-" + m + "-" + d + " " + h + ":" + mi + ":" + s;
      |r| == 15 && r[3] == '-' && r[6] == ' ' && r[9] == ':' && r[12] == ':' &&
      r[1..3] == m && r[4..6] == d && r[7..9] == h && r[10..12] == mi && r[13..15] == s
  {
  }

  /** The literal timestamp never shows the real year. */
  lemma TimestampAsWrittenYearOff(t: Tm)
    requires ValidTm(t)
    ensures TimestampAsWritten(t) != Timestamp(t)
  {
    var lit, fixed := Decimal(t.year + 1990), Decimal(t.year + 1900);
    var tail := ClockTail(t);
    if lit + tail == fixed + tail {
      assert |lit| == |fixed|;
      assert lit == (lit + tail)[..|lit|];
      assert fixed == (fixed + tail)[..|fixed|];
      DecimalInjective(t.year + 1990, t.year + 1900);
    }
  }

  /** The line `Write` assembles: timestamp, tag, message, then `"\n\0"`. */
  function Line(timestamp: string, tag: seq<char>, message: string): seq<char>
  {
    timestamp + tag + message + ['\n', NUL]
  }

  /** What `fputs` writes of a buffer: everything before the first NUL. */
  function CString(s: seq<char>): (r: string)
    ensures NUL !in r && |r| <= |s|
  {
    if s == [] then [] else if s[0] == NUL then [] else [s[0]] + CString(s[1..])
  }

  /** What `fputs` writes is a prefix of the buffer, cut at its first NUL
      when the buffer holds one. */
  lemma {:induction false} CStringIsPrefix(s: seq<char>)
    ensures CString(s) == s[..|CString(s)|]
    ensures |CString(s)| < |s| ==> s[|CString(s)|] == NUL
    ensures NUL !in s ==> CString(s) == s
    decreases |s|
  {
    if s != [] && s[0] != NUL {
      CStringIsPrefix(s[1..]);
      assert s == [s[0]] + s[1..];
    }
  }

  /** `fputs` passes a NUL-free prefix through untouched. */
  lemma {:induction false} CStringOfConcat(a: seq<char>, b: seq<char>)
    requires NUL !in a
    ensures CString(a + b) == a + CString(b)
    decreases |a|
  {
    if a != [] {
      assert (a + b)[0] == a[0] && a[0] != NUL;
      assert (a + b)[1..] == a[1..] + b;
      assert NUL !in a[1..];
      CStringOfConcat(a[1..], b);
      assert [a[0]] + a[1..] == a;
    } else {
      assert a + b == b;
    }
  }

  /** With the literal 9-byte tags, a line at INFO or WARN level (or an
      unknown level) reaches the file as timestamp and tag only: its
      message and its newline are lost. */
  lemma InfoLineLosesMessage(t: Tm, level: int, message: string)
    requires ValidTm(t) && level != LL_DEBUG && level != LL_ERROR
    ensures CString(Line(TimestampAsWritten(t), LevelTagAsWritten(level), message)) ==
      TimestampAsWritten(t) + LevelTag(level)
  {
    LevelTagIsLiteralText(level);
    DecimalDigits(t.year + 1990);
    DigitsHaveNoNul(Decimal(t.year + 1990));
    LineCutAtTag(TimestampAsWritten(t), LevelTag(level), message);
  }

  lemma DigitsHaveNoNul(s: string)
    requires AllDigits(s)
    ensures NUL !in s
  {
  }

  /** A tag followed by a NUL cuts the line there: `fputs` writes the
      timestamp and the tag's text and nothing after them. */
  lemma LineCutAtTag(timestamp: string, text: string, message: string)
    requires NUL !in timestamp && NUL !in text
    ensures CString(Line(timestamp, text + [NUL], message)) == timestamp + text
  {
    var head, rest := timestamp + text, [NUL] + message + ['\n', NUL];
    assert NUL !in head;
    assert Line(timestamp, text + [NUL], message) == head + rest;
    CStringOfConcat(head, rest);
    assert CString(rest) == [];
    assert head + [] == head;
  }

  /** With the tags as intended, the whole line up to its newline reaches
      the file, at every level, for any message free of NUL. */
  lemma LineReachesFile(t: Tm, level: int, message: string)
    requires ValidTm(t) && NUL !in message
    ensures CString(Line(Timestamp(t), LevelTag(level), message)) ==
      Timestamp(t) + LevelTag(level) + message + "\n"
  {
    LineOfCleanParts(Timestamp(t), LevelTag(level), message);
  }

  /** A line whose parts hold no NUL reaches the file up to and including
      its newline. */
  lemma LineOfCleanParts(timestamp: string, tag: string, message: string)
    requires NUL !in timestamp && NUL !in tag && NUL !in message
    ensures CString(Line(timestamp, tag, message)) == timestamp + tag + message + "\n"
  {
    var head := timestamp + tag + message + "\n";
    assert NUL !in head;
    assert Line(timestamp, tag, message) == head + [NUL];
    CStringOfConcat(head, [NUL]);
    assert CString([NUL]) == [];
    assert head + [] == head;
  }

  // ---------------------------------------------------------------------
  // The level gate of the `LOG_*` macros.
  // ---------------------------------------------------------------------

  /** `LOG_BASE` writes a call of level `level` only when the log is open
      and its threshold is at most `level` (the comparison the source means
      at log.h:65, where `GetLevel` is named but not called). */
  predicate Gate(isOpen: bool, threshold: int, level: int)
  {
    isOpen && threshold <= level
  }

  // ---------------------------------------------------------------------
  // The queue set-up of `Init`.
  // ---------------------------------------------------------------------

  /** The queue-related fields of the logger: the async flag, whether a
      deque is installed, and how many writer threads were started. */
  datatype QueueSetup = QueueSetup(isAsync: bool, hasDeque: bool, threads: nat)

  /** What a literal `Init` leads to: a new queue set-up, or the end of the
      process when `std::terminate` runs. */
  datatype InitOutcome = Running(setup: QueueSetup) | Terminated

  /** The logger reaches through a missing deque: `Flush` does in async
      mode (log.cpp:157-159), and a started writer thread does in its first
      `PopFront` (log.cpp:180). */
  predicate DereferencesNullDeque(s: QueueSetup)
  {
    !s.hasDeque && (s.isAsync || s.threads > 0)
  }

  /** `Init`'s queue set-up as written: the new deque is moved into itself
      (log.cpp:43-44) and never installed, yet async mode is set and a
      writer thread starts (log.cpp:45-46). When a writer thread already
      runs, the move-assignment destroys a joinable `std::thread`, which
      calls `std::terminate`. */
  function InitQueueAsWritten(s: QueueSetup, maxQueueCapacity: int): (r: InitOutcome)
    ensures r.Terminated? <==> maxQueueCapacity > 0 && !s.hasDeque && s.threads > 0
    ensures r.Running? && maxQueueCapacity > 0 && !s.hasDeque ==>
      r.setup == QueueSetup(true, false, 1) && DereferencesNullDeque(r.setup)
    ensures maxQueueCapacity <= 0 ==> r == Running(s)
  {
    if maxQueueCapacity <= 0 then Running(s)
    else if !s.hasDeque then (if s.threads > 0 then Terminated else Running(QueueSetup(true, false, s.threads + 1)))
    else Running(QueueSetup(false, s.hasDeque, s.threads))
  }

  /** `Init`'s queue set-up as evidently intended: the new deque is
      installed. From the constructor's state, and after any number of
      `Init` calls, async mode implies an installed deque and at most one
      writer thread exists, one exactly when a deque is installed. */
  function InitQueue(s: QueueSetup, maxQueueCapacity: int): (r: QueueSetup)
    requires s.isAsync ==> s.hasDeque
    requires s.threads == if s.hasDeque then 1 else 0
    ensures r.isAsync ==> r.hasDeque
    ensures r.threads == if r.hasDeque then 1 else 0
    ensures maxQueueCapacity > 0 ==> r.hasDeque && (r.isAsync <==> !s.hasDeque)
    ensures maxQueueCapacity <= 0 ==> r == s
    ensures !DereferencesNullDeque(r)
  {
    if maxQueueCapacity <= 0 then s
    else if !s.hasDeque then QueueSetup(true, true, s.threads + 1)
    else QueueSetup(false, s.hasDeque, s.threads)
  }

  /** Literal `Init` calls with the capacities `caps`, in order, from the
      constructor's state; a terminated process stays terminated. */
  function InitsAsWritten(caps: seq<int>): InitOutcome
  {
    if caps == [] then Running(QueueSetup(false, false, 0))
    else match InitsAsWritten(caps[..|caps| - 1])
      case Terminated => Terminated
      case Running(s) => InitQueueAsWritten(s, caps[|caps| - 1])
  }

  /** How many of the capacities are positive. */
  function Positives(caps: seq<int>): nat
  {
    if caps == [] then 0 else Positives(caps[..|caps| - 1]) + (if caps[|caps| - 1] > 0 then 1 else 0)
  }

  /** Literal `Init` calls never install a deque. With no positive
      capacity nothing is set up; the first positive capacity leaves the
      logger async with one writer thread and no deque, where `Flush` and
      the writer thread reach through the missing deque; a second positive
      capacity terminates the process. */
  lemma {:induction false} InitsAsWrittenOutcome(caps: seq<int>)
    ensures Positives(caps) == 0 ==> InitsAsWritten(caps) == Running(QueueSetup(false, false, 0))
    ensures Positives(caps) == 1 ==>
      InitsAsWritten(caps) == Running(QueueSetup(true, false, 1)) && DereferencesNullDeque(InitsAsWritten(caps).setup)
    ensures Positives(caps) >= 2 <==> InitsAsWritten(caps) == Terminated
    decreases |caps|
  {
    if caps != [] {
      InitsAsWrittenOutcome(caps[..|caps| - 1]);
    }
  }
}
