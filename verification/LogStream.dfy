/** The live log: the executor cuts its output into lines and appends them to a Redis stream in Java's serialised form;
    the API puts the lines together again and serves slices of the result to a polling client. */
module LogStream {
  import opened Wrappers
  import opened Ints

  type byte = x: int | 0 <= x < 256
  type Bytes = seq<byte>
  type Entry = map<Bytes, Bytes>

  const NEWLINE: byte := 10
  const JOB_ID: Bytes := [106, 111, 98, 73, 100]
  const STEP_ID: Bytes := [115, 116, 101, 112, 73, 100]
  const LINE_NUMBER: Bytes := [108, 105, 110, 101, 78, 117, 109, 98, 101, 114]
  const OUTPUT: Bytes := [111, 117, 116, 112, 117, 116]
  const DONE: Bytes := [100, 111, 110, 101]
  const TRUE: Bytes := [116, 114, 117, 101]

  // ---- Java's string framing ----

  /** Stream magic AC ED, version 00 05, TC_STRING 74, a two-byte length (section 6.4 of the Java Object Serialization
      Specification), then the bytes. The length keeps only the low 16 bits. */
  function JdkSerialize(s: Bytes): Bytes {
    [0xAC, 0xED, 0, 5, 0x74, (|s| / 256) % 256, |s| % 256] + s
  }

  function JdkDeserialize(b: Bytes): Bytes {
    if |b| < 7 || b[..5] != [0xAC, 0xED, 0, 5, 0x74] then b
    else
      var n := (b[5] as int) * 256 + b[6] as int;
      if |b| < 7 + n then b else b[7..7 + n]
  }

  /** The five bytes every frame begins with, a length with the higher byte first, then the string. */
  predicate IsFrame(b: Bytes, s: Bytes) {
    && |b| == 7 + |s| && b[..5] == [0xAC, 0xED, 0x00, 0x05, 0x74]
    && b[5] as int * 256 + b[6] as int == |s| % 65536 && b[7..] == s
  }

  /** Filling the frame byte by byte. */
  method Serialize(s: Bytes) returns (frame: array<byte>)
    ensures fresh(frame) && frame[..] == JdkSerialize(s)
    ensures IsFrame(frame[..], s)
  {
    FramesAreFrames(s);
    hide IsFrame;
    var n := |s|;
    frame := new byte[7 + n](_ => 0);
    frame[0], frame[1], frame[2], frame[3], frame[4] := 0xAC, 0xED, 0, 5, 0x74;
    frame[5], frame[6] := (n / 256) % 256, n % 256;
    for i := 0 to n
      invariant frame[..7] == [0xAC, 0xED, 0, 5, 0x74, (n / 256) % 256, n % 256]
      invariant frame[7..7 + i] == s[..i]
    {
      frame[7 + i] := s[i];
    }
    assert frame[..] == frame[..7] + frame[7..7 + n];
  }

  /** Decoding a frame gives back as many bytes as its length field can count. */
  lemma FramingKeepsTheLow16Bits(s: Bytes)
    ensures JdkDeserialize(JdkSerialize(s)) == s[..|s| % 65536]
    ensures JdkDeserialize(JdkSerialize(s)) == s <==> |s| < 65536
  {
    FrameParts(s);
    LowBytes(|s|);
    hide JdkSerialize;
    var b, n := JdkSerialize(s), |s| % 65536;
    assert b[7..7 + n] == b[7..][..n];
  }

  lemma FramesAreFrames(s: Bytes)
    ensures IsFrame(JdkSerialize(s), s)
  {
    FrameParts(s);
    LowBytes(|s|);
    hide JdkSerialize;
  }

  /** A frame is decoded whatever follows it, and bytes that do not begin with a frame are taken as they are. */
  lemma FramesAreDecoded(b: Bytes, s: Bytes, tail: Bytes)
    ensures b == JdkSerialize(s) + tail && |s| < 65536 ==> JdkDeserialize(b) == s
    ensures JdkDeserialize(b) == b || (JdkSerialize(JdkDeserialize(b)) <= b && |JdkDeserialize(b)| < 65536)
  {
    if b == JdkSerialize(s) + tail && |s| < 65536 {
      LowBytes(|s|);
      assert b[..5] == JdkSerialize(s)[..5] && b[7..7 + |s|] == s;
    }
    if |b| >= 7 && b[..5] == [0xAC, 0xED, 0, 5, 0x74] && |b| >= 7 + b[5] as int * 256 + b[6] as int {
      var n := b[5] as int * 256 + b[6] as int;
      assert n / 256 == b[5] && n % 256 == b[6];
      assert b == b[..5] + [b[5], b[6]] + b[7..7 + n] + b[7 + n..];
    }
  }

  lemma FrameParts(s: Bytes)
    ensures var b := JdkSerialize(s);
            && |b| == 7 + |s| && b[..5] == [0xAC, 0xED, 0, 5, 0x74] && b[7..] == s
            && b[5] == (|s| / 256) % 256 && b[6] == |s| % 256
  {
  }

  lemma LowBytes(n: nat)
    ensures (n / 256) % 256 * 256 + n % 256 == n % 65536 <= n
    ensures n % 65536 == n <==> n < 65536
  {
  }

  // ---- Lines ----

  function IndexOf(t: Bytes, c: byte): (i: nat)
    ensures i <= |t| && c !in t[..i]
    ensures i < |t| ==> t[i] == c
  {
    if t == [] || t[0] == c then 0 else
      var i := IndexOf(t[1..], c) + 1;
      assert t[..i] == [t[0]] + t[1..][..i - 1];
      i
  }

  /** The complete lines of a text, without their newlines. */
  function Lines(t: Bytes): seq<Bytes> {
    var i := IndexOf(t, NEWLINE);
    if i == |t| then [] else [t[..i]] + Lines(t[i + 1..])
  }

  /** What follows the last newline. */
  function Rest(t: Bytes): (r: Bytes)
    ensures NEWLINE !in r && |r| <= |t|
  {
    var i := IndexOf(t, NEWLINE);
    if i == |t| then assert t[..i] == t; t else Rest(t[i + 1..])
  }

  function Join(lines: seq<Bytes>): Bytes {
    if lines == [] then [] else Join(lines[..|lines| - 1]) + lines[|lines| - 1] + [NEWLINE]
  }

  lemma {:induction false} JoinPrepends(line: Bytes, lines: seq<Bytes>)
    ensures Join([line] + lines) == line + [NEWLINE] + Join(lines)
  {
    if lines == [] {
      assert [line] + lines == [line];
      assert Join([line]) == Join([]) + line + [NEWLINE];
    } else {
      var n := |lines| - 1;
      assert ([line] + lines)[..n + 1] == [line] + lines[..n];
      JoinPrepends(line, lines[..n]);
    }
  }

  lemma Regroup<T>(a: seq<T>, b: seq<T>, c: seq<T>)
    ensures a + (b + c) == (a + b) + c
  {
  }

  lemma SplitAt(t: Bytes, i: nat)
    requires i < |t|
    ensures t == t[..i] + [t[i]] + t[i + 1..]
  {
  }

  /** Taking the first line off a text that has one. */
  lemma {:induction false} FirstLine(t: Bytes, i: nat)
    requires i == IndexOf(t, NEWLINE) && i < |t|
    ensures t[i] == NEWLINE
    ensures Lines(t) == [t[..i]] + Lines(t[i + 1..])
    ensures Rest(t) == Rest(t[i + 1..])
  {
    hide IndexOf;
  }

  lemma {:induction false} LinesRebuildTheText(t: Bytes)
    ensures t == Join(Lines(t)) + Rest(t)
    ensures forall k :: 0 <= k < |Lines(t)| ==> NEWLINE !in Lines(t)[k]
  {
    var i := IndexOf(t, NEWLINE);
    if i < |t| {
      hide *;
      FirstLine(t, i);
      SplitAt(t, i);
      var line, more := t[..i], t[i + 1..];
      LinesRebuildTheText(more);
      JoinPrepends(line, Lines(more));
      Regroup(line + [NEWLINE], Join(Lines(more)), Rest(more));
    }
  }

  lemma {:induction false} IndexOfIsFirst(t: Bytes, p: Bytes)
    requires IndexOf(t, NEWLINE) < |t|
    ensures IndexOf(t + p, NEWLINE) == IndexOf(t, NEWLINE)
  {
    if t[0] != NEWLINE {
      assert (t + p)[1..] == t[1..] + p;
      IndexOfIsFirst(t[1..], p);
    }
  }

  lemma SliceOfMore(t: Bytes, p: Bytes, i: nat)
    requires i < |t|
    ensures (t + p)[..i] == t[..i] && (t + p)[i + 1..] == t[i + 1..] + p
  {
  }

  /** Cutting more text into lines continues where the earlier text stopped. */
  lemma {:induction false} LinesOfMoreText(t: Bytes, p: Bytes)
    ensures Lines(t + p) == Lines(t) + Lines(Rest(t) + p)
    ensures Rest(t + p) == Rest(Rest(t) + p)
  {
    var i := IndexOf(t, NEWLINE);
    if i < |t| {
      hide *;
      IndexOfIsFirst(t, p);
      var line, more := t[..i], t[i + 1..];
      FirstLine(t, i);
      FirstLine(t + p, i);
      SliceOfMore(t, p, i);
      LinesOfMoreText(more, p);
      Regroup([line], Lines(more), Lines(Rest(more) + p));
    } else {
      assert Lines(t) == [] && Rest(t) == t;
    }
  }

  // ---- What the executor appends ----

  function WrapInt32(n: int): int {
    (n + 0x8000_0000) % 0x1_0000_0000 - 0x8000_0000
  }

  function Decimal(n: int): Bytes
    decreases n < 0, if n < 0 then -n else n
  {
    if n < 0 then [45] + Decimal(-n)
    else if n < 10 then [48 + n]
    else Decimal(n / 10) + [48 + n % 10]
  }

  function LineEntry(job: Bytes, step: Bytes, number: int, line: Bytes): Entry {
    map[
      JdkSerialize(JOB_ID) := JdkSerialize(job),
      JdkSerialize(STEP_ID) := JdkSerialize(step),
      JdkSerialize(LINE_NUMBER) := JdkSerialize(Decimal(WrapInt32(number))),
      JdkSerialize(OUTPUT) := JdkSerialize(line)
    ]
  }

  function DoneEntry(job: Bytes, step: Bytes): Entry {
    map[
      JdkSerialize(JOB_ID) := JdkSerialize(job),
      JdkSerialize(STEP_ID) := JdkSerialize(step),
      JdkSerialize(DONE) := JdkSerialize(TRUE)
    ]
  }

  /** One entry for every line, numbered from 1. */
  function Entries(job: Bytes, step: Bytes, lines: seq<Bytes>): seq<Entry> {
    if lines == [] then []
    else Entries(job, step, lines[..|lines| - 1]) + [LineEntry(job, step, |lines|, lines[|lines| - 1])]
  }

  lemma EntriesGrow(job: Bytes, step: Bytes, lines: seq<Bytes>, line: Bytes)
    ensures Entries(job, step, lines + [line]) == Entries(job, step, lines) + [LineEntry(job, step, |lines| + 1, line)]
  {
    assert (lines + [line])[..|lines|] == lines;
  }

  /** The text a closed stream carries: a last line without a newline gets one. */
  function Closed(t: Bytes): Bytes {
    if Rest(t) == [] then t else t + [NEWLINE]
  }

  lemma {:induction false} JoinedLinesEnd(lines: seq<Bytes>)
    ensures lines != [] ==> Join(lines) != [] && Join(lines)[|Join(lines)| - 1] == 10
    ensures lines == [] ==> Join(lines) == []
  {
  }

  /** A closed stream carries the text, with a newline behind it unless it ends in one or is empty. */
  lemma ClosingEndsTheLastLine(t: Bytes)
    ensures Closed(t) == if t == [] || t[|t| - 1] == 10 then t else t + [10]
  {
    LinesRebuildTheText(t);
    JoinedLinesEnd(Lines(t));
    hide Lines, Rest, Join;
    if Rest(t) != [] {
      assert t[|t| - 1] == Rest(t)[|Rest(t)| - 1];
    } else {
      assert t == Join(Lines(t));
    }
  }

  // ---- The entries, spelled out ----

  function Ascii(s: string): Bytes {
    seq(|s|, i requires 0 <= i < |s| => if s[i] < 128 as char then s[i] as int else 0)
  }

  predicate IsDecimal(text: Bytes, n: int)
    decreases |text|
  {
    if n < 0 then |text| > 1 && text[0] == 45 && IsDecimal(text[1..], -n)
    else if n < 10 then text == [48 + n]
    else |text| > 1 && text[|text| - 1] == 48 + n % 10 && IsDecimal(text[..|text| - 1], n / 10)
  }

  /** A name and a value, each in its frame. */
  predicate HasField(e: Entry, name: string, value: Bytes) {
    exists k :: k in e && IsFrame(k, Ascii(name)) && IsFrame(e[k], value)
  }

  /** A number of which 32 bits are kept, in decimals. */
  ghost predicate IsNumber32(text: Bytes, n: int) {
    exists m :: -0x8000_0000 <= m < 0x8000_0000 && (m - n) % 0x1_0000_0000 == 0 && IsDecimal(text, m)
  }

  /** The entry of one line, of whatever length. */
  ghost predicate IsLine(e: Entry, job: Bytes, step: Bytes, number: int, line: Bytes) {
    && |e| == 4 && HasField(e, "jobId", job) && HasField(e, "stepId", step) && HasField(e, "output", line)
    && exists text :: IsNumber32(text, number) && HasField(e, "lineNumber", text)
  }

  /** The entry that marks a step's end. */
  predicate IsEnd(e: Entry, job: Bytes, step: Bytes) {
    |e| == 3 && HasField(e, "jobId", job) && HasField(e, "stepId", step) && HasField(e, "done", Ascii("true"))
  }

  /** One entry for each line, in order and numbered from 1, behind the earlier ones. */
  ghost predicate AreLines(es: seq<Entry>, earlier: seq<Entry>, job: Bytes, step: Bytes, lines: seq<Bytes>) {
    && |es| == |earlier| + |lines| && es[..|earlier|] == earlier
    && forall k :: 0 <= k < |lines| ==> IsLine(es[|earlier| + k], job, step, k + 1, lines[k])
  }

  lemma {:induction false} DecimalsAreDecimal(n: int)
    ensures IsDecimal(Decimal(n), n)
    decreases n < 0, if n < 0 then -n else n
  {
    if n < 0 {
      DecimalsAreDecimal(-n);
      assert Decimal(n)[1..] == Decimal(-n);
    } else if n >= 10 {
      DecimalsAreDecimal(n / 10);
      assert Decimal(n)[..|Decimal(n)| - 1] == Decimal(n / 10);
    }
  }

  lemma FieldIsThere(e: Entry, name: string, ascii: Bytes, value: Bytes)
    requires ascii == Ascii(name) && JdkSerialize(ascii) in e && e[JdkSerialize(ascii)] == JdkSerialize(value)
    ensures HasField(e, name, value)
  {
    FramesAreFrames(ascii);
    FramesAreFrames(value);
    hide JdkSerialize, IsFrame, Ascii;
  }

  lemma NumbersAreInAscii()
    ensures JOB_ID == Ascii("jobId") && STEP_ID == Ascii("stepId") && LINE_NUMBER == Ascii("lineNumber")
    ensures OUTPUT == Ascii("output") && DONE == Ascii("done") && TRUE == Ascii("true")
  {
  }

  lemma FieldsDiffer()
    ensures |{JdkSerialize(JOB_ID), JdkSerialize(STEP_ID), JdkSerialize(LINE_NUMBER), JdkSerialize(OUTPUT)}| == 4
    ensures |{JdkSerialize(JOB_ID), JdkSerialize(STEP_ID), JdkSerialize(DONE)}| == 3
  {
    assert |JdkSerialize(JOB_ID)| == 12 && |JdkSerialize(STEP_ID)| == 13 && |JdkSerialize(LINE_NUMBER)| == 17;
    assert JdkSerialize(STEP_ID)[7] == 115 && JdkSerialize(OUTPUT)[7] == 111 && |JdkSerialize(DONE)| == 11;
  }

  lemma LineEntriesAreLines(job: Bytes, step: Bytes, number: int, line: Bytes)
    ensures IsLine(LineEntry(job, step, number, line), job, step, number, line)
  {
    NumbersAreInAscii();
    FieldsDiffer();
    var m := WrapInt32(number);
    DecimalsAreDecimal(m);
    WrapsTo32Bits(number);
    hide JdkSerialize, Ascii, Decimal, IsDecimal, HasField, WrapInt32, JOB_ID, STEP_ID, LINE_NUMBER, OUTPUT;
    var e := LineEntry(job, step, number, line);
    assert e.Keys == {JdkSerialize(JOB_ID), JdkSerialize(STEP_ID), JdkSerialize(LINE_NUMBER), JdkSerialize(OUTPUT)};
    FieldIsThere(e, "jobId", JOB_ID, job);
    FieldIsThere(e, "stepId", STEP_ID, step);
    FieldIsThere(e, "output", OUTPUT, line);
    FieldIsThere(e, "lineNumber", LINE_NUMBER, Decimal(m));
    assert IsNumber32(Decimal(m), number);
  }

  lemma WrapsTo32Bits(n: int)
    ensures -0x8000_0000 <= WrapInt32(n) < 0x8000_0000 && (WrapInt32(n) - n) % 0x1_0000_0000 == 0
  {
    var m := n + 0x8000_0000;
    assert WrapInt32(n) - n == -(m / 0x1_0000_0000) * 0x1_0000_0000;
  }

  lemma DoneEntriesAreEnds(job: Bytes, step: Bytes)
    ensures IsEnd(DoneEntry(job, step), job, step)
  {
    NumbersAreInAscii();
    FieldsDiffer();
    hide JdkSerialize, Ascii, HasField, JOB_ID, STEP_ID, DONE, TRUE;
    var e := DoneEntry(job, step);
    assert e.Keys == {JdkSerialize(JOB_ID), JdkSerialize(STEP_ID), JdkSerialize(DONE)};
    FieldIsThere(e, "jobId", JOB_ID, job);
    FieldIsThere(e, "stepId", STEP_ID, step);
    FieldIsThere(e, "done", DONE, TRUE);
  }

  lemma {:induction false} EntriesAreLines(earlier: seq<Entry>, job: Bytes, step: Bytes, lines: seq<Bytes>)
    ensures AreLines(earlier + Entries(job, step, lines), earlier, job, step, lines)
    decreases |lines|
  {
    hide IsLine, LineEntry;
    if lines != [] {
      var n := |lines| - 1;
      EntriesAreLines(earlier, job, step, lines[..n]);
      LineEntriesAreLines(job, step, |lines|, lines[n]);
      var before, es := earlier + Entries(job, step, lines[..n]), earlier + Entries(job, step, lines);
      assert es == before + [LineEntry(job, step, |lines|, lines[n])];
      forall k | 0 <= k < n ensures IsLine(es[|earlier| + k], job, step, k + 1, lines[k]) {
        assert IsLine(before[|earlier| + k], job, step, k + 1, lines[..n][k]);
      }
    }
  }

  class Redis {
    var streams: map<Bytes, seq<Entry>>

    constructor ()
      ensures streams == map[]
    {
      streams := map[];
    }

    function Range(key: Bytes): seq<Entry>
      reads this
    {
      if key in streams then streams[key] else []
    }

    method XAdd(key: Bytes, e: Entry)
      modifies this
      ensures streams == old(streams)[key := old(Range(key)) + [e]]
    {
      streams := streams[key := (if key in streams then streams[key] else []) + [e]];
    }
  }

  lemma LinesFromTheFirst(t: Bytes)
    ensures var i := IndexOf(t, NEWLINE);
            if i == |t| then Lines(t) == [] && Rest(t) == t
            else Lines(t) == [t[..i]] + Lines(t[i + 1..]) && Rest(t) == Rest(t[i + 1..])
  {
    hide IndexOf;
    var i := IndexOf(t, NEWLINE);
    if i == |t| {
      assert t[..i] == t;
    }
  }

  class RedisStreamer {
    const redis: Redis
    const jobId: Bytes
    const stepId: Bytes
    var lineNumber: int
    var buf: Bytes
    ghost var written: Bytes
    ghost const earlier: seq<Entry>  // what the job's earlier steps left in the stream

    ghost predicate Valid()
      reads this, redis
    {
      && buf == Rest(written)
      && lineNumber == |Lines(written)|
      && redis.Range(JdkSerialize(jobId)) == earlier + Entries(jobId, stepId, Lines(written))
    }

    constructor (redis: Redis, jobId: Bytes, stepId: Bytes)
      ensures Valid() && written == [] && this.redis == redis && this.jobId == jobId && this.stepId == stepId
      ensures earlier == redis.Range(JdkSerialize(jobId))
    {
      this.redis, this.jobId, this.stepId := redis, jobId, stepId;
      earlier := redis.Range(JdkSerialize(jobId));
      lineNumber, buf, written := 0, [], [];
    }

    /** Everything up to the last newline goes out, line by line; the rest waits in the buffer. */
    method Write(p: Bytes) returns (n: nat)
      requires Valid()
      modifies this, redis
      ensures Valid() && written == old(written) + p && n == |p|
      ensures AreLines(redis.Range(JdkSerialize(jobId)), earlier, jobId, stepId, Lines(written))
      ensures forall key :: key != JdkSerialize(jobId) ==> redis.Range(key) == old(redis.Range(key))
    {
      hide Lines, Rest, Entries, LineEntry, JdkSerialize, AreLines;
      buf := buf + p;
      LinesOfMoreText(written, p);
      written := written + p;
      ghost var sent := Lines(old(written));
      while true
        invariant sent + Lines(buf) == Lines(written) && Rest(buf) == Rest(written)
        invariant lineNumber == |sent|
        invariant redis.Range(JdkSerialize(jobId)) == earlier + Entries(jobId, stepId, sent)
        invariant forall key :: key != JdkSerialize(jobId) ==> redis.Range(key) == old(redis.Range(key))
        invariant written == old(written) + p
        decreases |buf|
      {
        var idx := IndexOf(buf, NEWLINE);
        LinesFromTheFirst(buf);
        if idx == |buf| { break; }
        var line, remaining := buf[..idx], buf[idx + 1..];
        Regroup(sent, [line], Lines(remaining));
        EntriesGrow(jobId, stepId, sent, line);
        Regroup(earlier, Entries(jobId, stepId, sent), [LineEntry(jobId, stepId, lineNumber + 1, line)]);
        sent := sent + [line];
        buf := remaining;
        lineNumber := lineNumber + 1;
        redis.XAdd(JdkSerialize(jobId), LineEntry(jobId, stepId, lineNumber, line));
      }
      assert sent + [] == sent;
      EntriesAreLines(earlier, jobId, stepId, Lines(written));
      return |p|;
    }

    /** A non-empty rest goes out as a last line, then the entry that marks the end. */
    method Close()
      requires Valid()
      modifies this, redis
      ensures redis.Range(JdkSerialize(jobId)) ==
          earlier + (Entries(jobId, stepId, Lines(Closed(written))) + [DoneEntry(jobId, stepId)])
      ensures var es := redis.Range(JdkSerialize(jobId));
              && es != [] && IsEnd(es[|es| - 1], jobId, stepId)
              && AreLines(es[..|es| - 1], earlier, jobId, stepId, Lines(Closed(written)))
      ensures buf == [] && written == old(written)
      ensures forall key :: key != JdkSerialize(jobId) ==> redis.Range(key) == old(redis.Range(key))
    {
      hide Lines, Rest, Entries, LineEntry, DoneEntry, JdkSerialize, AreLines, IsEnd;
      if |buf| > 0 {
        lineNumber := lineNumber + 1;
        ClosingAddsALine(written);
        EntriesGrow(jobId, stepId, Lines(written), buf);
        Regroup(earlier, Entries(jobId, stepId, Lines(written)), [LineEntry(jobId, stepId, lineNumber, buf)]);
        redis.XAdd(JdkSerialize(jobId), LineEntry(jobId, stepId, lineNumber, buf));
        buf := [];
      }
      redis.XAdd(JdkSerialize(jobId), DoneEntry(jobId, stepId));
      Regroup(earlier, Entries(jobId, stepId, Lines(Closed(written))), [DoneEntry(jobId, stepId)]);
      EntriesAreLines(earlier, jobId, stepId, Lines(Closed(written)));
      DoneEntriesAreEnds(jobId, stepId);
      ghost var es := redis.Range(JdkSerialize(jobId));
      assert es[..|es| - 1] == earlier + Entries(jobId, stepId, Lines(Closed(written)));
    }
  }

  lemma ClosingAddsALine(t: Bytes)
    requires Rest(t) != []
    ensures Lines(Closed(t)) == Lines(t) + [Rest(t)] && Rest(Closed(t)) == []
  {
    var r := Rest(t);
    LinesOfMoreText(t, [NEWLINE]);
    NoNewlineBefore(r);
    var i := |r|;
    assert (r + [NEWLINE])[..i] == r && (r + [NEWLINE])[i + 1..] == [];
    assert [r] + Lines([]) == [r];
  }

  lemma {:induction false} NoNewlineBefore(r: Bytes)
    requires NEWLINE !in r
    ensures IndexOf(r + [NEWLINE], NEWLINE) == |r|
  {
    if r != [] {
      assert (r + [NEWLINE])[1..] == r[1..] + [NEWLINE];
      NoNewlineBefore(r[1..]);
    }
  }

  // ---- What the API reads back ----

  predicate Named(e: Entry, name: Bytes) {
    exists k :: k in e && JdkDeserialize(k) == name
  }

  /** At most one field of an entry decodes to `output`; otherwise the reader's choice is not determined. */
  ghost predicate Unambiguous(e: Entry) {
    forall j, k :: j in e && k in e && JdkDeserialize(j) == OUTPUT && JdkDeserialize(k) == OUTPUT ==> j == k
  }

  /** The text an entry contributes: none for the end mark, its decoded output and a newline otherwise. */
  ghost function EntryText(e: Entry): Bytes {
    if Named(e, DONE) || !Named(e, OUTPUT) then []
    else
      var k :| k in e && JdkDeserialize(k) == OUTPUT;
      JdkDeserialize(e[k]) + [NEWLINE]
  }

  ghost function StreamText(es: seq<Entry>): Bytes {
    if es == [] then [] else StreamText(es[..|es| - 1]) + EntryText(es[|es| - 1])
  }

  lemma StreamTextGrows(es: seq<Entry>, e: Entry)
    ensures StreamText(es + [e]) == StreamText(es) + EntryText(e)
  {
    assert (es + [e])[..|es|] == es;
  }

  lemma OutputFieldIsTheText(e: Entry, k: Bytes)
    requires Unambiguous(e) && !Named(e, DONE) && k in e && JdkDeserialize(k) == OUTPUT
    ensures EntryText(e) == JdkDeserialize(e[k]) + [NEWLINE]
  {
    hide JdkDeserialize;
  }

  /** What the reader may take an entry for: it picks whichever field it comes across that decodes to `output`. */
  ghost predicate MayContribute(e: Entry, text: Bytes) {
    if Named(e, DONE) || !Named(e, OUTPUT) then text == []
    else exists k :: k in e && JdkDeserialize(k) == OUTPUT && text == JdkDeserialize(e[k]) + [NEWLINE]
  }

  /** What it may read from a stream. */
  ghost predicate MayRead(es: seq<Entry>, text: Bytes) {
    if es == [] then text == []
    else
      exists n :: 0 <= n <= |text| && MayRead(es[..|es| - 1], text[..n]) && MayContribute(es[|es| - 1], text[n..])
  }

  lemma OneEntryMore(es: seq<Entry>, e: Entry, text: Bytes, more: Bytes)
    requires MayRead(es, text) && MayContribute(e, more)
    ensures MayRead(es + [e], text + more)
  {
    hide MayContribute;
    assert (es + [e])[..|es|] == es;
    assert (text + more)[..|text|] == text && (text + more)[|text|..] == more;
  }

  lemma UnambiguousEntriesSayOneThing(e: Entry, text: Bytes)
    requires Unambiguous(e)
    ensures MayContribute(e, text) <==> text == EntryText(e)
  {
    hide JdkDeserialize;
  }

  /** Where no entry leaves a choice there is one thing to read. */
  lemma {:induction false} UnambiguousStreamsSayOneThing(es: seq<Entry>, text: Bytes)
    requires forall k :: 0 <= k < |es| ==> Unambiguous(es[k])
    ensures MayRead(es, text) ==> text == StreamText(es)
  {
    hide Unambiguous, MayContribute, EntryText;
    if es != [] && MayRead(es, text) {
      var last := |es| - 1;
      var n :| 0 <= n <= |text| && MayRead(es[..last], text[..n]) && MayContribute(es[last], text[n..]);
      UnambiguousStreamsSayOneThing(es[..last], text[..n]);
      UnambiguousEntriesSayOneThing(es[last], text[n..]);
      assert text == text[..n] + text[n..];
    }
  }

  method FindField(e: Entry, name: Bytes) returns (key: Option<Bytes>)
    ensures key.None? <==> !Named(e, name)
    ensures key.Some? ==> key.value in e && JdkDeserialize(key.value) == name
  {
    var keys := e.Keys;
    while keys != {}
      invariant keys <= e.Keys
      invariant forall k :: k in e && k !in keys ==> JdkDeserialize(k) != name
      decreases |keys|
    {
      var k :| k in keys;
      if JdkDeserialize(k) == name { return Some(k); }
      keys := keys - {k};
    }
    return None;
  }

  method ReadEntries(es: seq<Entry>) returns (text: Bytes)
    ensures MayRead(es, text)
  {
    hide JdkDeserialize;
    text := [];
    for i := 0 to |es|
      invariant MayRead(es[..i], text)
    {
      assert es[..i + 1] == es[..i] + [es[i]];
      ghost var before := text;
      var done := FindField(es[i], DONE);
      if done.None? {
        var output := FindField(es[i], OUTPUT);
        if output.Some? {
          text := text + (JdkDeserialize(es[i][output.value]) + [NEWLINE]);
        }
      }
      assert before + [] == before;
      OneEntryMore(es[..i], es[i], before, text[|before|..]);
    }
    assert es[..|es|] == es;
  }

  /** The plain key is tried first, then the serialised one; an empty stream is an error. */
  method ReadFromRedis(redis: Redis, jobId: Bytes) returns (r: Option<Bytes>)
    ensures var es := if redis.Range(jobId) != [] then redis.Range(jobId) else redis.Range(JdkSerialize(jobId));
            && (r.None? <==> es == [])
            && (r.Some? ==> MayRead(es, r.value))
            && (r.Some? && (forall k :: 0 <= k < |es| ==> Unambiguous(es[k])) ==> r.value == StreamText(es))
  {
    hide JdkSerialize, StreamText, Unambiguous, MayRead;
    var es := redis.Range(jobId);
    if |es| == 0 { es := redis.Range(JdkSerialize(jobId)); }
    if |es| == 0 { return None; }
    var text := ReadEntries(es);
    if forall k :: 0 <= k < |es| ==> Unambiguous(es[k]) {
      UnambiguousStreamsSayOneThing(es, text);
    }
    return Some(text);
  }

  lemma FieldNamesDecode()
    ensures JdkDeserialize(JdkSerialize(JOB_ID)) == JOB_ID && JdkDeserialize(JdkSerialize(STEP_ID)) == STEP_ID
    ensures JdkDeserialize(JdkSerialize(LINE_NUMBER)) == LINE_NUMBER && JdkDeserialize(JdkSerialize(OUTPUT)) == OUTPUT
    ensures JdkDeserialize(JdkSerialize(DONE)) == DONE
    ensures OUTPUT != JOB_ID && OUTPUT != STEP_ID && OUTPUT != LINE_NUMBER && OUTPUT != DONE
    ensures DONE != JOB_ID && DONE != STEP_ID && DONE != LINE_NUMBER
  {
    FramingKeepsTheLow16Bits(JOB_ID);
    FramingKeepsTheLow16Bits(STEP_ID);
    FramingKeepsTheLow16Bits(LINE_NUMBER);
    FramingKeepsTheLow16Bits(OUTPUT);
    FramingKeepsTheLow16Bits(DONE);
    assert STEP_ID[0] != OUTPUT[0];
  }

  /** A line as it comes out of the reader: cut to its length modulo 65536. */
  function Cut(line: Bytes): Bytes {
    line[..|line| % 65536]
  }

  function CutAll(lines: seq<Bytes>): seq<Bytes> {
    seq(|lines|, i requires 0 <= i < |lines| => Cut(lines[i]))
  }

  lemma LineEntriesDecode(job: Bytes, step: Bytes, number: int, line: Bytes)
    ensures EntryText(LineEntry(job, step, number, line)) == Cut(line) + [NEWLINE]
    ensures Unambiguous(LineEntry(job, step, number, line))
  {
    FieldNamesDecode();
    FramingKeepsTheLow16Bits(line);
    hide JdkSerialize, JdkDeserialize, Decimal;
    var e := LineEntry(job, step, number, line);
    assert !Named(e, DONE);
    OutputFieldIsTheText(e, JdkSerialize(OUTPUT));
  }

  lemma DoneEntriesDecode(job: Bytes, step: Bytes)
    ensures EntryText(DoneEntry(job, step)) == [] && Unambiguous(DoneEntry(job, step))
  {
    FieldNamesDecode();
    hide JdkSerialize, JdkDeserialize;
    assert JdkSerialize(DONE) in DoneEntry(job, step);
  }

  lemma {:induction false} StreamsDecode(job: Bytes, step: Bytes, lines: seq<Bytes>)
    ensures StreamText(Entries(job, step, lines)) == Join(CutAll(lines))
    ensures StreamText(Entries(job, step, lines) + [DoneEntry(job, step)]) == Join(CutAll(lines))
  {
    hide EntryText, LineEntry, DoneEntry, Cut;
    if lines != [] {
      var n := |lines| - 1;
      StreamsDecode(job, step, lines[..n]);
      LineEntriesDecode(job, step, n + 1, lines[n]);
      StreamTextGrows(Entries(job, step, lines[..n]), LineEntry(job, step, n + 1, lines[n]));
      assert CutAll(lines)[..n] == CutAll(lines[..n]);
      Regroup(Join(CutAll(lines[..n])), Cut(lines[n]), [NEWLINE]);
    }
    DoneEntriesDecode(job, step);
    StreamTextGrows(Entries(job, step, lines), DoneEntry(job, step));
  }

  predicate ShortLines(t: Bytes) {
    forall i :: 0 <= i < |Lines(t)| ==> |Lines(t)[i]| < 65536
  }

  lemma CutIsNoticed(line: Bytes)
    ensures |Cut(line)| <= |line| && (|Cut(line)| == |line| <==> |line| < 65536)
    ensures |line| < 65536 ==> Cut(line) == line
  {
    if |line| < 65536 {
      assert |line| % 65536 == |line|;
      assert line[..|line|] == line;
    }
  }

  lemma {:induction false} CuttingIsNoticed(lines: seq<Bytes>)
    ensures |Join(CutAll(lines))| <= |Join(lines)|
    ensures |Join(CutAll(lines))| == |Join(lines)| <==> forall i :: 0 <= i < |lines| ==> |lines[i]| < 65536
  {
    if lines != [] {
      var n := |lines| - 1;
      CuttingIsNoticed(lines[..n]);
      assert CutAll(lines)[..n] == CutAll(lines[..n]);
      CutIsNoticed(lines[n]);
    }
  }

  lemma CuttingShortens(lines: seq<Bytes>)
    ensures |Join(CutAll(lines))| <= |Join(lines)|
    ensures Join(CutAll(lines)) == Join(lines) <==> forall i :: 0 <= i < |lines| ==> |lines[i]| < 65536
  {
    CuttingIsNoticed(lines);
    if forall i :: 0 <= i < |lines| ==> |lines[i]| < 65536 {
      forall i | 0 <= i < |lines| ensures Cut(lines[i]) == lines[i] { CutIsNoticed(lines[i]); }
      assert CutAll(lines) == lines;
    }
  }

  /** While the executor writes, the reader shows exactly the text up to its last newline,
      if and only if no line is longer than a frame can count. */
  lemma ReaderShowsTheWholeLines(job: Bytes, step: Bytes, t: Bytes)
    ensures StreamText(Entries(job, step, Lines(t))) == t[..|t| - |Rest(t)|] <==> ShortLines(t)
  {
    StreamsDecode(job, step, Lines(t));
    CuttingShortens(Lines(t));
    LinesRebuildTheText(t);
    assert t[..|t| - |Rest(t)|] == Join(Lines(t));
  }

  /** After Close it shows the whole text, with a final newline added when there was none. */
  lemma ClosedStreamsShowEverything(job: Bytes, step: Bytes, t: Bytes)
    ensures StreamText(Entries(job, step, Lines(Closed(t))) + [DoneEntry(job, step)]) == Closed(t) <==>
        ShortLines(Closed(t))
  {
    var c := Closed(t);
    if Rest(t) != [] { ClosingAddsALine(t); }
    StreamsDecode(job, step, Lines(c));
    CuttingShortens(Lines(c));
    LinesRebuildTheText(c);
  }

  lemma {:induction false} StreamTextAppends(a: seq<Entry>, b: seq<Entry>)
    ensures StreamText(a + b) == StreamText(a) + StreamText(b)
  {
    hide EntryText;
    if b == [] {
      assert a + b == a;
    } else {
      var n := |b| - 1;
      assert (a + b)[..|a| + n] == a + b[..n];
      StreamTextAppends(a, b[..n]);
      Regroup(StreamText(a), StreamText(b[..n]), EntryText(b[n]));
    }
  }

  lemma {:induction false} EntriesAppend(job: Bytes, step: Bytes, a: seq<Bytes>, b: seq<Bytes>)
    ensures Entries(job, step, a) <= Entries(job, step, a + b)
  {
    if b == [] {
      assert a + b == a;
    } else {
      var n := |b| - 1;
      assert (a + b)[..|a| + n] == a + b[..n];
      EntriesAppend(job, step, a, b[..n]);
    }
  }

  /** The served log only grows at its end, whatever is written. */
  lemma WritingOnlyAppends(job: Bytes, step: Bytes, t: Bytes, p: Bytes)
    ensures StreamText(Entries(job, step, Lines(t))) <= StreamText(Entries(job, step, Lines(t + p)))
  {
    LinesOfMoreText(t, p);
    EntriesAppend(job, step, Lines(t), Lines(Rest(t) + p));
    var a, b := Entries(job, step, Lines(t)), Entries(job, step, Lines(t + p));
    assert b == a + b[|a|..];
    StreamTextAppends(a, b[|a|..]);
  }

  // ---- Slices for the polling client ----

  /** A parameter as a 64-bit integer; `None` when it is missing or not a number. */
  type Param = p: Option<int> | p.None? || -MAX_INT - 1 <= p.value <= MAX_INT witness None

  function Offset(p: Param): nat {
    if p.None? || p.value < 0 then 0 else p.value
  }

  /** `None` stands for a slice whose bounds are out of range. */
  function LogSlice(data: Bytes, offset: Param, limit: Param): Option<Bytes> {
    var from := Offset(offset);
    if from >= |data| then Some([])
    else
      var to := if limit.Some? && limit.value > 0 && Wrap64(from + limit.value) < |data|
          then Wrap64(from + limit.value) else |data|;
      if from <= to then Some(data[from..to]) else None
  }

  lemma WrappedSums(n: int)
    requires 0 <= n <= 2 * MAX_INT
    ensures Wrap64(n) == if n <= MAX_INT then n else n - 2 * MAX_INT - 2
  {
  }

  /** The slice is the requested part of the log, and nothing else goes wrong than the sum leaving 64 bits. */
  lemma SlicesAreTheRequestedPart(data: Bytes, offset: Param, limit: Param)
    ensures var from := if offset.None? || offset.value < 0 then 0 else offset.value;
            var unlimited := limit.None? || limit.value <= 0;
            && (LogSlice(data, offset, limit).None? <==>
                  from < |data| && !unlimited && from + limit.value > 0x7fff_ffff_ffff_ffff)
            && (LogSlice(data, offset, limit).Some? ==>
                  LogSlice(data, offset, limit).value ==
                    if from >= |data| then []
                    else if unlimited || from + limit.value >= |data| then data[from..]
                    else data[from..from + limit.value])
  {
    hide Wrap64;
    if limit.Some? && limit.value > 0 { WrappedSums(Offset(offset) + limit.value); }
  }

  /** What a client holds after `k` polls: poll i saw `logs[i]` and asked for `limits[i]` bytes from where it stood. */
  function Follow(logs: seq<Bytes>, limits: seq<int>, k: nat): Bytes
    requires k <= |logs| && k <= |limits|
    requires forall i :: 0 <= i < |limits| ==> 0 < limits[i] <= MAX_INT
  {
    if k == 0 then []
    else
      var got := Follow(logs, limits, k - 1);
      if |got| > MAX_INT then got
      else
        var slice := LogSlice(logs[k - 1], Some(|got|), Some(limits[k - 1]));
        if slice.Some? then got + slice.value else got
  }

  function NonEmptyPolls(logs: seq<Bytes>, limits: seq<int>, k: nat): nat
    requires k <= |logs| && k <= |limits|
    requires forall i :: 0 <= i < |limits| ==> 0 < limits[i] <= MAX_INT
  {
    if k == 0 then 0
    else NonEmptyPolls(logs, limits, k - 1) + (if Follow(logs, limits, k) == Follow(logs, limits, k - 1) then 0 else 1)
  }

  /** A log that grows only at its end, polled with positive limits. */
  ghost predicate Polled(logs: seq<Bytes>, limits: seq<int>) {
    && |limits| == |logs|
    && (forall i :: 0 <= i < |limits| ==> 0 < limits[i] <= MAX_INT && |logs[i]| <= MAX_INT)
    && Growing(logs)
  }

  ghost predicate Growing(logs: seq<Bytes>) {
    forall i, j :: 0 <= i < j < |logs| ==> logs[i] <= logs[j]
  }

  /** The client always holds a prefix of the log; a poll brings nothing exactly when the client has all of it or asks
      beyond 64 bits, and there are at most as many other polls as bytes. */
  lemma {:induction false} PollingReadsTheLog(logs: seq<Bytes>, limits: seq<int>, k: nat)
    requires Polled(logs, limits) && 0 < k <= |logs|
    ensures Follow(logs, limits, k) <= logs[k - 1]
    ensures Follow(logs, limits, k) == Follow(logs, limits, k - 1)
            <==> Follow(logs, limits, k - 1) == logs[k - 1] || |Follow(logs, limits, k - 1)| + limits[k - 1] > MAX_INT
    ensures NonEmptyPolls(logs, limits, k) <= |Follow(logs, limits, k)|
  {
    hide LogSlice;
    var got, log := Follow(logs, limits, k - 1), logs[k - 1];
    if k > 1 {
      PollingReadsTheLog(logs, limits, k - 1);
      assert logs[k - 2] <= log;
    }
    assert got <= log;
    SlicesAreTheRequestedPart(log, Some(|got|), Some(limits[k - 1]));
    assert log == got + log[|got|..];
  }

  // ---- From the writes to the screen ----

  /** White space only, as the reader judges it. */
  predicate Blank(t: Bytes) {
    forall k :: 0 <= k < |t| ==> t[k] == 32 || 9 <= t[k] <= 13
  }

  /** The log the API serves for a stream: its text, or while it holds nothing but white space the output stored at
      the end of the step, if there is one. */
  ghost function ServedLog(es: seq<Entry>, stored: Option<Bytes>): Bytes {
    if es != [] && !Blank(StreamText(es)) then StreamText(es)
    else if stored.Some? then stored.value
    else []
  }

  /** The entries of a stream to which `t` has been written, before and after Close. */
  ghost function Sent(job: Bytes, step: Bytes, t: Bytes, closed: bool): seq<Entry> {
    if closed then Entries(job, step, Lines(Closed(t))) + [DoneEntry(job, step)] else Entries(job, step, Lines(t))
  }

  /** What the steps of a job leave in its stream one after the other: pairs of a step and the text written for it. */
  ghost function Steps(job: Bytes, logs: seq<(Bytes, Bytes)>): seq<Entry> {
    if logs == [] then []
    else
      var n := |logs| - 1;
      Steps(job, logs[..n]) + Sent(job, logs[n].0, logs[n].1, true)
  }

  function Texts(logs: seq<(Bytes, Bytes)>): Bytes {
    if logs == [] then [] else Texts(logs[..|logs| - 1]) + Closed(logs[|logs| - 1].1)
  }

  predicate AllShort(logs: seq<(Bytes, Bytes)>) {
    forall i :: 0 <= i < |logs| ==> ShortLines(Closed(logs[i].1))
  }

  lemma {:induction false} StepsAreShown(job: Bytes, logs: seq<(Bytes, Bytes)>)
    ensures |StreamText(Steps(job, logs))| <= |Texts(logs)|
    ensures |StreamText(Steps(job, logs))| == |Texts(logs)| <==> AllShort(logs)
    ensures AllShort(logs) ==> StreamText(Steps(job, logs)) == Texts(logs)
  {
    hide StreamText, Sent, Closed, ShortLines;
    if logs == [] {
      EmptyStreams([]);
    } else {
      var n := |logs| - 1;
      StepsAreShown(job, logs[..n]);
      StreamTextAppends(Steps(job, logs[..n]), Sent(job, logs[n].0, logs[n].1, true));
      SentIsShown(job, logs[n].0, Closed(logs[n].1), logs[n].1, true);
      assert AllShort(logs) <==> AllShort(logs[..n]) && ShortLines(Closed(logs[n].1));
    }
  }

  lemma SentIsShown(job: Bytes, step: Bytes, later: Bytes, t: Bytes, closed: bool)
    requires later == if closed then Closed(t) else t[..|t| - |Rest(t)|]
    ensures var s := StreamText(Sent(job, step, t, closed));
            var short := ShortLines(if closed then Closed(t) else t);
            |s| <= |later| && (|s| == |later| <==> short) && (short ==> s == later)
  {
    var whole := if closed then Closed(t) else t;
    ClosedHasNoRest(t);
    hide Lines, Rest, CutAll, Join, Closed, StreamText, Entries;
    StreamsDecode(job, step, Lines(whole));
    CuttingShortens(Lines(whole));
    CuttingIsNoticed(Lines(whole));
    LinesRebuildTheText(whole);
    assert whole[..|whole| - |Rest(whole)|] == Join(Lines(whole));
    assert later == Join(Lines(whole));
    assert StreamText(Sent(job, step, t, closed)) == Join(CutAll(Lines(whole)));
  }

  lemma ClosedHasNoRest(t: Bytes)
    ensures Rest(Closed(t)) == []
  {
    if Rest(t) != [] { ClosingAddsALine(t); }
  }

  /** The stream belongs to the job: behind the texts of its earlier steps the reader shows the whole lines of the step
      that writes now, or its whole text once it has closed, if and only if none of all their lines is too long. */
  lemma LaterStepsAreShownBehind(job: Bytes, logs: seq<(Bytes, Bytes)>, step: Bytes, t: Bytes, closed: bool)
    ensures var shown := if closed then Closed(t) else t[..|t| - |Rest(t)|];
            StreamText(Steps(job, logs) + Sent(job, step, t, closed)) == Texts(logs) + shown
            <==> AllShort(logs) && ShortLines(if closed then Closed(t) else t)
  {
    hide StreamText, Sent, Closed, ShortLines, Rest, AllShort;
    var shown := if closed then Closed(t) else t[..|t| - |Rest(t)|];
    StepsAreShown(job, logs);
    SentIsShown(job, step, shown, t, closed);
    StreamTextAppends(Steps(job, logs), Sent(job, step, t, closed));
  }

  /** What is served of it as long as no output is stored. */
  ghost function Served(job: Bytes, step: Bytes, t: Bytes, closed: bool): Bytes {
    ServedLog(Sent(job, step, t, closed), None)
  }

  lemma StreamsGrow(job: Bytes, step: Bytes, t: Bytes, u: Bytes, closed: bool)
    requires t <= u
    ensures StreamText(Sent(job, step, t, false)) <= StreamText(Sent(job, step, u, closed))
  {
    var later := if closed then Closed(u) else u;
    assert t <= later;
    var p := later[|t|..];
    assert later == t + p by { hide *; }
    WritingOnlyAppends(job, step, t, p);
    StreamsDecode(job, step, Lines(later));
  }

  lemma EmptyStreams(es: seq<Entry>)
    ensures es == [] ==> StreamText(es) == [] && Blank(StreamText(es))
  {
  }

  lemma ServedLogsGrow(job: Bytes, step: Bytes, t: Bytes, u: Bytes, closed: bool)
    requires t <= u
    ensures Served(job, step, t, false) <= Served(job, step, u, closed)
  {
    hide StreamText, Sent;
    StreamsGrow(job, step, t, u, closed);
    EmptyStreams(Sent(job, step, t, false));
    EmptyStreams(Sent(job, step, u, closed));
    var x, y := StreamText(Sent(job, step, t, false)), StreamText(Sent(job, step, u, closed));
    assert forall k :: 0 <= k < |x| ==> x[k] == y[k];
  }

  /** What a finished log looks like: nothing if there is only white space in it. */
  function Finished(t: Bytes): Bytes {
    if Blank(Closed(t)) then [] else Closed(t)
  }

  lemma FullLogIsServed(job: Bytes, step: Bytes, t: Bytes)
    requires ShortLines(Closed(t))
    ensures Served(job, step, t, true) == Finished(t)
  {
    hide StreamText, Lines, Closed, ShortLines;
    ClosedStreamsShowEverything(job, step, t);
  }

  lemma ServedLogsAreGrowing(job: Bytes, step: Bytes, texts: seq<Bytes>, logs: seq<Bytes>)
    requires |logs| == |texts| && Growing(texts)
    requires forall i :: 0 <= i < |texts| ==> logs[i] == Served(job, step, texts[i], i == |texts| - 1)
    ensures Growing(logs)
  {
    hide Served;
    forall i, j | 0 <= i < j < |logs| ensures logs[i] <= logs[j] {
      ServedLogsGrow(job, step, texts[i], texts[j], j == |texts| - 1);
    }
  }

  lemma FullyPolled(logs: seq<Bytes>, limits: seq<int>)
    requires Growing(logs) && |limits| == |logs|
    requires forall i :: 0 <= i < |limits| ==> 0 < limits[i] <= MAX_INT && |logs[i]| <= MAX_INT
    ensures Polled(logs, limits)
  {
    hide Growing;
  }

  lemma EmptyAtFirst(logs: seq<Bytes>, limits: seq<int>)
    requires forall i :: 0 <= i < |limits| ==> 0 < limits[i] <= MAX_INT
    ensures Follow(logs, limits, 0) == []
  {
  }

  lemma PollsShowPrefixes(logs: seq<Bytes>, limits: seq<int>)
    requires |logs| > 0 && Polled(logs, limits)
    ensures forall k :: 0 <= k <= |logs| ==> Follow(logs, limits, k) <= logs[|logs| - 1]
  {
    hide Follow, LogSlice;
    var last := |logs| - 1;
    forall k | 0 <= k <= |logs| ensures Follow(logs, limits, k) <= logs[last] {
      if k > 0 {
        PollingReadsTheLog(logs, limits, k);
        assert logs[k - 1] <= logs[last];
      } else {
        EmptyAtFirst(logs, limits);
      }
    }
  }

  /** From the executor's writes to the client's screen: poll i happens when `texts[i]` has been written, the last one
      after Close. The client never shows anything but a prefix of the text, and when a poll finally brings nothing,
      within 64 bits, it shows all of it. */
  lemma ClientsSeeWhatWasWritten(job: Bytes, step: Bytes, texts: seq<Bytes>, limits: seq<int>, logs: seq<Bytes>)
    requires |texts| > 0 && |logs| == |texts| && |limits| == |texts|
    requires Growing(texts) && ShortLines(Closed(texts[|texts| - 1]))
    requires forall i :: 0 <= i < |texts| ==> logs[i] == Served(job, step, texts[i], i == |texts| - 1)
    requires forall i :: 0 <= i < |limits| ==> 0 < limits[i] <= MAX_INT && |logs[i]| <= MAX_INT
    ensures Polled(logs, limits)
    ensures forall k :: 0 <= k <= |logs| ==> Follow(logs, limits, k) <= Finished(texts[|texts| - 1])
    ensures var got := Follow(logs, limits, |logs| - 1);
            Follow(logs, limits, |logs|) == got && |got| + limits[|logs| - 1] <= MAX_INT ==>
                got == Finished(texts[|texts| - 1])
  {
    hide *;
    var last := |texts| - 1;
    ServedLogsAreGrowing(job, step, texts, logs);
    FullLogIsServed(job, step, texts[last]);
    assert logs[last] == Finished(texts[last]);
    FullyPolled(logs, limits);
    PollsShowPrefixes(logs, limits);
    PollingReadsTheLog(logs, limits, |logs|);
  }

  // ---- The pieces put together ----

  /** One poll of the log endpoint from offset `offset`. */
  method Poll(redis: Redis, jobId: Bytes, stored: Option<Bytes>, offset: Param, limit: Param)
      returns (data: Option<Bytes>)
    ensures var es := if redis.Range(jobId) != [] then redis.Range(jobId) else redis.Range(JdkSerialize(jobId));
            (forall k :: 0 <= k < |es| ==> Unambiguous(es[k])) ==>
                data == LogSlice(ServedLog(es, stored), offset, limit)
    // the live text as soon as there is more in it than white space, the stored output until then
    ensures var es := if redis.Range(jobId) != [] then redis.Range(jobId) else redis.Range(JdkSerialize(jobId));
            (forall k :: 0 <= k < |es| ==> Unambiguous(es[k])) ==>
              var live := StreamText(es);
              data == LogSlice(if exists k :: 0 <= k < |live| && live[k] !in {9, 10, 11, 12, 13, 32} then live
                               else if stored.Some? then stored.value else [], offset, limit)
  {
    EmptyStreams([]);
    hide JdkSerialize, StreamText, Unambiguous, LogSlice;
    var live := ReadFromRedis(redis, jobId);
    var log: Bytes := [];
    if live.Some? && !Blank(live.value) {
      log := live.value;
    } else if stored.Some? {
      log := stored.value;
    }
    data := LogSlice(log, offset, limit);
  }

  predicate LimitsOk(limits: seq<int>, total: nat) {
    forall i :: 0 <= i < |limits| ==> 0 < limits[i] && total + limits[i] <= MAX_INT
  }

  function Concat(chunks: seq<Bytes>): Bytes {
    if chunks == [] then [] else Concat(chunks[..|chunks| - 1]) + chunks[|chunks| - 1]
  }

  ghost predicate OnlyOurs(redis: Redis, job: Bytes, step: Bytes, es: seq<Entry>)
    reads redis
  {
    && redis.Range(JdkSerialize(job)) == es
    && forall key :: key != JdkSerialize(job) ==> redis.Range(key) == []
  }

  lemma {:induction false} EntriesAreUnambiguous(job: Bytes, step: Bytes, lines: seq<Bytes>)
    ensures forall i :: 0 <= i < |Entries(job, step, lines)| ==> Unambiguous(Entries(job, step, lines)[i])
  {
    hide Unambiguous, LineEntry;
    if lines != [] {
      EntriesAreUnambiguous(job, step, lines[..|lines| - 1]);
      LineEntriesDecode(job, step, |lines|, lines[|lines| - 1]);
    }
  }

  lemma SentIsReadable(redis: Redis, job: Bytes, step: Bytes, t: Bytes, closed: bool)
    requires OnlyOurs(redis, job, step, Sent(job, step, t, closed))
    ensures var es := Sent(job, step, t, closed); forall i :: 0 <= i < |es| ==> Unambiguous(es[i])
    ensures redis.Range(job) == [] && redis.Range(JdkSerialize(job)) == Sent(job, step, t, closed)
  {
    assert |JdkSerialize(job)| == |job| + 7;
    hide Unambiguous, LineEntry, DoneEntry, JdkSerialize;
    EntriesAreUnambiguous(job, step, Lines(if closed then Closed(t) else t));
    DoneEntriesDecode(job, step);
  }

  /** A few polls while `t` has been written: the client goes on from what it has. */
  method PollOn(redis: Redis, job: Bytes, ghost step: Bytes, ghost t: Bytes, ghost closed: bool,
                ghost total: nat, got: Bytes, limits: seq<int>)
    returns (received: Bytes)
    requires OnlyOurs(redis, job, step, Sent(job, step, t, closed))
    requires got <= Served(job, step, t, closed) && |Served(job, step, t, closed)| <= total && LimitsOk(limits, total)
    ensures got <= received <= Served(job, step, t, closed)
    ensures limits != [] && received == got ==> got == Served(job, step, t, closed)
  {
    hide StreamText, JdkSerialize, LogSlice, Unambiguous, Lines, Closed, OnlyOurs, Sent, ServedLog, Blank, Wrap64;
    SentIsReadable(redis, job, step, t, closed);
    received := got;
    for i := 0 to |limits|
      invariant got <= received <= Served(job, step, t, closed)
      invariant i > 0 && received == got ==> got == Served(job, step, t, closed)
    {
      ghost var log := Served(job, step, t, closed);
      var before := received;
      assert total + limits[i] <= MAX_INT && |received| <= |log|;
      SlicesAreTheRequestedPart(log, Some(|received|), Some(limits[i]));
      var data := Poll(redis, job, None, Some(|received|), Some(limits[i]));
      received := received + data.value;
      assert log == before + log[|before|..];
    }
  }

  lemma NothingSentYet(redis: Redis, job: Bytes, step: Bytes)
    requires redis.streams == map[]
    ensures OnlyOurs(redis, job, step, Sent(job, step, [], false))
  {
    hide JdkSerialize;
  }

  /** A chunk written to a stream that holds nothing else. */
  method WriteAlone(streamer: RedisStreamer, p: Bytes)
    requires streamer.Valid() && streamer.earlier == []
    requires OnlyOurs(streamer.redis, streamer.jobId, streamer.stepId,
                      Sent(streamer.jobId, streamer.stepId, streamer.written, false))
    modifies streamer, streamer.redis
    ensures streamer.Valid() && streamer.written == old(streamer.written) + p
    ensures OnlyOurs(streamer.redis, streamer.jobId, streamer.stepId,
                     Sent(streamer.jobId, streamer.stepId, streamer.written, false))
  {
    hide JdkSerialize, Lines, Rest, Entries;
    var _ := streamer.Write(p);
    NothingEarlier(streamer.earlier, Sent(streamer.jobId, streamer.stepId, streamer.written, false));
  }

  method CloseAlone(streamer: RedisStreamer)
    requires streamer.Valid() && streamer.earlier == []
    requires OnlyOurs(streamer.redis, streamer.jobId, streamer.stepId,
                      Sent(streamer.jobId, streamer.stepId, streamer.written, false))
    modifies streamer, streamer.redis
    ensures OnlyOurs(streamer.redis, streamer.jobId, streamer.stepId,
                     Sent(streamer.jobId, streamer.stepId, old(streamer.written), true))
  {
    hide JdkSerialize, Lines, Rest, Entries, Closed;
    ghost var t := streamer.written;
    streamer.Close();
    NothingEarlier(streamer.earlier, Sent(streamer.jobId, streamer.stepId, t, true));
  }

  /** An executor that writes any chunks and closes, and a client that polls after each of them and goes on until a poll
      after Close brings nothing: whatever it shows in between is a beginning of what it shows in the end, and that is
      the whole text unless a line is too long for its frame. */
  method LiveLog(job: Bytes, step: Bytes, chunks: seq<Bytes>, limits: seq<seq<int>>, lastLimit: int)
    returns (received: Bytes, ghost shown: seq<Bytes>)
    requires |limits| == |chunks|
    requires lastLimit > 0 && |Closed(Concat(chunks))| + lastLimit <= MAX_INT
    requires forall i :: 0 <= i < |limits| ==> LimitsOk(limits[i], |Closed(Concat(chunks))|)
    ensures |shown| == |chunks| && Growing(shown + [received])
    ensures ShortLines(Closed(Concat(chunks))) ==> received == Finished(Concat(chunks))
  {
    hide StreamText, JdkSerialize, Lines, Rest, Closed, Entries, Served, Blank, ShortLines, LineEntry, DoneEntry;
    var redis := new Redis();
    var streamer := new RedisStreamer(redis, job, step);
    NothingSentYet(redis, job, step);
    hide OnlyOurs, Growing;
    received, shown := [], [];
    NothingShownYet();
    ghost var whole := Concat(chunks);
    ghost var total := |Closed(whole)|;
    for i := 0 to |chunks|
      invariant streamer.Valid() && streamer.redis == redis && streamer.jobId == job && streamer.stepId == step
      invariant streamer.earlier == []
      invariant fresh(redis) && fresh(streamer)
      invariant streamer.written == Concat(chunks[..i])
      invariant OnlyOurs(redis, job, step, Sent(job, step, streamer.written, false))
      invariant received <= Served(job, step, streamer.written, false)
      invariant |shown| == i && Growing(shown + [received])
    {
      assert chunks[..i + 1][..i] == chunks[..i];
      ghost var before := streamer.written;
      WriteAlone(streamer, chunks[i]);
      ServedLogsGrow(job, step, before, streamer.written, false);
      PartsAreShort(job, step, chunks, i + 1);
      var more := PollOn(redis, job, step, streamer.written, false, total, received, limits[i]);
      MoreIsShown(shown, received, more);
      received, shown := more, shown + [more];
    }
    assert chunks[..|chunks|] == chunks;
    CloseAlone(streamer);
    ServedLogsGrow(job, step, whole, whole, true);
    var all := PollToTheEnd(redis, job, step, whole, received, lastLimit);
    MoreIsShown(shown, received, all);
    received := all;
    FinishedLogIsServed(job, step, whole);
  }

  lemma NothingShownYet()
    ensures Growing([] + [[]])
  {
  }

  lemma MoreIsShown(shown: seq<Bytes>, received: Bytes, more: Bytes)
    requires Growing(shown + [received]) && received <= more
    ensures Growing(shown + [more] + [more]) && Growing(shown + [more])
  {
    var s := shown + [received];
    forall k | 0 <= k < |shown| ensures shown[k] <= more {
      assert s[k] <= s[|shown|];
    }
    forall i, j | 0 <= i <= j < |shown| ensures shown[i] <= shown[j] {
      assert s[i] <= s[j];
    }
  }

  lemma FinishedLogIsServed(job: Bytes, step: Bytes, t: Bytes)
    ensures ShortLines(Closed(t)) ==> Served(job, step, t, true) == Finished(t)
  {
    hide ShortLines, Served, Finished;
    if ShortLines(Closed(t)) {
      FullLogIsServed(job, step, t);
    }
  }

  /** Polls after Close until one brings nothing. */
  method PollToTheEnd(redis: Redis, job: Bytes, ghost step: Bytes, ghost t: Bytes, got: Bytes, limit: int)
    returns (received: Bytes)
    requires OnlyOurs(redis, job, step, Sent(job, step, t, true)) && got <= Served(job, step, t, true)
    requires limit > 0 && |Closed(t)| + limit <= MAX_INT
    ensures received == Served(job, step, t, true)
  {
    hide StreamText, JdkSerialize, Lines, Rest, Closed, Entries, Served, Blank, OnlyOurs;
    received := got;
    ServedIsShort(job, step, t, true);
    while true
      invariant received <= Served(job, step, t, true)
      decreases |Served(job, step, t, true)| - |received|
    {
      var more := PollOn(redis, job, step, t, true, |Closed(t)|, received, [limit]);
      if more == received {
        break;
      }
      received := more;
    }
  }

  lemma NothingEarlier(earlier: seq<Entry>, es: seq<Entry>)
    requires earlier == []
    ensures earlier + es == es
  {
  }

  /** No more is served than was written. */
  lemma ServedIsShort(job: Bytes, step: Bytes, t: Bytes, closed: bool)
    ensures |Served(job, step, t, closed)| <= |Closed(t)|
  {
    hide Lines, Entries, Rest, CutAll, Join;
    var later := if closed then Closed(t) else t;
    StreamsDecode(job, step, Lines(later));
    CuttingShortens(Lines(later));
    LinesRebuildTheText(later);
    hide StreamText;
    assert |StreamText(Sent(job, step, t, closed))| <= |later|;
  }

  lemma {:induction false} ConcatGrows(chunks: seq<Bytes>, n: nat)
    requires n <= |chunks|
    ensures Concat(chunks[..n]) <= Concat(chunks)
    decreases |chunks|
  {
    if n == |chunks| {
      assert chunks[..n] == chunks;
    } else {
      var last := |chunks| - 1;
      assert chunks[..last][..n] == chunks[..n];
      ConcatGrows(chunks[..last], n);
    }
  }

  lemma PartsAreShort(job: Bytes, step: Bytes, chunks: seq<Bytes>, n: nat)
    requires n <= |chunks|
    ensures |Served(job, step, Concat(chunks[..n]), false)| <= |Closed(Concat(chunks))|
  {
    hide Served, Concat;
    ConcatGrows(chunks, n);
    ServedLogsGrow(job, step, Concat(chunks[..n]), Concat(chunks), true);
    ServedIsShort(job, step, Concat(chunks), true);
  }
}
