/**
 The write-ahead log: an append-only file of lines and the rows that are logged but not yet
 committed.  The file keeps what the running process sees apart from what is on stable storage.
 */
module WriteAheadLog {
  import opened Prelude
  import opened Csv

  datatype Codec<!Row> = Codec(toLine: Row -> string, fromLine: string -> Option<Row>)

  // ---------------------------------------------------------------- reading a file back

  predicate IsEol(c: char) { c == '\n' || c == '\r' }

  function Strip(s: string): string {
    if s != "" && IsEol(s[|s| - 1]) then Strip(s[..|s| - 1]) else s
  }

  /** Empty and malformed lines are skipped. */
  function ReadLine<Row>(codec: Codec<Row>, line: string): Option<Row> {
    var s := Strip(line);
    if s == "" then None else codec.fromLine(s)
  }

  function ReadLines<Row>(codec: Codec<Row>, lines: seq<string>): seq<Row> {
    if lines == [] then [] else Opt(ReadLine(codec, lines[0])) + ReadLines(codec, lines[1..])
  }

  /** The rows recovered from a file. */
  function Replay<Row>(codec: Codec<Row>, content: string): seq<Row> {
    ReadLines(codec, SplitOn(content, '\n'))
  }

  // ---------------------------------------------------------------- writing a batch

  function Block<Row>(codec: Codec<Row>, rows: seq<Row>): string {
    if rows == [] then "" else codec.toLine(rows[0]) + "\n" + Block(codec, rows[1..])
  }

  /** The line of `r` contains no line break, so it is read back as it was written. */
  predicate LineSafe<Row>(codec: Codec<Row>, r: Row) {
    var line := codec.toLine(r);
    line != "" && forall i :: 0 <= i < |line| ==> !IsEol(line[i])
  }

  /** The line of `r` reads back as `r`. */
  ghost predicate Faithful<Row>(codec: Codec<Row>, r: Row) {
    LineSafe(codec, r) && codec.fromLine(codec.toLine(r)) == Some(r)
  }

  /** What rows become when they are printed and parsed. */
  function Images<Row>(codec: Codec<Row>, rows: seq<Row>): seq<Row> {
    if rows == [] then [] else Opt(codec.fromLine(codec.toLine(rows[0]))) + Images(codec, rows[1..])
  }

  /** A file on which the next line starts at the beginning of a line. */
  predicate Aligned(content: string) { content == "" || content[|content| - 1] == '\n' }

  /** Everything up to and including the last line break. */
  function Head(content: string): (h: string)
    ensures h <= content && Aligned(h)
    ensures Aligned(content) ==> h == content
  {
    if Aligned(content) then content else Head(content[..|content| - 1])
  }

  /** The torn line after the last line break. */
  function Tail(content: string): string { content[|Head(content)|..] }

  lemma {:induction false} TailOfUnbroken(s: string)
    requires '\n' !in s
    ensures Head(s) == "" && Tail(s) == s
  {
    if s != "" {
      TailOfUnbroken(s[..|s| - 1]);
    }
  }

  lemma {:induction false} TailHasNoBreak(content: string)
    ensures '\n' !in Tail(content)
  {
    if !Aligned(content) {
      var front := content[..|content| - 1];
      TailHasNoBreak(front);
      assert Tail(content) == Tail(front) + [content[|content| - 1]];
    }
  }

  lemma {:induction false} ReadLinesConcat<Row>(codec: Codec<Row>, a: seq<string>, b: seq<string>)
    ensures ReadLines(codec, a + b) == ReadLines(codec, a) + ReadLines(codec, b)
  {
    if a == [] {
      assert a + b == b;
    } else {
      assert (a + b)[1..] == a[1..] + b;
      ReadLinesConcat(codec, a[1..], b);
    }
  }

  lemma ReplayEmpty<Row>(codec: Codec<Row>)
    ensures Replay(codec, "") == []
  {
    assert SplitOn("", '\n') == [""] && [""][1..] == [];
    assert ReadLines(codec, [""]) == Opt(ReadLine(codec, "")) + ReadLines(codec, [""][1..]);
  }

  lemma ReplayLine<Row>(codec: Codec<Row>, a: string, b: string)
    ensures Replay(codec, a + "\n" + b) == Replay(codec, a) + Replay(codec, b)
  {
    SplitOnConcat(a, b, '\n');
    ReadLinesConcat(codec, SplitOn(a, '\n'), SplitOn(b, '\n'));
  }

  lemma ReplayBreak<Row>(codec: Codec<Row>, a: string)
    ensures Replay(codec, a + "\n") == Replay(codec, a)
  {
    assert a + "\n" + "" == a + "\n";
    ReplayLine(codec, a, "");
    ReplayEmpty(codec);
    assert Replay(codec, a) + [] == Replay(codec, a);
  }

  /** Replay distributes over an append to an aligned file. */
  lemma ReplayConcat<Row>(codec: Codec<Row>, f: string, g: string)
    requires Aligned(f)
    ensures Replay(codec, f + g) == Replay(codec, f) + Replay(codec, g)
  {
    if f == "" {
      ReplayEmpty(codec);
      assert f + g == g;
    } else {
      var front := f[..|f| - 1];
      assert f == front + "\n" && f + g == front + "\n" + g;
      ReplayBreak(codec, front);
      ReplayLine(codec, front, g);
    }
  }

  lemma {:induction false} StripSafe(s: string)
    requires s != "" ==> !IsEol(s[|s| - 1])
    ensures Strip(s) == s
  {
  }

  lemma ReplayUnbroken<Row>(codec: Codec<Row>, line: string)
    requires '\n' !in line
    ensures Replay(codec, line) == Opt(ReadLine(codec, line))
  {
    SplitOnFree(line, '\n');
    assert [line][1..] == [];
    assert ReadLines(codec, [line]) == Opt(ReadLine(codec, line)) + [];
  }

  lemma SafeLineReads<Row>(codec: Codec<Row>, r: Row)
    requires LineSafe(codec, r)
    ensures '\n' !in codec.toLine(r)
    ensures ReadLine(codec, codec.toLine(r)) == codec.fromLine(codec.toLine(r))
  {
    StripSafe(codec.toLine(r));
  }

  /** A block that was written whole reads back as the images of its rows. */
  lemma {:induction false} ReplayBlock<Row>(codec: Codec<Row>, rows: seq<Row>)
    requires forall i :: 0 <= i < |rows| ==> LineSafe(codec, rows[i])
    ensures Replay(codec, Block(codec, rows)) == Images(codec, rows)
  {
    ReplayEmpty(codec);
    if rows != [] {
      var line := codec.toLine(rows[0]);
      ReplayLine(codec, line, Block(codec, rows[1..]));
      SafeLineReads(codec, rows[0]);
      ReplayUnbroken(codec, line);
      ReplayBlock(codec, rows[1..]);
    }
  }

  lemma {:induction false} BlockAligned<Row>(codec: Codec<Row>, rows: seq<Row>)
    ensures Aligned(Block(codec, rows))
    ensures rows != [] ==> Block(codec, rows) != ""
  {
    if rows != [] {
      BlockAligned(codec, rows[1..]);
    }
  }

  lemma {:induction false} FaithfulImages<Row>(codec: Codec<Row>, rows: seq<Row>)
    requires forall i :: 0 <= i < |rows| ==> Faithful(codec, rows[i])
    ensures Images(codec, rows) == rows
  {
    if rows != [] {
      FaithfulImages(codec, rows[1..]);
    }
  }

  /**
   What any file holds after a batch was appended: the rows before the torn tail, whatever the
   tail and the first line make together, and the rest of the batch.
   */
  lemma ReplayAppend<Row>(codec: Codec<Row>, f: string, rows: seq<Row>)
    requires rows != [] && forall i :: 0 <= i < |rows| ==> LineSafe(codec, rows[i])
    ensures Replay(codec, f + Block(codec, rows)) ==
            Replay(codec, Head(f)) + Opt(codec.fromLine(Tail(f) + codec.toLine(rows[0])))
            + Images(codec, rows[1..])
  {
    var joined := Tail(f) + codec.toLine(rows[0]);
    TailHasNoBreak(f);
    SafeLineReads(codec, rows[0]);
    assert joined[|joined| - 1] == codec.toLine(rows[0])[|codec.toLine(rows[0])| - 1];
    StripSafe(joined);
    assert f == Head(f) + Tail(f);
    GlueLine(Head(f), Tail(f), codec.toLine(rows[0]), Block(codec, rows[1..]));
    ReplayThree(codec, Head(f), joined, Block(codec, rows[1..]));
    ReplayBlock(codec, rows[1..]);
  }

  lemma GlueLine(h: string, t: string, line: string, rest: string)
    ensures (h + t) + (line + "\n" + rest) == h + ((t + line) + "\n" + rest)
  {
  }

  lemma ReplayThree<Row>(codec: Codec<Row>, h: string, line: string, rest: string)
    requires Aligned(h) && '\n' !in line
    ensures Replay(codec, h + (line + "\n" + rest)) ==
            Replay(codec, h) + Opt(ReadLine(codec, line)) + Replay(codec, rest)
  {
    ReplayConcat(codec, h, line + "\n" + rest);
    ReplayLine(codec, line, rest);
    ReplayUnbroken(codec, line);
  }

  lemma ReplaySplit<Row>(codec: Codec<Row>, f: string)
    ensures Replay(codec, f) == Replay(codec, Head(f)) + Opt(ReadLine(codec, Tail(f)))
  {
    TailHasNoBreak(f);
    assert f == Head(f) + Tail(f);
    ReplayConcat(codec, Head(f), Tail(f));
    ReplayUnbroken(codec, Tail(f));
  }

  /**
   When an append is exact.  The batch is recovered behind the rows already there exactly when
   the file is aligned, or its torn tail reads as nothing and still reads as the first row once
   that row's line is glued to it.
   */
  lemma AppendExactIff<Row>(codec: Codec<Row>, f: string, rows: seq<Row>)
    requires rows != [] && forall i :: 0 <= i < |rows| ==> Faithful(codec, rows[i])
    ensures Replay(codec, f + Block(codec, rows)) == Replay(codec, f) + rows <==>
            || Aligned(f)
            || (ReadLine(codec, Tail(f)) == None
                && codec.fromLine(Tail(f) + codec.toLine(rows[0])) == Some(rows[0]))
  {
    ReplayAppend(codec, f, rows);
    ReplaySplit(codec, f);
    FaithfulImages(codec, rows[1..]);
    OneRowMore(Replay(codec, Head(f)), codec.fromLine(Tail(f) + codec.toLine(rows[0])),
               ReadLine(codec, Tail(f)), rows);
    if Aligned(f) {
      assert Tail(f) == "" && Tail(f) + codec.toLine(rows[0]) == codec.toLine(rows[0]);
    }
  }

  lemma OneRowMore<Row>(h: seq<Row>, joined: Option<Row>, torn: Option<Row>, rows: seq<Row>)
    requires rows != []
    ensures h + Opt(joined) + rows[1..] == h + Opt(torn) + rows <==> torn == None && joined == Some(rows[0])
  {
    var left, right := h + Opt(joined) + rows[1..], h + Opt(torn) + rows;
    if torn == None && joined.Some? {
      assert left[|h|] == joined.value && right[|h|] == rows[0];
      if joined == Some(rows[0]) {
        assert [rows[0]] + rows[1..] == rows;
        assert left == h + ([rows[0]] + rows[1..]);
        assert right == h + rows;
      }
    } else {
      assert |left| < |right|;
    }
  }

  /** Rows in front of the last line break survive whatever is appended. */
  lemma ReplayHeadGrows<Row>(codec: Codec<Row>, a: string, b: string)
    requires a <= b
    ensures Replay(codec, Head(a)) <= Replay(codec, Head(b))
  {
    HeadGrows(a, b);
    var x := Head(b)[|Head(a)|..];
    assert Head(b) == Head(a) + x;
    ReplayConcat(codec, Head(a), x);
  }

  lemma {:induction false} HeadGrows(a: string, b: string)
    requires a <= b
    ensures Head(a) <= Head(b)
  {
    if a != b && !Aligned(b) {
      HeadGrows(a, b[..|b| - 1]);
    }
  }

  /** What the part of a file from `pos` on still yields. */
  ghost function ReplayFrom<Row>(codec: Codec<Row>, content: string, pos: nat): seq<Row>
    requires pos <= |content|
  {
    if pos < |content| then Replay(codec, content[pos..]) else []
  }

  lemma ReplayFromStart<Row>(codec: Codec<Row>, content: string)
    ensures ReplayFrom(codec, content, 0) == Replay(codec, content)
  {
    ReplayEmpty(codec);
    assert content[0..] == content;
  }

  lemma Regroup<Row>(a: seq<Row>, b: seq<Row>, c: seq<Row>)
    ensures a + (b + c) == (a + b) + c
  {
  }

  /** One line of the replay loop. */
  lemma ReplayStep<Row>(codec: Codec<Row>, content: string, pos: nat, n: nat, next: nat)
    requires pos < |content|
    requires n == IndexOf(content[pos..], '\n') && next == Min(pos + n + 1, |content|)
    ensures ReplayFrom(codec, content, pos) ==
            Opt(ReadLine(codec, content[pos..next])) + ReplayFrom(codec, content, next)
  {
    var rest := content[pos..];
    var line := content[pos..pos + n];
    assert rest[..n] == line;
    if n < |rest| {
      assert content[pos..next][..n] == line && content[next - 1] == '\n';
      assert Strip(content[pos..next]) == Strip(line);
      assert rest == line + "\n" + content[next..];
      ReplayLine(codec, line, content[next..]);
      ReplayEmpty(codec);
      ReplayUnbroken(codec, line);
    } else {
      assert content[next..] == "" && rest == content[pos..next];
      ReplayEmpty(codec);
      ReplayUnbroken(codec, rest);
    }
  }

  // ---------------------------------------------------------------- what a line may look like

  /** Carriage returns and blank lines make no difference to what is read. */
  lemma LineEndsIgnored<Row>(codec: Codec<Row>, line: string, rest: string)
    requires '\n' !in line
    ensures Replay(codec, line + "\r\n" + rest) == Replay(codec, line + "\n" + rest)
    ensures Replay(codec, "\n" + rest) == Replay(codec, rest)
  {
    assert line + "\r\n" + rest == (line + "\r") + "\n" + rest;
    ReplayLine(codec, line + "\r", rest);
    ReplayLine(codec, line, rest);
    ReplayUnbroken(codec, line + "\r");
    ReplayUnbroken(codec, line);
    assert (line + "\r")[..|line|] == line;
    assert "" + "\n" + rest == "\n" + rest;
    ReplayLine(codec, "", rest);
    ReplayEmpty(codec);
    assert [] + Replay(codec, rest) == Replay(codec, rest);
  }

  // ---------------------------------------------------------------- the file and the log

  /** What a crash may leave of a file. */
  predicate Survives(cache: string, stable: string, content: string) {
    content == stable || (content <= cache && (stable <= cache ==> stable <= content))
  }

  lemma Further(buf: string, done: nat, n: nat)
    requires done + n <= |buf|
    ensures buf[..done] + buf[done..][..n] == buf[..done + n]
    ensures forall front: string :: (front + buf[..done]) + buf[done..][..n] == front + buf[..done + n]
  {
  }

  /**
   A file: the content the process sees and the content known to be on stable storage.  The three flags say
   which calls may or will fail; the environment sets them as it likes, no method here does.
   */
  class LogFile {
    var cache: string
    var stable: string
    var writesMayFail: bool
    var syncFails: bool
    var truncateFails: bool

    constructor (content: string)
      ensures cache == stable == content
    {
      cache, stable := content, content;
    }

    /** POSIX write in append mode: an error, or at least one byte. */
    method Write(data: string) returns (n: int)
      requires data != ""
      modifies this`cache
      ensures n <= |data| && n != 0 && (!writesMayFail ==> n > 0)
      ensures cache == old(cache) + (if n > 0 then data[..n] else "")
    {
      n := *;
      if 0 < n <= |data| {
        cache := cache + data[..n];
      } else if !writesMayFail {
        n := |data|;
        cache := cache + data;
        assert data[..n] == data;
      } else {
        n := -1;
        assert cache + "" == cache;
      }
    }

    method Sync() returns (ok: bool)
      modifies this`stable
      ensures ok == !syncFails && stable == if ok then cache else old(stable)
    {
      ok := !syncFails;
      if ok {
        stable := cache;
      }
    }

    method Truncate() returns (ok: bool)
      modifies this`cache
      ensures ok == !truncateFails && cache == if ok then "" else old(cache)
    {
      ok := !truncateFails;
      if ok {
        cache := "";
      }
    }
  }

  datatype AppendResult = Appended | WriteFailed | SyncFailed

  class Wal<Row> {
    const codec: Codec<Row>
    const file: LogFile
    const maxBytes: nat
    var pending: seq<Row>
    var sizeBytes: nat

    /** Opens the file and replays it once; an unreadable file leaves nothing pending. */
    constructor (file: LogFile, codec: Codec<Row>, maxBytes: nat, readable: bool)
      ensures this.file == file && this.codec == codec && this.maxBytes == maxBytes
      ensures sizeBytes == |file.cache|
      ensures pending == if readable then Replay(codec, file.cache) else []
    {
      this.file, this.codec, this.maxBytes := file, codec, maxBytes;
      pending, sizeBytes := [], |file.cache|;
      new;
      if sizeBytes == 0 {
        ReplayEmpty(codec);
        return;
      }
      if !readable {
        return;
      }
      pending := ReadRows(codec, file.cache);
    }

    /** Reads line by line, strips line ends and keeps the lines that parse. */
    static method ReadRows(codec: Codec<Row>, content: string) returns (rows: seq<Row>)
      ensures rows == Replay(codec, content)
    {
      rows := [];
      var pos := 0;
      ReplayFromStart(codec, content);
      while pos < |content|
        invariant pos <= |content|
        invariant Replay(codec, content) == rows + ReplayFrom(codec, content, pos)
      {
        var next := GetLine(codec, content, pos);
        var r := ParseLine(codec, content[pos..next]);
        Regroup(rows, Opt(r), ReplayFrom(codec, content, next));
        rows := rows + Opt(r);
        pos := next;
      }
    }

    static method ParseLine(codec: Codec<Row>, line: string) returns (r: Option<Row>)
      ensures r == ReadLine(codec, line)
    {
      var s := StripLine(line);
      if s == "" {
        return None;
      }
      r := codec.fromLine(s);
    }

    /** The end of the line that starts at `pos`, its line break included. */
    static method GetLine(ghost codec: Codec<Row>, content: string, pos: nat) returns (next: nat)
      requires pos < |content|
      ensures pos < next <= |content|
      ensures ReplayFrom(codec, content, pos) ==
              Opt(ReadLine(codec, content[pos..next])) + ReplayFrom(codec, content, next)
    {
      var n := IndexOf(content[pos..], '\n');
      next := if pos + n < |content| then pos + n + 1 else |content|;
      ReplayStep(codec, content, pos, n, next);
    }

    static method StripLine(line: string) returns (s: string)
      ensures s == Strip(line)
    {
      s := line;
      while s != "" && IsEol(s[|s| - 1])
        invariant Strip(s) == Strip(line)
        decreases |s|
      {
        s := s[..|s| - 1];
      }
    }

    method BuildBlock(rows: seq<Row>) returns (buf: string)
      ensures buf == Block(codec, rows)
    {
      buf := "";
      for i := 0 to |rows|
        invariant Block(codec, rows) == buf + Block(codec, rows[i..])
      {
        assert rows[i..][1..] == rows[i + 1..];
        buf := buf + codec.toLine(rows[i]) + "\n";
      }
    }

    /**
     Appends one line per row and forces them to stable storage.  When that fails nothing becomes
     pending, but a prefix of the block may be left behind in the file.
     */
    method WriteBatch(rows: seq<Row>) returns (res: AppendResult, ghost kept: nat)
      modifies this`pending, this`sizeBytes, file`cache, file`stable
      ensures rows == [] || (!file.writesMayFail && !file.syncFails) ==> res.Appended?
      ensures rows != [] && file.syncFails ==> !res.Appended?
      ensures res.Appended? ==> file.cache == old(file.cache) + Block(codec, rows)
      ensures res.Appended? && rows != [] ==> file.stable == file.cache
      ensures res.Appended? ==> pending == old(pending) + rows
      ensures res.Appended? ==> sizeBytes == old(sizeBytes) + |Block(codec, rows)|
      ensures !res.Appended? ==> pending == old(pending) && sizeBytes == old(sizeBytes)
      ensures !res.Appended? ==> kept <= |Block(codec, rows)|
                                 && file.cache == old(file.cache) + Block(codec, rows)[..kept]
      ensures !res.Appended? || rows == [] ==> file.stable == old(file.stable)
    {
      kept := 0;
      if |rows| == 0 {
        return Appended, 0;
      }
      var buf := BuildBlock(rows);
      var done := 0;
      while done < |buf|
        invariant done <= |buf|
        invariant file.cache == old(file.cache) + buf[..done]
        invariant pending == old(pending) && sizeBytes == old(sizeBytes) && file.stable == old(file.stable)
      {
        var n := file.Write(buf[done..]);
        if n < 0 {
          return WriteFailed, done;
        }
        Further(buf, done, n);
        done := done + n;
      }
      assert buf[..|buf|] == buf;
      var ok := file.Sync();
      if !ok {
        return SyncFailed, |buf|;
      }
      pending := pending + rows;
      sizeBytes := sizeBytes + |buf|;
      res := Appended;
    }

    /** Empties the file after a confirmed database write; the final sync is not checked. */
    method Commit() returns (ok: bool)
      modifies this`pending, this`sizeBytes, file`cache, file`stable
      ensures ok == !file.truncateFails
      ensures ok ==> file.cache == "" && pending == [] && sizeBytes == 0
      ensures ok ==> file.stable == if file.syncFails then old(file.stable) else ""
      ensures !ok ==> pending == old(pending) && sizeBytes == old(sizeBytes)
      ensures !ok ==> file.cache == old(file.cache) && file.stable == old(file.stable)
    {
      ok := file.Truncate();
      if ok {
        var synced := file.Sync();
        pending := [];
        sizeBytes := 0;
      }
    }

    predicate Dirty() reads this { pending != [] }

    predicate OverCap() reads this { sizeBytes > maxBytes }
  }
}
