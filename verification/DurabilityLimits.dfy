/** The run that durability excludes: an append behind a torn tail that was never trimmed. */
module DurabilityLimits {
  import opened Prelude
  import opened Decimal
  import opened Csv
  import opened Rows
  import opened RowCodecs
  import opened WriteAheadLog
  import opened TickTable
  import opened Durability
  import opened LogCodecs

  /**
   A first append torn inside its first line, a crash, a restart that recovers nothing and therefore
   trims nothing, an acknowledged append behind the torn bytes, a second crash and a second restart.
   */
  function TornRun(codec: Codec<TickRow>, a: TickRow, k: nat, b: TickRow): seq<Event> {
    var torn := Take(codec.toLine(a), k);
    [AppendFails([a], k)] + [Crash(torn)] + [Reopen(true)]
    + [Append([b])] + [Crash(torn + Block(codec, [b]))] + [Reopen(true)]
  }

  function AfterTorn(s: System, torn: string, b: TickRow): System {
    Step(Step(Step(s, Append([b])), Crash(torn + Block(s.codec, [b]))), Reopen(true))
  }

  lemma TornRunSteps(codec: Codec<TickRow>, a: TickRow, k: nat, b: TickRow)
    ensures var torn := Take(codec.toLine(a), k);
            Run(Start(codec), TornRun(codec, a, k, b)) ==
            AfterTorn(Step(Step(Step(Start(codec), AppendFails([a], k)), Crash(torn)), Reopen(true)), torn, b)
  {
    var torn := Take(codec.toLine(a), k);
    var e1, e2, e4, e5 := AppendFails([a], k), Crash(torn), Append([b]), Crash(torn + Block(codec, [b]));
    var s0 := Start(codec);
    assert [e1] == [] + [e1];
    RunSnoc(s0, [], e1);
    RunSnoc(s0, [e1], e2);
    RunSnoc(s0, [e1] + [e2], Reopen(true));
    RunSnoc(s0, [e1] + [e2] + [Reopen(true)], e4);
    RunSnoc(s0, [e1] + [e2] + [Reopen(true)] + [e4], e5);
    RunSnoc(s0, [e1] + [e2] + [Reopen(true)] + [e4] + [e5], Reopen(true));
  }

  /** The first restart recovers nothing and leaves the torn bytes in the file. */
  lemma TornStart(codec: Codec<TickRow>, a: TickRow, k: nat, torn: string)
    requires LineSafe(codec, a) && k <= |codec.toLine(a)| && torn == codec.toLine(a)[..k]
    requires torn == "" || codec.fromLine(torn) == None
    ensures Step(Step(Step(Start(codec), AppendFails([a], k)), Crash(torn)), Reopen(true))
         == Start(codec).(cache := torn, stable := torn)
  {
    TornReadsNothing(codec, a, k, torn);
    assert Take(Block(codec, [a]), k) == torn && "" + torn == torn;
    assert Step(Start(codec), AppendFails([a], k)) == Start(codec).(cache := torn);
    CrashAndRestart(Start(codec).(cache := torn), torn);
  }

  lemma TornReadsNothing(codec: Codec<TickRow>, a: TickRow, k: nat, torn: string)
    requires LineSafe(codec, a) && k <= |codec.toLine(a)| && torn == codec.toLine(a)[..k]
    requires torn == "" || codec.fromLine(torn) == None
    ensures Replay(codec, torn) == []
  {
    assert forall i :: 0 <= i < |torn| ==> torn[i] == codec.toLine(a)[i];
    StripSafe(torn);
    ReplayUnbroken(codec, torn);
  }

  lemma CrashAndRestart(s: System, content: string)
    requires s.phase == Idle && s.cache == content && s.pending == [] && Replay(s.codec, content) == []
    requires s.stable == ""
    ensures Step(Step(s, Crash(content)), Reopen(true)) == s.(stable := content)
  {
    assert Survives(content, "", content);
  }

  lemma ReplayTornAppend(codec: Codec<TickRow>, torn: string, b: TickRow)
    requires LineSafe(codec, b) && '\n' !in torn
    ensures Replay(codec, torn + Block(codec, [b])) == Opt(codec.fromLine(torn + codec.toLine(b)))
  {
    ReplayAppend(codec, torn, [b]);
    TailOfUnbroken(torn);
    ReplayEmpty(codec);
    assert [b][1..] == [];
  }

  /**
   What that run keeps.  With a torn piece that does not parse on its own, the acknowledged trade
   survives exactly when the piece and its line together still read as the same trade.
   */
  lemma TornRunKeepsIff(codec: Codec<TickRow>, a: TickRow, k: nat, b: TickRow)
    requires LineSafe(codec, a) && Faithful(codec, b) && k <= |codec.toLine(a)|
    requires var torn := codec.toLine(a)[..k]; torn == "" || codec.fromLine(torn) == None
    ensures var s := Run(Start(codec), TornRun(codec, a, k, b));
            var read := codec.fromLine(codec.toLine(a)[..k] + codec.toLine(b));
            && s.acked == [[b]] && s.phase != Down
            && (Kept(s.db, s.pending, [b], KeyOf(b)) <==> read.Some? && KeyOf(read.value) == KeyOf(b))
  {
    var torn := codec.toLine(a)[..k];
    var read := codec.fromLine(torn + codec.toLine(b));
    assert forall i :: 0 <= i < |torn| ==> torn[i] == codec.toLine(a)[i];
    TornStart(codec, a, k, torn);
    TornRunSteps(codec, a, k, b);
    ReplayTornAppend(codec, torn, b);
    AfterTornState(Start(codec).(cache := torn, stable := torn), torn, b);
    KeptIff(map[], b, read);
  }

  lemma KeptIff(db: Table, b: TickRow, read: Option<TickRow>)
    requires db == map[]
    ensures Kept(db, Opt(read), [b], KeyOf(b)) <==> read.Some? && KeyOf(read.value) == KeyOf(b)
  {
    OneOccurrence(b, KeyOf(b));
    assert (KeyOf(b), 0) !in db;
    if read.Some? {
      OneOccurrence(read.value, KeyOf(b));
    }
  }

  lemma AfterTornState(s: System, torn: string, b: TickRow)
    requires s.phase == Idle && s.cache == torn && s.db == map[] && s.acked == []
    ensures var s' := AfterTorn(s, torn, b);
            && s'.pending == Replay(s.codec, torn + Block(s.codec, [b]))
            && s'.db == map[] && s'.acked == [[b]] && s'.phase != Down
  {
  }

  lemma OneOccurrence(r: TickRow, k: TickKey)
    ensures Occurrences([r], k) == if KeyOf(r) == k then 1 else 0
    ensures Occurrences([], k) == 0
  {
    assert [r][..0] == [];
  }

  // ---------------------------------------------------------------- an unread restart

  /** An acknowledged append, a crash, a restart that cannot read the file, and one more batch to the end. */
  function UnreadRun(codec: Codec<TickRow>, a: TickRow, b: TickRow): seq<Event> {
    [Append([a])] + [Crash(Block(codec, [a]))] + [Reopen(false)] + [Append([b])] + [DbWrites] + [Commits(true)]
  }

  /** The first trade survives that run exactly when the second is the same trade; its file is empty, too. */
  lemma UnreadRunKeepsIff(codec: Codec<TickRow>, a: TickRow, b: TickRow)
    ensures var s := Run(Start(codec), UnreadRun(codec, a, b));
            && s.acked == [[a], [b]] && s.phase != Down && s.cache == s.stable == ""
            && (Kept(s.db, s.pending, [a], KeyOf(a)) <==> KeyOf(a) == KeyOf(b))
  {
    var s0, block := Start(codec), Block(codec, [a]);
    var e1, e2, e4 := Append([a]), Crash(block), Append([b]);
    assert [e1] == [] + [e1];
    RunSnoc(s0, [], e1);
    RunSnoc(s0, [e1], e2);
    RunSnoc(s0, [e1] + [e2], Reopen(false));
    RunSnoc(s0, [e1] + [e2] + [Reopen(false)], e4);
    RunSnoc(s0, [e1] + [e2] + [Reopen(false)] + [e4], DbWrites);
    RunSnoc(s0, [e1] + [e2] + [Reopen(false)] + [e4] + [DbWrites], Commits(true));
    var down := s0.(phase := Down, cache := block, stable := block, acked := [[a]]);
    AppendThenCrash(codec, a);
    AfterUnreadIs(down, [b], true);
    OneAfterAnother(a, b);
  }

  lemma AppendThenCrash(codec: Codec<TickRow>, a: TickRow)
    ensures var s0, block := Start(codec), Block(codec, [a]);
            Step(Step(s0, Append([a])), Crash(block)) ==
            s0.(phase := Down, cache := block, stable := block, acked := [[a]])
  {
    var block := Block(codec, [a]);
    assert "" + block == block && [] + [[a]] == [[a]] && [] + [a] == [a];
  }

  lemma OneAfterAnother(a: TickRow, b: TickRow)
    ensures Kept(Write(map[], [b]), [], [a], KeyOf(a)) <==> KeyOf(a) == KeyOf(b)
  {
    var k := KeyOf(a);
    OneOccurrence(a, k);
    OneOccurrence(b, k);
    WrittenKeys(map[], [b], k, 0);
    assert (k, 0) in Write(map[], [b]) <==> KeyOf(b) == k;
  }

  // ---------------------------------------------------------------- the tick codec

  /** Digits in front of a numeral make its value greater. */
  lemma {:induction false} PrependDigits(p: string, s: string)
    requires p != "" && AllDigits(p) && p[0] != '0' && AllDigits(s)
    ensures AllDigits(p + s) && Value(p + s) > Value(s)
  {
    if s != "" {
      PrependDigits(p, s[..|s| - 1]);
      assert (p + s)[..|p + s| - 1] == p + s[..|s| - 1];
    } else {
      assert p + s == p;
      LeadingDigit(p);
    }
  }

  lemma {:induction false} LeadingDigit(p: string)
    requires p != "" && AllDigits(p) && p[0] != '0'
    ensures Value(p) > 0
  {
    if |p| > 1 {
      LeadingDigit(p[..|p| - 1]);
    } else {
      assert p[..0] == "";
    }
  }

  /** Torn digits in front of a tick line change the time stamp that is read. */
  lemma TornDigitsChangeRow(p: string, r: TickRow)
    requires p != "" && AllDigits(p) && p[0] != '0' && r.ts > 0
    ensures var got := TickFromLine(p + TickToLine(r));
            got.Some? ==> got.value.ts != r.ts
  {
    var digits := NatText(r.ts);
    GluedFields(p, r);
    SplitCommaFree(p);
    assert Fields(p + TickToLine(r))[0] == p + digits;
    LargerRead(p, digits);
  }

  lemma LargerRead(p: string, digits: string)
    requires p != "" && AllDigits(p) && p[0] != '0' && digits != "" && AllDigits(digits)
    ensures var got := ParseInt64(p + digits); got.Some? ==> got.value > Value(digits)
  {
    PrependDigits(p, digits);
    DigitRunOf(p + digits, "");
    assert p + digits + "" == p + digits;
  }

  function TickTexts(r: TickRow): seq<string> {
    [IntText(r.ts), PriceText(r.price), IntText(r.size), if r.isBuy then "1" else "0"]
    + Split(r.symbol) + Split(r.exchange)
  }

  /** The fields of a torn piece glued to a tick line: the piece's last field runs into the first of the line. */
  lemma GluedFields(torn: string, r: TickRow)
    ensures Fields(torn + TickToLine(r)) == Glued(Split(torn), TickTexts(r))
  {
    TickFields(r);
    SplitGlue(torn, TickToLine(r));
  }

  /** A tear before the exchange leaves at most six fields, the sixth of them empty. */
  lemma TornFieldCount(a: TickRow, k: nat)
    requires TickPrintable(a) && k <= |TickHead(a)|
    ensures k <= |TickToLine(a)|
    ensures var f := Split(TickToLine(a)[..k]); |f| <= 6 && (|f| == 6 ==> f[5] == "")
  {
    var h := TickHead(a);
    SplitCommaFree(a.symbol);
    if k == |h| {
      var r := a.(exchange := "");
      assert TickToLine(a)[..k] == TickToLine(r);
      TickFields(r);
    } else {
      var body := h[..|h| - 1];
      assert TickToLine(a)[..k] == body[..k];
      SplitPrefix(body, k);
      TickHeadFields(a);
    }
  }

  /** Glued to a piece with a comma in it, a tick whose exchange is no numeral reads as another instrument. */
  lemma GluedExchange(torn: string, b: TickRow)
    requires TickPrintable(b) && !NumeralChars(b.exchange)
    requires var f := Split(torn); 2 <= |f| <= 6 && (|f| == 6 ==> f[5] == "")
    ensures var got := TickFromLine(torn + TickToLine(b));
            got.Some? ==> got.value.symbol != b.symbol || got.value.exchange != b.exchange
  {
    var f, n, ts := Fields(torn + TickToLine(b)), |Split(torn)|, TickTexts(b);
    GluedFields(torn, b);
    SplitCommaFree(b.symbol);
    SplitCommaFree(b.exchange);
    NumeralsAreClean(b.ts);
    NumeralsAreClean(b.price);
    NumeralsAreClean(b.size);
    assert |ts| == 6 && forall i :: 0 <= i < 4 ==> NumeralChars(ts[i]);
    if n == 6 {
      assert f[5] == "" + ts[0] == ts[0];
    } else {
      assert f[5] == ts[6 - n];
      assert n == 2 ==> f[4] == ts[3];
    }
  }

  /** A tear inside the time stamp leaves digits. */
  lemma TornInTimestamp(a: TickRow, k: nat)
    requires a.ts > 0 && 1 <= k <= |IntText(a.ts)|
    ensures k <= |TickToLine(a)|
    ensures var p := TickToLine(a)[..k]; p != "" && AllDigits(p) && p[0] != '0'
  {
    var digits, line := NatText(a.ts), TickToLine(a);
    assert digits <= line;
    assert line[..k] == digits[..k];
  }

  /**
   An append torn anywhere in front of the exchange loses the acknowledged tick of the next one.  Where the
   tear is past the time stamp the next tick's exchange must not be a numeral.
   */
  lemma UntrimmedTailLosesTick(a: TickRow, k: nat, b: TickRow)
    requires Faithful(TICKS, a) && Faithful(TICKS, b) && a.ts > 0 && b.ts > 0
    requires 1 <= k <= |TickHead(a)| && (k > |IntText(a.ts)| ==> !NumeralChars(b.exchange))
    ensures var s := Run(Start(TICKS), TornRun(TICKS, a, k, b));
            s.acked == [[b]] && s.phase != Down && !Kept(s.db, s.pending, [b], KeyOf(b))
  {
    var torn := TickToLine(a)[..k];
    TickRoundTrip(a);
    TickRoundTrip(b);
    TornTick(a, k);
    TornFieldCount(a, k);
    SplitCommaFree(torn);
    if k <= |IntText(a.ts)| {
      PastTimestamp(a, k);
      TornInTimestamp(a, k);
      TornDigitsChangeRow(torn, b);
    } else {
      PastTimestamp(a, k);
      GluedExchange(torn, b);
    }
    TornRunKeepsIff(TICKS, a, k, b);
  }

  /** A cut line holds a comma exactly when the cut is past the time stamp. */
  lemma PastTimestamp(a: TickRow, k: nat)
    requires k <= |TickToLine(a)|
    ensures CommaFree(TickToLine(a)[..k]) <==> k <= |IntText(a.ts)|
  {
    var text, line := IntText(a.ts), TickToLine(a);
    NumeralsAreCommaFree(a.ts);
    assert text <= line && line[|text|] == ',';
    if k <= |text| {
      assert line[..k] == text[..k];
      assert forall i :: 0 <= i < k ==> text[..k][i] in text;
    } else {
      assert line[..k][|text|] == ',';
    }
  }
}
