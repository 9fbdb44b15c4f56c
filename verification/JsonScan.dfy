/**
 The hand-written top-level key finder over JSON text (RFC 8259, sections 4 and 7) and the string
 extractor built on it.
 */
module JsonScan {
  import opened Prelude

  predicate IsWs(c: char) { c == ' ' || c == '\t' || c == '\r' || c == '\n' }

  predicate AllWs(s: string) { forall i :: 0 <= i < |s| ==> IsWs(s[i]) }

  function SkipWs(s: string): string {
    if s != "" && IsWs(s[0]) then SkipWs(s[1..]) else s
  }

  /** The next character that is not white space is a colon. */
  predicate ColonNext(s: string) {
    var t := SkipWs(s);
    t != "" && t[0] == ':'
  }

  function Quoted(raw: string): string { "\"" + raw + "\"" }

  function Shift(n: nat, o: Option<nat>): Option<nat> {
    match o
    case None => None
    case Some(v) => Some(n + v)
  }

  function NextDepth(c: char, depth: int): int {
    if c == '{' || c == '[' then depth + 1
    else if c == '}' || c == ']' then depth - 1
    else depth
  }

  /**
   The scan from one position on: the offset of the quoted key `needle` standing at depth 1 outside
   every string and followed by a colon.
   */
  function Scan(s: string, needle: string, depth: int, inStr: bool): Option<nat>
    decreases |s|
  {
    if s == "" then None
    else if inStr then
      if s[0] == '\\' then
        if |s| == 1 then None else Shift(2, Scan(s[2..], needle, depth, true))
      else Shift(1, Scan(s[1..], needle, depth, s[0] != '"'))
    else if s[0] == '"' then
      if depth == 1 && needle <= s && ColonNext(s[|needle|..]) then Some(0)
      else Shift(1, Scan(s[1..], needle, depth, true))
    else Shift(1, Scan(s[1..], needle, NextDepth(s[0], depth), false))
  }

  /** None stands for `npos`. */
  function FindTopKey(s: string, key: string): (r: Option<nat>)
    ensures r.Some? ==> r.value < |s|
  {
    ScanInRange(s, Quoted(key), 0, false);
    Scan(s, Quoted(key), 0, false)
  }

  lemma {:induction false} ScanInRange(s: string, needle: string, depth: int, inStr: bool)
    ensures var r := Scan(s, needle, depth, inStr); r.Some? ==> r.value < |s|
    decreases |s|
  {
    if s != "" {
      if inStr && s[0] == '\\' {
        if |s| > 1 {
          ScanInRange(s[2..], needle, depth, true);
        }
      } else if inStr {
        ScanInRange(s[1..], needle, depth, s[0] != '"');
      } else {
        ScanInRange(s[1..], needle, depth, true);
        ScanInRange(s[1..], needle, NextDepth(s[0], depth), false);
      }
    }
  }

  lemma SkipWsStep(s: string, j: nat)
    requires j < |s| && IsWs(s[j])
    ensures SkipWs(s[j..]) == SkipWs(s[j + 1..])
  {
    assert s[j..][1..] == s[j + 1..];
  }

  method AfterWs(s: string, from: nat) returns (j: nat)
    requires from <= |s|
    ensures from <= j <= |s| && s[j..] == SkipWs(s[from..])
  {
    j := from;
    while j < |s| && IsWs(s[j])
      invariant from <= j <= |s|
      invariant SkipWs(s[j..]) == SkipWs(s[from..])
    {
      SkipWsStep(s, j);
      j := j + 1;
    }
  }

  /** The same with the position the scan has reached. */
  lemma FindStep(s: string, i: nat, needle: string, depth: int, inStr: bool)
    requires i < |s|
    ensures Shift(i, Scan(s[i..], needle, depth, inStr)) ==
            if inStr && s[i] == '\\' then
              (if i + 1 == |s| then None else Shift(i + 2, Scan(s[i + 2..], needle, depth, true)))
            else if inStr then Shift(i + 1, Scan(s[i + 1..], needle, depth, s[i] != '"'))
            else if s[i] == '"' then
              (if depth == 1 && needle <= s[i..] && ColonNext(s[i..][|needle|..]) then Some(i)
               else Shift(i + 1, Scan(s[i + 1..], needle, depth, true)))
            else Shift(i + 1, Scan(s[i + 1..], needle, NextDepth(s[i], depth), false))
  {
    ScanStep(s, i, needle, depth, inStr);
  }

  lemma ScanStep(s: string, i: nat, needle: string, depth: int, inStr: bool)
    requires i < |s|
    ensures var rest := s[i..];
            Scan(rest, needle, depth, inStr) ==
            if inStr && s[i] == '\\' then
              (if i + 1 == |s| then None else Shift(2, Scan(s[i + 2..], needle, depth, true)))
            else if inStr then Shift(1, Scan(s[i + 1..], needle, depth, s[i] != '"'))
            else if s[i] == '"' then
              (if depth == 1 && needle <= rest && ColonNext(rest[|needle|..]) then Some(0)
               else Shift(1, Scan(s[i + 1..], needle, depth, true)))
            else Shift(1, Scan(s[i + 1..], needle, NextDepth(s[i], depth), false))
  {
    assert s[i..][1..] == s[i + 1..];
    if i + 2 <= |s| {
      assert s[i..][2..] == s[i + 2..];
    }
  }

  /** The quoted key stands at `i` and the next character behind it is a colon. */
  method KeyAt(s: string, i: nat, needle: string) returns (found: bool)
    requires i <= |s|
    ensures found <==> needle <= s[i..] && ColonNext(s[i..][|needle|..])
  {
    if i + |needle| > |s| || s[i..i + |needle|] != needle {
      return false;
    }
    assert s[i..][|needle|..] == s[i + |needle|..];
    var j := AfterWs(s, i + |needle|);
    found := j < |s| && s[j] == ':';
  }

  /** The scanning loop over depth, string state and position. */
  method FindKey(s: string, key: string) returns (pos: Option<nat>)
    ensures pos == FindTopKey(s, key)
  {
    var needle := "\"" + key + "\"";
    var depth := 0;
    var inStr := false;
    var i := 0;
    assert s[0..] == s;
    while i < |s|
      invariant i <= |s| + 1
      invariant FindTopKey(s, key) ==
                if i <= |s| then Shift(i, Scan(s[i..], needle, depth, inStr)) else None
    {
      FindStep(s, i, needle, depth, inStr);
      var c := s[i];
      if inStr {
        if c == '\\' {
          i := i + 2;
          continue;
        }
        if c == '"' {
          inStr := false;
        }
        i := i + 1;
        continue;
      }
      if c == '"' {
        if depth == 1 {
          var found := KeyAt(s, i, needle);
          if found {
            return Some(i);
          }
        }
        inStr := true;
        i := i + 1;
        continue;
      }
      if c == '{' || c == '[' {
        depth := depth + 1;
      } else if c == '}' || c == ']' {
        depth := depth - 1;
      }
      i := i + 1;
    }
    pos := None;
  }

  // ---------------------------------------------------------------- JSON texts

  /** A JSON text with all its white space and the raw spelling of its strings. */
  datatype Value = Str(raw: string) | Atom(text: string) | Arr(items: Items) | Obj(members: Members)

  datatype Items =
    | NoItems(ws: string)
    | LastItem(pre: string, v: Value, post: string)
    | MoreItems(pre: string, v: Value, post: string, rest: Items)

  datatype Members =
    | NoMembers(ws: string)
    | LastMember(pre: string, key: string, mid: string, gap: string, v: Value, post: string)
    | MoreMembers(pre: string, key: string, mid: string, gap: string, v: Value, post: string, rest: Members)

  function Render(v: Value): string {
    match v
    case Str(raw) => "\"" + (raw + "\"")
    case Atom(text) => text
    case Arr(items) => "[" + (RenderItems(items) + "]")
    case Obj(members) => "{" + (RenderMembers(members) + "}")
  }

  function RenderItems(items: Items): string {
    match items
    case NoItems(ws) => ws
    case LastItem(pre, v, post) => pre + (Render(v) + post)
    case MoreItems(pre, v, post, rest) => pre + (Render(v) + (post + ("," + RenderItems(rest))))
  }

  function RenderMembers(members: Members): string {
    match members
    case NoMembers(ws) => ws
    case LastMember(pre, key, mid, gap, v, post) =>
      pre + (Quoted(key) + (mid + (":" + (gap + (Render(v) + post)))))
    case MoreMembers(pre, key, mid, gap, v, post, rest) =>
      pre + (Quoted(key) + (mid + (":" + (gap + (Render(v) + (post + ("," + RenderMembers(rest))))))))
  }

  /** Every quote is escaped and every backslash escapes something. */
  predicate WellEscaped(raw: string) {
    if raw == "" then true
    else if raw[0] == '\\' then |raw| >= 2 && WellEscaped(raw[2..])
    else raw[0] != '"' && WellEscaped(raw[1..])
  }

  predicate PlainChar(c: char) { c != '"' && c != '{' && c != '}' && c != '[' && c != ']' }

  predicate Plain(s: string) { forall i :: 0 <= i < |s| ==> PlainChar(s[i]) }

  predicate WellFormed(v: Value) {
    match v
    case Str(raw) => WellEscaped(raw)
    case Atom(text) => Plain(text)
    case Arr(items) => WellFormedItems(items)
    case Obj(members) => WellFormedMembers(members)
  }

  predicate WellFormedItems(items: Items) {
    match items
    case NoItems(ws) => AllWs(ws)
    case LastItem(pre, v, post) => AllWs(pre) && WellFormed(v) && AllWs(post)
    case MoreItems(pre, v, post, rest) =>
      AllWs(pre) && WellFormed(v) && AllWs(post) && !rest.NoItems? && WellFormedItems(rest)
  }

  predicate WellFormedMembers(members: Members) {
    match members
    case NoMembers(ws) => AllWs(ws)
    case LastMember(pre, key, mid, gap, v, post) =>
      AllWs(pre) && WellEscaped(key) && AllWs(mid) && AllWs(gap) && WellFormed(v) && AllWs(post)
    case MoreMembers(pre, key, mid, gap, v, post, rest) =>
      && AllWs(pre) && WellEscaped(key) && AllWs(mid) && AllWs(gap) && WellFormed(v) && AllWs(post)
      && !rest.NoMembers? && WellFormedMembers(rest)
  }

  /** Where the first member spelled `key` has its opening quote, counted from the start of the members. */
  function FirstMember(members: Members, key: string): Option<nat> {
    match members
    case NoMembers(_) => None
    case LastMember(pre, k, _, _, _, _) => if k == key then Some(|pre|) else None
    case MoreMembers(pre, k, mid, gap, v, post, rest) =>
      if k == key then Some(|pre|)
      else Shift(|RenderMembers(members)| - |RenderMembers(rest)|, FirstMember(rest, key))
  }

  // ---------------------------------------------------------------- skipping over text

  lemma {:induction false} SkipWsOver(ws: string, rest: string)
    requires AllWs(ws)
    ensures SkipWs(ws + rest) == SkipWs(rest)
  {
    if ws == "" {
      assert ws + rest == rest;
    } else {
      assert (ws + rest)[1..] == ws[1..] + rest;
      SkipWsOver(ws[1..], rest);
    }
  }

  lemma ShiftShift(a: nat, b: nat, o: Option<nat>)
    ensures Shift(a, Shift(b, o)) == Shift(a + b, o)
  {
  }

  /** Text without quotes and brackets does not change the state of the scan. */
  lemma {:induction false} PlainSkip(t: string, rest: string, needle: string, d: int)
    requires Plain(t)
    ensures Scan(t + rest, needle, d, false) == Shift(|t|, Scan(rest, needle, d, false))
  {
    if t == "" {
      assert t + rest == rest;
      ShiftShift(0, 0, Scan(rest, needle, d, false));
    } else {
      assert (t + rest)[1..] == t[1..] + rest;
      PlainSkip(t[1..], rest, needle, d);
      ShiftShift(1, |t| - 1, Scan(rest, needle, d, false));
    }
  }

  lemma WsIsPlain(ws: string)
    requires AllWs(ws)
    ensures Plain(ws)
  {
  }

  /** Inside a string the scan runs to the closing quote. */
  lemma {:induction false} StringSkip(raw: string, rest: string, needle: string, d: int)
    requires WellEscaped(raw)
    ensures Scan(raw + ("\"" + rest), needle, d, true) == Shift(|raw| + 1, Scan(rest, needle, d, false))
    decreases |raw|
  {
    var s := raw + ("\"" + rest);
    if raw == "" {
      assert s[1..] == rest;
    } else if raw[0] == '\\' {
      assert s[2..] == raw[2..] + ("\"" + rest);
      StringSkip(raw[2..], rest, needle, d);
      ShiftShift(2, |raw| - 1, Scan(rest, needle, d, false));
    } else {
      assert s[1..] == raw[1..] + ("\"" + rest);
      StringSkip(raw[1..], rest, needle, d);
      ShiftShift(1, |raw|, Scan(rest, needle, d, false));
    }
  }

  predicate EscapeFree(key: string) { '"' !in key && '\\' !in key }

  lemma {:induction false} NoQuoteBeforeEscape(raw: string, n: nat)
    requires WellEscaped(raw) && n < |raw|
    requires forall i :: 0 <= i < n ==> raw[i] != '\\'
    ensures raw[n] != '"'
  {
    if n > 0 {
      NoQuoteBeforeEscape(raw[1..], n - 1);
    }
  }

  /** The quoted key stands at a string's opening quote exactly when the string is spelled like the key. */
  lemma NeedleAt(key: string, raw: string, rest: string)
    requires EscapeFree(key) && WellEscaped(raw)
    ensures Quoted(key) <= Quoted(raw) + rest <==> key == raw
  {
    var text := Quoted(raw) + rest;
    if Quoted(key) <= text {
      var n := Quoted(key);
      assert forall i :: 0 <= i < |key| ==> key[i] == n[i + 1] == text[i + 1];
      assert text[|key| + 1] == n[|key| + 1] == '"' && text[|raw| + 1] == '"';
      forall i | 1 <= i <= |key| ensures text[i] != '"' {
        assert n[i] == key[i - 1];
      }
      if |key| < |raw| {
        assert forall i :: 0 <= i < |key| ==> raw[i] == text[i + 1] == key[i];
        NoQuoteBeforeEscape(raw, |key|);
      }
      assert |key| == |raw|;
      assert forall i :: 0 <= i < |key| ==> raw[i] == text[i + 1];
    }
  }

  /** A string that is not a top-level key is skipped. */
  lemma QuotedSkip(raw: string, rest: string, key: string, d: int)
    requires WellEscaped(raw) && EscapeFree(key)
    requires d != 1 || raw != key || !ColonNext(rest)
    ensures Scan(Quoted(raw) + rest, Quoted(key), d, false)
         == Shift(|Quoted(raw)|, Scan(rest, Quoted(key), d, false))
  {
    var s := Quoted(raw) + rest;
    assert s[1..] == raw + ("\"" + rest);
    StringSkip(raw, rest, Quoted(key), d);
    ShiftShift(1, |raw| + 1, Scan(rest, Quoted(key), d, false));
    NeedleAt(key, raw, rest);
    if raw == key {
      assert s[|Quoted(key)|..] == rest;
    }
  }

  /** The scan passes over `text` without finding the key and without changing its state. */
  ghost predicate Passes(text: string, rest: string, key: string, d: int) {
    Scan(text + rest, Quoted(key), d, false) == Shift(|text|, Scan(rest, Quoted(key), d, false))
  }

  lemma PassBoth(a: string, b: string, rest: string, key: string, d: int)
    requires Passes(a, b + rest, key, d) && Passes(b, rest, key, d)
    ensures Passes(a + b, rest, key, d)
  {
    assert (a + b) + rest == a + (b + rest);
    ShiftShift(|a|, |b|, Scan(rest, Quoted(key), d, false));
  }

  lemma PassPlain(t: string, rest: string, key: string, d: int)
    requires Plain(t)
    ensures Passes(t, rest, key, d)
  {
    PlainSkip(t, rest, Quoted(key), d);
  }

  /** A bracketed text passes when its inside passes one level deeper. */
  lemma PassBrackets(open: char, inner: string, close: char, rest: string, key: string, d: int)
    requires open == '{' || open == '['
    requires close == '}' || close == ']'
    requires Passes(inner, [close] + rest, key, d + 1)
    ensures Passes([open] + (inner + [close]), rest, key, d)
  {
    var s := [open] + (inner + [close]) + rest;
    assert s[1..] == inner + ([close] + rest);
    assert ([close] + rest)[1..] == rest;
    var r := Scan(rest, Quoted(key), d, false);
    ShiftShift(|inner|, 1, r);
    ShiftShift(1, |inner| + 1, r);
  }

  predicate StartsWith(s: string, c: char) { s != "" && s[0] == c }

  lemma NoColonAfter(post: string, rest: string)
    requires AllWs(post) && rest != "" && !IsWs(rest[0]) && rest[0] != ':'
    ensures !ColonNext(post + rest)
  {
    SkipWsOver(post, rest);
  }

  lemma ValuePasses(v: Value, rest: string, key: string, d: int)
    requires WellFormed(v) && EscapeFree(key) && d >= 1
    requires d == 1 ==> !ColonNext(rest)
    ensures Passes(Render(v), rest, key, d)
    decreases v, 1
  {
    match v
    case Str(raw) =>
      QuotedSkip(raw, rest, key, d);
      assert Render(v) == Quoted(raw);
    case Atom(text) => PassPlain(text, rest, key, d);
    case Arr(items) =>
      ItemsPass(items, "]" + rest, key, d + 1);
      PassBrackets('[', RenderItems(items), ']', rest, key, d);
    case Obj(members) =>
      MembersPass(members, "}" + rest, key, d + 1);
      PassBrackets('{', RenderMembers(members), '}', rest, key, d);
  }

  /** A value with white space around it, up to the comma or bracket that ends it. */
  lemma SpacedValuePasses(pre: string, v: Value, post: string, rest: string, key: string, d: int)
    requires AllWs(pre) && AllWs(post) && WellFormed(v) && EscapeFree(key) && d >= 1
    requires rest != "" && !IsWs(rest[0]) && rest[0] != ':'
    ensures Passes(pre + (Render(v) + post), rest, key, d)
    decreases v, 2
  {
    WsIsPlain(pre);
    WsIsPlain(post);
    NoColonAfter(post, rest);
    ValuePasses(v, post + rest, key, d);
    PassPlain(post, rest, key, d);
    PassBoth(Render(v), post, rest, key, d);
    PassPlain(pre, (Render(v) + post) + rest, key, d);
    PassBoth(pre, Render(v) + post, rest, key, d);
  }

  lemma ItemsPass(items: Items, rest: string, key: string, d: int)
    requires WellFormedItems(items) && EscapeFree(key) && d >= 1 && StartsWith(rest, ']')
    ensures Passes(RenderItems(items), rest, key, d)
    decreases items, 0
  {
    match items
    case NoItems(ws) =>
      WsIsPlain(ws);
      PassPlain(ws, rest, key, d);
    case LastItem(pre, v, post) => SpacedValuePasses(pre, v, post, rest, key, d);
    case MoreItems(pre, v, post, more) =>
      ItemsPass(more, rest, key, d);
      var tail := "," + RenderItems(more);
      PassPlain(",", RenderItems(more) + rest, key, d);
      PassBoth(",", RenderItems(more), rest, key, d);
      SpacedValuePasses(pre, v, post, tail + rest, key, d);
      PassBoth(pre + (Render(v) + post), tail, rest, key, d);
      assert (pre + (Render(v) + post)) + tail == RenderItems(items);
  }

  /** A member up to the comma or brace that ends it. */
  function MemberText(pre: string, k: string, mid: string, gap: string, v: Value, post: string): string {
    pre + (Quoted(k) + (mid + (":" + (gap + (Render(v) + post)))))
  }

  /** A member passes when it is nested, or spelled differently from the key. */
  lemma MemberPasses(pre: string, k: string, mid: string, gap: string, v: Value, post: string,
                     rest: string, key: string, d: int)
    requires AllWs(pre) && WellEscaped(k) && AllWs(mid) && AllWs(gap) && WellFormed(v) && AllWs(post)
    requires EscapeFree(key) && d >= 1 && (d != 1 || k != key)
    requires rest != "" && !IsWs(rest[0]) && rest[0] != ':'
    ensures Passes(MemberText(pre, k, mid, gap, v, post), rest, key, d)
    decreases v, 3
  {
    var value := gap + (Render(v) + post);
    SpacedValuePasses(gap, v, post, rest, key, d);
    PassPlain(":", value + rest, key, d);
    PassBoth(":", value, rest, key, d);
    WsIsPlain(mid);
    PassPlain(mid, (":" + value) + rest, key, d);
    PassBoth(mid, ":" + value, rest, key, d);
    QuotedSkip(k, (mid + (":" + value)) + rest, key, d);
    PassBoth(Quoted(k), mid + (":" + value), rest, key, d);
    WsIsPlain(pre);
    PassPlain(pre, (Quoted(k) + (mid + (":" + value))) + rest, key, d);
    PassBoth(pre, Quoted(k) + (mid + (":" + value)), rest, key, d);
  }

  lemma MoreMembersText(members: Members)
    requires members.MoreMembers?
    ensures RenderMembers(members) ==
            MemberText(members.pre, members.key, members.mid, members.gap, members.v, members.post)
            + ("," + RenderMembers(members.rest))
  {
    var m := members;
    var tail := "," + RenderMembers(m.rest);
    assert Render(m.v) + (m.post + tail) == (Render(m.v) + m.post) + tail;
    assert m.gap + ((Render(m.v) + m.post) + tail) == (m.gap + (Render(m.v) + m.post)) + tail;
    var value := m.gap + (Render(m.v) + m.post);
    assert ":" + (value + tail) == (":" + value) + tail;
    assert m.mid + ((":" + value) + tail) == (m.mid + (":" + value)) + tail;
    assert Quoted(m.key) + ((m.mid + (":" + value)) + tail) == (Quoted(m.key) + (m.mid + (":" + value))) + tail;
  }

  lemma CommaTail(text: string, rest: string, key: string, d: int)
    requires Passes(text, rest, key, d)
    ensures Passes("," + text, rest, key, d)
  {
    PassPlain(",", text + rest, key, d);
    PassBoth(",", text, rest, key, d);
  }

  lemma MembersPass(members: Members, rest: string, key: string, d: int)
    requires WellFormedMembers(members) && EscapeFree(key) && d >= 2 && StartsWith(rest, '}')
    ensures Passes(RenderMembers(members), rest, key, d)
    decreases members, 0
  {
    match members
    case NoMembers(ws) =>
      WsIsPlain(ws);
      PassPlain(ws, rest, key, d);
    case LastMember(pre, k, mid, gap, v, post) => MemberPasses(pre, k, mid, gap, v, post, rest, key, d);
    case MoreMembers(pre, k, mid, gap, v, post, more) =>
      var tail := "," + RenderMembers(more);
      MembersPass(more, rest, key, d);
      CommaTail(RenderMembers(more), rest, key, d);
      MemberPasses(pre, k, mid, gap, v, post, tail + rest, key, d);
      PassBoth(MemberText(pre, k, mid, gap, v, post), tail, rest, key, d);
      MoreMembersText(members);
  }

  // ---------------------------------------------------------------- the key finder

  /** The scan stops at the opening quote of a top-level member spelled like the key. */
  lemma MemberFound(pre: string, key: string, mid: string, after: string)
    requires AllWs(pre) && AllWs(mid) && EscapeFree(key)
    ensures Scan(pre + (Quoted(key) + (mid + (":" + after))), Quoted(key), 1, false) == Some(|pre|)
  {
    var s := Quoted(key) + (mid + (":" + after));
    assert s[|Quoted(key)|..] == mid + (":" + after);
    SkipWsOver(mid, ":" + after);
    assert Quoted(key) <= s;
    assert s[0] == '"';
    WsIsPlain(pre);
    PlainSkip(pre, s, Quoted(key), 1);
  }

  lemma MemberTextFound(pre: string, key: string, mid: string, gap: string, v: Value, post: string, rest: string)
    requires AllWs(pre) && AllWs(mid) && EscapeFree(key)
    ensures Scan(MemberText(pre, key, mid, gap, v, post) + rest, Quoted(key), 1, false) == Some(|pre|)
  {
    var value := gap + (Render(v) + post);
    assert mid + (":" + value) + rest == mid + (":" + (value + rest));
    assert MemberText(pre, key, mid, gap, v, post) + rest == pre + (Quoted(key) + (mid + (":" + value) + rest));
    MemberFound(pre, key, mid, value + rest);
  }

  lemma FindInMembers(members: Members, rest: string, key: string)
    requires WellFormedMembers(members) && EscapeFree(key) && StartsWith(rest, '}')
    ensures Scan(RenderMembers(members) + rest, Quoted(key), 1, false) ==
            Or(FirstMember(members, key), Shift(|RenderMembers(members)|, Scan(rest, Quoted(key), 1, false)))
  {
    match members
    case NoMembers(ws) =>
      WsIsPlain(ws);
      PlainSkip(ws, rest, Quoted(key), 1);
    case LastMember(_, _, _, _, _, _) => FindInLast(members, rest, key);
    case MoreMembers(_, _, _, _, _, _, more) =>
      FindInMembers(more, rest, key);
      FindInMore(members, rest, key);
  }

  function Or(o: Option<nat>, x: Option<nat>): Option<nat> { if o.Some? then o else x }

  lemma FindInMore(members: Members, rest: string, key: string)
    requires members.MoreMembers? && WellFormedMembers(members) && EscapeFree(key) && StartsWith(rest, '}')
    requires var more := RenderMembers(members.rest);
             Scan(more + rest, Quoted(key), 1, false) ==
             Or(FirstMember(members.rest, key), Shift(|more|, Scan(rest, Quoted(key), 1, false)))
    ensures Scan(RenderMembers(members) + rest, Quoted(key), 1, false) ==
            Or(FirstMember(members, key), Shift(|RenderMembers(members)|, Scan(rest, Quoted(key), 1, false)))
  {
    FindPastMember(members, rest, key);
    FirstMemberStep(members, key);
    MoreMembersLength(members);
    if members.key != key {
      ShiftOr(|RenderMembers(members)| - |RenderMembers(members.rest)|, |RenderMembers(members.rest)|,
              FirstMember(members.rest, key), Scan(rest, Quoted(key), 1, false),
              |RenderMembers(members)|, FirstMember(members, key));
    }
  }

  lemma FirstMemberStep(members: Members, key: string)
    requires members.MoreMembers?
    ensures |RenderMembers(members)| >= |RenderMembers(members.rest)|
    ensures FirstMember(members, key) ==
            if members.key == key then Some(|members.pre|)
            else Shift(|RenderMembers(members)| - |RenderMembers(members.rest)|, FirstMember(members.rest, key))
  {
    MoreMembersLength(members);
  }

  lemma ShiftOr(n: nat, m: nat, o: Option<nat>, x: Option<nat>, total: nat, found: Option<nat>)
    requires total == n + m && found == Shift(n, o)
    ensures Shift(n, Or(o, Shift(m, x))) == Or(found, Shift(total, x))
  {
  }

  lemma FindInLast(members: Members, rest: string, key: string)
    requires members.LastMember? && WellFormedMembers(members) && EscapeFree(key) && StartsWith(rest, '}')
    ensures Scan(RenderMembers(members) + rest, Quoted(key), 1, false) ==
            if members.key == key then Some(|members.pre|)
            else Shift(|RenderMembers(members)|, Scan(rest, Quoted(key), 1, false))
  {
    var m := members;
    if m.key == key {
      MemberTextFound(m.pre, key, m.mid, m.gap, m.v, m.post, rest);
    } else {
      MemberPasses(m.pre, m.key, m.mid, m.gap, m.v, m.post, rest, key, 1);
    }
  }

  lemma FindPastMember(members: Members, rest: string, key: string)
    requires members.MoreMembers? && WellFormedMembers(members) && EscapeFree(key) && StartsWith(rest, '}')
    ensures var n := |RenderMembers(members)| - |RenderMembers(members.rest)|;
            Scan(RenderMembers(members) + rest, Quoted(key), 1, false) ==
            if members.key == key then Some(|members.pre|)
            else Shift(n, Scan(RenderMembers(members.rest) + rest, Quoted(key), 1, false))
  {
    MemberAhead(members, rest);
    if members.key == key {
      AtFirstMember(members, RenderMembers(members.rest) + rest);
    } else {
      PastOtherMember(members, RenderMembers(members.rest) + rest, key);
      MoreMembersLength(members);
    }
  }

  lemma MemberAhead(m: Members, rest: string)
    requires m.MoreMembers?
    ensures RenderMembers(m) + rest ==
            MemberText(m.pre, m.key, m.mid, m.gap, m.v, m.post) + ("," + (RenderMembers(m.rest) + rest))
  {
    MoreMembersText(m);
    CommaRegroup(MemberText(m.pre, m.key, m.mid, m.gap, m.v, m.post), RenderMembers(m.rest), rest);
  }

  lemma AtFirstMember(m: Members, after: string)
    requires m.MoreMembers? && WellFormedMembers(m) && EscapeFree(m.key)
    ensures Scan(MemberText(m.pre, m.key, m.mid, m.gap, m.v, m.post) + ("," + after), Quoted(m.key), 1, false)
            == Some(|m.pre|)
  {
    MemberTextFound(m.pre, m.key, m.mid, m.gap, m.v, m.post, "," + after);
  }

  lemma PastOtherMember(m: Members, after: string, key: string)
    requires m.MoreMembers? && WellFormedMembers(m) && EscapeFree(key) && m.key != key
    ensures var text := MemberText(m.pre, m.key, m.mid, m.gap, m.v, m.post);
            Scan(text + ("," + after), Quoted(key), 1, false)
            == Shift(|text| + 1, Scan(after, Quoted(key), 1, false))
  {
    MemberPasses(m.pre, m.key, m.mid, m.gap, m.v, m.post, "," + after, key, 1);
    PastComma(MemberText(m.pre, m.key, m.mid, m.gap, m.v, m.post), after, key);
  }

  lemma MoreMembersLength(members: Members)
    requires members.MoreMembers?
    ensures |RenderMembers(members)| - |RenderMembers(members.rest)| ==
            |MemberText(members.pre, members.key, members.mid, members.gap, members.v, members.post)| + 1
  {
    MoreMembersText(members);
  }

  lemma CommaRegroup(text: string, a: string, b: string)
    ensures (text + ("," + a)) + b == text + ("," + (a + b))
  {
  }

  lemma PastComma(text: string, after: string, key: string)
    requires Passes(text, "," + after, key, 1)
    ensures Scan(text + ("," + after), Quoted(key), 1, false)
         == Shift(|text| + 1, Scan(after, Quoted(key), 1, false))
  {
    PassPlain(",", after, key, 1);
    ShiftShift(|text|, 1, Scan(after, Quoted(key), 1, false));
  }

  /** A whole document: an object with white space around it. */
  function Document(lead: string, members: Members, trail: string): string {
    lead + ("{" + (RenderMembers(members) + ("}" + trail)))
  }

  /**
   For every well-formed object text and every escape-free key the finder returns the position of the
   first top-level member spelled like the key, and `npos` when there is none.
   */
  lemma FinderCorrect(lead: string, members: Members, trail: string, key: string)
    requires AllWs(lead) && WellFormedMembers(members) && AllWs(trail) && EscapeFree(key)
    ensures FindTopKey(Document(lead, members, trail), key) ==
            match FirstMember(members, key)
            case Some(n) => Some(|lead| + 1 + n)
            case None => None
  {
    var inner := RenderMembers(members) + ("}" + trail);
    WsIsPlain(lead);
    WsIsPlain(trail);
    PlainSkip(lead, "{" + inner, Quoted(key), 0);
    assert ("{" + inner)[1..] == inner;
    FindInMembers(members, "}" + trail, key);
    assert ("}" + trail)[1..] == trail;
    PlainSkip(trail, "", Quoted(key), 0);
    assert trail + "" == trail;
  }

  /** A document that is an array has no top-level key. */
  lemma ArrayHasNoKey(lead: string, items: Items, trail: string, key: string)
    requires AllWs(lead) && WellFormedItems(items) && AllWs(trail) && EscapeFree(key)
    ensures FindTopKey(lead + (Render(Arr(items)) + trail), key) == None
  {
    WsIsPlain(lead);
    WsIsPlain(trail);
    ItemsPass(items, "]" + trail, key, 1);
    PassBrackets('[', RenderItems(items), ']', trail, key, 0);
    PlainSkip(lead, Render(Arr(items)) + trail, Quoted(key), 0);
    PlainSkip(trail, "", Quoted(key), 0);
    assert trail + "" == trail;
  }

  // ---------------------------------------------------------------- the string extractor

  /** A string's text up to its closing quote, with backslashes dropped; None when it never closes. */
  function ReadString(s: string): Option<string>
    decreases |s|
  {
    if s == "" then None
    else if s[0] == '\\' && |s| > 1 then Prepend(s[1], ReadString(s[2..]))
    else if s[0] == '"' then Some("")
    else Prepend(s[0], ReadString(s[1..]))
  }

  function Prepend(c: char, o: Option<string>): Option<string> {
    match o
    case None => None
    case Some(t) => Some([c] + t)
  }

  function AppendTo(text: string, o: Option<string>): Option<string> {
    match o
    case None => None
    case Some(t) => Some(text + t)
  }

  lemma AppendStep(text: string, c: char, o: Option<string>)
    ensures AppendTo(text, Prepend(c, o)) == AppendTo(text + [c], o)
    ensures AppendTo("", o) == o
    ensures AppendTo(text, Some("")) == Some(text)
  {
    assert text + "" == text;
    if o.Some? {
      assert text + ([c] + o.value) == text + [c] + o.value;
      assert "" + o.value == o.value;
    }
  }

  /** The string member `key` of the text, or `def`. */
  function JsonStr(s: string, key: string, def: string): string {
    match FindTopKey(s, key)
    case None => def
    case Some(pos) => StringAfterColon(s[pos..], def)
  }

  /** The string behind the first colon of the text. */
  function StringAfterColon(s: string, def: string): string {
    var colon := IndexOf(s, ':');
    if colon == |s| then def
    else QuotedText(SkipWs(s[colon + 1..]), def)
  }

  /** The string that starts here, or the default. */
  function QuotedText(t: string, def: string): string {
    if t == "" || t[0] != '"' then def
    else match ReadString(t[1..])
      case None => def
      case Some(v) => v
  }

  lemma ReadStringStep(s: string, i: nat)
    requires i < |s|
    ensures ReadString(s[i..]) ==
            if s[i] == '\\' && i + 1 < |s| then Prepend(s[i + 1], ReadString(s[i + 2..]))
            else if s[i] == '"' then Some("")
            else Prepend(s[i], ReadString(s[i + 1..]))
  {
    assert s[i..][1..] == s[i + 1..];
    if i + 2 <= |s| {
      assert s[i..][2..] == s[i + 2..];
    }
  }

  /** The reading loop of the extractor. */
  method ReadStringFrom(s: string, from: nat) returns (out: Option<string>)
    requires from <= |s|
    ensures out == ReadString(s[from..])
  {
    var text := "";
    var i := from;
    AppendStep("", ' ', ReadString(s[from..]));
    while i < |s|
      invariant from <= i <= |s|
      invariant ReadString(s[from..]) == AppendTo(text, ReadString(s[i..]))
    {
      ReadStringStep(s, i);
      AppendStep(text, s[i], ReadString(s[i + 1..]));
      if s[i] == '\\' && i + 1 < |s| {
        AppendStep(text, s[i + 1], ReadString(s[i + 2..]));
        text := text + [s[i + 1]];
        i := i + 2;
        continue;
      }
      if s[i] == '"' {
        return Some(text);
      }
      text := text + [s[i]];
      i := i + 1;
    }
    out := None;
  }

  lemma Behind(s: string, i: nat)
    requires i < |s|
    ensures s[i..] != "" && s[i..][0] == s[i] && s[i..][1..] == s[i + 1..]
  {
  }

  method ReadQuoted(s: string, vp: nat, def: string) returns (v: string)
    requires vp <= |s|
    ensures v == QuotedText(s[vp..], def)
  {
    if vp == |s| || s[vp] != '"' {
      return def;
    }
    Behind(s, vp);
    var got := ReadStringFrom(s, vp + 1);
    v := if got.Some? then got.value else def;
  }

  method ReadAfterColon(s: string, def: string) returns (v: string)
    ensures v == StringAfterColon(s, def)
  {
    var colon := IndexOf(s, ':');
    if colon == |s| {
      return def;
    }
    var vp := AfterWs(s, colon + 1);
    v := ReadQuoted(s, vp, def);
  }

  method GetStr(s: string, key: string, def: string) returns (v: string)
    ensures v == JsonStr(s, key, def)
  {
    var pos := FindKey(s, key);
    if pos.None? {
      return def;
    }
    v := ReadAfterColon(s[pos.value..], def);
  }

  /** The printer that escapes only quotes and backslashes. */
  function EscapeText(v: string): string {
    if v == "" then ""
    else if v[0] == '"' || v[0] == '\\' then ['\\', v[0]] + EscapeText(v[1..])
    else [v[0]] + EscapeText(v[1..])
  }

  /** Reading undoes the printer. */
  lemma {:induction false} ReadsEscaped(v: string, rest: string)
    ensures ReadString(EscapeText(v) + ("\"" + rest)) == Some(v)
  {
    if v != "" {
      var s := EscapeText(v) + ("\"" + rest);
      ReadsEscaped(v[1..], rest);
      if v[0] == '"' || v[0] == '\\' {
        assert s[2..] == EscapeText(v[1..]) + ("\"" + rest);
      } else {
        assert s[1..] == EscapeText(v[1..]) + ("\"" + rest);
      }
      assert [v[0]] + v[1..] == v;
    }
  }

  lemma ColonBehindKey(key: string, mid: string, after: string)
    requires AllWs(mid) && ':' !in key
    ensures IndexOf(Quoted(key) + (mid + (":" + after)), ':') == |Quoted(key)| + |mid|
  {
    IndexOfIs(Quoted(key) + (mid + (":" + after)), ':', |Quoted(key)| + |mid|);
  }

  /** What the extractor reads at a member whose value is a printed string. */
  lemma StringMemberRead(key: string, mid: string, gap: string, v: string, rest: string, def: string)
    requires AllWs(mid) && AllWs(gap) && ':' !in key
    ensures StringAfterColon(Quoted(key) + (mid + (":" + (gap + ("\"" + (EscapeText(v) + ("\"" + rest)))))), def) == v
  {
    var text := EscapeText(v) + ("\"" + rest);
    ColonBehindKey(key, mid, gap + ("\"" + text));
    BehindColon(Quoted(key), mid, gap + ("\"" + text));
    SkipToQuote(gap, text);
    QuotedRead(v, rest, def);
  }

  lemma BehindColon(front: string, mid: string, t: string)
    ensures (front + (mid + (":" + t)))[|front| + |mid| + 1..] == t
  {
  }

  lemma SkipToQuote(gap: string, text: string)
    requires AllWs(gap)
    ensures SkipWs(gap + ("\"" + text)) == "\"" + text
  {
    SkipWsOver(gap, "\"" + text);
  }

  lemma QuotedRead(v: string, rest: string, def: string)
    ensures QuotedText("\"" + (EscapeText(v) + ("\"" + rest)), def) == v
  {
    var text := EscapeText(v) + ("\"" + rest);
    assert ("\"" + text)[1..] == text;
    ReadsEscaped(v, rest);
  }

  /** The value of the first top-level member spelled `key`. */
  function FirstValue(members: Members, key: string): Option<Value> {
    match members
    case NoMembers(_) => None
    case LastMember(_, k, _, _, v, _) => if k == key then Some(v) else None
    case MoreMembers(_, k, _, _, v, _, rest) => if k == key then Some(v) else FirstValue(rest, key)
  }

  /** What stands between the first such member's key and its value. */
  function FirstSpacing(members: Members, key: string): Option<string> {
    match members
    case NoMembers(_) => None
    case LastMember(_, k, mid, gap, _, _) => if k == key then Some(mid + (":" + gap)) else None
    case MoreMembers(_, k, mid, gap, _, _, rest) =>
      if k == key then Some(mid + (":" + gap)) else FirstSpacing(rest, key)
  }

  /** The text from the first matching member on. */
  lemma MemberSuffix(members: Members, rest: string, key: string)
    returns (mid: string, gap: string, v: Value, tail: string)
    requires WellFormedMembers(members) && FirstMember(members, key).Some?
    ensures FirstValue(members, key) == Some(v) && AllWs(mid) && AllWs(gap)
    ensures FirstSpacing(members, key) == Some(mid + (":" + gap))
    ensures FirstMember(members, key).value <= |RenderMembers(members)|
    ensures (RenderMembers(members) + rest)[FirstMember(members, key).value..] ==
            Quoted(key) + (mid + (":" + (gap + (Render(v) + tail))))
  {
    if !members.NoMembers? && members.key == key {
      mid, gap, v := members.mid, members.gap, members.v;
      if members.LastMember? {
        tail := members.post + rest;
        MemberRegroup(members.pre, key, mid, gap, Render(v), members.post, rest);
      } else {
        var more := "," + RenderMembers(members.rest);
        tail := (members.post + more) + rest;
        MemberRegroup(members.pre, key, mid, gap, Render(v), members.post + more, rest);
      }
    } else {
      mid, gap, v, tail := MemberSuffix(members.rest, rest, key);
      PastFirstMember(members, rest, FirstMember(members.rest, key).value);
    }
  }

  lemma PastFirstMember(members: Members, rest: string, n: nat)
    requires members.MoreMembers? && n <= |RenderMembers(members.rest)|
    ensures var more := RenderMembers(members.rest);
            var d := |RenderMembers(members)| - |more|;
            d >= 0 && (RenderMembers(members) + rest)[d + n..] == (more + rest)[n..]
  {
    MoreMembersText(members);
    var front := MemberText(members.pre, members.key, members.mid, members.gap, members.v, members.post) + ",";
    var more := RenderMembers(members.rest) + rest;
    assert RenderMembers(members) + rest == front + more;
    DropFront(front, more, n);
  }

  lemma DropFront(front: string, text: string, n: nat)
    requires n <= |text|
    ensures (front + text)[|front| + n..] == text[n..]
  {
  }

  lemma MemberRegroup(pre: string, key: string, mid: string, gap: string, value: string, post: string, rest: string)
    ensures ((pre + (Quoted(key) + (mid + (":" + (gap + (value + post)))))) + rest)[|pre|..] ==
            Quoted(key) + (mid + (":" + (gap + (value + (post + rest)))))
  {
  }

  /** The text from the found position on. */
  lemma DocumentSuffix(lead: string, members: Members, trail: string, key: string)
    returns (mid: string, gap: string, v: Value, tail: string)
    requires AllWs(lead) && WellFormedMembers(members) && AllWs(trail) && EscapeFree(key)
    requires FirstMember(members, key).Some?
    ensures FirstValue(members, key) == Some(v) && AllWs(mid) && AllWs(gap)
    ensures FirstSpacing(members, key) == Some(mid + (":" + gap))
    ensures var doc := Document(lead, members, trail);
            FindTopKey(doc, key).Some? &&
            doc[FindTopKey(doc, key).value..] == Quoted(key) + (mid + (":" + (gap + (Render(v) + tail))))
  {
    FinderCorrect(lead, members, trail, key);
    mid, gap, v, tail := MemberSuffix(members, "}" + trail, key);
    var text := RenderMembers(members) + ("}" + trail);
    DocumentDrop(lead, text, FirstMember(members, key).value);
  }

  lemma DocumentDrop(lead: string, text: string, n: nat)
    requires n <= |text|
    ensures (lead + ("{" + text))[|lead| + 1 + n..] == text[n..]
  {
  }

  /**
   The extractor inverts the printer: for a colon-free key whose first member holds a printed string it
   returns that string, and the default when no top-level member has the key.
   */
  lemma JsonStrInvertsPrinter(lead: string, members: Members, trail: string, key: string, def: string, v: string)
    requires AllWs(lead) && WellFormedMembers(members) && AllWs(trail) && EscapeFree(key)
    ensures FirstValue(members, key) == Some(Str(EscapeText(v))) && ':' !in key ==>
              JsonStr(Document(lead, members, trail), key, def) == v
    ensures FirstValue(members, key) == None ==> JsonStr(Document(lead, members, trail), key, def) == def
  {
    FirstAgree(members, key);
    FinderCorrect(lead, members, trail, key);
    if FirstValue(members, key) == Some(Str(EscapeText(v))) && ':' !in key {
      var mid, gap, value, tail := DocumentSuffix(lead, members, trail, key);
      StringMemberRead(key, mid, gap, v, tail, def);
      assert Render(value) + tail == "\"" + (EscapeText(v) + ("\"" + tail));
    }
  }

  lemma {:induction false} FirstAgree(members: Members, key: string)
    ensures FirstMember(members, key).Some? <==> FirstValue(members, key).Some?
  {
    if members.MoreMembers? {
      FirstAgree(members.rest, key);
    }
  }

  /**
   A key that holds a colon is found but not read: the extractor takes the colon inside the key for the
   member's colon and, unless only white space follows it there, gives the default whatever the value is.
   */
  lemma ColonKeyGivesDefault(lead: string, members: Members, trail: string, key: string, def: string)
    requires AllWs(lead) && WellFormedMembers(members) && AllWs(trail) && EscapeFree(key)
    requires ':' in key && SkipWs(key[IndexOf(key, ':') + 1..]) != ""
    ensures JsonStr(Document(lead, members, trail), key, def) == def
  {
    FinderCorrect(lead, members, trail, key);
    if FirstMember(members, key).Some? {
      var mid, gap, v, tail := DocumentSuffix(lead, members, trail, key);
      ColonInsideKey(key, mid + (":" + (gap + (Render(v) + tail))), def);
    }
  }

  lemma ColonInsideKey(key: string, rest: string, def: string)
    requires EscapeFree(key) && ':' in key && SkipWs(key[IndexOf(key, ':') + 1..]) != ""
    ensures StringAfterColon(Quoted(key) + rest, def) == def
  {
    var n := IndexOf(key, ':');
    QuotedColon(key, rest, n);
    SkipWsPrefix(key[n + 1..], "\"" + rest);
  }

  lemma QuotedColon(key: string, rest: string, n: nat)
    requires n < |key| && n == IndexOf(key, ':')
    ensures IndexOf(Quoted(key) + rest, ':') == n + 1
    ensures (Quoted(key) + rest)[n + 2..] == key[n + 1..] + ("\"" + rest)
  {
    var s := Quoted(key) + rest;
    assert forall i :: 0 <= i < |key| ==> s[i + 1] == key[i];
    IndexOfIs(s, ':', n + 1);
  }

  lemma {:induction false} SkipWsPrefix(a: string, b: string)
    requires SkipWs(a) != ""
    ensures SkipWs(a + b) == SkipWs(a) + b && SkipWs(a)[0] in a
  {
    if IsWs(a[0]) {
      assert (a + b)[1..] == a[1..] + b;
      SkipWsPrefix(a[1..], b);
    }
  }

  lemma {:induction false} SkippedAway(a: string)
    requires SkipWs(a) == ""
    ensures AllWs(a)
  {
    if a != "" {
      SkippedAway(a[1..]);
      assert a == [a[0]] + a[1..];
    }
  }

  lemma {:induction false} NothingToEscape(t: string)
    requires '"' !in t && '\\' !in t
    ensures EscapeText(t) == t
  {
    if t != "" {
      assert t == [t[0]] + t[1..];
      NothingToEscape(t[1..]);
    }
  }

  /**
   A key whose colon is followed by white space only: the extractor takes the key's closing quote for the
   value's opening one, and reads what stands between key and value.
   */
  lemma SpacingRead(key: string, mid: string, gap: string, rest: string, def: string)
    requires EscapeFree(key) && ':' in key && SkipWs(key[IndexOf(key, ':') + 1..]) == ""
    requires AllWs(mid) && AllWs(gap)
    ensures StringAfterColon(Quoted(key) + (mid + (":" + (gap + ("\"" + rest)))), def) == mid + (":" + gap)
  {
    var n := IndexOf(key, ':');
    var text := mid + (":" + (gap + ("\"" + rest)));
    var spacing := mid + (":" + gap);
    QuotedColon(key, text, n);
    SkippedAway(key[n + 1..]);
    SkipWsOver(key[n + 1..], "\"" + text);
    assert SkipWs("\"" + text) == "\"" + text && ("\"" + text)[1..] == text;
    assert text == spacing + ("\"" + rest);
    NothingToEscape(spacing);
    ReadsEscaped(spacing, rest);
  }

  /** What the extractor yields for a printed string, for every escape-free key. */
  lemma PrintedStringRead(lead: string, members: Members, trail: string, key: string, def: string, v: string)
    requires AllWs(lead) && WellFormedMembers(members) && AllWs(trail) && EscapeFree(key)
    requires FirstValue(members, key) == Some(Str(EscapeText(v)))
    ensures FirstSpacing(members, key).Some?
    ensures JsonStr(Document(lead, members, trail), key, def) ==
            if ':' !in key then v
            else if SkipWs(key[IndexOf(key, ':') + 1..]) != "" then def
            else FirstSpacing(members, key).value
  {
    FirstAgree(members, key);
    SpacingAgrees(members, key);
    if ':' !in key {
      JsonStrInvertsPrinter(lead, members, trail, key, def, v);
    } else if SkipWs(key[IndexOf(key, ':') + 1..]) != "" {
      ColonKeyGivesDefault(lead, members, trail, key, def);
    } else {
      SpacingKeyRead(lead, members, trail, key, def, v);
    }
  }

  lemma {:induction false} SpacingAgrees(members: Members, key: string)
    ensures FirstSpacing(members, key).Some? <==> FirstValue(members, key).Some?
  {
    if members.MoreMembers? {
      SpacingAgrees(members.rest, key);
    }
  }

  lemma SpacingKeyRead(lead: string, members: Members, trail: string, key: string, def: string, v: string)
    requires AllWs(lead) && WellFormedMembers(members) && AllWs(trail) && EscapeFree(key)
    requires FirstValue(members, key) == Some(Str(EscapeText(v)))
    requires ':' in key && SkipWs(key[IndexOf(key, ':') + 1..]) == ""
    ensures Some(JsonStr(Document(lead, members, trail), key, def)) == FirstSpacing(members, key)
  {
    FirstAgree(members, key);
    var mid, gap, value, tail := DocumentSuffix(lead, members, trail, key);
    var rest := EscapeText(v) + ("\"" + tail);
    RenderedString(v, tail);
    SpacingRead(key, mid, gap, rest, def);
  }

  lemma RenderedString(v: string, tail: string)
    ensures Render(Str(EscapeText(v))) + tail == "\"" + (EscapeText(v) + ("\"" + tail))
  {
  }

  /**
   When the extractor inverts the printer: whatever the default, exactly for keys without a colon, and where
   the colon ends the key up to white space and the string happens to be what stands between key and value.
   */
  lemma JsonStrInvertsIff(lead: string, members: Members, trail: string, key: string, v: string)
    requires AllWs(lead) && WellFormedMembers(members) && AllWs(trail) && EscapeFree(key)
    requires FirstValue(members, key) == Some(Str(EscapeText(v)))
    ensures (forall def :: JsonStr(Document(lead, members, trail), key, def) == v) <==>
            ':' !in key
            || (SkipWs(key[IndexOf(key, ':') + 1..]) == "" && FirstSpacing(members, key) == Some(v))
  {
    forall def {
      PrintedStringRead(lead, members, trail, key, def, v);
    }
    PrintedStringRead(lead, members, trail, key, v + "x", v);
    assert |v + "x"| > |v|;
  }
}
