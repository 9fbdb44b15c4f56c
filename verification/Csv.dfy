/** Comma-separated lines: the field splitter of the write-ahead log and its inverse. */
module Csv {
  import opened Prelude

  /** The segments between the separators; there is always at least one. */
  function SplitOn(s: string, sep: char): (parts: seq<string>)
    ensures parts != []
  {
    if s == "" then [""]
    else
      var rest := SplitOn(s[1..], sep);
      if s[0] == sep then [""] + rest else [[s[0]] + rest[0]] + rest[1..]
  }

  /** The fields between the commas of `line`. */
  function Split(line: string): (fs: seq<string>)
    ensures fs != []
  {
    SplitOn(line, ',')
  }

  lemma {:induction false} SplitFirst(s: string, sep: char)
    ensures var n := IndexOf(s, sep);
            SplitOn(s, sep) == [s[..n]] + (if n == |s| then [] else SplitOn(s[n + 1..], sep))
  {
    var n := IndexOf(s, sep);
    if n > 0 {
      SplitFirst(s[1..], sep);
      if n < |s| {
        IndexOfIs(s[1..], sep, n - 1);
        assert s[1..][n..] == s[n + 1..];
      } else {
        IndexOfAbsent(s[1..], sep);
      }
      assert [s[0]] + s[1..][..n - 1] == s[..n];
    }
  }

  /** Splitting is a homomorphism from concatenation around a separator to sequence concatenation. */
  lemma {:induction false} SplitOnConcat(a: string, b: string, sep: char)
    ensures SplitOn(a + [sep] + b, sep) == SplitOn(a, sep) + SplitOn(b, sep)
  {
    var s := a + [sep] + b;
    if a == "" {
      assert s[1..] == b;
    } else {
      assert s[1..] == a[1..] + [sep] + b;
      SplitOnConcat(a[1..], b, sep);
    }
  }

  lemma {:induction false} SplitOnFree(s: string, sep: char)
    ensures sep !in s ==> SplitOn(s, sep) == [s]
    ensures SplitOn(s, sep)[0] == s <==> sep !in s
    ensures |SplitOn(s, sep)| == 1 <==> sep !in s
  {
    if s != "" {
      SplitOnFree(s[1..], sep);
      assert sep !in s <==> s[0] != sep && sep !in s[1..];
      assert s == [s[0]] + s[1..];
    }
  }

  /** What the splitter returns: the empty line has no field at all. */
  function Fields(line: string): seq<string> {
    if line == "" then [] else Split(line)
  }

  function Join(fs: seq<string>): string {
    if fs == [] then ""
    else if |fs| == 1 then fs[0]
    else fs[0] + "," + Join(fs[1..])
  }

  predicate CommaFree(s: string) { ',' !in s }

  /** The trailing empty field is the one case in which reading stops before it is seen. */
  function TrailingField(line: string): seq<string> {
    if line != "" && line[|line| - 1] == ',' then [""] else []
  }

  /** What reading on from position `pos` still yields. */
  ghost function Remaining(line: string, pos: nat): seq<string>
    requires pos <= |line|
  {
    if pos < |line| then Split(line[pos..]) else TrailingField(line)
  }

  lemma ReadField(line: string, pos: nat, n: nat, next: nat)
    requires pos < |line|
    requires n == IndexOf(line[pos..], ',') && next == Min(pos + n + 1, |line|)
    ensures Remaining(line, pos) == [line[pos..pos + n]] + Remaining(line, next)
  {
    var rest := line[pos..];
    SplitFirst(rest, ',');
    assert rest[..n] == line[pos..pos + n];
    if n == |rest| {
      assert rest[n - 1] == line[|line| - 1];
    } else {
      assert rest[n + 1..] == line[pos + n + 1..];
      assert line[pos + n] == ',';
    }
  }

  /**
   Reads up to the next comma until the input is exhausted, then adds the empty field that a
   trailing comma stands for.
   */
  method SplitCsv(line: string) returns (out: seq<string>)
    ensures out == Fields(line)
  {
    out := [];
    var pos := 0;
    assert line != "" ==> line[0..] == line;
    while pos < |line|
      invariant 0 <= pos <= |line|
      invariant Fields(line) == out + Remaining(line, pos)
    {
      var n := IndexOf(line[pos..], ',');
      var next := if pos + n < |line| then pos + n + 1 else |line|;
      ReadField(line, pos, n, next);
      out := out + [line[pos..pos + n]];
      pos := next;
    }
    if line != "" && line[|line| - 1] == ',' {
      out := out + [""];
    }
  }

  lemma SplitConcat(a: string, b: string)
    ensures Split(a + "," + b) == Split(a) + Split(b)
  {
    SplitOnConcat(a, b, ',');
  }

  /** Two field lists run together: the last field of the first and the first of the second become one. */
  function Glued(a: seq<string>, b: seq<string>): (g: seq<string>)
    requires a != [] && b != []
    ensures g != []
  {
    a[..|a| - 1] + [a[|a| - 1] + b[0]] + b[1..]
  }

  lemma {:induction false} SplitGlue(s: string, t: string)
    ensures Split(s + t) == Glued(Split(s), Split(t))
  {
    if s == "" {
      var ts := Split(t);
      assert s + t == t && "" + ts[0] == ts[0];
      assert Glued([""], ts) == [ts[0]] + ts[1..];
    } else {
      assert (s + t)[0] == s[0] && (s + t)[1..] == s[1..] + t;
      SplitGlue(s[1..], t);
      var rest, ts := Split(s[1..]), Split(t);
      GlueShape(s[0], rest, ts);
    }
  }

  /** Putting a character in front commutes with running two field lists together. */
  lemma GlueShape(c: char, rest: seq<string>, ts: seq<string>)
    requires rest != [] && ts != []
    ensures Glued([""] + rest, ts) == [""] + Glued(rest, ts)
    ensures Glued([[c] + rest[0]] + rest[1..], ts) == [[c] + Glued(rest, ts)[0]] + Glued(rest, ts)[1..]
  {
    var g := Glued(rest, ts);
    assert ([""] + rest)[..|rest|] == [""] + rest[..|rest| - 1];
    if |rest| == 1 {
      assert [c] + (rest[0] + ts[0]) == ([c] + rest[0]) + ts[0];
    } else {
      assert ([[c] + rest[0]] + rest[1..])[..|rest| - 1] == [[c] + rest[0]] + rest[1..|rest| - 1];
      assert g[1..] == rest[1..|rest| - 1] + [rest[|rest| - 1] + ts[0]] + ts[1..];
    }
  }

  lemma SplitCommaFree(s: string)
    ensures CommaFree(s) ==> Split(s) == [s]
    ensures Split(s)[0] == s <==> CommaFree(s)
    ensures |Split(s)| == 1 <==> CommaFree(s)
  {
    SplitOnFree(s, ',');
  }

  lemma {:induction false} SplitJoinFrom(fs: seq<string>)
    requires fs != [] && forall i :: 0 <= i < |fs| ==> CommaFree(fs[i])
    ensures Split(Join(fs)) == fs
  {
    SplitCommaFree(fs[0]);
    if |fs| > 1 {
      SplitJoinFrom(fs[1..]);
      SplitConcat(fs[0], Join(fs[1..]));
    }
  }

  /**
   Splitting inverts joining, empty middle and trailing fields included; the single empty field
   is the one list whose line is empty and reads back as no field.
   */
  lemma {:induction false} SplitJoin(fs: seq<string>)
    requires forall i :: 0 <= i < |fs| ==> CommaFree(fs[i])
    ensures Fields(Join(fs)) == fs <==> fs != [""]
  {
    if fs != [] {
      SplitJoinFrom(fs);
      assert Split("") == [""];
    }
  }

  /** Cutting a line short never adds a field. */
  lemma {:induction false} SplitPrefix(s: string, k: nat)
    requires k <= |s|
    ensures |Split(s[..k])| <= |Split(s)|
  {
    if k > 0 {
      assert s[..k][1..] == s[1..][..k - 1];
      SplitPrefix(s[1..], k - 1);
    }
  }
}
