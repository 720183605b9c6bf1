/** Strings as the Go code handles them: trimming, lower-casing, splitting and joining. */
module Text {

  /** Go's unicode.IsSpace. */
  predicate IsSpace(c: char) {
    || c == ' '
    || '\t' <= c <= '\r'
    || c in {'\U{0085}', '\U{00A0}', '\U{1680}', '\U{2028}', '\U{2029}', '\U{202F}', '\U{205F}', '\U{3000}'}
    || '\U{2000}' <= c <= '\U{200A}'
  }

  function TrimLeft(s: string): string {
    if s != "" && IsSpace(s[0]) then TrimLeft(s[1..]) else s
  }

  function TrimRight(s: string): string {
    if s != "" && IsSpace(s[|s| - 1]) then TrimRight(s[..|s| - 1]) else s
  }

  /** strings.TrimSpace. */
  function Trim(s: string): string {
    TrimRight(TrimLeft(s))
  }

  predicate Blank(s: string) {
    Trim(s) == ""
  }

  /** Neither end of a non-empty string is white space. */
  predicate Solid(s: string) {
    s != "" && !IsSpace(s[0]) && !IsSpace(s[|s| - 1])
  }

  lemma {:induction false} TrimRightKeepsFirst(s: string)
    requires s != "" && !IsSpace(s[0])
    ensures Solid(TrimRight(s)) && TrimRight(s)[0] == s[0]
  {
    if IsSpace(s[|s| - 1]) {
      TrimRightKeepsFirst(s[..|s| - 1]);
    }
  }

  lemma {:induction false} TrimLeftStops(s: string)
    ensures TrimLeft(s) == "" || !IsSpace(TrimLeft(s)[0])
  {
    if s != "" && IsSpace(s[0]) {
      TrimLeftStops(s[1..]);
    }
  }

  lemma TrimIsSolid(s: string)
    ensures Blank(s) || Solid(Trim(s))
  {
    TrimLeftStops(s);
    if TrimLeft(s) != "" {
      TrimRightKeepsFirst(TrimLeft(s));
    }
  }

  lemma TrimSolid(s: string)
    requires s == "" || Solid(s)
    ensures Trim(s) == s
  {
  }

  lemma TrimIdempotent(s: string)
    ensures Trim(Trim(s)) == Trim(s)
  {
    TrimIsSolid(s);
    TrimSolid(Trim(s));
  }

  /** strings.ToLower for the comparisons made here: every other letter lower-cases to a
      character outside ASCII and so never to part of a known name. */
  function LowerChar(c: char): char {
    if 'A' <= c <= 'Z' then c - 'A' + 'a'
    else if c == '\U{0130}' then 'i'
    else if c == '\U{212A}' then 'k'
    else c
  }

  function Lower(s: string): string {
    seq(|s|, i requires 0 <= i < |s| => LowerChar(s[i]))
  }

  /** strings.Split on a one-character separator. */
  function Split(s: string, sep: char): (parts: seq<string>)
    ensures |parts| >= 1
  {
    if s == "" then [""]
    else
      var rest := Split(s[1..], sep);
      if s[0] == sep then [""] + rest else [[s[0]] + rest[0]] + rest[1..]
  }

  /** strings.Join with a one-character separator. */
  function Join(parts: seq<string>, sep: char): string {
    if parts == [] then ""
    else if |parts| == 1 then parts[0]
    else parts[0] + [sep] + Join(parts[1..], sep)
  }

  lemma {:induction false} SplitWithoutSep(s: string, sep: char)
    requires sep !in s
    ensures Split(s, sep) == [s]
  {
    if s != "" {
      SplitWithoutSep(s[1..], sep);
      assert s == [s[0]] + s[1..];
    }
  }

  /** Splitting a text that grew at its end only changes the last piece. */
  lemma {:induction false} SplitAppend(a: string, b: string, sep: char)
    ensures var pa := Split(a, sep);
            Split(a + b, sep) == pa[..|pa| - 1] + Split(pa[|pa| - 1] + b, sep)
  {
    if a == "" {
      assert a + b == b;
    } else {
      SplitAppend(a[1..], b, sep);
      assert (a + b)[1..] == a[1..] + b;
      SplitAppendStep(a, b, sep, Split(a[1..], sep), Split(a[1..] + b, sep));
    }
  }

  lemma SplitFirst(s: string, sep: char)
    requires s != ""
    ensures var rest := Split(s[1..], sep);
            Split(s, sep) == if s[0] == sep then [""] + rest else [[s[0]] + rest[0]] + rest[1..]
  {
  }

  lemma SplitAppendStep(a: string, b: string, sep: char, rest: seq<string>, grown: seq<string>)
    requires a != "" && (a + b)[1..] == a[1..] + b
    requires rest == Split(a[1..], sep) && grown == Split(a[1..] + b, sep)
    requires grown == rest[..|rest| - 1] + Split(rest[|rest| - 1] + b, sep)
    ensures var pa := Split(a, sep);
            Split(a + b, sep) == pa[..|pa| - 1] + Split(pa[|pa| - 1] + b, sep)
  {
    hide Split;
    SplitFirst(a, sep);
    SplitFirst(a + b, sep);
    assert (a + b)[0] == a[0];
    if a[0] != sep && |rest| == 1 {
      OnePieceGrows(rest[0], b, a[0], sep);
    } else {
      LastPieceGrows(rest, Split(rest[|rest| - 1] + b, sep), if a[0] == sep then [] else [a[0]], a[0] == sep);
    }
  }

  lemma OnePieceGrows(piece: string, b: string, c: char, sep: char)
    requires c != sep
    ensures var grown := Split(piece + b, sep);
            Split([c] + piece + b, sep) == [[c] + grown[0]] + grown[1..]
  {
    hide Split;
    var s := [c] + piece + b;
    assert s[1..] == piece + b;
    SplitFirst(s, sep);
  }

  lemma LastPieceGrows(rest: seq<string>, tail: seq<string>, head: string, apart: bool)
    requires |rest| >= 1 && |tail| >= 1 && (apart || |rest| > 1)
    ensures var pa := if apart then [head] + rest else [head + rest[0]] + rest[1..];
      var grown := rest[..|rest| - 1] + tail;
      pa[|pa| - 1] == rest[|rest| - 1] &&
      pa[..|pa| - 1] + tail == if apart then [head] + grown else [head + grown[0]] + grown[1..]
  {
  }

  lemma {:induction false} SplitAtSep(a: string, b: string, sep: char)
    requires sep !in a
    ensures Split(a + [sep] + b, sep) == [a] + Split(b, sep)
  {
    SplitWithoutSep(a, sep);
    assert a + [sep] + b == a + ([sep] + b);
    SplitAppend(a, [sep] + b, sep);
    var tail := a + ([sep] + b);
    if a == "" {
      assert tail == [sep] + b;
      assert tail[1..] == b;
    } else {
      SplitAtSep(a[1..], b, sep);
      assert tail[1..] == a[1..] + [sep] + b;
      assert [tail[0]] + a[1..] == a;
    }
  }

  lemma {:induction false} SplitJoin(parts: seq<string>, sep: char)
    requires |parts| >= 1
    requires forall i :: 0 <= i < |parts| ==> sep !in parts[i]
    ensures Split(Join(parts, sep), sep) == parts
  {
    if |parts| == 1 {
      SplitWithoutSep(parts[0], sep);
    } else {
      SplitJoin(parts[1..], sep);
      SplitAtSep(parts[0], Join(parts[1..], sep), sep);
    }
  }

  /** The pieces never contain the separator. */
  lemma {:induction false} SplitPiecesClean(s: string, sep: char)
    ensures forall i :: 0 <= i < |Split(s, sep)| ==> sep !in Split(s, sep)[i]
  {
    if s != "" {
      SplitPiecesClean(s[1..], sep);
    }
  }

  /** util.ParseCSV: the trimmed, non-empty pieces between commas. */
  function ParseCSV(s: string): seq<string> {
    NonBlank(Split(s, ','))
  }

  function NonBlank(parts: seq<string>): seq<string> {
    if parts == [] then []
    else (if Blank(parts[0]) then [] else [Trim(parts[0])]) + NonBlank(parts[1..])
  }

  lemma {:induction false} NonBlankAppend(a: seq<string>, b: seq<string>)
    ensures NonBlank(a + b) == NonBlank(a) + NonBlank(b)
  {
    hide Trim, Blank;
    if a == [] {
      assert a + b == b;
    } else {
      NonBlankAppend(a[1..], b);
      assert (a + b)[1..] == a[1..] + b && (a + b)[0] == a[0];
      var x := if Blank(a[0]) then [] else [Trim(a[0])];
      assert (x + NonBlank(a[1..])) + NonBlank(b) == x + (NonBlank(a[1..]) + NonBlank(b));
    }
  }

  lemma {:induction false} TrimLeftAppend(s: string, c: char)
    requires IsSpace(c)
    ensures TrimLeft(s + [c]) == if TrimLeft(s) == "" then "" else TrimLeft(s) + [c]
  {
    if s == "" {
      assert ([c])[1..] == "";
    } else if IsSpace(s[0]) {
      TrimLeftAppend(s[1..], c);
      assert (s + [c])[1..] == s[1..] + [c];
    }
  }

  lemma TrimPadded(s: string, c: char)
    requires IsSpace(c)
    ensures Trim([c] + s) == Trim(s) && Trim(s + [c]) == Trim(s)
  {
    assert ([c] + s)[1..] == s;
    TrimLeftAppend(s, c);
    var t := TrimLeft(s);
    assert (t + [c])[..|t|] == t;
  }

  /** White space around a list does not change its items. */
  lemma ParseCSVPadded(s: string, c: char)
    requires IsSpace(c)
    ensures ParseCSV([c] + s) == ParseCSV(s) && ParseCSV(s + [c]) == ParseCSV(s)
  {
    var p := Split(s, ',');
    assert ([c] + s)[1..] == s;
    assert Split([c] + s, ',') == [[c] + p[0]] + p[1..];
    TrimPadded(p[0], c);
    var n := |p| - 1;
    SplitAppend(s, [c], ',');
    SplitPiecesClean(s, ',');
    SplitWithoutSep(p[n] + [c], ',');
    assert Split(s + [c], ',') == p[..n] + [p[n] + [c]] && p == p[..n] + [p[n]];
    NonBlankAppend(p[..n], [p[n] + [c]]);
    NonBlankAppend(p[..n], [p[n]]);
    TrimPadded(p[n], c);
    assert NonBlank([p[n] + [c]]) == NonBlank([p[n]]);
  }

  lemma {:induction false} ParseCSVTrimLeft(s: string)
    ensures ParseCSV(TrimLeft(s)) == ParseCSV(s)
  {
    if s != "" && IsSpace(s[0]) {
      ParseCSVTrimLeft(s[1..]);
      ParseCSVPadded(s[1..], s[0]);
      assert s == [s[0]] + s[1..];
    }
  }

  lemma {:induction false} ParseCSVTrimRight(s: string)
    ensures ParseCSV(TrimRight(s)) == ParseCSV(s)
  {
    if s != "" && IsSpace(s[|s| - 1]) {
      ParseCSVTrimRight(s[..|s| - 1]);
      ParseCSVPadded(s[..|s| - 1], s[|s| - 1]);
      assert s == s[..|s| - 1] + [s[|s| - 1]];
    }
  }

  lemma ParseCSVTrim(s: string)
    ensures ParseCSV(Trim(s)) == ParseCSV(s)
  {
    ParseCSVTrimLeft(s);
    ParseCSVTrimRight(TrimLeft(s));
  }

  /** Go's string order: lexicographic by code point. */
  predicate StrLess(a: string, b: string) {
    if b == "" then false
    else if a == "" then true
    else a[0] < b[0] || (a[0] == b[0] && StrLess(a[1..], b[1..]))
  }

  predicate StrLessEq(a: string, b: string) {
    !StrLess(b, a)
  }

  lemma {:induction false} StrLessTransitive(a: string, b: string, c: string)
    requires StrLess(a, b) && StrLess(b, c)
    ensures StrLess(a, c)
  {
    if a != "" && a[0] == b[0] == c[0] {
      StrLessTransitive(a[1..], b[1..], c[1..]);
    }
  }

  lemma {:induction false} StrLessTotal(a: string, b: string)
    ensures StrLess(a, b) || StrLess(b, a) || a == b
    ensures !(StrLess(a, b) && StrLess(b, a))
    ensures !StrLess(a, a)
  {
    if a != "" {
      StrLessTotal(a[1..], a[1..]);
      if b != "" {
        StrLessTotal(a[1..], b[1..]);
        assert a == [a[0]] + a[1..] && b == [b[0]] + b[1..];
      }
    }
  }

  lemma StrLessEqTransitive(a: string, b: string, c: string)
    requires StrLessEq(a, b) && StrLessEq(b, c)
    ensures StrLessEq(a, c)
  {
    StrLessTotal(a, b);
    StrLessTotal(b, c);
    if StrLess(c, a) {
      if a != b { StrLessTransitive(c, a, b); }
    }
  }
}
