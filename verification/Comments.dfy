/**
The eraser of multi-line comments: it jumps from opening line to closing line and
overwrites the lines in between, in place.  It is proved against a mode that
walks through the lines one by one.
*/
module Comments {
  import opened Wrappers

  // ----- the string operations of the source

  predicate IsSpace(c: char) {
    c == ' ' || c == '\t' || c == '\n' || c == '\r' || c == '\U{000b}' || c == '\U{000c}'
  }

  function StripLeft(s: string): string {
    if s != [] && IsSpace(s[0]) then StripLeft(s[1..]) else s
  }

  function StripRight(s: string): string {
    if s != [] && IsSpace(s[|s| - 1]) then StripRight(s[..|s| - 1]) else s
  }

  function Strip(s: string): string {
    StripRight(StripLeft(s))
  }

  /** The line starts a comment that does not end on it. */
  predicate Opens(line: string) {
    var s := Strip(line);
    "/*" <= s && !exists i :: 2 <= i < |s| - 1 && s[i] == '*' && s[i + 1] == '/'
  }

  /** The line ends with the end of a comment. */
  predicate Closes(line: string) {
    var s := Strip(line);
    2 <= |s| && s[|s| - 2] == '*' && s[|s| - 1] == '/'
  }

  const DUMMY := "// dummy"

  lemma DummyIsNeither()
    ensures !Opens(DUMMY) && !Closes(DUMMY)
  {
    assert DUMMY[0] == '/' && DUMMY[7] == 'y' && DUMMY[1] == '/';
    assert Strip(DUMMY) == DUMMY;
  }

  /** A line can be both at once in one way only. */
  lemma OpensAndCloses(line: string)
    ensures Opens(line) && Closes(line) <==> Strip(line) == "/*/"
  {
    var s := Strip(line);
    if Opens(line) && Closes(line) {
      assert "/*"[0] == '/' && "/*"[1] == '*';
      var i := |s| - 2;
      assert i < 2;
      assert s == "/*/";
    }
  }

  // ----- which lines those are

  /** White space, as the strip of the source takes it. */
  predicate AllWhite(w: string) {
    forall i :: 0 <= i < |w| ==>
      w[i] == ' ' || w[i] == '\t' || w[i] == '\n' || w[i] == '\r' || w[i] == '\U{000b}' || w[i] == '\U{000c}'
  }

  predicate EndsComment(s: string, i: nat) {
    i + 1 < |s| && s[i] == '*' && s[i + 1] == '/'
  }

  lemma {:induction false} LeftIs(line: string) returns (w: string)
    ensures line == w + StripLeft(line) && AllWhite(w)
    ensures StripLeft(line) != "" ==> !AllWhite([StripLeft(line)[0]])
    decreases |line|
  {
    if line != "" && IsSpace(line[0]) {
      var rest := LeftIs(line[1..]);
      w := [line[0]] + rest;
    } else {
      w := "";
      if line != "" { assert [line[0]][0] == line[0]; }
    }
  }

  lemma {:induction false} RightIs(line: string) returns (w: string)
    ensures line == StripRight(line) + w && AllWhite(w)
    ensures StripRight(line) != "" ==> !AllWhite([StripRight(line)[|StripRight(line)| - 1]])
    decreases |line|
  {
    if line != "" && IsSpace(line[|line| - 1]) {
      var rest := RightIs(line[..|line| - 1]);
      w := rest + [line[|line| - 1]];
    } else {
      w := "";
      if line != "" { assert [line[|line| - 1]][0] == line[|line| - 1]; }
    }
  }

  /** Stripping gives the middle of the line: white space before and after it, and neither
      at its ends. */
  lemma StripIs(line: string) returns (before: string, after: string)
    ensures line == before + Strip(line) + after && AllWhite(before) && AllWhite(after)
    ensures Strip(line) != "" ==>
      !AllWhite([Strip(line)[0]]) && !AllWhite([Strip(line)[|Strip(line)| - 1]])
  {
    before := LeftIs(line);
    after := RightIs(StripLeft(line));
    assert Strip(line) != "" ==> Strip(line)[0] == StripLeft(line)[0];
  }

  /** The middle is the only one. */
  lemma StripIsUnique(line: string, before: string, m: string, after: string)
    requires line == before + m + after && AllWhite(before) && AllWhite(after)
    requires m != "" && !AllWhite([m[0]]) && !AllWhite([m[|m| - 1]])
    ensures Strip(line) == m
  {
    var b, a := StripIs(line);
    var s := Strip(line);
    assert line[|before|] == m[0] && line[|before| + |m| - 1] == m[|m| - 1];
    WhiteJoins(b, a);
    assert !AllWhite(line) by { assert [m[0]][0] == line[|before|]; }
    assert s != "" by { assert s == "" ==> line == b + a; }
    assert line[|b|] == s[0] && line[|b| + |s| - 1] == s[|s| - 1];
    NotInWhite(line, b, s[0], before);
    NotInWhite(line, before, m[0], b);
    assert |b| == |before|;
    NotInWhiteAfter(line, |b| + |s|, a, |before| + |m| - 1);
    NotInWhiteAfter(line, |before| + |m|, after, |b| + |s| - 1);
    assert line[|b|..|b| + |s|] == s && line[|before|..|before| + |m|] == m;
  }

  lemma WhiteJoins(a: string, b: string)
    requires AllWhite(a) && AllWhite(b)
    ensures AllWhite(a + b)
  {
  }

  /** Where a character is not white space the white space at the front has ended. */
  lemma NotInWhite(line: string, b: string, ch: char, before: string)
    requires |b| < |line| && line[|b|] == ch && !AllWhite([ch])
    requires |before| <= |line| && line[..|before|] == before && AllWhite(before)
    ensures |before| <= |b|
  {
    assert forall k :: 0 <= k < |before| ==> before[k] == line[k];
    assert [ch][0] == ch;
  }

  lemma NotInWhiteAfter(line: string, from: nat, a: string, at: nat)
    requires from + |a| == |line| && line[from..] == a && AllWhite(a)
    requires at < |line| && !AllWhite([line[at]])
    ensures at < from
  {
    assert forall k :: from <= k < |line| ==> line[k] == a[k - from];
    assert [line[at]][0] == line[at];
  }

  /** A line closes a comment exactly if it ends in an end mark and white space. */
  lemma ClosesExactly(line: string)
    ensures Closes(line) <==> exists x, w :: line == x + "*/" + w && AllWhite(w)
  {
    var before, after := StripIs(line);
    var s := Strip(line);
    if Closes(line) {
      assert s == s[..|s| - 2] + "*/";
      assert line == (before + s[..|s| - 2]) + "*/" + after;
    }
    if x, w :| line == x + "*/" + w && AllWhite(w) {
      EndIsStripped(line, x, w);
    }
  }

  lemma EndIsStripped(line: string, x: string, w: string)
    requires line == x + "*/" + w && AllWhite(w)
    ensures Closes(line)
  {
    var left := LeftIs(x + "*/");
    var m := StripLeft(x + "*/");
    assert (x + "*/")[|x|] == '*' && (x + "*/")[|x| + 1] == '/';
    assert !AllWhite("*") && !AllWhite("/") by { assert "*"[0] == '*' && "/"[0] == '/'; }
    assert ['*'] == "*" && ['/'] == "/";
    assert |left| <= |x| by {
      assert forall k :: 0 <= k < |left| ==> left[k] == (x + "*/")[k];
    }
    assert m == (left + m)[|left|..] == (x + "*/")[|left|..];
    assert m[|m| - 1] == '/' && m[|m| - 2] == '*';
    assert line == left + m + w;
    StripIsUnique(line, left, m, w);
  }

  /** A line opens a comment exactly if it is white space and a begin mark, with no end mark after it. */
  lemma OpensExactly(line: string)
    ensures Opens(line) <==>
      exists w, y :: line == w + "/*" + y && AllWhite(w) && forall i :: 0 <= i < |y| ==> !EndsComment(y, i)
  {
    var before, after := StripIs(line);
    var s := Strip(line);
    if Opens(line) {
      var y := s[2..] + after;
      assert s == "/*" + s[2..];
      assert line == before + "/*" + y;
      forall i | 0 <= i < |y| ensures !EndsComment(y, i) {
        NoEndAcross(s, after, i);
      }
    }
    if w, y :| line == w + "/*" + y && AllWhite(w) && forall i :: 0 <= i < |y| ==> !EndsComment(y, i) {
      BeginIsStripped(line, w, y);
    }
  }

  lemma NoEndAcross(s: string, after: string, i: nat)
    requires 2 <= |s| && AllWhite(after) && i < |s[2..] + after|
    requires !exists j :: 2 <= j < |s| - 1 && s[j] == '*' && s[j + 1] == '/'
    ensures !EndsComment(s[2..] + after, i)
  {
    var y := s[2..] + after;
    assert forall k :: 0 <= k < |y| ==> y[k] == if k < |s| - 2 then s[k + 2] else after[k - (|s| - 2)];
  }

  lemma BeginIsStripped(line: string, w: string, y: string)
    requires line == w + "/*" + y && AllWhite(w) && forall i :: 0 <= i < |y| ==> !EndsComment(y, i)
    ensures Opens(line)
  {
    var right := RightIs("/*" + y);
    var m := StripRight("/*" + y);
    var t := "/*" + y;
    assert t[0] == '/' && t[1] == '*';
    assert !AllWhite("*") && !AllWhite("/") by { assert "*"[0] == '*' && "/"[0] == '/'; }
    assert ['*'] == "*" && ['/'] == "/";
    assert 2 <= |m| by {
      assert forall k :: |m| <= k < |t| ==> t[k] == right[k - |m|];
    }
    assert m[0] == (m + right)[0] == '/' && m[1] == (m + right)[1] == '*';
    assert line == w + t && t == m + right;
    assert line == w + m + right;
    StripIsUnique(line, w, m, right);
    forall j | 2 <= j < |m| - 1 ensures !(m[j] == '*' && m[j + 1] == '/') {
      assert m[j] == (m + right)[j] == y[j - 2] && m[j + 1] == (m + right)[j + 1] == y[j - 1];
      assert !EndsComment(y, j - 2);
    }
    assert "/*" <= m;
  }

  // ----- the mode: inside a comment at the start of line k

  /** What the patterns see of a line. */
  datatype Mark = Mark(opens: bool, closes: bool)

  type Marks = seq<Mark>

  /** How the beginning and the end of a comment are recognised; the scan does not depend on it. */
  datatype Patterns = Patterns(opens: string -> bool, closes: string -> bool)

  const C_STYLE := Patterns(Opens, Closes)

  function MarkOf(pat: Patterns, line: string): Mark {
    Mark(pat.opens(line), pat.closes(line))
  }

  function MarksOf(pat: Patterns, lines: seq<string>): (ms: Marks)
    ensures |ms| == |lines| && Marked(pat, lines, 0, ms)
  {
    seq(|lines|, k requires 0 <= k < |lines| => MarkOf(pat, lines[k]))
  }

  /** From line `from` on these are the marks of the lines. */
  ghost predicate Marked(pat: Patterns, lines: seq<string>, from: nat, ms: Marks)
    requires |ms| == |lines|
  {
    forall k :: from <= k < |lines| ==> ms[k] == MarkOf(pat, lines[k])
  }

  predicate Mode(ms: Marks, k: nat)
    requires k <= |ms|
  {
    k != 0 && !ms[k - 1].closes && (Mode(ms, k - 1) || ms[k - 1].opens)
  }

  /** Where the comment that is open at line k began. */
  function Began(ms: Marks, k: nat): (b: nat)
    requires k <= |ms| && Mode(ms, k)
    ensures b < k
  {
    if Mode(ms, k - 1) then Began(ms, k - 1) else k - 1
  }

  predicate Commented(ms: Marks, k: nat)
    requires k < |ms|
  {
    Mode(ms, k) || ms[k].opens
  }

  /** Every commented line is erased, except those of a comment that never ends. */
  predicate Erased(ms: Marks, k: nat)
    requires k < |ms|
  {
    Commented(ms, k) && !(Mode(ms, |ms|) && Began(ms, |ms|) <= k)
  }

  function Cleansed(pat: Patterns, lines: seq<string>): (r: seq<string>)
    ensures |r| == |lines|
  {
    var ms := MarksOf(pat, lines);
    seq(|lines|, k requires 0 <= k < |lines| => if Erased(ms, k) then DUMMY else lines[k])
  }

  /** The line number of the error, if there is one. */
  function Reported(ms: Marks): Option<nat> {
    if Mode(ms, |ms|) then Some(Began(ms, |ms|) + 1) else None
  }

  lemma {:induction false} NoneOpens(ms: Marks, i: nat, j: nat)
    requires i <= j <= |ms| && !Mode(ms, i) && forall k :: i <= k < j ==> !ms[k].opens
    ensures !Mode(ms, j) && forall k :: i <= k < j ==> !Commented(ms, k)
    decreases j
  {
    if i < j { NoneOpens(ms, i, j - 1); }
  }

  lemma {:induction false} StaysOpen(ms: Marks, b: nat, j: nat)
    requires b < j <= |ms| && !Mode(ms, b) && ms[b].opens
    requires forall k :: b <= k < j ==> !ms[k].closes
    ensures Mode(ms, j) && Began(ms, j) == b
    ensures forall k :: b <= k < j ==> Commented(ms, k)
    decreases j
  {
    if b + 1 < j { StaysOpen(ms, b, j - 1); }
  }

  // ----- the code

  method FindNextMultiLineCommentStart(pat: Patterns, lines: array<string>, from: nat, ghost ms: Marks) returns (i: nat)
    requires from <= lines.Length == |ms| && Marked(pat, lines[..], from, ms)
    ensures from <= i <= lines.Length && (i < lines.Length ==> ms[i].opens)
    ensures forall k :: from <= k < i ==> !ms[k].opens
  {
    i := from;
    while i < lines.Length
      invariant from <= i <= lines.Length && forall k :: from <= k < i ==> !ms[k].opens
    {
      assert ms[i] == MarkOf(pat, lines[..][i]);
      if pat.opens(lines[i]) { return; }
      i := i + 1;
    }
  }

  method FindNextMultiLineCommentEnd(pat: Patterns, lines: array<string>, from: nat, ghost ms: Marks) returns (i: nat)
    requires from <= lines.Length == |ms| && Marked(pat, lines[..], from, ms)
    ensures from <= i <= lines.Length && (i < lines.Length ==> ms[i].closes)
    ensures forall k :: from <= k < i ==> !ms[k].closes
  {
    i := from;
    while i < lines.Length
      invariant from <= i <= lines.Length && forall k :: from <= k < i ==> !ms[k].closes
    {
      assert ms[i] == MarkOf(pat, lines[..][i]);
      if pat.closes(lines[i]) { return; }
      i := i + 1;
    }
  }

  function Overwritten(lines: seq<string>, begin: nat, end: nat): (r: seq<string>)
    requires begin <= end <= |lines|
    ensures |r| == |lines|
    ensures forall k :: 0 <= k < |lines| ==> r[k] == if begin <= k < end then DUMMY else lines[k]
  {
    lines[..begin] + seq(end - begin, _ => DUMMY) + lines[end..]
  }

  method RemoveMultiLineCommentsFromRange(lines: array<string>, begin: nat, end: nat)
    requires begin <= end <= lines.Length
    modifies lines
    ensures lines[..] == Overwritten(old(lines[..]), begin, end)
  {
    for i := begin to end
      invariant lines[..] == Overwritten(old(lines[..]), begin, i)
    {
      lines[i] := DUMMY;
    }
  }

  /** Everything before `at` is as it will be, everything from there on as it was. */
  ghost predicate DoneTo(ms: Marks, was: seq<string>, now: seq<string>, at: nat) {
    && |now| == |was| == |ms| && at <= |was| && !Mode(ms, at)
    && (forall k :: 0 <= k < at ==> now[k] == if Commented(ms, k) then DUMMY else was[k])
    && (forall k :: at <= k < |was| ==> now[k] == was[k])
  }

  lemma StillMarked(pat: Patterns, ms: Marks, was: seq<string>, now: seq<string>, at: nat, from: nat)
    requires DoneTo(ms, was, now, at) && Marked(pat, was, 0, ms) && at <= from
    ensures Marked(pat, now, from, ms)
  {
    forall k | from <= k < |now| ensures ms[k] == MarkOf(pat, now[k]) {
      assert now[k] == was[k];
    }
  }

  ghost predicate Result(ms: Marks, was: seq<string>, now: seq<string>) {
    && |now| == |was| == |ms|
    && forall k :: 0 <= k < |was| ==> now[k] == if Erased(ms, k) then DUMMY else was[k]
  }

  lemma NothingMore(ms: Marks, was: seq<string>, now: seq<string>, at: nat)
    requires DoneTo(ms, was, now, at) && forall k :: at <= k < |was| ==> !ms[k].opens
    ensures Result(ms, was, now) && Reported(ms) == None
  {
    NoneOpens(ms, at, |was|);
  }

  lemma NeverEnds(ms: Marks, was: seq<string>, now: seq<string>, at: nat, begin: nat)
    requires DoneTo(ms, was, now, at) && at <= begin < |was| && ms[begin].opens
    requires forall k :: at <= k < begin ==> !ms[k].opens
    requires forall k :: begin <= k < |was| ==> !ms[k].closes
    ensures Result(ms, was, now) && Reported(ms) == Some(begin + 1)
  {
    NoneOpens(ms, at, begin);
    StaysOpen(ms, begin, |was|);
  }

  lemma OneMore(ms: Marks, was: seq<string>, now: seq<string>, at: nat, begin: nat, end: nat)
    requires DoneTo(ms, was, now, at) && at <= begin <= end < |was| && ms[begin].opens && ms[end].closes
    requires forall k :: at <= k < begin ==> !ms[k].opens
    requires forall k :: begin <= k < end ==> !ms[k].closes
    ensures DoneTo(ms, was, Overwritten(now, begin, end + 1), end + 1)
  {
    NoneOpens(ms, at, begin);
    if begin < end { StaysOpen(ms, begin, end); }
  }

  /** The next comment from `at` on: where it begins, and where it ends if it does. */
  method FindNextComment(pat: Patterns, lines: array<string>, at: nat, ghost ms: Marks, ghost was: seq<string>)
    returns (begin: nat, end: nat)
    requires at < lines.Length && DoneTo(ms, was, lines[..], at) && Marked(pat, was, 0, ms)
    ensures at <= begin <= end <= lines.Length
    ensures begin < lines.Length ==> ms[begin].opens && (end < lines.Length ==> ms[end].closes)
    ensures forall k :: at <= k < begin ==> !ms[k].opens
    ensures forall k :: begin <= k < end ==> !ms[k].closes
  {
    StillMarked(pat, ms, was, lines[..], at, at);
    begin := FindNextMultiLineCommentStart(pat, lines, at, ms);
    end := begin;
    if begin < lines.Length {
      StillMarked(pat, ms, was, lines[..], at, begin);
      end := FindNextMultiLineCommentEnd(pat, lines, begin, ms);
    }
  }

  /** One comment erased, from `at` on: where to go on, or how it ended. */
  method RemoveNext(pat: Patterns, lines: array<string>, at: nat, ghost ms: Marks, ghost was: seq<string>)
    returns (next: Option<nat>, error: Option<nat>)
    requires at < lines.Length && DoneTo(ms, was, lines[..], at) && Marked(pat, was, 0, ms)
    modifies lines
    ensures next.Some? ==> at < next.value <= lines.Length && DoneTo(ms, was, lines[..], next.value)
    ensures next == None ==> Result(ms, was, lines[..]) && error == Reported(ms)
  {
    var begin, end := FindNextComment(pat, lines, at, ms, was);
    if begin >= lines.Length {
      NothingMore(ms, was, lines[..], at);
      return None, None;
    }
    if end >= lines.Length {
      NeverEnds(ms, was, lines[..], at, begin);
      return None, Some(begin + 1);
    }
    EraseComment(lines, at, begin, end, ms, was);
    return Some(end + 1), None;
  }

  method EraseComment(lines: array<string>, ghost at: nat, begin: nat, end: nat,
                      ghost ms: Marks, ghost was: seq<string>)
    requires DoneTo(ms, was, lines[..], at) && at <= begin <= end < lines.Length
    requires ms[begin].opens && ms[end].closes
    requires forall k :: at <= k < begin ==> !ms[k].opens
    requires forall k :: begin <= k < end ==> !ms[k].closes
    modifies lines
    ensures DoneTo(ms, was, lines[..], end + 1)
  {
    OneMore(ms, was, lines[..], at, begin, end);
    RemoveMultiLineCommentsFromRange(lines, begin, end + 1);
  }

  lemma ResultIsCleansed(pat: Patterns, was: seq<string>, now: seq<string>)
    requires Result(MarksOf(pat, was), was, now)
    ensures now == Cleansed(pat, was)
  {
  }

  method RemoveComments(pat: Patterns, lines: array<string>) returns (error: Option<nat>)
    modifies lines
    ensures lines[..] == Cleansed(pat, old(lines[..]))
    ensures error == Reported(MarksOf(pat, old(lines[..])))
  {
    ghost var was, ms := lines[..], MarksOf(pat, lines[..]);
    var at := 0;
    while at < lines.Length
      invariant DoneTo(ms, was, lines[..], at)
    {
      var next;
      next, error := RemoveNext(pat, lines, at, ms, was);
      if next == None {
        ResultIsCleansed(pat, was, lines[..]);
        return;
      }
      at := next.value;
    }
    NothingMore(ms, was, lines[..], at);
    ResultIsCleansed(pat, was, lines[..]);
    error := None;
  }

  method RemoveMultiLineComments(lines: array<string>) returns (error: Option<nat>)
    modifies lines
    ensures lines[..] == Cleansed(C_STYLE, old(lines[..]))
    ensures error == Reported(MarksOf(C_STYLE, old(lines[..])))
  {
    error := RemoveComments(C_STYLE, lines);
  }

  // ----- what the result is

  /** Without an error no line opens a comment any more. */
  lemma NoCommentIsLeft(lines: seq<string>, k: nat)
    requires Reported(MarksOf(C_STYLE, lines)) == None && k < |lines|
    ensures !Opens(Cleansed(C_STYLE, lines)[k])
  {
    DummyIsNeither();
  }

  /** From an opening line to the first line from there on that closes. */
  ghost predicate IsComment(lines: seq<string>, b: int, e: int) {
    && 0 <= b <= e < |lines|
    && Opens(lines[b]) && Closes(lines[e])
    && (forall j :: b <= j < e ==> !Closes(lines[j]))
  }

  /** Only lines between an opening line and its closing line change. */
  lemma OnlyCommentsChange(lines: seq<string>, k: nat)
    requires k < |lines| && Cleansed(C_STYLE, lines)[k] != lines[k]
    ensures Cleansed(C_STYLE, lines)[k] == "// dummy"
    ensures exists b, e :: b <= k <= e && IsComment(lines, b, e)
  {
    var ms := MarksOf(C_STYLE, lines);
    var b := if Mode(ms, k) then Began(ms, k) else k;
    if Mode(ms, k) { BeganOutside(ms, k); }
    var e := EndsAt(ms, k);
    MarkedComment(lines, ms, b, e);
  }

  lemma MarkedComment(lines: seq<string>, ms: Marks, b: nat, e: nat)
    requires ms == MarksOf(C_STYLE, lines) && b <= e < |ms| && ms[b].opens && ms[e].closes
    requires forall j :: b <= j < e ==> !ms[j].closes
    ensures IsComment(lines, b, e)
  {
    forall j | b <= j < e ensures !Closes(lines[j]) {
      assert ms[j] == MarkOf(C_STYLE, lines[j]);
    }
  }

  lemma {:induction false} BeganOutside(ms: Marks, k: nat)
    requires k <= |ms| && Mode(ms, k)
    ensures !Mode(ms, Began(ms, k)) && ms[Began(ms, k)].opens
    ensures forall j :: Began(ms, k) < j <= k ==> Mode(ms, j)
    ensures forall j :: Began(ms, k) <= j < k ==> !ms[j].closes
    decreases k
  {
    if Mode(ms, k - 1) { BeganOutside(ms, k - 1); }
  }

  /** An erased line is in a comment that ends. */
  lemma {:induction false} EndsAt(ms: Marks, k: nat) returns (e: nat)
    requires k < |ms| && Erased(ms, k)
    ensures k <= e < |ms| && ms[e].closes && forall j :: k <= j < e ==> !ms[j].closes
    decreases |ms| - k
  {
    if ms[k].closes {
      e := k;
    } else {
      assert Mode(ms, k + 1);
      if k + 1 < |ms| {
        if Mode(ms, |ms|) { BeganOutside(ms, |ms|); }
        e := EndsAt(ms, k + 1);
      } else {
        e := k;
      }
    }
  }

  // ----- reading from the top: comment after comment

  datatype Span = Span(first: nat, last: nat)

  /** From a line outside comments on: each comment runs from the next line that opens one to
      the first line from there that closes it; `unended` is the start of one that never ends. */
  ghost predicate Scanned(lines: seq<string>, from: nat, spans: seq<Span>, unended: Option<nat>)
    decreases |spans|
  {
    if spans != [] then
      var b, e := spans[0].first, spans[0].last;
      && from <= b <= e < |lines|
      && Opens(lines[b]) && (forall k :: from <= k < b ==> !Opens(lines[k]))
      && Closes(lines[e]) && (forall k :: b <= k < e ==> !Closes(lines[k]))
      && Scanned(lines, e + 1, spans[1..], unended)
    else match unended
      case None => forall k :: from <= k < |lines| ==> !Opens(lines[k])
      case Some(b) =>
        && from <= b < |lines|
        && Opens(lines[b]) && (forall k :: from <= k < b ==> !Opens(lines[k]))
        && (forall k :: b <= k < |lines| ==> !Closes(lines[k]))
  }

  ghost predicate InSpan(spans: seq<Span>, k: nat) {
    exists i :: 0 <= i < |spans| && spans[i].first <= k <= spans[i].last
  }

  lemma FirstOpening(ms: Marks, from: nat) returns (b: nat)
    requires from <= |ms|
    ensures from <= b <= |ms| && (b < |ms| ==> ms[b].opens) && forall k :: from <= k < b ==> !ms[k].opens
  {
    b := from;
    while b < |ms| && !ms[b].opens
      invariant from <= b <= |ms| && forall k :: from <= k < b ==> !ms[k].opens
    {
      b := b + 1;
    }
  }

  lemma FirstClosing(ms: Marks, from: nat) returns (e: nat)
    requires from <= |ms|
    ensures from <= e <= |ms| && (e < |ms| ==> ms[e].closes) && forall k :: from <= k < e ==> !ms[k].closes
  {
    e := from;
    while e < |ms| && !ms[e].closes
      invariant from <= e <= |ms| && forall k :: from <= k < e ==> !ms[k].closes
    {
      e := e + 1;
    }
  }

  lemma InLaterSpan(first: Span, rest: seq<Span>, k: nat)
    ensures InSpan([first] + rest, k) <==> first.first <= k <= first.last || InSpan(rest, k)
  {
    var spans := [first] + rest;
    if InSpan(rest, k) {
      var i :| 0 <= i < |rest| && rest[i].first <= k <= rest[i].last;
      assert spans[i + 1] == rest[i];
    }
    assert spans[0] == first && forall i :: 0 < i < |spans| ==> spans[i] == rest[i - 1];
  }

  /** One comment, from b to e, and what lies before it. */
  lemma OneComment(ms: Marks, at: nat, b: nat, e: nat)
    requires at <= b <= e < |ms| && !Mode(ms, at) && ms[b].opens && ms[e].closes
    requires forall k :: at <= k < b ==> !ms[k].opens
    requires forall k :: b <= k < e ==> !ms[k].closes
    ensures !Mode(ms, e + 1)
    ensures forall k :: at <= k <= e ==> (Commented(ms, k) <==> b <= k)
  {
    NoneOpens(ms, at, b);
    if b < e { StaysOpen(ms, b, e); }
  }

  /** The same on the marks of the lines. */
  ghost predicate ScannedMarks(ms: Marks, from: nat, spans: seq<Span>, unended: Option<nat>)
    decreases |spans|
  {
    if spans != [] then
      var b, e := spans[0].first, spans[0].last;
      && from <= b <= e < |ms|
      && ms[b].opens && (forall k :: from <= k < b ==> !ms[k].opens)
      && ms[e].closes && (forall k :: b <= k < e ==> !ms[k].closes)
      && ScannedMarks(ms, e + 1, spans[1..], unended)
    else match unended
      case None => forall k :: from <= k < |ms| ==> !ms[k].opens
      case Some(b) =>
        && from <= b < |ms|
        && ms[b].opens && (forall k :: from <= k < b ==> !ms[k].opens)
        && (forall k :: b <= k < |ms| ==> !ms[k].closes)
  }

  lemma {:induction false} MarksScanned(lines: seq<string>, from: nat, spans: seq<Span>, unended: Option<nat>)
    requires ScannedMarks(MarksOf(C_STYLE, lines), from, spans, unended)
    ensures Scanned(lines, from, spans, unended)
    decreases |spans|
  {
    assert forall k :: 0 <= k < |lines| ==> MarksOf(C_STYLE, lines)[k] == Mark(Opens(lines[k]), Closes(lines[k]));
    if spans != [] { MarksScanned(lines, spans[0].last + 1, spans[1..], unended); }
  }

  /** The lines from `at` on that are erased are those in the spans, which begin there. */
  ghost predicate SpansErased(ms: Marks, at: nat, spans: seq<Span>, unended: Option<nat>) {
    && Reported(ms) == (match unended case None => None case Some(b) => Some(b + 1))
    && (unended.Some? ==> at <= unended.value)
    && (forall k :: at <= k < |ms| ==> (Erased(ms, k) <==> InSpan(spans, k)))
    && (forall k: nat :: k < at ==> !InSpan(spans, k))
  }

  lemma OneMoreSpan(ms: Marks, at: nat, b: nat, e: nat, rest: seq<Span>, unended: Option<nat>)
    requires at <= b <= e < |ms| && SpansErased(ms, e + 1, rest, unended)
    requires forall k :: at <= k <= e ==> (Commented(ms, k) <==> b <= k)
    ensures SpansErased(ms, at, [Span(b, e)] + rest, unended)
  {
    forall k: nat ensures InSpan([Span(b, e)] + rest, k) <==> b <= k <= e || InSpan(rest, k) {
      InLaterSpan(Span(b, e), rest, k);
    }
  }

  lemma {:induction false} ScanFrom(ms: Marks, at: nat) returns (spans: seq<Span>, unended: Option<nat>)
    requires at <= |ms| && !Mode(ms, at)
    ensures ScannedMarks(ms, at, spans, unended) && SpansErased(ms, at, spans, unended)
    decreases |ms| - at
  {
    var b := FirstOpening(ms, at);
    NoneOpens(ms, at, b);
    spans, unended := [], None;
    if b < |ms| {
      var e := FirstClosing(ms, b);
      if e == |ms| {
        StaysOpen(ms, b, |ms|);
        unended := Some(b);
      } else {
        OneComment(ms, at, b, e);
        var rest;
        rest, unended := ScanFrom(ms, e + 1);
        spans := [Span(b, e)] + rest;
        OneMoreSpan(ms, at, b, e, rest, unended);
      }
    }
  }

  /** The result is the lines with every comment that ends blotted out, and the report is the
      line number of the comment that does not. */
  lemma CommentsAreErased(lines: seq<string>) returns (spans: seq<Span>, unended: Option<nat>)
    ensures Scanned(lines, 0, spans, unended)
    ensures forall k :: 0 <= k < |lines| ==>
      Cleansed(C_STYLE, lines)[k] == if InSpan(spans, k) then "// dummy" else lines[k]
    ensures Reported(MarksOf(C_STYLE, lines)) == match unended case None => None case Some(b) => Some(b + 1)
  {
    spans, unended := ScanFrom(MarksOf(C_STYLE, lines), 0);
    MarksScanned(lines, 0, spans, unended);
  }

  lemma {:induction false} SameMode(a: Marks, b: Marks, i: nat, k: nat)
    requires |a| == |b| && i <= k <= |a| && !Mode(a, i) && !Mode(b, i)
    requires forall j :: i <= j < k ==> a[j] == b[j]
    ensures Mode(a, k) == Mode(b, k) && forall j :: i <= j < k ==> Commented(a, j) == Commented(b, j)
    ensures Mode(a, k) ==> i <= Began(a, k) == Began(b, k)
    decreases k
  {
    if i < k { SameMode(a, b, i, k - 1); }
  }

  /** Erasing once is enough, also when the last comment does not end; and a second pass
      reports the same. */
  lemma CleansingIsIdempotent(lines: seq<string>)
    ensures Cleansed(C_STYLE, Cleansed(C_STYLE, lines)) == Cleansed(C_STYLE, lines)
    ensures Reported(MarksOf(C_STYLE, Cleansed(C_STYLE, lines))) == Reported(MarksOf(C_STYLE, lines))
  {
    DummyIsNeither();
    MarksSettle(MarksOf(C_STYLE, lines), MarksOf(C_STYLE, Cleansed(C_STYLE, lines)));
  }

  /** Erased lines have no mark, the others keep theirs: then nothing more is erased. */
  lemma MarksSettle(ms: Marks, once: Marks)
    requires |once| == |ms|
    requires forall k :: 0 <= k < |ms| ==> once[k] == if Erased(ms, k) then Mark(false, false) else ms[k]
    ensures Reported(once) == Reported(ms)
    ensures forall k :: 0 <= k < |ms| ==> !Erased(once, k)
  {
    var n := |ms|;
    var b := if Mode(ms, n) then Began(ms, n) else n;
    assert forall k :: 0 <= k < b ==> !once[k].opens;
    NoneOpens(once, 0, b);
    if Mode(ms, n) {
      BeganOutside(ms, n);
      SameMode(ms, once, b, n);
    }
  }
}
