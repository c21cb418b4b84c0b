/**
The bracket matchers of the linter, line by line forward and backward, proved
against matching brackets of the whole text.
*/
module Brackets {
  // ----- the whole text

  function Flat(lines: seq<string>): string {
    if lines == [] then "" else Flat(lines[..|lines| - 1]) + lines[|lines| - 1]
  }

  /** Where line `l` starts in the whole text. */
  function Offset(lines: seq<string>, l: nat): nat
    requires l <= |lines|
  {
    |Flat(lines[..l])|
  }

  lemma {:induction false} FlatPrefix(lines: seq<string>, l: nat)
    requires l <= |lines|
    ensures Flat(lines[..l]) <= Flat(lines)
    decreases |lines|
  {
    if l < |lines| {
      FlatPrefix(lines[..|lines| - 1], l);
      assert lines[..|lines| - 1][..l] == lines[..l];
    } else {
      assert lines[..l] == lines;
    }
  }

  /** A line is a stretch of the whole text. */
  lemma LineInFlat(lines: seq<string>, l: nat)
    requires l < |lines|
    ensures Offset(lines, l + 1) == Offset(lines, l) + |lines[l]| <= |Flat(lines)|
    ensures Flat(lines)[Offset(lines, l)..Offset(lines, l + 1)] == lines[l]
  {
    FlatPrefix(lines, l + 1);
    var upTo := Flat(lines[..l + 1]);
    assert lines[..l + 1][..l] == lines[..l];
    assert upTo == Flat(lines[..l]) + lines[l];
    assert Flat(lines)[..|upTo|] == upTo;
    assert Flat(lines)[|Flat(lines[..l])|..|upTo|] == upTo[|Flat(lines[..l])|..];
  }

  lemma CharInFlat(lines: seq<string>, l: nat, k: nat)
    requires l < |lines| && k < |lines[l]|
    ensures Offset(lines, l) + k < |Flat(lines)|
    ensures Flat(lines)[Offset(lines, l) + k] == lines[l][k]
  {
    LineInFlat(lines, l);
    assert Flat(lines)[Offset(lines, l)..Offset(lines, l + 1)][k] == lines[l][k];
  }

  lemma {:induction false} OffsetGrows(lines: seq<string>, l: nat, m: nat)
    requires l <= m <= |lines|
    ensures Offset(lines, l) <= Offset(lines, m)
  {
    FlatPrefix(lines[..m], l);
    assert lines[..m][..l] == lines[..l];
  }

  /** A place in the whole text is a place in one line only. */
  lemma PlaceIsUnique(lines: seq<string>, l: nat, p: nat, m: nat, q: nat)
    requires l < |lines| && m < |lines| && p < |lines[l]| && q < |lines[m]|
    requires Offset(lines, l) + p == Offset(lines, m) + q
    ensures l == m && p == q
  {
    LineInFlat(lines, l);
    LineInFlat(lines, m);
    if l < m { OffsetGrows(lines, l + 1, m); }
    if m < l { OffsetGrows(lines, m + 1, l); }
  }

  // ----- matching brackets

  /** Opening minus closing brackets in t[i..k]. */
  function Balance(t: string, o: char, c: char, i: nat, k: nat): int
    requires i <= k <= |t|
    decreases k
  {
    if i == k then 0
    else Balance(t, o, c, i, k - 1) + (if t[k - 1] == o then 1 else if t[k - 1] == c then -1 else 0)
  }

  lemma {:induction false} BalanceSplits(t: string, o: char, c: char, i: nat, m: nat, k: nat)
    requires i <= m <= k <= |t|
    ensures Balance(t, o, c, i, k) == Balance(t, o, c, i, m) + Balance(t, o, c, m, k)
    decreases k
  {
    if m < k { BalanceSplits(t, o, c, i, m, k - 1); }
  }

  lemma {:induction false} BalanceShifts(line: string, t: string, off: nat, o: char, c: char, i: nat, k: nat)
    requires i <= k <= |line| && off + |line| <= |t|
    requires t[off..off + |line|] == line
    ensures Balance(line, o, c, i, k) == Balance(t, o, c, off + i, off + k)
    decreases k
  {
    if i < k {
      BalanceShifts(line, t, off, o, c, i, k - 1);
      assert t[off..off + |line|][k - 1] == line[k - 1];
    }
  }

  /** The bracket at i is closed at j: in between the text stays open, at j it is balanced. */
  ghost predicate Pair(t: string, o: char, c: char, i: nat, j: nat) {
    && i < j < |t|
    && t[i] == o && t[j] == c
    && Balance(t, o, c, i, j + 1) == 0
    && (forall k :: i < k <= j ==> 0 < Balance(t, o, c, i, k))
  }

  /** The same, read from the closing end. */
  ghost predicate PairBackward(t: string, o: char, c: char, i: nat, j: nat) {
    && i < j < |t|
    && t[i] == o && t[j] == c
    && Balance(t, o, c, i, j + 1) == 0
    && var end := j + 1;
       forall k :: i < k <= j ==> Balance(t, o, c, k, end) < 0
  }

  lemma PairFromEitherEnd(t: string, o: char, c: char, i: nat, j: nat)
    ensures Pair(t, o, c, i, j) <==> PairBackward(t, o, c, i, j)
  {
    if i < j < |t| && Balance(t, o, c, i, j + 1) == 0 {
      var end := j + 1;
      forall k | i < k <= j ensures Balance(t, o, c, i, k) == -Balance(t, o, c, k, end) {
        BalanceSplits(t, o, c, i, k, end);
      }
    }
  }

  lemma CloserIsUnique(t: string, o: char, c: char, i: nat, j: nat, j': nat)
    requires Pair(t, o, c, i, j) && Pair(t, o, c, i, j')
    ensures j == j'
  {
    // The text from i is balanced at one closer, and open before the other.
  }

  lemma OpenerIsUnique(t: string, o: char, c: char, i: nat, i': nat, j: nat)
    requires Pair(t, o, c, i, j) && Pair(t, o, c, i', j)
    ensures i == i'
  {
    PairFromEitherEnd(t, o, c, i, j);
    PairFromEitherEnd(t, o, c, i', j);
  }

  /** The spans of two openers of one kind are disjoint or nested. */
  lemma SpansNestOrAreDisjoint(t: string, o: char, c: char, i: nat, j: nat, i': nat, j': nat)
    requires o != c && Pair(t, o, c, i, j) && Pair(t, o, c, i', j') && i < i'
    ensures j < i' || j' < j
  {
    if i' <= j {
      if j == j' { OpenerIsUnique(t, o, c, i, i', j); }
      BalanceSplits(t, o, c, i, i', j + 1);
    }
  }

  // ----- one line

  /** No position in (from, till] closes the expression: a closing bracket there leaves a depth other than 0. */
  ghost predicate NoneCloses(line: string, from: nat, till: nat, depth: int, o: char, c: char)
    requires till <= |line|
  {
    forall k :: from < k <= till && line[k - 1] == c ==> depth + Balance(line, o, c, from, k) != 0
  }

  method FindEndOfExpressionInLine(line: string, startpos: nat, depth: int, startchar: char, endchar: char)
    returns (end: int, newDepth: int)
    requires startpos <= |line| && startchar != endchar
    ensures end != -1 ==>
      && startpos < end <= |line| && newDepth == 0 && line[end - 1] == endchar
      && depth + Balance(line, startchar, endchar, startpos, end) == 0
      && NoneCloses(line, startpos, end - 1, depth, startchar, endchar)
    ensures end == -1 ==>
      && newDepth == depth + Balance(line, startchar, endchar, startpos, |line|)
      && NoneCloses(line, startpos, |line|, depth, startchar, endchar)
  {
    newDepth := depth;
    for i := startpos to |line|
      invariant newDepth == depth + Balance(line, startchar, endchar, startpos, i)
      invariant NoneCloses(line, startpos, i, depth, startchar, endchar)
    {
      if line[i] == startchar {
        newDepth := newDepth + 1;
      } else if line[i] == endchar {
        newDepth := newDepth - 1;
        if newDepth == 0 {
          return i + 1, 0;
        }
      }
    }
    end := -1;
  }

  /** From a positive depth, staying off 0 at every closing bracket is staying positive. */
  lemma {:induction false} StaysPositive(t: string, o: char, c: char, from: nat, till: nat, depth: int)
    requires from <= till <= |t| && o != c
    requires 0 < depth || (depth == 0 && from < till && t[from] == o)
    requires NoneCloses(t, from, till, depth, o, c)
    ensures forall k :: from < k <= till ==> 0 < depth + Balance(t, o, c, from, k)
    decreases till
  {
    if from != till {
      if from + 1 != till { StaysPositive(t, o, c, from, till - 1, depth); }
      else { assert Balance(t, o, c, from, from) == 0; }
      assert t[till - 1] == c ==> depth + Balance(t, o, c, from, till) != 0;
    }
  }

  function CloserOf(o: char): char {
    match o
    case '(' => ')'
    case '[' => ']'
    case '{' => '}'
    case _ => '>'
  }

  function OpenerOf(c: char): char {
    match c
    case ')' => '('
    case ']' => '['
    case '}' => '{'
    case _ => '<'
  }

  predicate IsOpener(ch: char) { ch in "({[<" }

  predicate IsCloser(ch: char) { ch in ")}]>" }

  /** What CloseExpression answers for the bracket at (l, p). */
  ghost predicate CloseAnswers(lines: seq<string>, l: nat, p: nat, l': nat, e: int)
    requires l < |lines| && p < |lines[l]|
  {
    var o := lines[l][p];
    var c := CloserOf(o);
    var at := Offset(lines, l) + p;
    if e > -1 then
      && IsOpener(o)
      && l <= l' < |lines| && 0 < e <= |lines[l']|
      && Pair(Flat(lines), o, c, at, Offset(lines, l') + e - 1)
    else
      && e == -1 && l' == |lines|
      && (IsOpener(o) ==> forall j :: !Pair(Flat(lines), o, c, at, j))
  }

  /** What ReverseCloseExpression answers for the bracket at (l, p). */
  ghost predicate ReverseAnswers(lines: seq<string>, l: nat, p: nat, l': nat, s: int)
    requires l < |lines| && p < |lines[l]|
  {
    var c := lines[l][p];
    var o := OpenerOf(c);
    var at := Offset(lines, l) + p;
    if s > -1 then
      && IsCloser(c)
      && l' <= l && s < |lines[l']|
      && Pair(Flat(lines), o, c, Offset(lines, l') + s, at)
    else
      && s == -1 && l' == 0
      && (IsCloser(c) ==> forall i :: !Pair(Flat(lines), o, c, i, at))
  }

  /** The answer for the bracket at `at`, an o that is to be closed by a c: the place of its
      closer, or none exactly if there is none. */
  ghost predicate Closed(lines: seq<string>, at: nat, l': nat, e: int, o: char, c: char) {
    if e > -1 then
      l' < |lines| && 0 < e <= |lines[l']| && Pair(Flat(lines), o, c, at, Offset(lines, l') + e - 1)
    else
      e == -1 && l' == |lines| && forall j :: !Pair(Flat(lines), o, c, at, j)
  }

  ghost predicate Opened(lines: seq<string>, at: nat, l': nat, s: int, o: char, c: char) {
    if s > -1 then l' < |lines| && s < |lines[l']| && Pair(Flat(lines), o, c, Offset(lines, l') + s, at)
    else s == -1 && l' == 0 && forall i :: !Pair(Flat(lines), o, c, i, at)
  }

  lemma Kinds(ch: char)
    ensures IsOpener(ch) <==> ch == '(' || ch == '[' || ch == '{' || ch == '<'
    ensures IsCloser(ch) <==> ch == ')' || ch == ']' || ch == '}' || ch == '>'
  {
    assert "({[<" == ['(', '{', '[', '<'] && ")}]>" == [')', '}', ']', '>'];
  }

  /** The four kinds of bracket, written out, and any other character. */
  lemma CloseAnswersByKind(lines: seq<string>, l: nat, p: nat, l': nat, e: int)
    requires l < |lines| && p < |lines[l]|
    ensures var o, at := lines[l][p], Offset(lines, l) + p;
      && (o == '(' ==> (CloseAnswers(lines, l, p, l', e) <==> Closed(lines, at, l', e, '(', ')')))
      && (o == '[' ==> (CloseAnswers(lines, l, p, l', e) <==> Closed(lines, at, l', e, '[', ']')))
      && (o == '{' ==> (CloseAnswers(lines, l, p, l', e) <==> Closed(lines, at, l', e, '{', '}')))
      && (o == '<' ==> (CloseAnswers(lines, l, p, l', e) <==> Closed(lines, at, l', e, '<', '>')))
      && (o != '(' && o != '[' && o != '{' && o != '<' ==>
           (CloseAnswers(lines, l, p, l', e) <==> e == -1 && l' == |lines|))
  {
    var o := lines[l][p];
    Kinds(o);
    if IsOpener(o) { CloseAnswersKind(lines, l, p, l', e, o, CloserOf(o)); }
  }

  lemma CloseAnswersKind(lines: seq<string>, l: nat, p: nat, l': nat, e: int, o: char, c: char)
    requires l < |lines| && p < |lines[l]| && o == lines[l][p] && IsOpener(o) && c == CloserOf(o)
    ensures CloseAnswers(lines, l, p, l', e) <==> Closed(lines, Offset(lines, l) + p, l', e, o, c)
  {
    if l' < l && e > -1 { PlacesInOrder(lines, l', l); }
  }

  lemma ReverseAnswersByKind(lines: seq<string>, l: nat, p: nat, l': nat, s: int)
    requires l < |lines| && p < |lines[l]|
    ensures var c, at := lines[l][p], Offset(lines, l) + p;
      && (c == ')' ==> (ReverseAnswers(lines, l, p, l', s) <==> Opened(lines, at, l', s, '(', ')')))
      && (c == ']' ==> (ReverseAnswers(lines, l, p, l', s) <==> Opened(lines, at, l', s, '[', ']')))
      && (c == '}' ==> (ReverseAnswers(lines, l, p, l', s) <==> Opened(lines, at, l', s, '{', '}')))
      && (c == '>' ==> (ReverseAnswers(lines, l, p, l', s) <==> Opened(lines, at, l', s, '<', '>')))
      && (c != ')' && c != ']' && c != '}' && c != '>' ==>
           (ReverseAnswers(lines, l, p, l', s) <==> s == -1 && l' == 0))
  {
    var c := lines[l][p];
    Kinds(c);
    if IsCloser(c) { ReverseAnswersKind(lines, l, p, l', s, OpenerOf(c), c); }
  }

  lemma ReverseAnswersKind(lines: seq<string>, l: nat, p: nat, l': nat, s: int, o: char, c: char)
    requires l < |lines| && p < |lines[l]| && c == lines[l][p] && IsCloser(c) && o == OpenerOf(c)
    ensures ReverseAnswers(lines, l, p, l', s) <==> Opened(lines, Offset(lines, l) + p, l', s, o, c)
  {
    if l < l' < |lines| && s > -1 { PlacesInOrder(lines, l, l'); }
  }

  lemma PlacesInOrder(lines: seq<string>, l: nat, m: nat)
    requires l < m < |lines|
    ensures Offset(lines, l) + |lines[l]| <= Offset(lines, m)
  {
    LineInFlat(lines, l);
    OffsetGrows(lines, l + 1, m);
  }

  /** The line is the stretch of the text that starts at `off`. */
  ghost predicate Within(line: string, t: string, off: nat) {
    off + |line| <= |t| && t[off..off + |line|] == line
  }

  lemma CharWithin(line: string, t: string, off: nat, k: nat)
    requires Within(line, t, off) && k < |line|
    ensures t[off + k] == line[k]
  {
    assert t[off..off + |line|][k] == line[k];
  }

  /** The scan from `at` has reached `till` and not closed yet. */
  ghost predicate StillOpen(t: string, o: char, c: char, at: nat, till: nat, depth: int) {
    && at <= till <= |t|
    && depth == Balance(t, o, c, at, till)
    && (forall k :: at < k <= till ==> 0 < Balance(t, o, c, at, k))
  }

  /** Scanning on in a line without closing leaves the expression open. */
  lemma LineScanned(line: string, t: string, off: nat, o: char, c: char, at: nat, startpos: nat, depth: int, till: nat)
    requires Within(line, t, off) && startpos <= till <= |line| && o != c
    requires NoneCloses(line, startpos, till, depth, o, c)
    requires StillOpen(t, o, c, at, off + startpos, depth)
    requires 0 < depth || (depth == 0 && at == off + startpos && startpos < till && line[startpos] == o)
    ensures StillOpen(t, o, c, at, off + till, depth + Balance(line, o, c, startpos, till))
  {
    StaysPositive(line, o, c, startpos, till, depth);
    LineBalance(line, t, off, o, c, at, startpos, till);
    forall k | at < k <= off + till ensures 0 < Balance(t, o, c, at, k) {
      if off + startpos < k {
        LineBalance(line, t, off, o, c, at, startpos, k - off);
        assert 0 < depth + Balance(line, o, c, startpos, k - off);
      }
    }
  }

  lemma LineBalance(line: string, t: string, off: nat, o: char, c: char, at: nat, startpos: nat, k: nat)
    requires Within(line, t, off) && startpos <= k <= |line|
    requires at <= off + startpos
    ensures off + |line| <= |t|
    ensures Balance(t, o, c, at, off + k)
         == Balance(t, o, c, at, off + startpos) + Balance(line, o, c, startpos, k)
  {
    BalanceShifts(line, t, off, o, c, startpos, k);
    BalanceSplits(t, o, c, at, off + startpos, off + k);
  }

  /** The closing bracket found in a line closes the expression in the whole text. */
  lemma LineCloses(line: string, t: string, off: nat, o: char, c: char, at: nat, startpos: nat, depth: int, end: nat)
    requires Within(line, t, off) && startpos < end <= |line| && o != c
    requires NoneCloses(line, startpos, end - 1, depth, o, c)
    requires StillOpen(t, o, c, at, off + startpos, depth)
    requires 0 < depth || (depth == 0 && at == off + startpos && line[startpos] == o)
    requires line[end - 1] == c && depth + Balance(line, o, c, startpos, end) == 0
    requires at < |t| && t[at] == o
    ensures Pair(t, o, c, at, off + end - 1)
  {
    assert depth == 0 ==> startpos < end - 1;
    LineScanned(line, t, off, o, c, at, startpos, depth, end - 1);
    LineBalance(line, t, off, o, c, at, startpos, end);
    CharWithin(line, t, off, end - 1);
  }

  /** A scan that has not closed by `till` is not closed at any position before it. */
  lemma NotClosedBefore(t: string, o: char, c: char, at: nat, till: nat, depth: int)
    requires StillOpen(t, o, c, at, till, depth)
    ensures forall j :: Pair(t, o, c, at, j) ==> till <= j
  {
  }

  lemma ClosesInLine(lines: seq<string>, l: nat, o: char, c: char, at: nat, startpos: nat, depth: int, end: nat)
    requires l < |lines| && startpos < end <= |lines[l]| && o != c
    requires NoneCloses(lines[l], startpos, end - 1, depth, o, c)
    requires StillOpen(Flat(lines), o, c, at, Offset(lines, l) + startpos, depth)
    requires 0 < depth || (depth == 0 && at == Offset(lines, l) + startpos && lines[l][startpos] == o)
    requires lines[l][end - 1] == c && depth + Balance(lines[l], o, c, startpos, end) == 0
    requires at < |Flat(lines)| && Flat(lines)[at] == o
    ensures Pair(Flat(lines), o, c, at, Offset(lines, l) + end - 1)
  {
    LineInFlat(lines, l);
    LineCloses(lines[l], Flat(lines), Offset(lines, l), o, c, at, startpos, depth, end);
  }

  lemma OpenAfterLine(lines: seq<string>, l: nat, o: char, c: char, at: nat, startpos: nat, depth: int)
    requires l < |lines| && startpos <= |lines[l]| && o != c
    requires NoneCloses(lines[l], startpos, |lines[l]|, depth, o, c)
    requires StillOpen(Flat(lines), o, c, at, Offset(lines, l) + startpos, depth)
    requires 0 < depth ||
      (depth == 0 && at == Offset(lines, l) + startpos && startpos < |lines[l]| && lines[l][startpos] == o)
    ensures at < Offset(lines, l + 1) && 0 < depth + Balance(lines[l], o, c, startpos, |lines[l]|)
    ensures StillOpen(Flat(lines), o, c, at, Offset(lines, l + 1),
                      depth + Balance(lines[l], o, c, startpos, |lines[l]|))
  {
    LineInFlat(lines, l);
    LineScanned(lines[l], Flat(lines), Offset(lines, l), o, c, at, startpos, depth, |lines[l]|);
    StaysPositive(lines[l], o, c, startpos, |lines[l]|, depth);
    if startpos == |lines[l]| { assert Balance(lines[l], o, c, startpos, startpos) == 0; }
  }

  method CloseExpression(lines: seq<string>, linenum0: nat, pos: nat)
    returns (line: string, linenum: nat, endPos: int)
    requires linenum0 < |lines| && pos < |lines[linenum0]|
    ensures CloseAnswers(lines, linenum0, pos, linenum, endPos)
    ensures endPos > -1 ==> line == lines[linenum]
  {
    linenum := linenum0;
    line := lines[linenum];
    var startchar := line[pos];
    if !IsOpener(startchar) {
      return line, |lines|, -1;
    }
    var endchar := CloserOf(startchar);
    ghost var t, at := Flat(lines), Offset(lines, linenum0) + pos;
    CharInFlat(lines, linenum0, pos);

    var numOpen;
    endPos, numOpen := FindEndOfExpressionInLine(line, pos, 0, startchar, endchar);
    if endPos > -1 {
      ClosesInLine(lines, linenum, startchar, endchar, at, pos, 0, endPos);
      return;
    }
    OpenAfterLine(lines, linenum, startchar, endchar, at, pos, 0);

    while linenum < |lines| - 1
      invariant linenum0 <= linenum < |lines|
      invariant StillOpen(t, startchar, endchar, at, Offset(lines, linenum + 1), numOpen) && 0 < numOpen
    {
      linenum := linenum + 1;
      line := lines[linenum];
      ghost var before := numOpen;
      endPos, numOpen := FindEndOfExpressionInLine(line, 0, numOpen, startchar, endchar);
      if endPos > -1 {
        ClosesInLine(lines, linenum, startchar, endchar, at, 0, before, endPos);
        return;
      }
      OpenAfterLine(lines, linenum, startchar, endchar, at, 0, before);
    }
    assert lines[..|lines|] == lines;
    NotClosedBefore(t, startchar, endchar, at, |t|, numOpen);
    return line, |lines|, -1;
  }

  // ----- backward

  /** No position in [from, till) opens the expression that a scan from `till` backward is in. */
  ghost predicate NoneOpens(line: string, from: nat, till: nat, depth: int, o: char, c: char)
    requires from <= till <= |line|
  {
    forall k :: from <= k < till && line[k] == o ==> depth - Balance(line, o, c, k, till) != 0
  }

  method FindStartOfExpressionInLine(line: string, endpos: int, depth: int, startchar: char, endchar: char)
    returns (start: int, newDepth: int)
    requires -1 <= endpos < |line| && startchar != endchar
    ensures start != -1 ==>
      && 0 <= start <= endpos && newDepth == 0 && line[start] == startchar
      && depth - Balance(line, startchar, endchar, start, endpos + 1) == 0
      && NoneOpens(line, start + 1, endpos + 1, depth, startchar, endchar)
    ensures start == -1 ==>
      && newDepth == depth - Balance(line, startchar, endchar, 0, endpos + 1)
      && NoneOpens(line, 0, endpos + 1, depth, startchar, endchar)
  {
    newDepth := depth;
    var i := endpos;
    while i > -1
      invariant -1 <= i <= endpos
      invariant newDepth == depth - Balance(line, startchar, endchar, i + 1, endpos + 1)
      invariant NoneOpens(line, i + 1, endpos + 1, depth, startchar, endchar)
    {
      BalanceSplits(line, startchar, endchar, i, i + 1, endpos + 1);
      assert Balance(line, startchar, endchar, i, i) == 0;
      if line[i] == endchar {
        newDepth := newDepth + 1;
      } else if line[i] == startchar {
        newDepth := newDepth - 1;
        if newDepth == 0 {
          return i, 0;
        }
      }
      i := i - 1;
    }
    start := -1;
  }

  lemma {:induction false} StaysNegative(t: string, o: char, c: char, from: nat, till: nat, depth: int)
    requires from <= till <= |t| && o != c
    requires 0 < depth || (depth == 0 && from < till && t[till - 1] == c)
    requires NoneOpens(t, from, till, depth, o, c)
    ensures forall k :: from <= k < till ==> 0 < depth - Balance(t, o, c, k, till)
    decreases till - from
  {
    if from != till {
      BalanceSplits(t, o, c, from, from + 1, till);
      assert Balance(t, o, c, from, from) == 0;
      if from + 1 != till { StaysNegative(t, o, c, from + 1, till, depth); }
      assert t[from] == o ==> depth - Balance(t, o, c, from, till) != 0;
    }
  }

  /** The backward scan from the closer just before `end` has reached `from` and not matched yet. */
  ghost predicate StillClosed(t: string, o: char, c: char, from: nat, end: nat, depth: int) {
    && from <= end <= |t|
    && depth == -Balance(t, o, c, from, end)
    && (forall k :: from <= k < end ==> Balance(t, o, c, k, end) < 0)
  }

  lemma LineBalanceBackward(line: string, t: string, off: nat, o: char, c: char, k: nat, till: nat, end: nat)
    requires Within(line, t, off) && k <= till <= |line|
    requires off + till <= end <= |t|
    ensures Balance(t, o, c, off + k, end)
         == Balance(line, o, c, k, till) + Balance(t, o, c, off + till, end)
  {
    BalanceShifts(line, t, off, o, c, k, till);
    BalanceSplits(t, o, c, off + k, off + till, end);
  }

  lemma LineScannedBackward(line: string, t: string, off: nat, o: char, c: char,
                            from: nat, till: nat, end: nat, depth: int)
    requires Within(line, t, off) && from <= till <= |line| && o != c
    requires NoneOpens(line, from, till, depth, o, c)
    requires StillClosed(t, o, c, off + till, end, depth)
    requires 0 < depth || (depth == 0 && end == off + till && from < till && line[till - 1] == c)
    ensures StillClosed(t, o, c, off + from, end, depth - Balance(line, o, c, from, till))
  {
    StaysNegative(line, o, c, from, till, depth);
    LineBalanceBackward(line, t, off, o, c, from, till, end);
    forall k | off + from <= k < end ensures Balance(t, o, c, k, end) < 0 {
      if k < off + till {
        LineBalanceBackward(line, t, off, o, c, k - off, till, end);
        assert 0 < depth - Balance(line, o, c, k - off, till);
      }
    }
  }

  /** The opening bracket found in a line opens the expression in the whole text. */
  lemma LineOpens(line: string, t: string, off: nat, o: char, c: char, start: nat, till: nat, at: nat, depth: int)
    requires Within(line, t, off) && start < till <= |line| && o != c
    requires NoneOpens(line, start + 1, till, depth, o, c)
    requires StillClosed(t, o, c, off + till, at + 1, depth)
    requires 0 < depth || (depth == 0 && at + 1 == off + till && line[till - 1] == c)
    requires line[start] == o && depth - Balance(line, o, c, start, till) == 0
    requires at < |t| && t[at] == c
    ensures Pair(t, o, c, off + start, at)
  {
    CharWithin(line, t, off, start);
    LineBalanceBackward(line, t, off, o, c, start, till, at + 1);
    LineScannedBackward(line, t, off, o, c, start + 1, till, at + 1, depth);
    ClosedThenOpened(t, o, c, off + start, at, depth - Balance(line, o, c, start + 1, till));
  }

  lemma ClosedThenOpened(t: string, o: char, c: char, i: nat, at: nat, depth: int)
    requires at < |t| && StillClosed(t, o, c, i + 1, at + 1, depth)
    requires t[i] == o && t[at] == c && o != c && Balance(t, o, c, i, at + 1) == 0
    ensures Pair(t, o, c, i, at)
  {
    PairFromEitherEnd(t, o, c, i, at);
  }

  lemma NotOpenedAfter(t: string, o: char, c: char, from: nat, at: nat, depth: int)
    requires at < |t| && StillClosed(t, o, c, from, at + 1, depth)
    ensures forall i: nat :: Pair(t, o, c, i, at) ==> i < from
  {
    forall i: nat | Pair(t, o, c, i, at) ensures i < from {
      assert Balance(t, o, c, i, at + 1) == 0;
    }
  }

  lemma OpensInLine(lines: seq<string>, l: nat, o: char, c: char, start: nat, till: nat, at: nat, depth: int)
    requires l < |lines| && start < till <= |lines[l]| && o != c
    requires NoneOpens(lines[l], start + 1, till, depth, o, c)
    requires StillClosed(Flat(lines), o, c, Offset(lines, l) + till, at + 1, depth)
    requires 0 < depth || (depth == 0 && at + 1 == Offset(lines, l) + till && lines[l][till - 1] == c)
    requires lines[l][start] == o && depth - Balance(lines[l], o, c, start, till) == 0
    requires at < |Flat(lines)| && Flat(lines)[at] == c
    ensures Pair(Flat(lines), o, c, Offset(lines, l) + start, at)
  {
    LineInFlat(lines, l);
    LineOpens(lines[l], Flat(lines), Offset(lines, l), o, c, start, till, at, depth);
  }

  lemma ClosedBeforeLine(lines: seq<string>, l: nat, o: char, c: char, till: nat, at: nat, depth: int)
    requires l < |lines| && till <= |lines[l]| && o != c
    requires NoneOpens(lines[l], 0, till, depth, o, c)
    requires StillClosed(Flat(lines), o, c, Offset(lines, l) + till, at + 1, depth)
    requires 0 < depth || (depth == 0 && at + 1 == Offset(lines, l) + till && 0 < till && lines[l][till - 1] == c)
    ensures Offset(lines, l) <= at && 0 < depth - Balance(lines[l], o, c, 0, till)
    ensures StillClosed(Flat(lines), o, c, Offset(lines, l), at + 1, depth - Balance(lines[l], o, c, 0, till))
  {
    LineInFlat(lines, l);
    LineScannedBackward(lines[l], Flat(lines), Offset(lines, l), o, c, 0, till, at + 1, depth);
    StaysNegative(lines[l], o, c, 0, till, depth);
    if till == 0 { assert Balance(lines[l], o, c, 0, 0) == 0; }
  }

  method ReverseCloseExpression(lines: seq<string>, linenum0: nat, pos: nat)
    returns (line: string, linenum: nat, startPos: int)
    requires linenum0 < |lines| && pos < |lines[linenum0]|
    ensures ReverseAnswers(lines, linenum0, pos, linenum, startPos)
    ensures startPos > -1 ==> line == lines[linenum]
  {
    linenum := linenum0;
    line := lines[linenum];
    var endchar := line[pos];
    if !IsCloser(endchar) {
      return line, 0, -1;
    }
    var startchar := OpenerOf(endchar);
    ghost var t, at := Flat(lines), Offset(lines, linenum0) + pos;
    CharInFlat(lines, linenum0, pos);

    var numOpen;
    startPos, numOpen := FindStartOfExpressionInLine(line, pos, 0, startchar, endchar);
    if startPos > -1 {
      OpensInLine(lines, linenum, startchar, endchar, startPos, pos + 1, at, 0);
      return;
    }
    ClosedBeforeLine(lines, linenum, startchar, endchar, pos + 1, at, 0);

    while linenum > 0
      invariant linenum <= linenum0
      invariant StillClosed(t, startchar, endchar, Offset(lines, linenum), at + 1, numOpen) && 0 < numOpen
    {
      linenum := linenum - 1;
      line := lines[linenum];
      LineInFlat(lines, linenum);
      ghost var before := numOpen;
      startPos, numOpen := FindStartOfExpressionInLine(line, |line| - 1, numOpen, startchar, endchar);
      if startPos > -1 {
        OpensInLine(lines, linenum, startchar, endchar, startPos, |line|, at, before);
        return;
      }
      ClosedBeforeLine(lines, linenum, startchar, endchar, |line|, at, before);
    }
    NotOpenedAfter(t, startchar, endchar, 0, at, numOpen);
    return line, 0, -1;
  }

  // ----- the two matchers undo each other

  /** Closing (l, p) and reversing from the bracket found gives (l, p) back. */
  lemma ReverseUndoesClose(lines: seq<string>, l: nat, p: nat, l': nat, e: int, l'': nat, s: int)
    requires l < |lines| && p < |lines[l]|
    requires CloseAnswers(lines, l, p, l', e) && e > -1
    requires ReverseAnswers(lines, l', e - 1, l'', s)
    ensures l'' == l && s == p
  {
    var o, at := lines[l][p], Offset(lines, l) + p;
    var end := Offset(lines, l') + e - 1;
    assert Pair(Flat(lines), o, CloserOf(o), at, end);
    CharInFlat(lines, l', e - 1);
    assert OpenerOf(CloserOf(o)) == o;
    OpenerIsUnique(Flat(lines), o, CloserOf(o), at, Offset(lines, l'') + s, end);
    PlaceIsUnique(lines, l, p, l'', s);
  }

  /** Reversing from (l, p) and closing the bracket found gives back the place just past (l, p). */
  lemma CloseUndoesReverse(lines: seq<string>, l: nat, p: nat, l': nat, s: int, l'': nat, e: int)
    requires l < |lines| && p < |lines[l]|
    requires ReverseAnswers(lines, l, p, l', s) && s > -1
    requires CloseAnswers(lines, l', s, l'', e)
    ensures l'' == l && e == p + 1
  {
    var c, at := lines[l][p], Offset(lines, l) + p;
    var start := Offset(lines, l') + s;
    assert Pair(Flat(lines), OpenerOf(c), c, start, at);
    CharInFlat(lines, l', s);
    assert CloserOf(OpenerOf(c)) == c;
    CloserIsUnique(Flat(lines), OpenerOf(c), c, start, at, Offset(lines, l'') + e - 1);
    PlaceIsUnique(lines, l, p, l'', e - 1);
  }
}
