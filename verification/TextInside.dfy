/**
The extractor of the text between matching punctuation: a scan with a stack of
expected closers, proved to decide the grammar of balanced text over three kinds
of bracket.
*/
module TextInside {
  import opened Wrappers

  predicate IsOpening(ch: char) { ch == '(' || ch == '{' || ch == '[' }

  predicate IsClosing(ch: char) { ch == ')' || ch == '}' || ch == ']' }

  function Matching(ch: char): char {
    if ch == '(' then ')' else if ch == '{' then '}' else ']'
  }

  // ----- the grammar:  D ::= empty | plain D | ( D ) D | { D } D | [ D ] D

  /** The stretch t[i..j] is balanced. */
  ghost predicate Balanced(t: string, i: nat, j: nat)
    requires i <= j <= |t|
    decreases j - i
  {
    || i == j
    || (!IsOpening(t[i]) && !IsClosing(t[i]) && Balanced(t, i + 1, j))
    || (IsOpening(t[i]) && exists k :: ClosesAt(t, i, k, j))
  }

  /** The opener at i is closed at k, with balanced text in between and after. */
  ghost predicate ClosesAt(t: string, i: nat, k: int, j: nat)
    requires i < j <= |t|
    decreases j - i, 0
  {
    && i < k < j
    && t[k] == Matching(t[i])
    && Balanced(t, i + 1, k)
    && Balanced(t, k + 1, j)
  }

  predicate IsPair(a: char, b: char) {
    (a == '(' && b == ')') || (a == '{' && b == '}') || (a == '[' && b == ']')
  }

  lemma OpenedIsClosed(t: string, i: nat, j: nat) returns (k: nat)
    requires i < j <= |t| && IsOpening(t[i]) && Balanced(t, i, j)
    ensures ClosesAt(t, i, k, j)
  {
    k :| ClosesAt(t, i, k, j);
  }

  /** The grammar with its three pairs written out. */
  lemma GrammarOfPairs(t: string, i: nat, j: nat)
    requires i <= j <= |t|
    ensures Balanced(t, i, j) <==>
      || i == j
      || (i < j && t[i] !in {'(', ')', '{', '}', '[', ']'} && Balanced(t, i + 1, j))
      || exists k :: i < k < j && IsPair(t[i], t[k]) && Balanced(t, i + 1, k) && Balanced(t, k + 1, j)
  {
    if i < j && IsOpening(t[i]) && Balanced(t, i, j) {
      var k := OpenedIsClosed(t, i, j);
      assert IsPair(t[i], t[k]);
    }
    if k :| i < k < j && IsPair(t[i], t[k]) && Balanced(t, i + 1, k) && Balanced(t, k + 1, j) {
      assert ClosesAt(t, i, k, j);
    }
  }

  lemma SplitsAtPair(t: string, start: nat, n: nat)
    requires 0 < start <= |t| && IsOpening(t[start - 1])
    ensures Splits(t, start, n) <==> start <= n < |t| && IsPair(t[start - 1], t[n]) && Balanced(t, start, n)
    ensures t[start - 1] in {'(', '{', '['}
  {
  }

  // ----- the scan

  /** Where the scan from i empties its stack, if it does; the closer expected next is last. */
  function Scan(t: string, i: nat, stack: seq<char>): Option<nat>
    requires i <= |t|
    decreases |t| - i
  {
    if stack == [] then Some(i)
    else if i == |t| then None
    else if t[i] == stack[|stack| - 1] then Scan(t, i + 1, stack[..|stack| - 1])
    else if IsClosing(t[i]) then None
    else if IsOpening(t[i]) then Scan(t, i + 1, stack + [Matching(t[i])])
    else Scan(t, i + 1, stack)
  }

  ghost predicate Closers(stack: seq<char>) {
    forall i :: 0 <= i < |stack| ==> IsClosing(stack[i])
  }

  /** A balanced stretch leaves the stack as it was. */
  lemma {:induction false} ScanSkipsBalanced(t: string, i: nat, j: nat, stack: seq<char>)
    requires i <= j <= |t| && Balanced(t, i, j) && stack != [] && Closers(stack)
    ensures Scan(t, i, stack) == Scan(t, j, stack)
    decreases j - i
  {
    if i < j {
      if IsOpening(t[i]) {
        var k :| ClosesAt(t, i, k, j);
        var pushed := stack + [Matching(t[i])];
        ScanSkipsBalanced(t, i + 1, k, pushed);
        assert pushed[..|pushed| - 1] == stack;
        ScanSkipsBalanced(t, k + 1, j, stack);
      } else {
        ScanSkipsBalanced(t, i + 1, j, stack);
      }
    }
  }

  /** What is on top of the stack is matched by the end of a balanced stretch, and the
      scan goes on below it. */
  lemma {:induction false} ScanSplits(t: string, i: nat, stack: seq<char>) returns (n: nat)
    requires i <= |t| && stack != [] && Closers(stack) && Scan(t, i, stack).Some?
    ensures i <= n < |t| && t[n] == stack[|stack| - 1] && Balanced(t, i, n)
    ensures Scan(t, i, stack) == Scan(t, n + 1, stack[..|stack| - 1])
    decreases |t| - i
  {
    if t[i] == stack[|stack| - 1] {
      n := i;
    } else if IsOpening(t[i]) {
      var pushed := stack + [Matching(t[i])];
      assert pushed[..|pushed| - 1] == stack;
      var k := ScanSplits(t, i + 1, pushed);
      n := ScanSplits(t, k + 1, stack);
      assert ClosesAt(t, i, k, n);
    } else {
      n := ScanSplits(t, i + 1, stack);
    }
  }

  /** After the opener just before `start`: a balanced stretch up to n, and there its closer. */
  ghost predicate Splits(t: string, start: nat, n: nat)
    requires 0 < start <= |t|
  {
    start <= n < |t| && t[n] == Matching(t[start - 1]) && Balanced(t, start, n)
  }

  /** The scan decides the grammar: it stops just past n exactly when the text splits at n. */
  lemma ScanDecides(t: string, start: nat, n: nat)
    requires 0 < start <= |t| && IsOpening(t[start - 1])
    ensures Scan(t, start, [Matching(t[start - 1])]) == Some(n + 1) <==> Splits(t, start, n)
  {
    var stack := [Matching(t[start - 1])];
    if Splits(t, start, n) {
      ScanSkipsBalanced(t, start, n, stack);
    }
    if Scan(t, start, stack) == Some(n + 1) {
      var m := ScanSplits(t, start, stack);
      assert stack[..0] == [];
    }
  }

  /** The bracketed text is determined by its opener. */
  lemma SplitIsUnique(t: string, start: nat, n: nat, m: nat)
    requires 0 < start <= |t| && IsOpening(t[start - 1])
    requires Splits(t, start, n) && Splits(t, start, m)
    ensures n == m
  {
    ScanDecides(t, start, n);
    ScanDecides(t, start, m);
  }

  lemma NothingInside(t: string, start: nat)
    requires 0 < start <= |t| && IsOpening(t[start - 1])
    requires Scan(t, start, [Matching(t[start - 1])]) == None
    ensures forall n: nat :: !Splits(t, start, n)
  {
    forall n: nat ensures !Splits(t, start, n) {
      ScanDecides(t, start, n);
    }
  }

  /** `start` is where the pattern of the caller matched, up to and including the opener. */
  method GetTextInside(text: string, start: nat) returns (r: Option<string>)
    requires 0 < start <= |text| && IsOpening(text[start - 1])
    ensures r.Some? ==> exists n: nat :: Splits(text, start, n) && r.value == text[start..n]
    ensures r == None ==> forall n: nat :: !Splits(text, start, n)
  {
    var stack := [Matching(text[start - 1])];
    var position := start;
    while stack != [] && position < |text|
      invariant start <= position <= |text|
      invariant position == start ==> stack != []
      invariant Scan(text, start, [Matching(text[start - 1])]) == Scan(text, position, stack)
      decreases |text| - position
    {
      if text[position] == stack[|stack| - 1] {
        stack := stack[..|stack| - 1];
      } else if IsClosing(text[position]) {
        NothingInside(text, start);
        return None;
      } else if IsOpening(text[position]) {
        stack := stack + [Matching(text[position])];
      }
      position := position + 1;
    }
    if stack != [] {
      NothingInside(text, start);
      return None;
    }
    ScanDecides(text, start, position - 1);
    return Some(text[start..position - 1]);
  }
}
