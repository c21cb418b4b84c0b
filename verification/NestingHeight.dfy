/**
How high the nesting stack gets on text of braces, and what a balanced fragment
leaves of it.
*/
module NestingHeight {
  import opened Nesting
  import opened PreprocessorErasure

  /** Opening minus closing braces. */
  function Net(ts: Line): int {
    if ts == [] then 0 else Weight(ts[0]) + Net(ts[1..])
  }

  function Weight(t: Token): int {
    if t == LBrace then 1 else if t == RBrace then -1 else 0
  }

  /** The least net count of a prefix. */
  function Lowest(ts: Line): int {
    if ts == [] then 0
    else
      var low := Weight(ts[0]) + Lowest(ts[1..]);
      if low < 0 then low else 0
  }

  lemma {:induction false} NetSplits(a: Line, b: Line)
    ensures Net(a + b) == Net(a) + Net(b)
    decreases |a|
  {
    if a == [] {
      assert a + b == b;
    } else {
      assert (a + b)[1..] == a[1..] + b;
      NetSplits(a[1..], b);
    }
  }

  /** Lowest is reached by a prefix and undercut by none. */
  lemma {:induction false} LowestIsLeast(ts: Line)
    ensures forall i :: 0 <= i <= |ts| ==> Lowest(ts) <= Net(ts[..i])
    ensures exists i :: 0 <= i <= |ts| && Lowest(ts) == Net(ts[..i])
    decreases |ts|
  {
    assert ts[..0] == [] && Net(ts[..0]) == 0;
    if ts != [] {
      var rest := ts[1..];
      LowestIsLeast(rest);
      forall i | 0 < i <= |ts| ensures Net(ts[..i]) == Weight(ts[0]) + Net(rest[..i - 1]) {
        assert ts[..i][1..] == rest[..i - 1];
      }
      forall i | 0 <= i <= |ts| ensures Lowest(ts) <= Net(ts[..i]) {
        if 0 < i { assert Lowest(rest) <= Net(rest[..i - 1]); }
      }
      var k :| 0 <= k <= |rest| && Lowest(rest) == Net(rest[..k]);
      assert Net(ts[..k + 1]) == Weight(ts[0]) + Lowest(rest);
    }
  }

  // ----- braces only, from an empty stack

  predicate OnlyBraces(line: Line) {
    forall i :: 0 <= i < |line| ==> line[i] == LBrace || line[i] == RBrace
  }

  /** A stack of blocks opened by plain braces is known by its height. */
  function Plains(h: nat): Stack {
    seq(h, _ => Block(Info.Plain, true, 0, NoAsm))
  }

  function HeightAfter(h: nat, line: Line): nat
    decreases |line|
  {
    if line == [] then h
    else if line[0] == LBrace then HeightAfter(h + 1, line[1..])
    else HeightAfter(if h == 0 then 0 else h - 1, line[1..])
  }

  lemma {:induction false} ConsumeBraces(h: nat, line: Line)
    requires OnlyBraces(line)
    ensures Consume(Plains(h), line) == Plains(HeightAfter(h, line))
    decreases |line|
  {
    if line != [] {
      assert FindDelimiter(line) == 0;
      if line[0] == LBrace {
        assert Delimit(Plains(h), line, LBrace) == Plains(h + 1);
        ConsumeBraces(h + 1, line[1..]);
      } else if h != 0 {
        assert Pop(Plains(h)) == Plains(h - 1);
        ConsumeBraces(h - 1, line[1..]);
      } else {
        ConsumeBraces(0, line[1..]);
      }
    }
  }

  lemma UpdateBraces(h: nat, pp: seq<Checkpoint>, num: nat, line: Line)
    requires OnlyBraces(line)
    ensures Update(State(Plains(h), pp), num, line) == State(Plains(HeightAfter(h, line)), pp)
  {
    CountNone(line, LParen);
    CountNone(line, RParen);
    NoAccess(line);
    assert CountInTop(Plains(h), line) == Plains(h);
    ConsumeBraces(h, line);
  }

  function Max(a: int, b: int): int { if a < b then b else a }

  /** The height in closed form: what was there, or what the text opens above its lowest point. */
  lemma {:induction false} HeightIs(h: nat, line: Line)
    requires OnlyBraces(line)
    ensures HeightAfter(h, line) == Net(line) + Max(h, -Lowest(line))
    decreases |line|
  {
    if line != [] {
      HeightIs(if line[0] == LBrace then h + 1 else if h == 0 then 0 else h - 1, line[1..]);
    }
  }

  lemma {:induction false} HeightSplits(h: nat, a: Line, b: Line)
    ensures HeightAfter(h, a + b) == HeightAfter(HeightAfter(h, a), b)
    decreases |a|
  {
    if a == [] {
      assert a + b == b;
    } else {
      assert (a + b)[0] == a[0] && (a + b)[1..] == a[1..] + b;
      HeightSplits(if a[0] == LBrace then h + 1 else if h == 0 then 0 else h - 1, a[1..], b);
    }
  }

  function AllTokens(lines: seq<Numbered>): Line {
    if lines == [] then [] else lines[0].line + AllTokens(lines[1..])
  }

  lemma {:induction false} OnlyBracesJoin(lines: seq<Numbered>)
    requires forall i :: 0 <= i < |lines| ==> OnlyBraces(lines[i].line)
    ensures OnlyBraces(AllTokens(lines))
    decreases |lines|
  {
    if lines != [] { OnlyBracesJoin(lines[1..]); }
  }

  lemma {:induction false} RunBraces(h: nat, pp: seq<Checkpoint>, lines: seq<Numbered>)
    requires forall i :: 0 <= i < |lines| ==> OnlyBraces(lines[i].line)
    ensures Run(State(Plains(h), pp), lines) == State(Plains(HeightAfter(h, AllTokens(lines))), pp)
    decreases |lines|
  {
    if lines != [] {
      var line := lines[0].line;
      UpdateBraces(h, pp, lines[0].num, line);
      HeightSplits(h, line, AllTokens(lines[1..]));
      RunBraces(HeightAfter(h, line), pp, lines[1..]);
    }
  }

  lemma LowestIsNegative(ts: Line)
    ensures Lowest(ts) <= 0
  {
  }

  /** Over any lines of braces from the empty state the stack is as high as the net count
      above the lowest point: stray closing braces are forgotten. */
  lemma HeightOfBraces(lines: seq<Numbered>)
    requires forall i :: 0 <= i < |lines| ==> OnlyBraces(lines[i].line)
    ensures var ts := AllTokens(lines);
      && |Run(State([], []), lines).stack| == Net(ts) - Lowest(ts)
      && Run(State([], []), lines).pp == []
  {
    var ts := AllTokens(lines);
    assert Run(State([], []), lines) == State(Plains(HeightAfter(0, ts)), []) by {
      assert Plains(0) == [];
      RunBraces(0, [], lines);
    }
    assert HeightAfter(0, ts) == Net(ts) + Max(0, -Lowest(ts)) by {
      OnlyBracesJoin(lines);
      HeightIs(0, ts);
    }
    LowestIsNegative(ts);
  }

  // ----- what a fragment leaves of the stack below it

  /** No prefix closes more than d braces of those open before. */
  predicate StaysAbove(line: Line, d: nat)
    decreases |line|
  {
    line == [] ||
    (if line[0] == LBrace then StaysAbove(line[1..], d + 1)
     else if line[0] == RBrace then 0 < d && StaysAbove(line[1..], d - 1)
     else StaysAbove(line[1..], d))
  }

  lemma {:induction false} AboveSkips(line: Line, i: nat, d: nat)
    requires i <= |line| && StaysAbove(line, d)
    requires forall j :: 0 <= j < i ==> !IsDelimiter(line[j])
    ensures StaysAbove(line[i..], d) && Net(line[i..]) == Net(line)
    decreases i
  {
    if i == 0 {
      assert line[0..] == line;
    } else {
      AboveSkips(line[1..], i - 1, d);
      assert line[1..][i - 1..] == line[i..];
    }
  }

  lemma {:induction false} AboveSplits(a: Line, b: Line, d: nat)
    requires StaysAbove(a + b, d)
    ensures StaysAbove(a, d) && 0 <= d + Net(a) && StaysAbove(b, d + Net(a))
    decreases |a|
  {
    if a == [] {
      assert a + b == b;
    } else {
      assert (a + b)[0] == a[0] && (a + b)[1..] == a[1..] + b;
      AboveSplits(a[1..], b, d + Weight(a[0]));
    }
  }

  ghost predicate AllSeen(up: Stack) {
    forall i :: 0 <= i < |up| ==> up[i].seenOpenBrace
  }

  /** The blocks of `base` stay, in the same order; only what was opened above them changes. */
  lemma {:induction false} ConsumeKeepsBase(base: Stack, up: Stack, line: Line) returns (up': Stack)
    requires SeenOpenBrace(base) && AllSeen(up) && StaysAbove(line, |up|)
    ensures Consume(base + up, line) == base + up' && AllSeen(up')
    ensures |up'| == |up| + Net(line)
    decreases |line|
  {
    var i := FindDelimiter(line);
    AboveSkips(line, i, |up|);
    if i == |line| {
      up' := up;
    } else {
      var t, rest := line[i], line[i + 1..];
      assert line[i..][1..] == rest && line[i..][0] == t;
      assert SeenOpenBrace(base + up);
      var next :=
        if t == LBrace then up + [Block(Info.Plain, true, 0, if MatchAsm(line) then BlockAsm else NoAsm)]
        else if t == RBrace then up[..|up| - 1]
        else up;
      assert Delimit(base + up, line, t) == base + next;
      up' := ConsumeKeepsBase(base, next, rest);
    }
  }

  /** A line without directive, head or access specifier, which closes as many parentheses
      as it opens. */
  ghost predicate Inner(line: Line) {
    && (line != [] ==> !IsDirective(line[0]) && !line[0].NamespaceHead? && !line[0].ClassHead?)
    && (forall i :: 0 <= i < |line| ==> !line[i].Access?)
    && Count(line, LParen) == Count(line, RParen)
  }

  /** A bare colon matters only while a head waits for its brace. */
  lemma InnerIs(s: State, num: nat, line: Line)
    requires Inner(line) && SeenOpenBrace(s.stack)
    ensures Update(s, num, line) == s.(stack := Consume(CountInTop(s.stack, line), line))
  {
    NoAccess(line);
  }

  /** A line of balanced parentheses only settles the top block. */
  lemma NothingCounted(stack: Stack, line: Line)
    requires AsmOpen(stack) && Count(line, LParen) == Count(line, RParen)
    ensures Similar(CountInTop(stack, line), stack) && AsmOpen(CountInTop(stack, line))
  {
  }

  lemma NoneCounted(line: Line)
    requires LParen !in line && RParen !in line
    ensures Count(line, LParen) == Count(line, RParen)
  {
    CountNone(line, LParen);
    CountNone(line, RParen);
  }

  /** Such a line only consumes its delimiters. */
  lemma InnerIsConsumed(s: State, num: nat, line: Line)
    requires Inner(line) && AsmOpen(s.stack) && SeenOpenBrace(s.stack)
    ensures Similar(Update(s, num, line).stack, Consume(s.stack, line)) && Update(s, num, line).pp == s.pp
    ensures AsmOpen(Update(s, num, line).stack)
  {
    var counted := CountInTop(s.stack, line);
    var t := Update(s, num, line);
    assert t == s.(stack := Consume(counted, line)) by { InnerIs(s, num, line); }
    NothingCounted(s.stack, line);
    ConsumeSimilar(counted, s.stack, line);
    ConsumeKeepsAsm(counted, line);
  }

  function ConsumeAll(stack: Stack, lines: seq<Numbered>): Stack
    decreases |lines|
  {
    if lines == [] then stack else ConsumeAll(Consume(stack, lines[0].line), lines[1..])
  }

  lemma {:induction false} ConsumeAllSimilar(a: Stack, b: Stack, lines: seq<Numbered>)
    requires Similar(a, b)
    ensures Similar(ConsumeAll(a, lines), ConsumeAll(b, lines))
    decreases |lines|
  {
    if lines != [] {
      ConsumeSimilar(a, b, lines[0].line);
      ConsumeAllSimilar(Consume(a, lines[0].line), Consume(b, lines[0].line), lines[1..]);
    }
  }

  /** No head waits for its brace at the start of a line. */
  predicate SeenAlong(stack: Stack, lines: seq<Numbered>)
    decreases |lines|
  {
    SeenOpenBrace(stack) && (lines == [] || SeenAlong(Consume(stack, lines[0].line), lines[1..]))
  }

  lemma {:induction false} SeenAlongSimilar(a: Stack, b: Stack, lines: seq<Numbered>)
    requires Similar(a, b) && SeenAlong(a, lines)
    ensures SeenAlong(b, lines)
    decreases |lines|
  {
    if a != [] { assert Settled(Top(a)) == Settled(Top(b)); }
    if lines != [] {
      ConsumeSimilar(a, b, lines[0].line);
      SeenAlongSimilar(Consume(a, lines[0].line), Consume(b, lines[0].line), lines[1..]);
    }
  }

  lemma {:induction false} RunConsumes(s: State, lines: seq<Numbered>)
    requires AsmOpen(s.stack) && SeenAlong(s.stack, lines) && forall i :: 0 <= i < |lines| ==> Inner(lines[i].line)
    ensures var t := Run(s, lines);
      Similar(t.stack, ConsumeAll(s.stack, lines)) && AsmOpen(t.stack) && t.pp == s.pp
    decreases |lines|
  {
    if lines != [] {
      var next := Update(s, lines[0].num, lines[0].line);
      InnerIsConsumed(s, lines[0].num, lines[0].line);
      SeenAlongSimilar(Consume(s.stack, lines[0].line), next.stack, lines[1..]);
      RunConsumes(next, lines[1..]);
      ConsumeAllSimilar(next.stack, Consume(s.stack, lines[0].line), lines[1..]);
      SimilarJoins(Run(s, lines).stack, ConsumeAll(next.stack, lines[1..]), ConsumeAll(s.stack, lines));
    }
  }

  lemma FirstLineConsumed(base: Stack, up: Stack, lines: seq<Numbered>) returns (mid: Stack)
    requires SeenOpenBrace(base) && AllSeen(up) && lines != [] && StaysAbove(AllTokens(lines), |up|)
    ensures Consume(base + up, lines[0].line) == base + mid
    ensures AllSeen(mid) && |mid| == |up| + Net(lines[0].line)
  {
    AboveSplits(lines[0].line, AllTokens(lines[1..]), |up|);
    mid := ConsumeKeepsBase(base, up, lines[0].line);
  }

  lemma RestStaysAbove(lines: seq<Numbered>, d: nat, n: nat)
    requires lines != [] && StaysAbove(AllTokens(lines), d) && n == d + Net(lines[0].line)
    ensures StaysAbove(AllTokens(lines[1..]), n)
    ensures d + Net(AllTokens(lines)) == n + Net(AllTokens(lines[1..]))
  {
    AboveSplits(lines[0].line, AllTokens(lines[1..]), d);
    NetSplits(lines[0].line, AllTokens(lines[1..]));
  }

  lemma {:induction false} ConsumeAllKeepsBase(base: Stack, up: Stack, lines: seq<Numbered>) returns (up': Stack)
    requires SeenOpenBrace(base) && AllSeen(up) && StaysAbove(AllTokens(lines), |up|)
    ensures ConsumeAll(base + up, lines) == base + up' && SeenAlong(base + up, lines)
    ensures |up'| == |up| + Net(AllTokens(lines))
    decreases |lines|
  {
    if lines == [] {
      up' := up;
    } else {
      var mid := FirstLineConsumed(base, up, lines);
      RestStaysAbove(lines, |up|, |mid|);
      up' := ConsumeAllKeepsBase(base, mid, lines[1..]);
    }
  }

  /** A fragment of any number of lines whose braces are balanced leaves the same blocks in
      the same order. */
  lemma BalancedFragmentKeepsBlocks(s: State, lines: seq<Numbered>)
    requires SeenOpenBrace(s.stack) && AsmOpen(s.stack)
    requires forall i :: 0 <= i < |lines| ==> Inner(lines[i].line)
    requires StaysAbove(AllTokens(lines), 0) && Net(AllTokens(lines)) == 0
    ensures Similar(Run(s, lines).stack, s.stack) && AsmOpen(Run(s, lines).stack) && Run(s, lines).pp == s.pp
  {
    assert s.stack + [] == s.stack;
    var up := ConsumeAllKeepsBase(s.stack, [], lines);
    assert s.stack + up == s.stack;
    RunConsumes(s, lines);
  }
}
