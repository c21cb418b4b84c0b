/**
The rest of what a line can do to the nesting stack: heads whose brace is on a later
line, several namespaces on one line, class keywords inside parentheses, counting
parentheses, and inline assembly.
*/
module HeadsAndAssembly {
  import opened Wrappers
  import opened Nesting
  import opened PreprocessorErasure
  import opened NestingHeight
  import opened Definitions

  // ----- heads

  lemma {:induction false} NothingInMid(stack: Stack, mid: Line)
    requires IsMid(mid)
    ensures Consume(stack, mid) == stack && FindBrace(mid) == |mid|
    decreases |mid|
  {
    if mid != [] { NothingInMid(stack, mid[1..]); }
    assert forall j :: 0 <= j < |mid| ==> !IsDelimiter(mid[j]);
  }

  lemma NamespaceEntered(stack: Stack, num: nat, head: Token, mid: Line)
    requires head.NamespaceHead? && IsMid(mid)
    ensures EnterNamespaces(stack, [head] + mid, num) ==
      (stack + [Block(Namespace(head.name, num), false, 0, NoAsm)], mid)
  {
    var entered := stack + [Block(Namespace(head.name, num), false, 0, NoAsm)];
    assert ([head] + mid)[1..] == mid;
    NothingInMid(stack, mid);
    assert EnterNamespaces(entered, mid, num) == (entered, mid);
  }

  lemma NamespaceWaits(stack: Stack, num: nat, head: Token, mid: Line)
    requires AsmOpen(stack) && head.NamespaceHead? && IsMid(mid)
    ensures Similar(UpdateStack(stack, num, [head] + mid), stack + [Block(Namespace(head.name, num), false, 0, NoAsm)])
  {
    var line := [head] + mid;
    var counted := CountInTop(stack, line);
    var b := Block(Namespace(head.name, num), false, 0, NoAsm);
    NoneCounted(line);
    NothingCounted(stack, line);
    NamespaceEntered(counted, num, head, mid);
    NamespaceLeft(stack, num, line, mid, counted + [b]);
    SimilarAppends(counted, stack, [b]);
  }

  lemma NamespaceLeft(stack: Stack, num: nat, line: Line, mid: Line, entered: Stack)
    requires entered != [] && Top(entered).info.Namespace? && IsMid(mid)
    requires EnterNamespaces(CountInTop(stack, line), line, num) == (entered, mid)
    ensures UpdateStack(stack, num, line) == entered
  {
    NothingInMid(entered, mid);
    assert EnterClass(entered, mid, num) == (entered, mid);
  }

  /** Without its brace a head is on the stack, waiting for it. */
  lemma HeadWaits(stack: Stack, num: nat, head: Token, mid: Line)
    requires Ready(stack) && (head.ClassHead? || head.NamespaceHead?) && IsMid(mid)
    ensures Similar(UpdateStack(stack, num, [head] + mid), stack + [Scope(num, head, mid).(seenOpenBrace := false)])
  {
    if head.NamespaceHead? {
      NamespaceWaits(stack, num, head, mid);
    } else {
      var line := [head] + mid;
      var b := Scope(num, head, mid).(seenOpenBrace := false);
      HeadPushes(stack, num, line);
      assert line[1..] == mid && (Colon in line <==> Colon in mid);
      NothingInMid(CountInTop(stack, line) + [b], mid);
      SimilarAppends(CountInTop(stack, line), stack, [b]);
    }
  }

  /** The next brace is that of the head that waits, not a block of its own. */
  lemma BraceGoesToHead(base: Stack, b: Block, num: nat)
    requires AsmOpen(base + [b]) && !b.seenOpenBrace
    ensures Similar(UpdateStack(base + [b], num, [LBrace]), base + [b.(seenOpenBrace := true)])
  {
    var line := [LBrace];
    NoneCounted(line);
    var b' := CountParens(b, line);
    assert CountInTop(base + [b], line) == base + [b'];
    assert Settled(b') == Settled(b);
    NoAccess(line);
    assert !HasBareColon(line);
    assert [] + [LBrace] == line;
    BraceCompletes(base, b', []);
  }

  lemma BraceAfterHead(waiting: Stack, base: Stack, b: Block, num: nat)
    requires Similar(waiting, base + [b]) && AsmOpen(base + [b]) && !b.seenOpenBrace
    ensures Similar(UpdateStack(waiting, num, [LBrace]), base + [b.(seenOpenBrace := true)])
  {
    UpdateSimilar(waiting, base + [b], num, [LBrace]);
    BraceGoesToHead(base, b, num);
    SimilarJoins(UpdateStack(waiting, num, [LBrace]), UpdateStack(base + [b], num, [LBrace]),
                 base + [b.(seenOpenBrace := true)]);
  }

  /** A head and its brace on two lines define the same block as on one. */
  lemma HeadThenBrace(stack: Stack, num: nat, head: Token, mid: Line, next: nat)
    requires Ready(stack) && (head.ClassHead? || head.NamespaceHead?) && IsMid(mid)
    ensures var waiting := UpdateStack(stack, num, [head] + mid);
      Similar(UpdateStack(waiting, next, [LBrace]), stack + [Scope(num, head, mid)])
  {
    HeadWaits(stack, num, head, mid);
    BraceAfterHead(UpdateStack(stack, num, [head] + mid), stack, Scope(num, head, mid).(seenOpenBrace := false), next);
  }

  function NamespaceLine(names: seq<string>): Line {
    if names == [] then [] else [NamespaceHead(names[0]), LBrace] + NamespaceLine(names[1..])
  }

  function NamespaceBlocks(names: seq<string>, num: nat): Stack {
    if names == [] then []
    else [Block(Namespace(names[0], num), true, 0, NoAsm)] + NamespaceBlocks(names[1..], num)
  }

  lemma {:induction false} EntersAllNamespaces(stack: Stack, names: seq<string>, num: nat)
    ensures EnterNamespaces(stack, NamespaceLine(names), num) == (stack + NamespaceBlocks(names, num), [])
    decreases |names|
  {
    if names == [] {
      assert stack + [] == stack;
    } else {
      var line := NamespaceLine(names);
      var b := Block(Namespace(names[0], num), true, 0, NoAsm);
      assert line[1..] == [LBrace] + NamespaceLine(names[1..]);
      assert line[1..][1..] == NamespaceLine(names[1..]);
      EntersAllNamespaces(stack + [b], names[1..], num);
      assert stack + [b] + NamespaceBlocks(names[1..], num) == stack + NamespaceBlocks(names, num);
    }
  }

  lemma {:induction false} NamespaceLineIs(names: seq<string>)
    ensures LParen !in NamespaceLine(names) && RParen !in NamespaceLine(names)
    decreases |names|
  {
    if names != [] { NamespaceLineIs(names[1..]); }
  }

  lemma {:induction false} LastNamespaceSeen(names: seq<string>, num: nat)
    requires names != []
    ensures NamespaceBlocks(names, num) != []
    ensures Top(NamespaceBlocks(names, num)) == Block(Namespace(names[|names| - 1], num), true, 0, NoAsm)
    decreases |names|
  {
    if |names| == 1 {
      assert names[1..] == [] && NamespaceBlocks(names[1..], num) == [];
    } else {
      LastNamespaceSeen(names[1..], num);
    }
  }

  /** A line that ends with its last namespace leaves what was entered. */
  lemma OnlyNamespaces(stack: Stack, line: Line, num: nat, entered: Stack)
    requires EnterNamespaces(CountInTop(stack, line), line, num) == (entered, []) && SeenOpenBrace(entered)
    ensures UpdateStack(stack, num, line) == entered
  {
    assert FindDelimiter([]) == 0;
  }

  lemma NamespaceLineCounts(stack: Stack, names: seq<string>)
    requires AsmOpen(stack)
    ensures Similar(CountInTop(stack, NamespaceLine(names)), stack)
  {
    NamespaceLineIs(names);
    NoneCounted(NamespaceLine(names));
    NothingCounted(stack, NamespaceLine(names));
  }

  /** Any number of namespaces on one line are all entered, in their order. */
  lemma NamespacesOnOneLine(stack: Stack, names: seq<string>, num: nat)
    requires AsmOpen(stack) && names != []
    ensures Similar(UpdateStack(stack, num, NamespaceLine(names)), stack + NamespaceBlocks(names, num))
  {
    var counted := CountInTop(stack, NamespaceLine(names));
    var blocks := NamespaceBlocks(names, num);
    NamespaceLineCounts(stack, names);
    EntersAllNamespaces(counted, names, num);
    LastNamespaceSeen(names, num);
    assert Top(counted + blocks) == Top(blocks);
    OnlyNamespaces(stack, NamespaceLine(names), num, counted + blocks);
    SimilarAppends(counted, stack, blocks);
  }

  lemma SimilarAppends(a: Stack, b: Stack, more: Stack)
    requires Similar(a, b)
    ensures Similar(a + more, b + more)
  {
  }

  /** Inside parentheses, as in a list of template or function parameters, a class keyword
      opens nothing. */
  lemma ClassInParensIsIgnored(stack: Stack, num: nat, head: Token, mid: Line)
    requires stack != [] && SeenOpenBrace(stack) && AsmOpen(stack) && Top(stack).openParens != 0
    requires head.ClassHead? && IsMid(mid)
    ensures Similar(UpdateStack(stack, num, [head] + mid), stack)
  {
    var line := [head] + mid;
    var counted := CountInTop(stack, line);
    NoneCounted(line);
    NothingCounted(stack, line);
    assert Settled(Top(counted)) == Settled(Top(stack));
    NoAccess(line);
    OnlyInMid(counted, head, mid);
  }

  lemma OnlyInMid(stack: Stack, head: Token, mid: Line)
    requires head.ClassHead? && IsMid(mid)
    ensures Consume(stack, [head] + mid) == stack
  {
    var line := [head] + mid;
    var i := FindDelimiter(line);
    assert forall j :: 0 < j < |line| ==> line[j] == mid[j - 1];
  }

  ghost predicate LastAccessAt(line: Line, i: int, level: string) {
    0 <= i < |line| && line[i] == Access(level) && forall j :: i < j < |line| ==> !line[j].Access?
  }

  /** Of several specifiers on a line the last one counts. */
  lemma {:induction false} LastAccessIs(line: Line, level: string)
    ensures LastAccess(line) == Some(level) <==> exists i :: LastAccessAt(line, i, level)
    decreases |line|
  {
    if line != [] {
      var n := |line| - 1;
      var front := line[..n];
      if line[n].Access? {
        assert LastAccessAt(line, n, line[n].level);
      } else {
        LastAccessIs(front, level);
        forall i ensures LastAccessAt(line, i, level) <==> LastAccessAt(front, i, level) {
          assert forall j :: 0 <= j < n ==> line[j] == front[j];
        }
      }
    }
  }

  // ----- parentheses and inline assembly

  lemma {:induction false} CountIs(line: Line, t: Token)
    ensures Count(line, t) == multiset(line)[t]
    decreases |line|
  {
    if line != [] {
      CountIs(line[..|line| - 1], t);
      assert line == line[..|line| - 1] + [line[|line| - 1]];
    }
  }

  /** What some lines leave of the block they are in. */
  function Counted(b: Block, lines: seq<Line>): Block {
    if lines == [] then b else CountParens(Counted(b, lines[..|lines| - 1]), lines[|lines| - 1])
  }

  /** What a line does to a block: whether it begins with an assembly keyword and a bracket
      and brings the parentheses that are open to one, and how many are open after it. */
  datatype Tick = Tick(starts: bool, unclosed: int)

  function TickOf(b: Block, line: Line): Tick {
    var change: int := multiset(line)[LParen] as int - multiset(line)[RParen] as int;
    Tick(
      2 <= |line| && line[0] == AsmWord && (line[1] == LBrace || line[1] == LParen)
        && change != 0 && b.openParens + change == 1,
      b.openParens + change)
  }

  function Ticks(b: Block, lines: seq<Line>): (r: seq<Tick>)
    ensures |r| == |lines|
  {
    if lines == [] then []
    else Ticks(b, lines[..|lines| - 1]) + [TickOf(Counted(b, lines[..|lines| - 1]), lines[|lines| - 1])]
  }

  /** Some line started assembly, and a parenthesis was open after each line from there on. */
  ghost predicate InAssembly(ticks: seq<Tick>) {
    exists k :: Since(ticks, k)
  }

  ghost predicate Since(ticks: seq<Tick>, k: int) {
    0 <= k < |ticks| && ticks[k].starts && forall m :: k <= m < |ticks| ==> ticks[m].unclosed != 0
  }

  lemma StillInAssembly(front: seq<Tick>, tick: Tick)
    requires tick.starts ==> tick.unclosed == 1
    ensures InAssembly(front + [tick]) <==> tick.unclosed != 0 && (InAssembly(front) || tick.starts)
  {
    var ticks := front + [tick];
    assert ticks[|front|] == tick;
    assert forall k :: 0 <= k < |front| ==> ticks[k] == front[k];
    if k :| Since(front, k) { assert tick.unclosed != 0 ==> Since(ticks, k); }
    if tick.starts { assert Since(ticks, |front|); }
    if k :| Since(ticks, k) { assert k < |front| ==> Since(front, k); }
  }

  lemma TickIs(b: Block, line: Line)
    ensures var b', tick := CountParens(b, line), TickOf(b, line);
      && b'.openParens == tick.unclosed
      && b'.asm == (
           if b.asm == NoAsm || b.asm == EndAsm then if tick.starts then InsideAsm else NoAsm
           else if b.asm == InsideAsm && tick.unclosed == 0 then EndAsm else b.asm)
  {
    CountIs(line, LParen);
    CountIs(line, RParen);
  }

  /** A block is inside inline assembly exactly from a line that starts it on, as long as a
      parenthesis is open; and it has just ended on the line that closes the last one. */
  lemma {:induction false} AssemblySpans(b: Block, lines: seq<Line>)
    requires b.asm == NoAsm
    ensures Counted(b, lines).asm == InsideAsm <==> InAssembly(Ticks(b, lines))
    ensures Counted(b, lines).asm == EndAsm <==>
      lines != [] && InAssembly(Ticks(b, lines[..|lines| - 1])) && Counted(b, lines).openParens == 0
    ensures Counted(b, lines).asm != BlockAsm
    decreases |lines|
  {
    if lines != [] {
      var front, line := lines[..|lines| - 1], lines[|lines| - 1];
      AssemblySpans(b, front);
      TickIs(Counted(b, front), line);
      StillInAssembly(Ticks(b, front), TickOf(Counted(b, front), line));
    }
  }

  lemma BracedLine(stack: Stack, num: nat, mid: Line)
    requires SeenOpenBrace(stack) && AsmOpen(stack) && (mid == [] || mid == [AsmWord])
    ensures var b := Block(Info.Plain, true, 0, if mid == [] then NoAsm else BlockAsm);
      Similar(UpdateStack(stack, num, mid + [LBrace]), stack + [b])
  {
    var line := mid + [LBrace];
    NoneCounted(line);
    assert Inner(line);
    InnerIs(State(stack, []), num, line);
    assert Update(State(stack, []), num, line).stack == UpdateStack(stack, num, line);
    NothingCounted(stack, line);
    OneDelimiter(CountInTop(stack, line), mid, LBrace);
    SimilarAppends(CountInTop(stack, line), stack, [Block(Info.Plain, true, 0, if mid == [] then NoAsm else BlockAsm)]);
  }

  /** A brace right after an assembly keyword opens a block of assembly, any other a plain one. */
  lemma BraceOpensBlock(stack: Stack, num: nat)
    requires SeenOpenBrace(stack) && AsmOpen(stack)
    ensures Similar(UpdateStack(stack, num, [AsmWord, LBrace]), stack + [Block(Info.Plain, true, 0, BlockAsm)])
    ensures Similar(UpdateStack(stack, num, [LBrace]), stack + [Block(Info.Plain, true, 0, NoAsm)])
  {
    BracedLine(stack, num, []);
    BracedLine(stack, num, [AsmWord]);
    assert [AsmWord] + [LBrace] == [AsmWord, LBrace] && [] + [LBrace] == [LBrace];
  }
}
