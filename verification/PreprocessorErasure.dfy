/**
Conditionals leave the nesting stack as if only their first branches had been
there.
*/
module PreprocessorErasure {
  import opened Wrappers
  import opened Nesting

  // ----- equality of stacks, an ended assembly block read as none

  function Settled(b: Block): Block {
    if b.asm == EndAsm then b.(asm := NoAsm) else b
  }

  ghost predicate Similar(a: Stack, b: Stack) {
    && |a| == |b|
    && forall i :: 0 <= i < |a| ==> Settled(a[i]) == Settled(b[i])
  }

  lemma {:induction false} NamespacesSimilar(a: Stack, b: Stack, line: Line, num: nat)
    requires Similar(a, b)
    ensures Similar(EnterNamespaces(a, line, num).0, EnterNamespaces(b, line, num).0)
    ensures EnterNamespaces(a, line, num).1 == EnterNamespaces(b, line, num).1
    decreases |line|
  {
    if line != [] && line[0].NamespaceHead? {
      var rest := line[1..];
      var brace := FindBrace(rest);
      var block := NewNamespace(line[0].name, num, brace < |rest|);
      NamespacesSimilar(a + [block], b + [block], if brace < |rest| then rest[brace + 1..] else rest, num);
    }
  }

  lemma DelimitSimilar(a: Stack, b: Stack, line: Line, t: Token)
    requires Similar(a, b)
    ensures Similar(Delimit(a, line, t), Delimit(b, line, t))
  {
    if a != [] { assert Settled(Top(a)) == Settled(Top(b)); }
  }

  lemma {:induction false} ConsumeSimilar(a: Stack, b: Stack, line: Line)
    requires Similar(a, b)
    ensures Similar(Consume(a, line), Consume(b, line))
    decreases |line|
  {
    var i := FindDelimiter(line);
    if i < |line| {
      DelimitSimilar(a, b, line, line[i]);
      ConsumeSimilar(Delimit(a, line, line[i]), Delimit(b, line, line[i]), line[i + 1..]);
    }
  }

  lemma ClassSimilar(a: Stack, b: Stack, line: Line, num: nat)
    requires Similar(a, b)
    ensures Similar(EnterClass(a, line, num).0, EnterClass(b, line, num).0)
    ensures EnterClass(a, line, num).1 == EnterClass(b, line, num).1
  {
    if a != [] { assert Settled(Top(a)) == Settled(Top(b)); }
  }

  lemma BeginSimilar(a: Stack, b: Stack, line: Line, rest: Line)
    requires Similar(a, b)
    ensures Similar(UpdateAccess(CheckBegin(a, line), rest), UpdateAccess(CheckBegin(b, line), rest))
  {
    if a != [] {
      assert Settled(Top(a)) == Settled(Top(b));
      var a', b' := CheckBegin(a, line), CheckBegin(b, line);
      assert Similar(a', b') && Settled(Top(a')) == Settled(Top(b'));
    }
  }

  lemma CountSimilar(a: Stack, b: Stack, line: Line)
    requires Similar(a, b)
    ensures Similar(CountInTop(a, line), CountInTop(b, line))
  {
    if a != [] { assert Settled(Top(a)) == Settled(Top(b)); }
  }

  /** A line cannot tell similar stacks apart. */
  lemma UpdateSimilar(a: Stack, b: Stack, num: nat, line: Line)
    requires Similar(a, b)
    ensures Similar(UpdateStack(a, num, line), UpdateStack(b, num, line))
  {
    CountSimilar(a, b, line);
    var a1, b1 := CountInTop(a, line), CountInTop(b, line);
    NamespacesSimilar(a1, b1, line, num);
    var a2, rest := EnterNamespaces(a1, line, num).0, EnterNamespaces(a1, line, num).1;
    var b2 := EnterNamespaces(b1, line, num).0;
    ClassSimilar(a2, b2, rest, num);
    var a3, last := EnterClass(a2, rest, num).0, EnterClass(a2, rest, num).1;
    var b3 := EnterClass(b2, rest, num).0;
    BeginSimilar(a3, b3, line, last);
    ConsumeSimilar(UpdateAccess(CheckBegin(a3, line), last), UpdateAccess(CheckBegin(b3, line), last), last);
  }

  // ----- inside inline assembly a parenthesis is open

  ghost predicate AsmOpen(stack: Stack) {
    forall i :: 0 <= i < |stack| && stack[i].asm == InsideAsm ==> stack[i].openParens != 0
  }

  lemma {:induction false} NamespacesKeepAsm(stack: Stack, line: Line, num: nat)
    requires AsmOpen(stack)
    ensures AsmOpen(EnterNamespaces(stack, line, num).0)
    decreases |line|
  {
    if line != [] && line[0].NamespaceHead? {
      var rest := line[1..];
      var brace := FindBrace(rest);
      NamespacesKeepAsm(stack + [NewNamespace(line[0].name, num, brace < |rest|)],
                        if brace < |rest| then rest[brace + 1..] else rest, num);
    }
  }

  lemma DelimitKeepsAsm(stack: Stack, line: Line, t: Token)
    requires AsmOpen(stack)
    ensures AsmOpen(Delimit(stack, line, t))
  {
  }

  lemma {:induction false} ConsumeKeepsAsm(stack: Stack, line: Line)
    requires AsmOpen(stack)
    ensures AsmOpen(Consume(stack, line))
    decreases |line|
  {
    var i := FindDelimiter(line);
    if i < |line| {
      DelimitKeepsAsm(stack, line, line[i]);
      ConsumeKeepsAsm(Delimit(stack, line, line[i]), line[i + 1..]);
    }
  }

  lemma UpdateKeepsAsm(stack: Stack, num: nat, line: Line)
    requires AsmOpen(stack)
    ensures AsmOpen(UpdateStack(stack, num, line))
  {
    var s1 := CountInTop(stack, line);
    NamespacesKeepAsm(s1, line, num);
    var s2, rest := EnterNamespaces(s1, line, num).0, EnterNamespaces(s1, line, num).1;
    var s3, last := EnterClass(s2, rest, num).0, EnterClass(s2, rest, num).1;
    assert AsmOpen(s3);
    assert AsmOpen(CheckBegin(s3, line));
    assert AsmOpen(UpdateAccess(CheckBegin(s3, line), last));
    ConsumeKeepsAsm(UpdateAccess(CheckBegin(s3, line), last), last);
  }

  // ----- directive lines

  /** A directive line that carries no brace or semicolon. */
  predicate Mild(line: Line) {
    line != [] && IsDirective(line[0]) && OnlyParens(line)
  }

  predicate OnlyParens(line: Line) {
    forall i :: 0 <= i < |line| && IsDelimiter(line[i]) ==> line[i] == RParen
  }

  /** Its parentheses, if any, are balanced; no namespace or class head is waiting for its
      brace where it has a closing one; no class head that is not derived is waiting where it
      has a bare colon; and no class is open with another access than the one it names. */
  predicate Harmless(stack: Stack, line: Line) {
    stack != [] ==>
      && Count(line, LParen) == Count(line, RParen)
      && (RParen in line ==> SeenOpenBrace(stack))
      && (Top(stack).info.Class? ==>
           && (HasBareColon(line) && !SeenOpenBrace(stack) ==> Top(stack).info.derived)
           && (LastAccess(line).Some? ==> Top(stack).info.access == LastAccess(line).value))
  }

  lemma {:induction false} CountNone(line: Line, t: Token)
    requires t !in line
    ensures Count(line, t) == 0
    decreases |line|
  {
    if line != [] { CountNone(line[..|line| - 1], t); }
  }

  lemma {:induction false} NoAccess(line: Line)
    requires forall i :: 0 <= i < |line| ==> !line[i].Access?
    ensures LastAccess(line) == None
    decreases |line|
  {
    if line != [] {
      NoAccess(line[..|line| - 1]);
    }
  }

  lemma {:induction false} ParensConsumed(stack: Stack, line: Line)
    requires OnlyParens(line)
    requires SeenOpenBrace(stack)
    ensures Consume(stack, line) == stack
    decreases |line|
  {
    var i := FindDelimiter(line);
    if i < |line| {
      ParensConsumed(stack, line[i + 1..]);
    }
  }

  lemma {:induction false} ConsumeNeverGrows(stack: Stack, line: Line)
    requires OnlyParens(line)
    ensures |Consume(stack, line)| <= |stack|
    decreases |line|
  {
    var i := FindDelimiter(line);
    if i < |line| {
      assert line[i] == RParen;
      ClosingNeverGrows(stack, line);
      ConsumeNeverGrows(Delimit(stack, line, RParen), line[i + 1..]);
    }
  }

  lemma ClosingNeverGrows(stack: Stack, line: Line)
    ensures |Delimit(stack, line, RParen)| <= |stack|
  {
  }

  /** A mild directive counts parentheses, may mark the top class, and consumes closing
      parentheses. */
  lemma MildIs(stack: Stack, num: nat, line: Line)
    requires Mild(line)
    ensures UpdateStack(stack, num, line) == Consume(Marked(stack, line), line)
  {
  }

  function Marked(stack: Stack, line: Line): Stack {
    UpdateAccess(CheckBegin(CountInTop(stack, line), line), line)
  }

  /** Counting and marking only change the top block, each in a field of its own. */
  lemma MarkedIs(stack: Stack, line: Line)
    requires stack != [] && AsmOpen(stack)
    ensures var marked := Marked(stack, line);
      && |marked| == |stack| && SeenOpenBrace(marked) == SeenOpenBrace(stack)
      && (Similar(marked, stack) <==>
           && Count(line, LParen) == Count(line, RParen)
           && (Top(stack).info.Class? ==>
                && (HasBareColon(line) && !SeenOpenBrace(stack) ==> Top(stack).info.derived)
                && (LastAccess(line).Some? ==> Top(stack).info.access == LastAccess(line).value)))
  {
    var marked := Marked(stack, line);
    var b, counted := Top(stack), Top(CountInTop(stack, line));
    assert forall i :: 0 <= i < |stack| - 1 ==> marked[i] == stack[i];
    assert Similar(marked, stack) <==> Settled(Top(marked)) == Settled(b) by {
      assert Top(marked) == marked[|stack| - 1] && b == stack[|stack| - 1];
    }
    assert CheckBegin(stack, line) == stack <==> Top(CheckBegin(stack, line)) == b;
    assert UpdateAccess(stack, line) == stack <==> Top(UpdateAccess(stack, line)) == b;
    assert Settled(counted.(info := b.info)) == Settled(b) <==> Count(line, LParen) == Count(line, RParen);
  }

  /** A mild directive leaves the stack alone exactly when it is harmless there. */
  lemma HarmlessExactly(stack: Stack, num: nat, line: Line)
    requires Mild(line) && AsmOpen(stack)
    ensures Similar(UpdateStack(stack, num, line), stack) <==> Harmless(stack, line)
  {
    MildIs(stack, num, line);
    if stack == [] {
      ParensConsumed(stack, line);
    } else {
      var marked := Marked(stack, line);
      MarkedIs(stack, line);
      if SeenOpenBrace(stack) || RParen !in line {
        NothingConsumed(marked, line);
      } else {
        WaitingIsPopped(marked, line);
      }
    }
  }

  lemma NothingConsumed(stack: Stack, line: Line)
    requires OnlyParens(line) && (SeenOpenBrace(stack) || RParen !in line)
    ensures Consume(stack, line) == stack
  {
    if SeenOpenBrace(stack) {
      ParensConsumed(stack, line);
    } else {
      assert forall j :: 0 <= j < |line| ==> line[j] in line;
    }
  }

  /** A head waiting for its brace is popped by the first closing parenthesis. */
  lemma WaitingIsPopped(stack: Stack, line: Line)
    requires OnlyParens(line) && !SeenOpenBrace(stack) && RParen in line
    ensures |Consume(stack, line)| < |stack|
  {
    var i := FindDelimiter(line);
    ConsumeNeverGrows(Delimit(stack, line, line[i]), line[i + 1..]);
  }

  /** Where it fails: a head waiting for its brace is lost to a closing parenthesis. */
  lemma ConditionLosesHead(stack: Stack, num: nat, line: Line)
    requires Mild(line) && !SeenOpenBrace(stack) && RParen in line
    ensures |UpdateStack(stack, num, line)| < |stack|
  {
    MildIs(stack, num, line);
    WaitingIsPopped(Marked(stack, line), line);
  }

  /** And a class head waiting for its brace is taken for a derived class where a condition
      without parentheses has a bare colon. */
  lemma ColonDerivesWaitingHead(stack: Stack, num: nat, line: Line)
    requires Mild(line) && LParen !in line && RParen !in line && AsmOpen(stack)
    requires Colon in line && forall i :: 0 <= i < |line| ==> !line[i].Access?
    requires !SeenOpenBrace(stack) && Top(stack).info.Class? && !Top(stack).info.derived
    ensures var derived := Top(stack).(info := Top(stack).info.(derived := true));
      Similar(UpdateStack(stack, num, line), SetTop(stack, derived)) && !Harmless(stack, line)
  {
    CountNone(line, LParen);
    CountNone(line, RParen);
    NoAccess(line);
    MildIs(stack, num, line);
    NothingConsumed(Marked(stack, line), line);
    assert HasBareColon(line);
    assert Top(CheckBegin(stack, line)) != Top(stack);
  }

  lemma ClassHeadWaits()
    ensures UpdateStack([], 1, [ClassHead("A", false)]) ==
      [Block(Class("A", false, "private", false, 1), false, 0, NoAsm)]
  {
    var line := [ClassHead("A", false)];
    assert line[1..] == [];
    assert EnterNamespaces([], line, 1) == ([], line);
    assert FindDelimiter([]) == 0;
  }

  /** A class head, and then a directive with a parenthesised condition. */
  lemma ParenthesisedConditionLosesHead()
    ensures var head := UpdateStack([], 1, [ClassHead("A", false)]);
      && head == [Block(Class("A", false, "private", false, 1), false, 0, NoAsm)]
      && UpdateStack(head, 2, [If, LParen, Text, RParen]) == []
  {
    ClassHeadWaits();
    var head := [Block(Class("A", false, "private", false, 1), false, 0, NoAsm)];
    var line := [If, LParen, Text, RParen];
    assert line[3] == RParen && Mild(line);
    ConditionLosesHead(head, 2, line);
  }

  // ----- well-nested programs

  /** A program: plain lines, and conditionals with a first branch and any number of others. */
  datatype Prog =
    | End
    | Plain(at: Numbered, rest: Prog)
    | Cond(open: Numbered, body: Prog, others: Others, close: Numbered, rest: Prog)

  datatype Others =
    | NoOthers
    | Other(at: Numbered, body: Prog, more: Others)

  function Lines(p: Prog): seq<Numbered> {
    match p
    case End => []
    case Plain(at, rest) => [at] + Lines(rest)
    case Cond(open, body, others, close, rest) =>
      [open] + (Lines(body) + (OtherLines(others) + ([close] + Lines(rest))))
  }

  function OtherLines(o: Others): seq<Numbered> {
    match o
    case NoOthers => []
    case Other(at, body, more) => [at] + (Lines(body) + OtherLines(more))
  }

  /** Only the first branches, and no directive. */
  function Erased(p: Prog): seq<Numbered> {
    match p
    case End => []
    case Plain(at, rest) => [at] + Erased(rest)
    case Cond(_, body, _, _, rest) => Erased(body) + Erased(rest)
  }

  /** Directives stand where a conditional has them, and nowhere else. */
  predicate WellFormed(p: Prog) {
    match p
    case End => true
    case Plain(at, rest) => (at.line == [] || !IsDirective(at.line[0])) && WellFormed(rest)
    case Cond(open, body, others, close, rest) =>
      && open.line != [] && open.line[0] == If
      && close.line != [] && close.line[0] == Endif
      && WellFormed(body) && WellFormedOthers(others) && WellFormed(rest)
  }

  predicate WellFormedOthers(o: Others) {
    match o
    case NoOthers => true
    case Other(at, body, more) =>
      at.line != [] && at.line[0] == Else && WellFormed(body) && WellFormedOthers(more)
  }

  /** Every #if and #endif along the first branches is mild, and harmless where it is met.
      Nothing is asked of the other branches. */
  ghost predicate Undisturbed(s: State, p: Prog)
    decreases p
  {
    match p
    case End => true
    case Plain(at, rest) => Undisturbed(Update(s, at.num, at.line), rest)
    case Cond(open, body, others, close, rest) =>
      var s1 := Update(s, open.num, open.line);
      var s2 := Run(s1, Lines(body));
      && Mild(open.line) && Harmless(s.stack, open.line)
      && Undisturbed(s1, body)
      && Mild(close.line) && Harmless(s2.stack, close.line)
      && Undisturbed(AfterCond(s, p), rest)
  }

  /** The state after the conditional at the front of the program. */
  ghost function AfterCond(s: State, p: Prog): State
    requires p.Cond?
  {
    var s1 := Update(s, p.open.num, p.open.line);
    var s2 := Run(s1, Lines(p.body));
    var s3 := Run(s2, OtherLines(p.others));
    Update(s3, p.close.num, p.close.line)
  }

  lemma RunFirst(s: State, l: Numbered, rest: seq<Numbered>)
    ensures Run(s, [l] + rest) == Run(Update(s, l.num, l.line), rest)
  {
    assert ([l] + rest)[1..] == rest;
  }

  lemma SimilarJoins(a: Stack, b: Stack, c: Stack)
    requires Similar(a, b) && Similar(b, c)
    ensures Similar(a, c)
  {
  }

  lemma CondUnfolds(s: State, p: Prog)
    requires p.Cond?
    ensures Run(s, Lines(p)) == Run(AfterCond(s, p), Lines(p.rest))
  {
    var s1 := Update(s, p.open.num, p.open.line);
    var s2 := Run(s1, Lines(p.body));
    var s3 := Run(s2, OtherLines(p.others));
    var tail := [p.close] + Lines(p.rest);
    RunFirst(s, p.open, Lines(p.body) + (OtherLines(p.others) + tail));
    RunConcat(s1, Lines(p.body), OtherLines(p.others) + tail);
    RunConcat(s2, OtherLines(p.others), tail);
    RunFirst(s3, p.close, Lines(p.rest));
  }

  // ----- the checkpoints

  /** An #else goes back to the stack before the #if; the first one remembers where it was. */
  lemma ElseRestores(s: State, at: Numbered, below: seq<Checkpoint>, cp: Checkpoint)
    requires at.line != [] && at.line[0] == Else && s.pp == below + [cp]
    ensures var r := Update(s, at.num, at.line);
      && r.pp == below + [Checkpoint(cp.beforeIf, if cp.seenElse then cp.beforeElse else s.stack, true)]
      && r.stack == UpdateStack(cp.beforeIf, at.num, at.line)
  {
  }

  /** Whatever its lines do, a well-nested program leaves the stack of checkpoints as it was. */
  lemma {:induction false} CheckpointsComeBack(s: State, p: Prog)
    requires WellFormed(p)
    ensures Run(s, Lines(p)).pp == s.pp
    decreases p
  {
    match p
    case End =>
    case Plain(at, rest) =>
      RunFirst(s, at, Lines(rest));
      CheckpointsComeBack(Update(s, at.num, at.line), rest);
    case Cond(open, body, others, close, rest) =>
      CondUnfolds(s, p);
      CondCheckpoints(s, p);
      CheckpointsComeBack(AfterCond(s, p), rest);
  }

  /** The #endif goes on from the stack at the end of the first branch. */
  lemma {:induction false} CondCheckpoints(s: State, p: Prog)
    requires p.Cond? && WellFormed(p)
    ensures var s2 := Run(Update(s, p.open.num, p.open.line), Lines(p.body));
      && AfterCond(s, p).pp == s.pp
      && AfterCond(s, p).stack == UpdateStack(s2.stack, p.close.num, p.close.line)
    decreases p, 0
  {
    var s1 := Update(s, p.open.num, p.open.line);
    var s2 := Run(s1, Lines(p.body));
    CheckpointsComeBack(s1, p.body);
    assert s1.pp == s.pp + [Checkpoint(s.stack, [], false)];
    OthersCheckpoints(s2, p.others, s.pp, Checkpoint(s.stack, [], false));
    EndifTakesFirst(Run(s2, OtherLines(p.others)), p.close, s.pp, s2.stack);
  }

  lemma EndifTakesFirst(s: State, close: Numbered, below: seq<Checkpoint>, first: Stack)
    requires close.line != [] && close.line[0] == Endif
    requires s.pp != [] && s.pp[..|s.pp| - 1] == below
    requires first == if s.pp[|s.pp| - 1].seenElse then s.pp[|s.pp| - 1].beforeElse else s.stack
    ensures var r := Update(s, close.num, close.line);
      r.pp == below && r.stack == UpdateStack(first, close.num, close.line)
  {
  }

  /** The other branches only change the top checkpoint, which remembers the stack at the
      end of the first branch. */
  lemma {:induction false} OthersCheckpoints(s: State, o: Others, below: seq<Checkpoint>, cp: Checkpoint)
    requires WellFormedOthers(o) && s.pp == below + [cp]
    ensures var r := Run(s, OtherLines(o));
      if o == NoOthers then r == s
      else r.pp == below + [Checkpoint(cp.beforeIf, if cp.seenElse then cp.beforeElse else s.stack, true)]
    decreases o, 0
  {
    match o
    case NoOthers =>
    case Other(at, body, more) =>
      var s1 := Update(s, at.num, at.line);
      ElseRestores(s, at, below, cp);
      CheckpointsComeBack(s1, body);
      RunFirst(s, at, Lines(body) + OtherLines(more));
      RunConcat(s1, Lines(body), OtherLines(more));
      OthersCheckpoints(Run(s1, Lines(body)), more, below,
                        Checkpoint(cp.beforeIf, if cp.seenElse then cp.beforeElse else s.stack, true));
  }

  // ----- erasure

  /** From similar stacks, the whole program and the erased one end in similar stacks. */
  lemma {:induction false} ErasureFrom(s: State, p: Prog, t: State)
    requires WellFormed(p) && Undisturbed(s, p) && Similar(s.stack, t.stack) && AsmOpen(s.stack)
    ensures var r := Run(s, Lines(p));
      && AsmOpen(r.stack)
      && Similar(r.stack, Run(t, Erased(p)).stack) && Run(t, Erased(p)).pp == t.pp
    decreases p
  {
    match p
    case End =>
    case Plain(at, rest) =>
      var s1, t1 := Update(s, at.num, at.line), Update(t, at.num, at.line);
      UpdateSimilar(s.stack, t.stack, at.num, at.line);
      UpdateKeepsAsm(s.stack, at.num, at.line);
      RunFirst(s, at, Lines(rest));
      RunFirst(t, at, Erased(rest));
      ErasureFrom(s1, rest, t1);
    case Cond(open, body, others, close, rest) =>
      CondErases(s, p, t);
      CondUnfolds(s, p);
      RunConcat(t, Erased(body), Erased(rest));
      ErasureFrom(AfterCond(s, p), rest, Run(t, Erased(body)));
  }

  lemma HarmlessKeeps(stack: Stack, at: Numbered)
    requires Mild(at.line) && AsmOpen(stack) && Harmless(stack, at.line)
    ensures var r := UpdateStack(stack, at.num, at.line); Similar(r, stack) && AsmOpen(r)
  {
    HarmlessExactly(stack, at.num, at.line);
    UpdateKeepsAsm(stack, at.num, at.line);
  }

  lemma {:induction false} CondErases(s: State, p: Prog, t: State)
    requires p.Cond? && WellFormed(p) && Undisturbed(s, p) && Similar(s.stack, t.stack) && AsmOpen(s.stack)
    ensures var r := AfterCond(s, p).stack; var e := Run(t, Erased(p.body));
      AsmOpen(r) && Similar(r, e.stack) && e.pp == t.pp
    decreases p, 0
  {
    var s1 := Update(s, p.open.num, p.open.line);
    var s2 := Run(s1, Lines(p.body));
    HarmlessKeeps(s.stack, p.open);
    SimilarJoins(s1.stack, s.stack, t.stack);
    ErasureFrom(s1, p.body, t);
    CondCheckpoints(s, p);
    HarmlessKeeps(s2.stack, p.close);
    SimilarJoins(AfterCond(s, p).stack, s2.stack, Run(t, Erased(p.body)).stack);
  }

  /** Outside any conditional an #else or #endif restores nothing. */
  lemma StrayDirectiveIsIgnored(s: State, num: nat, line: Line)
    requires s.pp == [] && line != [] && (line[0] == Else || line[0] == Endif)
    ensures Update(s, num, line) == State(UpdateStack(s.stack, num, line), [])
  {
  }

  /** The main result: over any well-nested program whose #if and #endif lines along the first
      branches are harmless where they are met, from any state of a run, all lines leave the
      stack that the first branches alone leave, and the stack of checkpoints is back. */
  lemma ConditionalsErase(s: State, p: Prog)
    requires WellFormed(p) && Undisturbed(s, p) && AsmOpen(s.stack)
    ensures Similar(Run(s, Lines(p)).stack, Run(s, Erased(p)).stack)
    ensures Run(s, Lines(p)).pp == s.pp
  {
    ErasureFrom(s, p, s);
    CheckpointsComeBack(s, p);
  }

  // ----- directives without parentheses, colons and specifiers are harmless everywhere

  /** The #if and #endif lines along the first branches are bare. */
  predicate AllBare(p: Prog) {
    match p
    case End => true
    case Plain(_, rest) => AllBare(rest)
    case Cond(open, body, _, close, rest) =>
      && Mild(open.line) && Bare(open.line)
      && Mild(close.line) && Bare(close.line)
      && AllBare(body) && AllBare(rest)
  }

  predicate Bare(line: Line) {
    LParen !in line && RParen !in line && forall i :: 0 <= i < |line| ==> !line[i].Colon? && !line[i].Access?
  }

  lemma BareIsHarmless(stack: Stack, line: Line)
    requires Bare(line)
    ensures Harmless(stack, line)
  {
    CountNone(line, LParen);
    CountNone(line, RParen);
    NoAccess(line);
  }

  lemma {:induction false} BareIsUndisturbed(s: State, p: Prog)
    requires AllBare(p)
    ensures Undisturbed(s, p)
    decreases p
  {
    match p
    case End =>
    case Plain(at, rest) => BareIsUndisturbed(Update(s, at.num, at.line), rest);
    case Cond(open, body, others, close, rest) =>
      var s1 := Update(s, open.num, open.line);
      BareIsHarmless(s.stack, open.line);
      BareIsHarmless(Run(s1, Lines(body)).stack, close.line);
      BareIsUndisturbed(s1, body);
      BareIsUndisturbed(AfterCond(s, p), rest);
  }

  // ----- every state of a run

  ghost predicate AllAsmOpen(s: State) {
    && AsmOpen(s.stack)
    && forall i :: 0 <= i < |s.pp| ==> AsmOpen(s.pp[i].beforeIf) && AsmOpen(s.pp[i].beforeElse)
  }

  lemma {:induction false} RunKeepsAsm(s: State, lines: seq<Numbered>)
    requires AllAsmOpen(s)
    ensures AllAsmOpen(Run(s, lines))
    decreases |lines|
  {
    if lines != [] {
      var s1 := UpdatePreprocessor(s, lines[0].line);
      assert AllAsmOpen(s1);
      UpdateKeepsAsm(s1.stack, lines[0].num, lines[0].line);
      RunKeepsAsm(Update(s, lines[0].num, lines[0].line), lines[1..]);
    }
  }

  /** After any lines at all, a well-nested program leaves what its first branches leave, if
      their #if and #endif lines are harmless where they are met. */
  lemma FilesErase(before: seq<Numbered>, p: Prog)
    requires WellFormed(p) && Undisturbed(Run(State([], []), before), p)
    ensures var s := Run(State([], []), before);
      && Similar(Run(s, Lines(p)).stack, Run(s, Erased(p)).stack)
      && Run(s, Lines(p)).pp == s.pp
  {
    RunKeepsAsm(State([], []), before);
    ConditionalsErase(Run(State([], []), before), p);
  }

  /** So it is wherever those carry no brackets, semicolons, colons or access specifiers. */
  lemma BareFilesErase(before: seq<Numbered>, p: Prog)
    requires WellFormed(p) && AllBare(p)
    ensures var s := Run(State([], []), before);
      && Similar(Run(s, Lines(p)).stack, Run(s, Erased(p)).stack)
      && Run(s, Lines(p)).pp == s.pp
  {
    BareIsUndisturbed(Run(State([], []), before), p);
    FilesErase(before, p);
  }
}
