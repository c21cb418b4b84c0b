/**
Class and namespace definitions: what the nesting state holds inside one, and
that it leaves no trace after it.
*/
module Definitions {
  import opened Wrappers
  import opened Nesting
  import opened PreprocessorErasure
  import opened NestingHeight

  /** A piece of a program.  `mid` stands between the head and its brace: a base clause,
      or nothing; `semi` says that a semicolon follows the closing brace. */
  datatype Item =
    | Fragment(lines: seq<Numbered>)
    | Specifier(num: nat, level: string)
    | Forward(num: nat, head: Token)
    | Definition(num: nat, head: Token, mid: Line, body: Items, end: nat, semi: bool)

  datatype Items = Nil | Cons(item: Item, rest: Items)

  ghost predicate Balanced(lines: seq<Numbered>) {
    && (forall i :: 0 <= i < |lines| ==> Inner(lines[i].line))
    && StaysAbove(AllTokens(lines), 0)
    && Net(AllTokens(lines)) == 0
  }

  /** What may stand between a head and its brace. */
  predicate IsMid(mid: Line) {
    forall i :: 0 <= i < |mid| ==> mid[i] == Text || mid[i] == Colon
  }

  ghost predicate WellFormed(items: Items) {
    match items
    case Nil => true
    case Cons(item, rest) =>
      && WellFormed(rest)
      && match item
         case Fragment(lines) => Balanced(lines)
         case Specifier(_, _) => true
         case Forward(_, head) => head.ClassHead?
         case Definition(_, head, mid, body, _, _) =>
           && (head.ClassHead? || head.NamespaceHead?)
           && IsMid(mid)
           && WellFormed(body)
  }

  function Opening(head: Token, mid: Line): Line {
    [head] + mid + [LBrace]
  }

  function Closing(semi: bool): Line {
    if semi then [RBrace, Semicolon] else [RBrace]
  }

  function LinesOfItem(item: Item): seq<Numbered>
    decreases item, 1
  {
    match item
    case Fragment(lines) => lines
    case Specifier(num, level) => [Numbered(num, [Access(level)])]
    case Forward(num, head) => [Numbered(num, [head, Semicolon])]
    case Definition(num, head, mid, body, end, semi) =>
      [Numbered(num, Opening(head, mid))] + LinesOf(body) + [Numbered(end, Closing(semi))]
  }

  function LinesOf(items: Items): seq<Numbered>
    decreases items, 0
  {
    match items
    case Nil => []
    case Cons(item, rest) => LinesOfItem(item) + LinesOf(rest)
  }

  /** The last access specifier at the level of these items themselves. */
  function LevelAfter(items: Items, before: Option<string>): Option<string> {
    match items
    case Nil => before
    case Cons(item, rest) => LevelAfter(rest, if item.Specifier? then Some(item.level) else before)
  }

  function WithLevel(stack: Stack, level: Option<string>): Stack {
    if stack != [] && Top(stack).info.Class? && level.Some?
    then SetTop(stack, Top(stack).(info := Top(stack).info.(access := level.value)))
    else stack
  }

  /** The block a definition is in. */
  function Scope(num: nat, head: Token, mid: Line): Block
    requires head.ClassHead? || head.NamespaceHead?
  {
    if head.NamespaceHead? then Block(Namespace(head.name, num), true, 0, NoAsm)
    else
      var access := if head.isStruct then "public" else "private";
      Block(Class(head.name, head.isStruct, access, Colon in mid, num), true, 0, NoAsm)
  }

  /** Between declarations: no head waits for its brace and no parenthesis is open. */
  ghost predicate Ready(stack: Stack) {
    && SeenOpenBrace(stack) && AsmOpen(stack)
    && (stack != [] ==> Top(stack).openParens == 0)
  }

  lemma SimilarIsReady(a: Stack, b: Stack)
    requires Ready(a) && Similar(a, b) && AsmOpen(b)
    ensures Ready(b)
  {
    if a != [] { assert Settled(Top(a)) == Settled(Top(b)); }
  }

  lemma SpecifierSets(s: State, num: nat, level: string)
    requires Ready(s.stack)
    ensures var t := Update(s, num, [Access(level)]);
      Similar(t.stack, WithLevel(s.stack, Some(level))) && Ready(t.stack) && t.pp == s.pp
  {
    var line := [Access(level)];
    var counted := CountInTop(s.stack, line);
    NoneCounted(line);
    NothingCounted(s.stack, line);
    SimilarIsReady(s.stack, counted);
    assert LastAccess(line) == Some(level);
    assert FindDelimiter(line[1..]) == 0;
    assert FindDelimiter(line) == 1;
    assert Update(s, num, line).stack == WithLevel(counted, Some(level));
    if s.stack != [] { assert Settled(Top(counted)) == Settled(Top(s.stack)); }
  }

  /** A line without parentheses that is a class head and a rest without specifiers. */
  lemma HeadPushes(stack: Stack, num: nat, line: Line)
    requires Ready(stack) && line != [] && line[0].ClassHead? && LParen !in line && RParen !in line
    requires forall i :: 0 <= i < |line| ==> !line[i].Access?
    ensures var counted := CountInTop(stack, line);
      var b := NewClass(line[0].name, line[0].isStruct, num);
      && Similar(counted, stack) && Ready(counted)
      && UpdateStack(stack, num, line) ==
           Consume(counted + [b.(info := b.info.(derived := Colon in line))], line[1..])
  {
    var counted := CountInTop(stack, line);
    NoneCounted(line);
    NothingCounted(stack, line);
    SimilarIsReady(stack, counted);
    var b := NewClass(line[0].name, line[0].isStruct, num);
    assert EnterNamespaces(counted, line, num) == (counted, line);
    assert EnterClass(counted, line, num) == (counted + [b], line[1..]);
    assert HasBareColon(line) <==> Colon in line by {
      assert forall t :: t in line && t.Colon? ==> t == Colon;
    }
    assert CheckBegin(counted + [b], line) == counted + [b.(info := b.info.(derived := Colon in line))];
    NoAccess(line[1..]);
  }

  /** Text up to a single delimiter at the end of the line. */
  lemma {:induction false} OneDelimiter(stack: Stack, mid: Line, t: Token)
    requires IsDelimiter(t) && forall i :: 0 <= i < |mid| ==> !IsDelimiter(mid[i])
    ensures Consume(stack, mid + [t]) == Delimit(stack, mid + [t], t)
  {
    var line := mid + [t];
    var i := FindDelimiter(line);
    assert line[|mid|] == t;
    assert forall j :: 0 <= j < |mid| ==> line[j] == mid[j];
    assert line[i + 1..] == [];
    assert FindDelimiter([]) == 0;
  }

  lemma SemicolonPops(stack: Stack, b: Block)
    requires !b.seenOpenBrace
    ensures Consume(stack + [b], [Semicolon]) == stack
  {
    assert [] + [Semicolon] == [Semicolon];
    OneDelimiter(stack + [b], [], Semicolon);
    assert Pop(stack + [b]) == stack;
  }

  lemma NoDirective(s: State, num: nat, line: Line)
    requires line != [] && !IsDirective(line[0])
    ensures Update(s, num, line) == s.(stack := UpdateStack(s.stack, num, line))
  {
  }

  lemma ForwardIsForgotten(s: State, num: nat, head: Token)
    requires Ready(s.stack) && head.ClassHead?
    ensures var t := Update(s, num, [head, Semicolon]);
      Similar(t.stack, s.stack) && Ready(t.stack) && t.pp == s.pp
  {
    var line := [head, Semicolon];
    var counted := CountInTop(s.stack, line);
    NoDirective(s, num, line);
    assert UpdateStack(s.stack, num, line) == counted && Similar(counted, s.stack) && Ready(counted) by {
      HeadPushes(s.stack, num, line);
      assert line[1..] == [Semicolon] && Colon !in line;
      SemicolonPops(counted, NewClass(head.name, head.isStruct, num));
    }
  }

  lemma BraceCompletes(stack: Stack, b: Block, mid: Line)
    requires !b.seenOpenBrace && IsMid(mid)
    ensures Consume(stack + [b], mid + [LBrace]) == stack + [b.(seenOpenBrace := true)]
  {
    OneDelimiter(stack + [b], mid, LBrace);
    assert Delimit(stack + [b], mid + [LBrace], LBrace) == stack + [b.(seenOpenBrace := true)];
  }

  lemma OpeningIs(head: Token, mid: Line)
    requires (head.ClassHead? || head.NamespaceHead?) && IsMid(mid)
    ensures var line := Opening(head, mid);
      && line[0] == head && line[1..] == mid + [LBrace]
      && LParen !in line && RParen !in line
      && (forall i :: 0 <= i < |line| ==> !line[i].Access?)
      && (Colon in line <==> Colon in mid)
  {
  }

  /** The opening line puts exactly the scope on the stack. */
  lemma ClassOpens(stack: Stack, num: nat, head: Token, mid: Line)
    requires Ready(stack) && head.ClassHead? && IsMid(mid)
    ensures Similar(UpdateStack(stack, num, Opening(head, mid)), stack + [Scope(num, head, mid)])
  {
    var line := Opening(head, mid);
    OpeningIs(head, mid);
    HeadPushes(stack, num, line);
    BraceCompletes(CountInTop(stack, line), Scope(num, head, mid).(seenOpenBrace := false), mid);
  }

  lemma {:induction false} BraceAtEnd(mid: Line)
    requires IsMid(mid)
    ensures FindBrace(mid + [LBrace]) == |mid|
    decreases |mid|
  {
    if mid != [] {
      assert (mid + [LBrace])[0] == mid[0] && (mid + [LBrace])[1..] == mid[1..] + [LBrace];
      BraceAtEnd(mid[1..]);
    }
  }

  lemma NamespaceOpens(stack: Stack, num: nat, head: Token, mid: Line)
    requires Ready(stack) && head.NamespaceHead? && IsMid(mid)
    ensures Similar(UpdateStack(stack, num, Opening(head, mid)), stack + [Scope(num, head, mid)])
  {
    var line := Opening(head, mid);
    var counted := CountInTop(stack, line);
    OpeningIs(head, mid);
    NoneCounted(line);
    NothingCounted(stack, line);
    BraceAtEnd(mid);
    assert line[1..][|mid| + 1..] == [];
    var entered := counted + [Scope(num, head, mid)];
    assert EnterNamespaces(counted, line, num) == (entered, []) by {
      assert EnterNamespaces(entered, [], num) == (entered, []);
    }
    assert UpdateStack(stack, num, line) == Consume(UpdateAccess(CheckBegin(entered, line), []), []);
    assert FindDelimiter([]) == 0;
  }

  lemma DefinitionOpens(s: State, num: nat, head: Token, mid: Line)
    requires Ready(s.stack) && (head.ClassHead? || head.NamespaceHead?) && IsMid(mid)
    ensures var t := Update(s, num, Opening(head, mid));
      Similar(t.stack, s.stack + [Scope(num, head, mid)]) && Ready(t.stack) && t.pp == s.pp
  {
    var line := Opening(head, mid);
    NoDirective(s, num, line);
    var scope := Scope(num, head, mid);
    var t := UpdateStack(s.stack, num, line);
    assert Similar(t, s.stack + [scope]) by {
      if head.ClassHead? { ClassOpens(s.stack, num, head, mid); } else { NamespaceOpens(s.stack, num, head, mid); }
    }
    assert AsmOpen(t) by { UpdateKeepsAsm(s.stack, num, line); }
    assert Top(s.stack + [scope]) == scope;
    SimilarIsReady(s.stack + [scope], t);
  }

  lemma ClosingPops(stack: Stack, semi: bool)
    requires stack != [] && SeenOpenBrace(Pop(stack))
    ensures Consume(stack, Closing(semi)) == Pop(stack)
  {
    var line := Closing(semi);
    var rest: Line := if semi then [] + [Semicolon] else [];
    assert FindDelimiter(line) == 0 && line[1..] == rest;
    if semi { OneDelimiter(Pop(stack), [], Semicolon); } else { assert FindDelimiter(rest) == 0; }
  }

  lemma PopSimilar(a: Stack, base: Stack, b: Block)
    requires Ready(base) && AsmOpen(a) && Similar(a, base + [b])
    ensures a != [] && Similar(Pop(a), base) && Ready(Pop(a))
  {
    assert forall i :: 0 <= i < |base| ==> (base + [b])[i] == base[i];
    SimilarIsReady(base, Pop(a));
  }

  /** The closing line takes one block off, whatever it is. */
  lemma ScopeCloses(s: State, base: Stack, b: Block, num: nat, semi: bool)
    requires Ready(base) && Ready(s.stack) && Similar(s.stack, base + [b])
    ensures var t := Update(s, num, Closing(semi));
      Similar(t.stack, base) && Ready(t.stack) && t.pp == s.pp
  {
    PopSimilar(s.stack, base, b);
    ClosingPops(s.stack, semi);
    NoneCounted(Closing(semi));
    InnerIsConsumed(s, num, Closing(semi));
    var t := Update(s, num, Closing(semi));
    SimilarJoins(t.stack, Pop(s.stack), base);
    SimilarIsReady(base, t.stack);
  }

  lemma LevelSimilar(a: Stack, b: Stack, level: Option<string>)
    requires Similar(a, b)
    ensures Similar(WithLevel(a, level), WithLevel(b, level))
  {
    if a != [] { assert Settled(Top(a)) == Settled(Top(b)); }
  }

  /** Whatever the items define, forward-declare or contain in braces, afterwards the stack
      is as before, but for the access of the class they stand in. */
  lemma {:induction false} ItemsLeave(s: State, items: Items)
    requires Ready(s.stack) && WellFormed(items)
    ensures var t := Run(s, LinesOf(items));
      Similar(t.stack, WithLevel(s.stack, LevelAfter(items, None))) && Ready(t.stack) && t.pp == s.pp
    decreases items, 0
  {
    match items
    case Nil =>
    case Cons(item, rest) =>
      var t := Run(s, LinesOfItem(item));
      var level := if item.Specifier? then Some(item.level) else None;
      ItemLeaves(s, item);
      RunConcat(s, LinesOfItem(item), LinesOf(rest));
      ItemsLeave(t, rest);
      LevelSimilar(t.stack, WithLevel(s.stack, level), LevelAfter(rest, None));
      LastLevelWins(s.stack, rest, level);
      SimilarJoins(Run(s, LinesOf(items)).stack, WithLevel(t.stack, LevelAfter(rest, None)),
                   WithLevel(s.stack, LevelAfter(items, None)));
  }

  lemma LastLevelWins(stack: Stack, rest: Items, level: Option<string>)
    ensures WithLevel(WithLevel(stack, level), LevelAfter(rest, None)) == WithLevel(stack, LevelAfter(rest, level))
  {
    LevelOr(rest, level);
  }

  lemma {:induction false} LevelOr(items: Items, before: Option<string>)
    ensures LevelAfter(items, before) == if LevelAfter(items, None).Some? then LevelAfter(items, None) else before
    decreases items
  {
    if items.Cons? {
      if items.item.Specifier? { LevelOr(items.rest, Some(items.item.level)); } else { LevelOr(items.rest, before); }
    }
  }

  lemma {:induction false} ItemLeaves(s: State, item: Item)
    requires Ready(s.stack) && WellFormed(Cons(item, Nil))
    ensures var t := Run(s, LinesOfItem(item));
      Similar(t.stack, WithLevel(s.stack, if item.Specifier? then Some(item.level) else None))
      && Ready(t.stack) && t.pp == s.pp
    decreases item, 0
  {
    match item
    case Fragment(lines) =>
      BalancedFragmentKeepsBlocks(s, lines);
      SimilarIsReady(s.stack, Run(s, lines).stack);
    case Specifier(num, level) =>
      SpecifierSets(s, num, level);
      OneLine(s, num, [Access(level)]);
    case Forward(num, head) =>
      ForwardIsForgotten(s, num, head);
      OneLine(s, num, [head, Semicolon]);
    case Definition(num, head, mid, body, end, semi) =>
      var inside := InsideDefinition(s, num, head, mid, body);
      var upToEnd := [Numbered(num, Opening(head, mid))] + LinesOf(body);
      RunConcat(s, upToEnd, [Numbered(end, Closing(semi))]);
      OneLine(Run(s, upToEnd), end, Closing(semi));
      ScopeCloses(Run(s, upToEnd), s.stack, inside, end, semi);
  }

  lemma OneLine(s: State, num: nat, line: Line)
    ensures Run(s, [Numbered(num, line)]) == Update(s, num, line)
  {
    assert [Numbered(num, line)][1..] == [];
  }

  lemma LevelOnTop(stack: Stack, b: Block, level: Option<string>)
    ensures WithLevel(stack + [b], level) == stack + [Top(WithLevel([b], level))]
  {
    assert Top(stack + [b]) == b && Top([b]) == b;
  }

  /** At the end of a body the stack is what it was before the head and, on top, the block
      of the definition, with the name of the head and its line.  A class has the access of
      the last specifier of its own level, private without one and public for a struct, and
      is derived exactly if a bare colon stood before its brace. */
  lemma {:induction false} InsideDefinition(s: State, num: nat, head: Token, mid: Line, body: Items) returns (b: Block)
    requires Ready(s.stack) && (head.ClassHead? || head.NamespaceHead?) && IsMid(mid) && WellFormed(body)
    ensures b == Top(WithLevel([Scope(num, head, mid)], LevelAfter(body, None)))
    ensures b.seenOpenBrace && b.openParens == 0 && b.asm == NoAsm
    ensures head.NamespaceHead? ==> b.info == Namespace(head.name, num)
    ensures head.ClassHead? ==>
      && b.info.Class? && b.info.name == head.name && b.info.isStruct == head.isStruct && b.info.start == num
      && (b.info.derived <==> Colon in mid)
      && b.info.access == match LevelAfter(body, None)
         case Some(level) => level
         case None => if head.isStruct then "public" else "private"
    ensures var t := Run(s, [Numbered(num, Opening(head, mid))] + LinesOf(body));
      Similar(t.stack, s.stack + [b]) && Ready(t.stack) && t.pp == s.pp
    decreases body, 1
  {
    var scope := Scope(num, head, mid);
    b := Top(WithLevel([scope], LevelAfter(body, None)));
    DefinitionOpens(s, num, head, mid);
    OneLine(s, num, Opening(head, mid));
    var s1 := Update(s, num, Opening(head, mid));
    RunConcat(s, [Numbered(num, Opening(head, mid))], LinesOf(body));
    ItemsLeave(s1, body);
    LevelSimilar(s1.stack, s.stack + [scope], LevelAfter(body, None));
    LevelOnTop(s.stack, scope, LevelAfter(body, None));
    SimilarJoins(Run(s1, LinesOf(body)).stack, WithLevel(s1.stack, LevelAfter(body, None)), s.stack + [b]);
  }
}
