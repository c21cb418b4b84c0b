/**
The nesting state of the linter: a stack of open blocks, updated line by line,
with checkpoints across preprocessor conditionals.  Lines are sequences of the
tokens the patterns of the source look for.
*/
module Nesting {
  import opened Wrappers

  /** A head stands where its pattern matches: a ClassHead only where the whole class
      pattern does.  `Else` is #else or #elif. */
  datatype Token =
    | If | Else | Endif
    | NamespaceHead(name: string)
    | ClassHead(name: string, isStruct: bool)
    | Access(level: string)
    | Colon | AsmWord
    | LBrace | RBrace | LParen | RParen | Semicolon
    | Text

  type Line = seq<Token>

  datatype Asm = NoAsm | InsideAsm | EndAsm | BlockAsm

  datatype Info =
    | Plain
    | Class(name: string, isStruct: bool, access: string, derived: bool, start: nat)
    | Namespace(name: string, start: nat)

  datatype Block = Block(info: Info, seenOpenBrace: bool, openParens: int, asm: Asm)

  type Stack = seq<Block>

  /** What is remembered at an #if: the stack before it, and up to its first #else. */
  datatype Checkpoint = Checkpoint(beforeIf: Stack, beforeElse: Stack, seenElse: bool)

  datatype State = State(stack: Stack, pp: seq<Checkpoint>)

  function Top(stack: Stack): Block
    requires stack != []
  {
    stack[|stack| - 1]
  }

  function Pop(stack: Stack): Stack
    requires stack != []
  {
    stack[..|stack| - 1]
  }

  function SetTop(stack: Stack, b: Block): Stack
    requires stack != []
  {
    stack[|stack| - 1 := b]
  }

  predicate SeenOpenBrace(stack: Stack) {
    stack == [] || Top(stack).seenOpenBrace
  }

  predicate IsDirective(t: Token) { t.If? || t.Else? || t.Endif? }

  // ----- preprocessor lines

  function UpdatePreprocessor(s: State, line: Line): State {
    if line == [] then s
    else match line[0]
      case If => s.(pp := s.pp + [Checkpoint(s.stack, [], false)])
      case Else =>
        if s.pp == [] then s
        else
          var cp := s.pp[|s.pp| - 1];
          var cp' := if cp.seenElse then cp else cp.(seenElse := true, beforeElse := s.stack);
          State(cp'.beforeIf, s.pp[|s.pp| - 1 := cp'])
      case Endif =>
        if s.pp == [] then s
        else
          var cp := s.pp[|s.pp| - 1];
          State(if cp.seenElse then cp.beforeElse else s.stack, s.pp[..|s.pp| - 1])
      case _ => s
  }

  // ----- parentheses and inline assembly

  function Count(line: Line, t: Token): nat {
    if line == [] then 0 else Count(line[..|line| - 1], t) + if line[|line| - 1] == t then 1 else 0
  }

  /** An assembly keyword followed by an opening brace or parenthesis starts the line. */
  predicate MatchAsm(line: Line) {
    2 <= |line| && line[0] == AsmWord && (line[1] == LBrace || line[1] == LParen)
  }

  function CountParens(b: Block, line: Line): Block {
    var change := Count(line, LParen) - Count(line, RParen);
    var open := b.openParens + change;
    var asm :=
      if b.asm == NoAsm || b.asm == EndAsm then
        if change != 0 && open == 1 && MatchAsm(line) then InsideAsm else NoAsm
      else if b.asm == InsideAsm && open == 0 then EndAsm
      else b.asm;
    b.(openParens := open, asm := asm)
  }

  function CountInTop(stack: Stack, line: Line): Stack {
    if stack == [] then stack else SetTop(stack, CountParens(Top(stack), line))
  }

  // ----- heads at the beginning of the line

  /** The position of the first opening brace, or the length of the line. */
  function FindBrace(line: Line): (i: nat)
    ensures i <= |line|
    ensures i < |line| ==> line[i] == LBrace
  {
    if line == [] || line[0] == LBrace then 0 else FindBrace(line[1..]) + 1
  }

  function NewNamespace(name: string, start: nat, seen: bool): Block {
    Block(Namespace(name, start), seen, 0, NoAsm)
  }

  /** Pushes every namespace declared at the beginning; what is left of the line starts
      after the brace of the last one, if it has one. */
  function EnterNamespaces(stack: Stack, line: Line, num: nat): (Stack, Line)
    decreases |line|
  {
    if line == [] || !line[0].NamespaceHead? then (stack, line)
    else
      var rest := line[1..];
      var brace := FindBrace(rest);
      var seen := brace < |rest|;
      EnterNamespaces(stack + [NewNamespace(line[0].name, num, seen)], if seen then rest[brace + 1..] else rest, num)
  }

  function NewClass(name: string, isStruct: bool, start: nat): Block {
    Block(Class(name, isStruct, if isStruct then "public" else "private", false, start), false, 0, NoAsm)
  }

  function EnterClass(stack: Stack, line: Line, num: nat): (Stack, Line) {
    if line != [] && line[0].ClassHead? && (stack == [] || Top(stack).openParens == 0)
    then (stack + [NewClass(line[0].name, line[0].isStruct, num)], line[1..])
    else (stack, line)
  }

  /** A bare colon in the line makes a class whose brace is still to come a derived one. */
  predicate HasBareColon(line: Line) {
    exists t :: t in line && (t.Colon? || t.Access?)
  }

  function CheckBegin(stack: Stack, line: Line): Stack {
    if !SeenOpenBrace(stack) && Top(stack).info.Class? && HasBareColon(line)
    then SetTop(stack, Top(stack).(info := Top(stack).info.(derived := true)))
    else stack
  }

  /** The last access specifier of the line. */
  function LastAccess(line: Line): Option<string> {
    if line == [] then None
    else if line[|line| - 1].Access? then Some(line[|line| - 1].level)
    else LastAccess(line[..|line| - 1])
  }

  function UpdateAccess(stack: Stack, line: Line): Stack {
    if stack != [] && Top(stack).info.Class? && LastAccess(line).Some?
    then SetTop(stack, Top(stack).(info := Top(stack).info.(access := LastAccess(line).value)))
    else stack
  }

  // ----- braces and semicolons

  predicate IsDelimiter(t: Token) {
    t == LBrace || t == Semicolon || t == RParen || t == RBrace
  }

  /** The position of the first delimiter, or the length of the line. */
  function FindDelimiter(line: Line): (i: nat)
    ensures i <= |line|
    ensures i < |line| ==> IsDelimiter(line[i])
    ensures forall j :: 0 <= j < i ==> !IsDelimiter(line[j])
  {
    if line == [] || IsDelimiter(line[0]) then 0 else FindDelimiter(line[1..]) + 1
  }

  /** The effect of one delimiter; `line` is the text it is found in. */
  function Delimit(stack: Stack, line: Line, t: Token): Stack {
    match t
    case LBrace =>
      if !SeenOpenBrace(stack) then SetTop(stack, Top(stack).(seenOpenBrace := true))
      else stack + [Block(Plain, true, 0, if MatchAsm(line) then BlockAsm else NoAsm)]
    case RBrace => if stack != [] then Pop(stack) else stack
    case _ => if !SeenOpenBrace(stack) then Pop(stack) else stack
  }

  function Consume(stack: Stack, line: Line): Stack
    decreases |line|
  {
    var i := FindDelimiter(line);
    if i == |line| then stack
    else Consume(Delimit(stack, line, line[i]), line[i + 1..])
  }

  // ----- one line, many lines

  /** What a line does to the stack, conditionals aside. */
  function UpdateStack(stack: Stack, num: nat, line: Line): Stack {
    var (inNamespaces, afterNamespaces) := EnterNamespaces(CountInTop(stack, line), line, num);
    var (inClass, rest) := EnterClass(inNamespaces, afterNamespaces, num);
    Consume(UpdateAccess(CheckBegin(inClass, line), rest), rest)
  }

  function Update(s: State, num: nat, line: Line): State {
    var s1 := UpdatePreprocessor(s, line);
    s1.(stack := UpdateStack(s1.stack, num, line))
  }

  /** A line with its number. */
  datatype Numbered = Numbered(num: nat, line: Line)

  function Run(s: State, lines: seq<Numbered>): State
    decreases |lines|
  {
    if lines == [] then s else Run(Update(s, lines[0].num, lines[0].line), lines[1..])
  }

  lemma {:induction false} RunConcat(s: State, a: seq<Numbered>, b: seq<Numbered>)
    ensures Run(s, a + b) == Run(Run(s, a), b)
    decreases |a|
  {
    if a == [] {
      assert a + b == b;
    } else {
      assert (a + b)[0] == a[0] && (a + b)[1..] == a[1..] + b;
      RunConcat(Update(s, a[0].num, a[0].line), a[1..], b);
    }
  }
}
