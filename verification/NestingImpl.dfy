/**
The nesting state as the objects it is made of: blocks are mutated in place, so a
checkpoint is only worth something if it holds blocks of its own.
*/
module NestingImpl {
  import opened Wrappers
  import N = Nesting
  import opened Nesting

  /** A block; `slot` and `index` say which stack holds it, and where: 0 is the current
      stack, 2k+1 and 2k+2 the two stacks of checkpoint k. */
  class BlockInfo {
    var info: Info
    var seenOpenBrace: bool
    var openParentheses: int
    var inlineAsm: Asm
    ghost var slot: nat
    ghost var index: nat

    constructor (b: Block, ghost slot: nat, ghost index: nat)
      ensures View() == b && this.slot == slot && this.index == index
    {
      info, seenOpenBrace, openParentheses, inlineAsm := b.info, b.seenOpenBrace, b.openParens, b.asm;
      this.slot, this.index := slot, index;
    }

    function View(): Block
      reads this
    {
      Block(info, seenOpenBrace, openParentheses, inlineAsm)
    }

    method CountParentheses(line: Line)
      modifies this
      ensures View() == CountParens(old(View()), line) && slot == old(slot) && index == old(index)
    {
      var change := Count(line, LParen) - Count(line, RParen);
      openParentheses := openParentheses + change;
      if inlineAsm == NoAsm || inlineAsm == EndAsm {
        if change != 0 && openParentheses == 1 && MatchAsm(line) {
          inlineAsm := InsideAsm;
        } else {
          inlineAsm := NoAsm;
        }
      } else if inlineAsm == InsideAsm && openParentheses == 0 {
        inlineAsm := EndAsm;
      }
    }
  }

  /** The stack holds blocks of its own, whose contents are `m`. */
  ghost predicate Holds(s: seq<BlockInfo>, slot: nat, m: Stack)
    reads s
  {
    && |s| == |m|
    && forall i :: 0 <= i < |s| ==> s[i].slot == slot && s[i].index == i && s[i].View() == m[i]
  }

  ghost predicate Among(s: seq<BlockInfo>, bs: set<BlockInfo>) {
    forall i :: 0 <= i < |s| ==> s[i] in bs
  }

  ghost predicate Remembers(p: PreprocessorInfo, k: nat, bs: set<BlockInfo>, cp: Checkpoint)
    reads bs
  {
    && Among(p.stackBeforeIf, bs) && Holds(p.stackBeforeIf, 2 * k + 1, cp.beforeIf)
    && Among(p.stackBeforeElse, bs) && Holds(p.stackBeforeElse, 2 * k + 2, cp.beforeElse)
    && p.seenElse == cp.seenElse
  }

  ghost predicate RemembersAll(pp: seq<PreprocessorInfo>, bs: set<BlockInfo>, cps: seq<Checkpoint>)
    reads bs
  {
    && |pp| == |cps|
    && forall k :: 0 <= k < |pp| ==> Remembers(pp[k], k, bs, cps[k])
  }

  lemma RemembersAmongMore(pp: seq<PreprocessorInfo>, bs: set<BlockInfo>, bs': set<BlockInfo>, cps: seq<Checkpoint>)
    requires RemembersAll(pp, bs, cps) && bs <= bs'
    ensures RemembersAll(pp, bs', cps)
  {
    forall k | 0 <= k < |pp| ensures Remembers(pp[k], k, bs', cps[k]) {
      assert Remembers(pp[k], k, bs, cps[k]);
    }
  }

  lemma RemembersOneMore(pp: seq<PreprocessorInfo>, bs: set<BlockInfo>, cps: seq<Checkpoint>,
                         p: PreprocessorInfo, cp: Checkpoint)
    requires RemembersAll(pp, bs, cps) && Remembers(p, |pp|, bs, cp)
    ensures RemembersAll(pp + [p], bs, cps + [cp])
  {
  }

  lemma RemembersInstead(pp: seq<PreprocessorInfo>, bs: set<BlockInfo>, cps: seq<Checkpoint>,
                         k: nat, p: PreprocessorInfo, cp: Checkpoint)
    requires RemembersAll(pp, bs, cps) && k < |pp| && Remembers(p, k, bs, cp)
    ensures RemembersAll(pp[k := p], bs, cps[k := cp])
  {
  }

  datatype PreprocessorInfo = PreprocessorInfo(
    stackBeforeIf: seq<BlockInfo>, stackBeforeElse: seq<BlockInfo>, seenElse: bool)

  /** copy.deepcopy of a stack: new blocks with the same contents. */
  method DeepCopy(s: seq<BlockInfo>, ghost from: nat, ghost slot: nat, ghost m: Stack)
    returns (r: seq<BlockInfo>, ghost bs: set<BlockInfo>)
    requires Holds(s, from, m)
    ensures fresh(bs) && Among(r, bs) && Holds(r, slot, m)
  {
    r, bs := [], {};
    for i := 0 to |s|
      invariant |r| == i && fresh(bs) && Among(r, bs)
      invariant Holds(r, slot, m[..i])
    {
      var b := new BlockInfo(s[i].View(), slot, i);
      r, bs := r + [b], bs + {b};
    }
    assert m[..|s|] == m;
  }

  class NestingState {
    var stack: seq<BlockInfo>
    var ppStack: seq<PreprocessorInfo>
    /** What the objects stand for. */
    ghost var model: State
    ghost var blocks: set<BlockInfo>

    /** No block is in two stacks, or twice in one. */
    ghost predicate Valid()
      reads this, blocks
    {
      && Among(stack, blocks) && Holds(stack, 0, model.stack)
      && RemembersAll(ppStack, blocks, model.pp)
    }

    constructor ()
      ensures Valid() && blocks == {} && model == State([], [])
    {
      stack, ppStack := [], [];
      model, blocks := State([], []), {};
    }

    // ----- preprocessor lines

    /** A copy whose blocks this state keeps. */
    method Copy(s: seq<BlockInfo>, ghost from: nat, ghost slot: nat, ghost m: Stack) returns (r: seq<BlockInfo>)
      requires Valid() && Holds(s, from, m)
      modifies this`blocks
      ensures Valid() && fresh(blocks - old(blocks)) && old(blocks) <= blocks
      ensures Among(r, blocks) && Holds(r, slot, m)
    {
      ghost var before := blocks;
      ghost var bs;
      r, bs := DeepCopy(s, from, slot, m);
      blocks := blocks + bs;
      RemembersAmongMore(ppStack, before, blocks, model.pp);
    }

    method BeginIf()
      requires Valid()
      modifies this
      ensures Valid() && fresh(blocks - old(blocks))
      ensures model == N.UpdatePreprocessor(old(model), [If])
    {
      ghost var cp := Checkpoint(model.stack, [], false);
      var copy := Copy(stack, 0, 2 * |ppStack| + 1, model.stack);
      var p := PreprocessorInfo(copy, [], false);
      RemembersOneMore(ppStack, blocks, model.pp, p, cp);
      ppStack := ppStack + [p];
      model := model.(pp := model.pp + [cp]);
    }

    method BeginElse()
      requires Valid()
      modifies this
      ensures Valid() && fresh(blocks - old(blocks))
      ensures model == N.UpdatePreprocessor(old(model), [Else])
    {
      if ppStack != [] {
        var k := |ppStack| - 1;
        if !ppStack[k].seenElse {
          RememberElse(k);
        }
        RestoreBeforeIf(k);
      }
    }

    method RestoreBeforeIf(k: nat)
      requires Valid() && k < |ppStack|
      modifies this
      ensures Valid() && fresh(blocks - old(blocks))
      ensures model == old(model).(stack := old(model.pp[k].beforeIf))
    {
      assert Remembers(ppStack[k], k, blocks, model.pp[k]);
      stack := Copy(ppStack[k].stackBeforeIf, 2 * k + 1, 0, model.pp[k].beforeIf);
      model := model.(stack := model.pp[k].beforeIf);
    }

    /** The first #else: the whole stack up to this point is what is kept after the #endif. */
    method RememberElse(k: nat)
      requires Valid() && k < |ppStack|
      modifies this
      ensures Valid() && fresh(blocks - old(blocks)) && |ppStack| == |old(ppStack)|
      ensures model == old(model).(pp :=
        old(model.pp)[k := old(model.pp[k]).(seenElse := true, beforeElse := old(model.stack))])
    {
      ghost var cp := model.pp[k].(seenElse := true, beforeElse := model.stack);
      var copy := Copy(stack, 0, 2 * k + 2, model.stack);
      var p := ppStack[k].(seenElse := true, stackBeforeElse := copy);
      assert Remembers(ppStack[k], k, blocks, model.pp[k]);
      RemembersInstead(ppStack, blocks, model.pp, k, p, cp);
      ppStack := ppStack[k := p];
      model := model.(pp := model.pp[k := cp]);
    }

    /** The stack of the checkpoint is taken over without a copy: the checkpoint goes. */
    method EndIf()
      requires Valid()
      modifies this, blocks
      ensures Valid() && blocks == old(blocks)
      ensures model == N.UpdatePreprocessor(old(model), [Endif])
    {
      if ppStack != [] {
        var k := |ppStack| - 1;
        var p := ppStack[k];
        ppStack := ppStack[..k];
        ghost var cp := model.pp[k];
        model := model.(pp := model.pp[..k]);
        if p.seenElse {
          stack := p.stackBeforeElse;
          model := model.(stack := cp.beforeElse);
          forall b | b in stack { b.slot := 0; }
        }
      }
    }
  
    method UpdatePreprocessor(line: Line)
      requires Valid()
      modifies this, blocks
      ensures Valid() && fresh(blocks - old(blocks))
      ensures model == N.UpdatePreprocessor(old(model), line)
    {
      if line != [] {
        if line[0] == If { BeginIf(); }
        else if line[0] == Else { BeginElse(); }
        else if line[0] == Endif { EndIf(); }
      }
    }

    // ----- the current stack

    predicate SeenOpenBrace()
      reads this, stack
    {
      stack == [] || stack[|stack| - 1].seenOpenBrace
    }

    /** The current blocks are of slot 0, so changing the top one changes no checkpoint. */
    method CountParentheses(line: Line)
      requires Valid()
      modifies this`model, blocks
      ensures Valid() && model == old(model).(stack := N.CountInTop(old(model.stack), line))
    {
      if stack != [] {
        stack[|stack| - 1].CountParentheses(line);
        model := model.(stack := N.CountInTop(model.stack, line));
      }
    }

    method Push(b: Block)
      requires Valid()
      modifies this`stack, this`model, this`blocks
      ensures Valid() && fresh(blocks - old(blocks))
      ensures model == old(model).(stack := old(model.stack) + [b])
    {
      ghost var before := blocks;
      var block := new BlockInfo(b, 0, |stack|);
      blocks := blocks + {block};
      RemembersAmongMore(ppStack, before, blocks, model.pp);
      stack := stack + [block];
      model := model.(stack := model.stack + [b]);
    }

    method PopBlock()
      requires Valid() && stack != []
      modifies this`stack, this`model
      ensures Valid() && model == old(model).(stack := Pop(old(model.stack)))
    {
      stack := stack[..|stack| - 1];
      model := model.(stack := Pop(model.stack));
    }

    method MarkSeen()
      requires Valid() && stack != []
      modifies this`model, blocks
      ensures Valid()
      ensures model ==
        old(model).(stack := SetTop(old(model.stack), Top(old(model.stack)).(seenOpenBrace := true)))
    {
      stack[|stack| - 1].seenOpenBrace := true;
      model := model.(stack := SetTop(model.stack, Top(model.stack).(seenOpenBrace := true)));
    }

    /** Replaces what the top block is the head of. */
    method SetInfo(info: Info)
      requires Valid() && stack != []
      modifies this`model, blocks
      ensures Valid() && model == old(model).(stack := SetTop(old(model.stack), Top(old(model.stack)).(info := info)))
    {
      stack[|stack| - 1].info := info;
      model := model.(stack := SetTop(model.stack, Top(model.stack).(info := info)));
    }

    // ----- one line

    method EnterNamespaces(line: Line, num: nat) returns (rest: Line)
      requires Valid()
      modifies this, blocks
      ensures Valid() && fresh(blocks - old(blocks)) && ppStack == old(ppStack)
      ensures var (s, r) := N.EnterNamespaces(old(model.stack), line, num);
        rest == r && model == old(model).(stack := s)
    {
      rest := line;
      while rest != [] && rest[0].NamespaceHead?
        invariant Valid() && fresh(blocks - old(blocks)) && ppStack == old(ppStack)
        invariant model == old(model).(stack := model.stack)
        invariant N.EnterNamespaces(old(model.stack), line, num) == N.EnterNamespaces(model.stack, rest, num)
        decreases |rest|
      {
        ghost var outer, name := model.stack, rest[0].name;
        Push(NewNamespace(rest[0].name, num, false));
        rest := rest[1..];
        var brace := FindBrace(rest);
        ghost var seen := brace < |rest|;
        if brace < |rest| {
          MarkSeen();
          rest := rest[brace + 1..];
        }
        assert model.stack == outer + [NewNamespace(name, num, seen)];
      }
    }

    method EnterClass(line: Line, num: nat) returns (rest: Line)
      requires Valid()
      modifies this`stack, this`model, this`blocks
      ensures Valid() && fresh(blocks - old(blocks))
      ensures var (s, r) := N.EnterClass(old(model.stack), line, num);
        rest == r && model == old(model).(stack := s)
    {
      rest := line;
      if line != [] && line[0].ClassHead? && (stack == [] || stack[|stack| - 1].openParentheses == 0) {
        Push(NewClass(line[0].name, line[0].isStruct, num));
        rest := line[1..];
      }
    }

    method CheckBegin(line: Line)
      requires Valid()
      modifies this`model, blocks
      ensures Valid() && model == old(model).(stack := N.CheckBegin(old(model.stack), line))
    {
      if !SeenOpenBrace() && stack[|stack| - 1].info.Class? && HasBareColon(line) {
        SetInfo(stack[|stack| - 1].info.(derived := true));
      }
    }

    method UpdateAccess(line: Line)
      requires Valid()
      modifies this`model, blocks
      ensures Valid() && model == old(model).(stack := N.UpdateAccess(old(model.stack), line))
    {
      if stack != [] && stack[|stack| - 1].info.Class? {
        match LastAccess(line) {
          case None =>
          case Some(level) => SetInfo(stack[|stack| - 1].info.(access := level));
        }
      }
    }

    method Delimit(line: Line, token: Token)
      requires Valid() && IsDelimiter(token)
      modifies this, blocks
      ensures Valid() && fresh(blocks - old(blocks))
      ensures model == old(model).(stack := N.Delimit(old(model.stack), line, token))
    {
      if token == LBrace {
        if !SeenOpenBrace() {
          MarkSeen();
        } else {
          Push(Block(Info.Plain, true, 0, if MatchAsm(line) then BlockAsm else NoAsm));
        }
      } else if token == Semicolon || token == RParen {
        if !SeenOpenBrace() {
          PopBlock();
        }
      } else {
        if stack != [] {
          PopBlock();
        }
      }
    }

    method Consume(line: Line)
      requires Valid()
      modifies this, blocks
      ensures Valid() && fresh(blocks - old(blocks))
      ensures model == old(model).(stack := N.Consume(old(model.stack), line))
    {
      var rest := line;
      var i := FindDelimiter(rest);
      while i < |rest|
        invariant Valid() && fresh(blocks - old(blocks)) && i == FindDelimiter(rest)
        invariant model == old(model).(stack := model.stack)
        invariant N.Consume(old(model.stack), line) == N.Consume(model.stack, rest)
        decreases |rest|
      {
        Delimit(rest, rest[i]);
        rest := rest[i + 1..];
        i := FindDelimiter(rest);
      }
    }

    /** Namespace and class heads at the beginning of the line. */
    method EnterHeads(line: Line, num: nat) returns (rest: Line)
      requires Valid()
      modifies this, blocks
      ensures Valid() && fresh(blocks - old(blocks))
      ensures var (s1, rest1) := N.EnterNamespaces(old(model.stack), line, num);
        var (s2, rest2) := N.EnterClass(s1, rest1, num);
        rest == rest2 && model == old(model).(stack := s2)
    {
      var afterNamespaces := EnterNamespaces(line, num);
      rest := EnterClass(afterNamespaces, num);
    }

    method UpdateClass(line: Line, rest: Line)
      requires Valid()
      modifies this`model, blocks
      ensures Valid() && model == old(model).(stack := N.UpdateAccess(N.CheckBegin(old(model.stack), line), rest))
    {
      CheckBegin(line);
      UpdateAccess(rest);
    }

    method UpdateStack(num: nat, line: Line)
      requires Valid()
      modifies this, blocks
      ensures Valid() && fresh(blocks - old(blocks))
      ensures model == old(model).(stack := N.UpdateStack(old(model.stack), num, line))
    {
      CountParentheses(line);
      var rest := EnterHeads(line, num);
      UpdateClass(line, rest);
      Consume(rest);
    }

    /** The whole update for one line. */
    method Update(num: nat, line: Line)
      requires Valid()
      modifies this, blocks
      ensures Valid() && fresh(blocks - old(blocks))
      ensures model == N.Update(old(model), num, line)
    {
      UpdatePreprocessor(line);
      UpdateStack(num, line);
    }

    /** All lines of a file. */
    method ProcessFile(lines: seq<Numbered>)
      requires Valid()
      modifies this, blocks
      ensures Valid() && model == N.Run(old(model), lines)
    {
      for i := 0 to |lines|
        invariant Valid() && fresh(blocks - old(blocks))
        invariant N.Run(old(model), lines) == N.Run(model, lines[i..])
      {
        Update(lines[i].num, lines[i].line);
        assert lines[i..][1..] == lines[i + 1..];
      }
    }
  }
}
