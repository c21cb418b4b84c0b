/** The function-length check of the linter, and the verbosity test its reports have to pass. */
module FunctionSize {
  import opened Wrappers
  import opened Powers

  const NORMAL_TRIGGER: nat := 250
  const TEST_TRIGGER: nat := 400

  predicate IsTest(name: string) {
    4 <= |name| && (name[..4] == "TEST" || name[..4] == "Test")
  }

  function BaseTrigger(name: string): nat {
    if IsTest(name) then TEST_TRIGGER else NORMAL_TRIGGER
  }

  lemma TestNames(name: string)
    ensures IsTest(name) <==> "TEST" <= name || "Test" <= name
  {
    assert 4 <= |name| ==> ("TEST" <= name <==> name[..4] == "TEST");
    assert 4 <= |name| ==> ("Test" <= name <==> name[..4] == "Test");
  }

  class FunctionState {
    var inAFunction: bool
    var linesInFunction: nat
    var currentFunction: string

    constructor ()
      ensures !inAFunction && linesInFunction == 0 && currentFunction == ""
    {
      inAFunction, linesInFunction, currentFunction := false, 0, "";
    }

    method Begin(functionName: string)
      modifies this
      ensures inAFunction && linesInFunction == 0 && currentFunction == functionName
    {
      inAFunction := true;
      linesInFunction := 0;
      currentFunction := functionName;
    }

    method Count()
      modifies this`linesInFunction
      ensures linesInFunction == old(linesInFunction) + if inAFunction then 1 else 0
    {
      if inAFunction { linesInFunction := linesInFunction + 1; }
    }

    /** The level of the report, if there is one.  A report passes the verbosity test of
        the printer exactly when the verbosity is at most 5, the highest level; below that
        level the report brackets the length between consecutive powers of two. */
    method Check(verbosity: nat) returns (level: Option<nat>)
      ensures var base := if "TEST" <= currentFunction || "Test" <= currentFunction then 400 else 250;
        && (level.Some? <==> linesInFunction > base * Pow2(verbosity))
        && (level.Some? && level.value < 5 ==>
             base * Pow2(level.value) <= linesInFunction < base * Pow2(level.value + 1))
        && (level == Some(5) ==> base * 32 <= linesInFunction)
      ensures level.Some? ==> level.value <= 5 && (verbosity <= level.value <==> verbosity <= 5)
    {
      var base := BaseTrigger(currentFunction);
      TestNames(currentFunction);
      assert Pow2(5) == 32 by { assert Pow2(2) == 4 && Pow2(4) == 16; }
      var trigger := base * Pow2(verbosity);
      if linesInFunction > trigger {
        var ratio := linesInFunction / base;
        Pow2Positive(verbosity);
        RatioIs(linesInFunction, base, Pow2(verbosity));
        var errorLevel := FloorLog2(ratio);
        RatioIs(linesInFunction, base, Pow2(errorLevel));
        RatioIs(linesInFunction, base, Pow2(errorLevel + 1));
        if errorLevel < verbosity { Pow2Grows(errorLevel + 1, verbosity); }
        if errorLevel > 5 {
          Pow2Grows(5, errorLevel);
          RatioIs(linesInFunction, base, Pow2(5));
          errorLevel := 5;
        }
        return Some(errorLevel);
      }
      return None;
    }

    method End()
      modifies this`inAFunction
      ensures !inAFunction
    {
      inAFunction := false;
    }
  }

  /** Comparing the rounded ratio is comparing the products. */
  lemma RatioIs(n: nat, base: nat, p: nat)
    requires 1 <= base
    ensures p <= n / base <==> base * p <= n
  {
    var q, r := n / base, n % base;
    assert n == base * q + r && 0 <= r < base;
    if p <= q { assert base * p <= base * q; }
    else { assert base * (q + 1) <= base * p; }
  }
}
