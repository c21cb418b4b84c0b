/**
The error statistics of the linter: which errors are reported, and how the counts
per category agree with each other and with the total.
*/
module ErrorCounts {
  datatype Counting = Total | Toplevel | Detailed

  predicate Matches(filter: string, category: string) {
    filter != "" && filter[1..] <= category
  }

  /** The last filter that matches the category is a minus. */
  predicate Filtered(filters: seq<string>, category: string) {
    filters != [] &&
    var last := filters[|filters| - 1];
    if Matches(last, category) && (last[0] == '-' || last[0] == '+') then last[0] == '-'
    else Filtered(filters[..|filters| - 1], category)
  }

  /** The category up to its first slash. */
  function Top(category: string): string {
    if category == "" || category[0] == '/' then "" else [category[0]] + Top(category[1..])
  }

  function Key(counting: Counting, category: string): string {
    if counting == Detailed then category else Top(category)
  }

  function Get(m: map<string, nat>, k: string): nat {
    if k in m then m[k] else 0
  }

  function Bump(m: map<string, nat>, k: string): map<string, nat> {
    m[k := Get(m, k) + 1]
  }

  /** The counts after a run of errors. */
  function Tally(counting: Counting, run: seq<string>): map<string, nat> {
    if run == [] || counting == Total then map[]
    else Bump(Tally(counting, run[..|run| - 1]), Key(counting, run[|run| - 1]))
  }

  class CppLintState {
    var verboseLevel: int
    var errorCount: nat
    var filters: seq<string>
    var counting: Counting
    var errorsByCategory: map<string, nat>

    constructor (filters: seq<string>)
      ensures verboseLevel == 1 && this.filters == filters && counting == Total
      ensures errorCount == 0 && errorsByCategory == map[]
    {
      verboseLevel, errorCount, counting, errorsByCategory := 1, 0, Total, map[];
      this.filters := filters;
    }

    method SetCountingStyle(style: Counting)
      modifies this`counting
      ensures counting == style
    {
      counting := style;
    }

    method ResetErrorCounts()
      modifies this`errorCount, this`errorsByCategory
      ensures errorCount == 0 && errorsByCategory == map[]
    {
      errorCount := 0;
      errorsByCategory := map[];
    }

    method IncrementErrorCount(category: string)
      modifies this`errorCount, this`errorsByCategory
      ensures errorCount == old(errorCount) + 1
      ensures errorsByCategory ==
        if counting == Total then old(errorsByCategory) else Bump(old(errorsByCategory), Key(counting, category))
    {
      errorCount := errorCount + 1;
      if counting == Toplevel || counting == Detailed {
        var key := category;
        if counting != Detailed {
          key := Top(category);
        }
        if key !in errorsByCategory {
          errorsByCategory := errorsByCategory[key := 0];
        }
        errorsByCategory := errorsByCategory[key := errorsByCategory[key] + 1];
      }
    }

    /** `suppressed` is the answer of the NOLINT comments. */
    method ShouldPrintError(category: string, confidence: int, suppressed: bool) returns (r: bool)
      requires forall i :: 0 <= i < |filters| ==> filters[i] != "" && (filters[i][0] == '-' || filters[i][0] == '+')
      ensures r <==> !suppressed && verboseLevel <= confidence && !Filtered(filters, category)
    {
      if suppressed { return false; }
      if confidence < verboseLevel { return false; }
      var isFiltered := false;
      for i := 0 to |filters|
        invariant isFiltered == Filtered(filters[..i], category)
      {
        assert filters[..i + 1][..i] == filters[..i];
        if filters[i][0] == '-' {
          if filters[i][1..] <= category { isFiltered := true; }
        } else {
          if filters[i][1..] <= category { isFiltered := false; }
        }
      }
      assert filters[..|filters|] == filters;
      return !isFiltered;
    }

    /** A run of printed errors since the last reset, in one counting style. */
    method CountRun(run: seq<string>)
      requires errorCount == 0 && errorsByCategory == map[]
      modifies this`errorCount, this`errorsByCategory
      ensures errorCount == |run| && errorsByCategory == Tally(counting, run)
    {
      for i := 0 to |run|
        invariant errorCount == i && errorsByCategory == Tally(counting, run[..i])
      {
        assert run[..i + 1][..i] == run[..i];
        IncrementErrorCount(run[i]);
      }
      assert run[..|run|] == run;
    }
  }

  // ----- what is filtered, and what is counted

  /** A filter is a sign and the beginning of the categories it is about. */
  ghost predicate Concerns(filter: string, category: string) {
    filter != "" && (filter[0] == '-' || filter[0] == '+') && filter[1..] <= category
  }

  /** The last filter that concerns the category is a minus. */
  ghost predicate LastIsMinus(filters: seq<string>, category: string, i: int) {
    && 0 <= i < |filters| && Concerns(filters[i], category) && filters[i][0] == '-'
    && forall j :: i < j < |filters| ==> !Concerns(filters[j], category)
  }

  lemma {:induction false} FilteredExactly(filters: seq<string>, category: string)
    ensures Filtered(filters, category) <==> exists i :: LastIsMinus(filters, category, i)
    decreases |filters|
  {
    if filters != [] {
      var n := |filters| - 1;
      var front := filters[..n];
      if Concerns(filters[n], category) {
        assert filters[n][0] == '-' ==> LastIsMinus(filters, category, n);
      } else {
        FilteredExactly(front, category);
        forall i ensures LastIsMinus(filters, category, i) <==> LastIsMinus(front, category, i) {
          assert forall j :: 0 <= j < n ==> filters[j] == front[j];
        }
      }
    }
  }

  /** The top level of a category is what stands before its first slash. */
  lemma {:induction false} TopIs(category: string)
    ensures Top(category) <= category && forall i :: 0 <= i < |Top(category)| ==> category[i] != '/'
    ensures |Top(category)| < |category| ==> category[|Top(category)|] == '/'
    decreases |category|
  {
    if category != "" && category[0] != '/' {
      TopIs(category[1..]);
      var t := Top(category[1..]);
      assert Top(category) == [category[0]] + t;
      assert category == [category[0]] + category[1..];
      forall i | 0 < i < |Top(category)| ensures category[i] == category[1..][i - 1] && Top(category)[i] == t[i - 1] {
      }
    }
  }

  /** How many errors of the run have this key. */
  function Occurrences(run: seq<string>, style: Counting, key: string): nat {
    if run == [] then 0
    else
      var last := run[|run| - 1];
      Occurrences(run[..|run| - 1], style, key) +
        (if (style == Detailed && last == key) || (style == Toplevel && Top(last) == key) then 1 else 0)
  }

  /** Every category is counted as often as it occurs, in full or by its top level, and in the
      plain style nothing is counted by category. */
  lemma {:induction false} TallyCounts(style: Counting, run: seq<string>, key: string)
    ensures Get(Tally(style, run), key) == Occurrences(run, style, key)
    ensures style == Total ==> Tally(style, run) == map[]
    decreases |run|
  {
    if run != [] { TallyCounts(style, run[..|run| - 1], key); }
  }

  // ----- sums over a map of counts

  ghost function Sum(m: map<string, nat>, ks: set<string>): nat
    requires ks <= m.Keys
  {
    if ks == {} then 0 else var k :| k in ks; m[k] + Sum(m, ks - {k})
  }

  lemma {:induction false} SumTakes(m: map<string, nat>, ks: set<string>, k: string)
    requires ks <= m.Keys && k in ks
    ensures Sum(m, ks) == m[k] + Sum(m, ks - {k})
    decreases ks
  {
    var j :| j in ks && Sum(m, ks) == m[j] + Sum(m, ks - {j});
    if j != k {
      SumTakes(m, ks - {j}, k);
      SumTakes(m, ks - {k}, j);
      assert ks - {j} - {k} == ks - {k} - {j};
    }
  }

  lemma {:induction false} SumSame(m: map<string, nat>, m': map<string, nat>, ks: set<string>)
    requires ks <= m.Keys && ks <= m'.Keys && forall k :: k in ks ==> m[k] == m'[k]
    ensures Sum(m, ks) == Sum(m', ks)
    decreases ks
  {
    if ks != {} {
      var k :| k in ks;
      SumTakes(m, ks, k);
      SumTakes(m', ks, k);
      SumSame(m, m', ks - {k});
    }
  }

  /** The keys whose top level is t. */
  function Under(m: map<string, nat>, t: string): set<string> {
    set k | k in m && Top(k) == t
  }

  lemma SumBumps(m: map<string, nat>, k: string, ks: set<string>, ks': set<string>)
    requires ks <= m.Keys && ks' <= Bump(m, k).Keys
    requires ks' == ks + {k} && (k in m ==> k in ks)
    ensures Sum(Bump(m, k), ks') == Sum(m, ks) + 1
  {
    var m' := Bump(m, k);
    SumTakes(m', ks', k);
    assert ks' - {k} == ks - {k};
    SumSame(m, m', ks - {k});
    if k in ks { SumTakes(m, ks, k); } else { assert ks - {k} == ks; }
  }

  /** In a style that counts by category the counts add up to the total. */
  lemma {:induction false} CountsAddUp(counting: Counting, run: seq<string>)
    requires counting != Total
    ensures Sum(Tally(counting, run), Tally(counting, run).Keys) == |run|
    decreases |run|
  {
    if run != [] {
      var m, k := Tally(counting, run[..|run| - 1]), Key(counting, run[|run| - 1]);
      CountsAddUp(counting, run[..|run| - 1]);
      SumBumps(m, k, m.Keys, Bump(m, k).Keys);
    }
  }

  /** For one run of errors, the count of a top level is the sum of the detailed counts under it. */
  lemma {:induction false} TopLevelIsSumOfDetailed(run: seq<string>, t: string)
    ensures Get(Tally(Toplevel, run), t) == Sum(Tally(Detailed, run), Under(Tally(Detailed, run), t))
    decreases |run|
  {
    if run != [] {
      var m, k := Tally(Detailed, run[..|run| - 1]), run[|run| - 1];
      var m' := Bump(m, k);
      TopLevelIsSumOfDetailed(run[..|run| - 1], t);
      if Top(k) == t {
        assert Under(m', t) == Under(m, t) + {k};
        SumBumps(m, k, Under(m, t), Under(m', t));
      } else {
        assert Under(m', t) == Under(m, t);
        SumSame(m, m', Under(m, t));
      }
    }
  }
}
