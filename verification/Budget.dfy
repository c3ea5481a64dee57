/** `budget_results`: search results cut down to a budget of characters. */
module Budget {
  datatype SearchResult = SearchResult(slug: string, summary: string)

  const USIZE_MAX: nat := 0xFFFF_FFFF_FFFF_FFFF

  /** `saturating_mul(4)`. */
  function BudgetChars(tokenBudget: nat): nat { if tokenBudget * 4 > USIZE_MAX then USIZE_MAX else tokenBudget * 4 }

  function PrefixChars(r: SearchResult): nat { |r.slug| + 2 }

  /** The characters of one rendered line. */
  function LineChars(r: SearchResult): nat { PrefixChars(r) + |r.summary| }

  lemma LineIsRendered(r: SearchResult)
    ensures LineChars(r) == |r.slug + ": " + r.summary| && PrefixChars(r) == |r.slug + ": "|
  {
  }

  function TotalChars(results: seq<SearchResult>): nat {
    if results == [] then 0 else LineChars(results[0]) + TotalChars(results[1..])
  }

  /** Whole entries while they fit, then a last one with its summary cut, if more than its prefix fits. */
  function Budgeted(results: seq<SearchResult>, chars: nat): seq<SearchResult> {
    if results == [] then []
    else
      var r := results[0];
      if LineChars(r) <= chars then [r] + Budgeted(results[1..], chars - LineChars(r))
      else if chars <= PrefixChars(r) then []
      else [r.(summary := r.summary[..chars - PrefixChars(r)])]
  }

  function FirstOf(results: seq<SearchResult>, limit: nat): seq<SearchResult> {
    if limit < |results| then results[..limit] else results
  }

  /**
   The entries are the first ones, whole but perhaps for the last, which keeps its slug and the start
   of its summary.
  */
  ghost predicate Prefix(results: seq<SearchResult>, r: seq<SearchResult>) {
    && |r| <= |results| && (forall k :: 0 <= k < |r| - 1 ==> r[k] == results[k])
    && (r != [] ==> var n := |r| - 1; r[n].slug == results[n].slug && r[n].summary <= results[n].summary)
  }

  /** A cut last entry uses up the budget; without one, the next entry has no room beyond its prefix. */
  ghost predicate Maximal(results: seq<SearchResult>, r: seq<SearchResult>, chars: nat) {
    && |r| <= |results|
    && (r != [] && r[|r| - 1] != results[|r| - 1] ==> TotalChars(r) == chars)
    && ((r == [] || r[|r| - 1] == results[|r| - 1]) && |r| < |results| ==>
          TotalChars(r) + LineChars(results[|r|]) > chars && TotalChars(r) + PrefixChars(results[|r|]) >= chars)
  }

  lemma {:induction false} BudgetHolds(results: seq<SearchResult>, chars: nat)
    ensures var r := Budgeted(results, chars);
            Prefix(results, r) && TotalChars(r) <= chars && Maximal(results, r, chars)
  {
    if results != [] {
      var r := results[0];
      if LineChars(r) <= chars {
        var rest := Budgeted(results[1..], chars - LineChars(r));
        BudgetHolds(results[1..], chars - LineChars(r));
        assert ([r] + rest)[1..] == rest;
      }
    }
  }

  lemma ResultsHold(results: seq<SearchResult>, limit: nat, tokenBudget: nat)
    ensures var first := results[..if limit < |results| then limit else |results|];
            var chars := if 4 * tokenBudget < 0x1_0000_0000_0000_0000 then 4 * tokenBudget else 0xFFFF_FFFF_FFFF_FFFF;
            var r := Budgeted(FirstOf(results, limit), BudgetChars(tokenBudget));
            Prefix(first, r) && TotalChars(r) <= chars && Maximal(first, r, chars)
  {
    hide Prefix, Maximal, TotalChars, Budgeted;
    BudgetHolds(FirstOf(results, limit), BudgetChars(tokenBudget));
    assert results[..|results|] == results;
  }

  /**
   The loop. Of the first `limit` results it returns as much as four characters for each token hold, up
   to the width of the counter.
  */
  method BudgetResults(results: seq<SearchResult>, limit: nat, tokenBudget: nat) returns (budgeted: seq<SearchResult>)
    ensures budgeted == Budgeted(FirstOf(results, limit), BudgetChars(tokenBudget))
    ensures var first := results[..if limit < |results| then limit else |results|];
            var chars := if 4 * tokenBudget < 0x1_0000_0000_0000_0000 then 4 * tokenBudget else 0xFFFF_FFFF_FFFF_FFFF;
            Prefix(first, budgeted) && TotalChars(budgeted) <= chars && Maximal(first, budgeted, chars)
  {
    hide Prefix, Maximal, TotalChars, FirstOf, BudgetChars;
    ResultsHold(results, limit, tokenBudget);
    var remainingChars: nat := BudgetChars(tokenBudget);
    budgeted := [];
    var todo := FirstOf(results, limit);
    while todo != []
      invariant budgeted + Budgeted(todo, remainingChars) == Budgeted(FirstOf(results, limit), BudgetChars(tokenBudget))
      decreases |todo|
    {
      var result := todo[0];
      var prefixChars := |result.slug| + 2;
      var fullLineChars := prefixChars + |result.summary|;
      if fullLineChars <= remainingChars {
        remainingChars := remainingChars - fullLineChars;
        budgeted := budgeted + [result];
        todo := todo[1..];
      } else if remainingChars <= prefixChars {
        return;
      } else {
        var summaryBudget := remainingChars - prefixChars;
        budgeted := budgeted + [result.(summary := result.summary[..summaryBudget])];
        return;
      }
    }
  }

  /** With a budget that does not saturate, the rendered characters stay within four per token. */
  lemma WithinTokenBudget(results: seq<SearchResult>, limit: nat, tokenBudget: nat)
    ensures TotalChars(Budgeted(FirstOf(results, limit), BudgetChars(tokenBudget))) <= 4 * tokenBudget
    ensures |Budgeted(FirstOf(results, limit), BudgetChars(tokenBudget))| <= limit
  {
    BudgetHolds(FirstOf(results, limit), BudgetChars(tokenBudget));
  }

  /** A single entry with its summary cut is the budgeted list. */
  lemma CutIsDetermined(results: seq<SearchResult>, chars: nat, r: seq<SearchResult>)
    requires |r| == 1 && results != [] && Prefix(results, r) && Maximal(results, r, chars)
    requires r[0] != results[0] && r[0].summary != []
    ensures r == Budgeted(results, chars)
  {
    var whole, cut := results[0].summary, r[0].summary;
    assert r[1..] == [] && TotalChars(r) == LineChars(r[0]);
    assert |cut| == |whole| ==> cut == whole;
    assert cut == whole[..|cut|] && r == [results[0].(summary := cut)];
  }

  lemma TotalOfRest(r: seq<SearchResult>)
    requires r != []
    ensures TotalChars(r) == LineChars(r[0]) + TotalChars(r[1..])
  {
  }

  lemma RestIsMaximal(results: seq<SearchResult>, chars: nat, r: seq<SearchResult>)
    requires r != [] && TotalChars(r) <= chars && Maximal(results, r, chars) && LineChars(r[0]) <= chars
    requires results != [] && r[0] == results[0]
    ensures Maximal(results[1..], r[1..], chars - LineChars(r[0]))
  {
    hide LineChars, PrefixChars, TotalChars;
    TotalOfRest(r);
    var n := |r| - 1;
    if n > 0 { assert r[1..][n - 1] == r[n] && results[1..][n - 1] == results[n]; }
    if |r| < |results| { assert results[1..][n] == results[n + 1]; }
  }

  /** What follows a whole first entry meets the conditions for the budget that is left. */
  lemma RestOfBudget(results: seq<SearchResult>, chars: nat, r: seq<SearchResult>)
    requires r != [] && Prefix(results, r) && TotalChars(r) <= chars && Maximal(results, r, chars)
    requires results != [] && r[0] == results[0]
    ensures LineChars(r[0]) <= chars
    ensures var left := chars - LineChars(r[0]);
            Prefix(results[1..], r[1..]) && TotalChars(r[1..]) <= left && Maximal(results[1..], r[1..], left)
  {
    hide LineChars, PrefixChars, TotalChars, Maximal;
    TotalOfRest(r);
    RestIsMaximal(results, chars, r);
  }

  /** Order, budget and maximality leave one answer only. */
  lemma {:induction false} BudgetIsDetermined(results: seq<SearchResult>, chars: nat, r: seq<SearchResult>)
    requires Prefix(results, r) && TotalChars(r) <= chars && Maximal(results, r, chars)
    requires r != [] && r[|r| - 1] != results[|r| - 1] ==> r[|r| - 1].summary != []
    ensures r == Budgeted(results, chars)
  {
    if results != [] {
      if r == [] {
      } else if |r| == 1 && r[0] != results[0] {
        CutIsDetermined(results, chars, r);
      } else {
        assert r[0] == results[0];
        RestOfBudget(results, chars, r);
        BudgetIsDetermined(results[1..], chars - LineChars(r[0]), r[1..]);
        assert r == [r[0]] + r[1..];
      }
    }
  }
}
