// The history screen's search: the saved contacts whose name or company
// contains the search text, both sides lower-cased, in history order.

module HistorySearch {

  import opened Seqs
  import opened Types
  import opened Text

  /** The search test for one contact, on the already lower-cased search text. */
  predicate Matches(c: ContactData, needle: string)
  {
    Contains(Lower(c.fullName), needle) || Contains(Lower(c.company), needle)
  }

  function MatchesSearch(search: string): ContactData -> bool
  {
    (c: ContactData) => Matches(c, Lower(search))
  }

  /**
   * The contacts shown for a search text: exactly the history entries whose
   * lower-cased name or company contains the lower-cased text.
   */
  function FilterHistory(history: seq<ContactData>, search: string): (shown: seq<ContactData>)
    ensures |shown| <= |history|
    ensures forall c :: c in shown <==> c in history && Matches(c, Lower(search))
    ensures forall c :: multiset(shown)[c] == if Matches(c, Lower(search)) then multiset(history)[c] else 0
  {
    FilterCounts(history, MatchesSearch(search));
    Filter(history, MatchesSearch(search))
  }

  /** The result keeps the history's order: it is the history with entries dropped. */
  lemma HistorySearchKeepsOrder(history: seq<ContactData>, search: string)
    ensures Sublist(FilterHistory(history, search), history)
  {
    FilterIsSublist(history, MatchesSearch(search));
  }

  /** An empty search shows the whole history. */
  lemma EmptySearchShowsAll(history: seq<ContactData>)
    ensures FilterHistory(history, "") == history
  {
    forall i | 0 <= i < |history| ensures MatchesSearch("")(history[i]) {
      ContainsEmpty(Lower(history[i].fullName));
    }
    FilterAllKept(history, MatchesSearch(""));
  }

  /** The search ignores the case of the search text. */
  lemma SearchIgnoresCase(history: seq<ContactData>, search: string)
    ensures FilterHistory(history, Lower(search)) == FilterHistory(history, search)
  {
    LowerIdempotent(search);
    FilterSameTest(history, MatchesSearch(Lower(search)), MatchesSearch(search));
  }

  /** Searching a history made of two runs searches each run. */
  lemma SearchSplitsOverRuns(a: seq<ContactData>, b: seq<ContactData>, search: string)
    ensures FilterHistory(a + b, search) == FilterHistory(a, search) + FilterHistory(b, search)
  {
    FilterAppend(a, b, MatchesSearch(search));
  }
}
