/** The icon picker: the options shown for a search query, and selecting
    one. The option list is the icon library's table of names, given as a
    parameter. */
module IconPicker {
  import opened Seqs
  import opened Strings

  /** How many options are shown: 100 without a query, 200 with one. */
  function Limit(query: string): (n: nat)
    ensures query == "" ==> n == 100
    ensures query != "" ==> n == 200
  {
    if query != "" then 200 else 100
  }

  /** Whether an option's name contains the query, ignoring case. */
  predicate MatchesQuery(name: string, query: string) { Contains(ToLower(name), ToLower(query)) }

  /** The options whose lower-cased name contains `lower`. */
  function Matching(options: seq<string>, lower: string): (r: seq<string>)
    ensures forall k :: 0 <= k < |r| ==> r[k] in options && Contains(ToLower(r[k]), lower)
    ensures forall k :: 0 <= k < |options| && Contains(ToLower(options[k]), lower) ==> options[k] in r
    ensures IsSubsequence(r, options)
  {
    var p := (name: string) => Contains(ToLower(name), lower);
    FilterIsSubsequence(p, options);
    Filter(p, options)
  }

  /** `filteredOptions`: without a query the first options; with one, the
      options matching it, in order; at most `Limit(query)` either way. */
  function FilteredOptions(options: seq<string>, query: string): (r: seq<string>)
    ensures |r| <= Limit(query)
    ensures query == "" ==> r == Take(options, 100)
    ensures query != "" ==> forall k :: 0 <= k < |r| ==> r[k] in options && MatchesQuery(r[k], query)
    ensures query != "" ==> r == Take(Matching(options, ToLower(query)), 200)
  {
    if query == "" then Take(options, Limit(query))
    else
      var matching := Matching(options, ToLower(query));
      var r := Take(matching, Limit(query));
      assert forall k :: 0 <= k < |r| ==> r[k] == matching[k];
      r
  }

  /** What is shown always keeps the library's order and never repeats an
      option more often than the library lists it. */
  lemma ShownIsSubsequence(options: seq<string>, query: string)
    ensures IsSubsequence(FilteredOptions(options, query), options)
  {
    if query == "" {
      PrefixIsSubsequence(Take(options, 100), options);
    } else {
      var matching := Matching(options, ToLower(query));
      PrefixIsSubsequence(Take(matching, 200), matching);
      SubsequenceTrans(Take(matching, 200), matching, options);
    }
  }

  /** When fewer than 200 options are shown for a query, none that matches
      was cut off. */
  lemma ShortResultIsComplete(options: seq<string>, query: string, k: nat)
    requires query != "" && |FilteredOptions(options, query)| < 200
    requires k < |options| && MatchesQuery(options[k], query)
    ensures options[k] in FilteredOptions(options, query)
  {
    var matching := Matching(options, ToLower(query));
    assert Take(matching, 200) == matching;
  }

  /** The search is case-insensitive: the query's case does not matter. */
  lemma QueryCaseIgnored(options: seq<string>, a: string, b: string)
    requires a != "" && b != "" && ToLower(a) == ToLower(b)
    ensures FilteredOptions(options, a) == FilteredOptions(options, b)
  {
  }

  // ---------------------------------------------------------------------------
  // Selection

  /** The picker's own state: whether the popover is open, and the query. */
  datatype Picker = Picker(open: bool, query: string)

  /** `handleSelect`: the chosen name is reported to the owner and the
      picker closes; the query stays as it was. */
  function HandleSelect(p: Picker, iconName: string): (r: (Picker, string))
    ensures r.1 == iconName
    ensures !r.0.open && r.0.query == p.query
  {
    (p.(open := false), iconName)
  }
}
