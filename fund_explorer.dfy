/** The mutual-fund explorer page: a fund list narrowed by a search text, a
    category tab and toggled risk and duration selections. */
module FundExplorer {
  import opened Common
  import opened JsString
  import opened Lists

  /** A fund, reduced to the fields the explorer and the comparison read;
      the two flags are the strings "1" or "0" of the fund master. */
  datatype Fund = Fund(
    name: string, amc: string, tradingsymbol: string, kind: string, risk: string, duration: string,
    purchaseAllowed: string, redemptionAllowed: string, expectedReturn: real)

  /** The category tab that applies no filter. */
  const AllFunds := "All Funds"

  /** `prev.includes(x) ? prev.filter(y => y !== x) : [...prev, x]`. */
  function Toggle<T(==)>(selected: seq<T>, x: T): seq<T> {
    if x in selected then Filter(selected, (y: T) => y != x) else selected + [x]
  }

  predicate NoDuplicates<T(==)>(s: seq<T>) {
    forall i, j :: 0 <= i < j < |s| ==> s[i] != s[j]
  }

  /** The search text occurs, case-insensitively, in the name or the type. */
  predicate MatchesSearch(f: Fund, search: string) {
    Includes(ToLower(f.name), ToLower(search)) || Includes(ToLower(f.kind), ToLower(search))
  }

  /** A fund is listed when it passes all four filters. */
  predicate Listed(f: Fund, search: string, risks: seq<string>, durations: seq<string>, category: string) {
    MatchesSearch(f, search) &&
    (|risks| == 0 || f.risk in risks) &&
    (|durations| == 0 || f.duration in durations) &&
    (category == AllFunds || Includes(ToLower(f.kind), ToLower(category)))
  }

  /** `filteredFunds`. */
  function FilteredFunds(funds: seq<Fund>, search: string, risks: seq<string>, durations: seq<string>, category: string): seq<Fund> {
    Filter(funds, (f: Fund) => Listed(f, search, risks, durations, category))
  }

  // ---------------------------------------------------------------------
  // Properties

  /** Toggling removes a selected value and adds a missing one, leaves every
      other value as it was, and never creates a duplicate. */
  lemma ToggleFlipsMembership<T>(selected: seq<T>, x: T)
    ensures (x in Toggle(selected, x)) <==> x !in selected
    ensures forall y :: y != x ==> (y in Toggle(selected, x) <==> y in selected)
    ensures NoDuplicates(selected) ==> NoDuplicates(Toggle(selected, x))
  {
    if x in selected && NoDuplicates(selected) {
      var r := Filter(selected, (y: T) => y != x);
      FilterIsSubsequence(selected, (y: T) => y != x);
      SubsequenceNoDuplicates(r, selected);
    }
  }

  lemma {:induction false} SubsequenceNoDuplicates<T>(r: seq<T>, s: seq<T>)
    requires IsSubsequence(r, s) && NoDuplicates(s)
    ensures NoDuplicates(r)
    decreases |s|
  {
    if r != [] {
      if r[0] == s[0] && IsSubsequence(r[1..], s[1..]) {
        SubsequenceNoDuplicates(r[1..], s[1..]);
        SubsequenceIn(r[1..], s[1..]);
        forall j | 0 < j < |r| ensures r[0] != r[j] {
          assert r[j] == r[1..][j - 1];
          assert r[j] in s[1..];
          var k :| 0 <= k < |s[1..]| && s[1..][k] == r[j];
          assert s[k + 1] == r[j];
        }
      } else {
        SubsequenceNoDuplicates(r, s[1..]);
      }
    }
  }

  lemma {:induction false} SubsequenceIn<T>(r: seq<T>, s: seq<T>)
    requires IsSubsequence(r, s)
    ensures forall y :: y in r ==> y in s
    decreases |s|
  {
    if r != [] {
      if r[0] == s[0] && IsSubsequence(r[1..], s[1..]) {
        SubsequenceIn(r[1..], s[1..]);
        assert forall y :: y in r ==> y == r[0] || y in r[1..];
      } else {
        SubsequenceIn(r, s[1..]);
      }
    }
  }

  /** Toggling the same value twice restores the selection as a set, and
      restores the very list when the value was not selected. */
  lemma ToggleTwice<T>(selected: seq<T>, x: T)
    ensures forall y :: y in Toggle(Toggle(selected, x), x) <==> y in selected
    ensures x !in selected ==> Toggle(Toggle(selected, x), x) == selected
  {
    ToggleFlipsMembership(selected, x);
    ToggleFlipsMembership(Toggle(selected, x), x);
    if x !in selected {
      var keep := (y: T) => y != x;
      FilterAppend(selected, [x], keep);
      FilterKeepsAll(selected, keep);
      assert Filter([x], keep) == [];
    }
  }

  /** The list is exactly the funds that pass every filter, in their order. */
  lemma FilteredExactly(funds: seq<Fund>, search: string, risks: seq<string>, durations: seq<string>, category: string)
    ensures forall f :: f in FilteredFunds(funds, search, risks, durations, category) <==>
      f in funds && Listed(f, search, risks, durations, category)
    ensures IsSubsequence(FilteredFunds(funds, search, risks, durations, category), funds)
  {
    FilterIsSubsequence(funds, (f: Fund) => Listed(f, search, risks, durations, category));
  }

  /** With no search, no selection and the "All Funds" tab every fund is
      listed. */
  lemma NoFilterListsAll(funds: seq<Fund>)
    ensures FilteredFunds(funds, "", [], [], AllFunds) == funds
  {
    forall i | 0 <= i < |funds| ensures Listed(funds[i], "", [], [], AllFunds) {
      IncludesTrivial(ToLower(funds[i].name));
    }
    FilterKeepsAll(funds, (f: Fund) => Listed(f, "", [], [], AllFunds));
  }

  /** Once a risk is selected, selecting one more never hides a fund. */
  lemma MoreRisksNeverHide(funds: seq<Fund>, search: string, risks: seq<string>, durations: seq<string>,
                           category: string, extra: string)
    requires |risks| > 0 && extra !in risks
    ensures forall f :: f in FilteredFunds(funds, search, risks, durations, category) ==>
      f in FilteredFunds(funds, search, Toggle(risks, extra), durations, category)
  {
    FilteredExactly(funds, search, risks, durations, category);
    FilteredExactly(funds, search, Toggle(risks, extra), durations, category);
  }

  /** The first risk selected does narrow the list: a fund of another risk
      drops out. */
  lemma FirstRiskNarrows(f: Fund, r: string)
    requires f.risk != r && Listed(f, "", [], [], AllFunds)
    ensures !Listed(f, "", Toggle([], r), [], AllFunds)
  {
  }

  /** The page's filter state. */
  class ExplorerPage {
    var selectedCategory: string
    var selectedRisk: seq<string>
    var selectedDuration: seq<string>
    var searchQuery: string

    /** Neither selection holds a value twice. */
    ghost predicate Valid()
      reads this
    {
      NoDuplicates(selectedRisk) && NoDuplicates(selectedDuration)
    }

    constructor ()
      ensures Valid()
      ensures selectedCategory == AllFunds && selectedRisk == [] && selectedDuration == [] && searchQuery == ""
    {
      selectedCategory := AllFunds;
      selectedRisk, selectedDuration := [], [];
      searchQuery := "";
    }

    /** The funds on screen. */
    function Shown(funds: seq<Fund>): seq<Fund>
      reads this
    {
      FilteredFunds(funds, searchQuery, selectedRisk, selectedDuration, selectedCategory)
    }

    /** `toggleRisk`. */
    method ToggleRisk(risk: string)
      requires Valid()
      modifies this
      ensures Valid()
      ensures selectedRisk == Toggle(old(selectedRisk), risk)
      ensures selectedDuration == old(selectedDuration) && selectedCategory == old(selectedCategory)
      ensures searchQuery == old(searchQuery)
    {
      ToggleFlipsMembership(selectedRisk, risk);
      selectedRisk := Toggle(selectedRisk, risk);
    }

    /** `toggleDuration`. */
    method ToggleDuration(duration: string)
      requires Valid()
      modifies this
      ensures Valid()
      ensures selectedDuration == Toggle(old(selectedDuration), duration)
      ensures selectedRisk == old(selectedRisk) && selectedCategory == old(selectedCategory)
      ensures searchQuery == old(searchQuery)
    {
      ToggleFlipsMembership(selectedDuration, duration);
      selectedDuration := Toggle(selectedDuration, duration);
    }

    /** Typing in the search box. */
    method SetSearch(text: string)
      modifies this
      ensures searchQuery == text
      ensures selectedRisk == old(selectedRisk) && selectedDuration == old(selectedDuration)
      ensures selectedCategory == old(selectedCategory)
    {
      searchQuery := text;
    }

    /** A category tab. */
    method SelectCategory(name: string)
      modifies this
      ensures selectedCategory == name
      ensures selectedRisk == old(selectedRisk) && selectedDuration == old(selectedDuration)
      ensures searchQuery == old(searchQuery)
    {
      selectedCategory := name;
    }
  }
}
