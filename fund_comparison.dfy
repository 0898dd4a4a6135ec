/** The fund comparison dialog: the selected fund next to at most two other
    funds, picked from those not yet shown. */
module FundComparison {
  import opened Lists
  import opened FundExplorer
  import opened Common

  /** Some fund of `funds` has this name. */
  predicate HasName(funds: seq<Fund>, name: string) {
    exists i :: 0 <= i < |funds| && funds[i].name == name
  }

  /** `availableFunds`: the funds, in order, named neither like the selected
      fund nor like a compared one. */
  function AvailableFunds(all: seq<Fund>, selected: Fund, compared: seq<Fund>): seq<Fund> {
    Filter(all, (f: Fund) => f.name != selected.name && !HasName(compared, f.name))
  }

  /** `addToComparison`: append while fewer than two are compared. */
  function Added(compared: seq<Fund>, f: Fund): seq<Fund> {
    if |compared| < 2 then compared + [f] else compared
  }

  /** `removeFromComparison`: drop every compared fund of that name. */
  function Removed(compared: seq<Fund>, f: Fund): seq<Fund> {
    Filter(compared, (c: Fund) => c.name != f.name)
  }

  /** `fundsToShow`: the selected fund, then the compared ones. */
  function FundsToShow(selected: Fund, compared: seq<Fund>): seq<Fund> {
    [selected] + compared
  }

  /** What the dialog's comparison always keeps: at most two funds, of
      distinct names. */
  predicate Kept(compared: seq<Fund>) {
    |compared| <= 2 &&
    forall i, j :: 0 <= i < j < |compared| ==> compared[i].name != compared[j].name
  }

  /** What it keeps while one fund stays selected: in addition, no compared
      fund is named like the selected one. Reopening the dialog on another
      fund can break this. */
  predicate WellFormed(selected: Fund, compared: seq<Fund>) {
    Kept(compared) &&
    forall i :: 0 <= i < |compared| ==> compared[i].name != selected.name
  }

  datatype Availability = Open | Closed

  /** The purchase and redemption badges: open only for the flag "1". */
  function Status(flag: string): Availability {
    if flag == "1" then Open else Closed
  }

  // ---------------------------------------------------------------------
  // Properties

  /** The funds on offer are exactly those of the list that are neither the
      selected fund by name nor compared already, in list order. */
  lemma AvailableExactly(all: seq<Fund>, selected: Fund, compared: seq<Fund>)
    ensures forall f :: f in AvailableFunds(all, selected, compared) <==>
      f in all && f.name != selected.name && !HasName(compared, f.name)
    ensures IsSubsequence(AvailableFunds(all, selected, compared), all)
  {
    FilterIsSubsequence(all, (f: Fund) => f.name != selected.name && !HasName(compared, f.name));
  }

  /** Adding a fund on offer keeps what the comparison keeps, and keeps it
      well formed if it was; a third fund is never added. */
  lemma AddKeepsWellFormed(all: seq<Fund>, selected: Fund, compared: seq<Fund>, f: Fund)
    requires Kept(compared)
    requires f in AvailableFunds(all, selected, compared)
    ensures Kept(Added(compared, f))
    ensures WellFormed(selected, compared) ==> WellFormed(selected, Added(compared, f))
    ensures |compared| >= 2 ==> Added(compared, f) == compared
    ensures |compared| < 2 ==> Added(compared, f) == compared + [f]
  {
    AvailableExactly(all, selected, compared);
    if |compared| < 2 {
      var r := compared + [f];
      forall i | 0 <= i < |compared| ensures r[i].name != f.name {
        assert !HasName(compared, f.name);
      }
    }
  }

  /** Removing keeps what the comparison keeps (and keeps it well formed if
      it was), drops exactly the funds of that name and keeps the others in
      order. */
  lemma RemoveKeepsWellFormed(selected: Fund, compared: seq<Fund>, f: Fund)
    requires Kept(compared)
    ensures Kept(Removed(compared, f))
    ensures WellFormed(selected, compared) ==> WellFormed(selected, Removed(compared, f))
    ensures forall c :: c in Removed(compared, f) <==> c in compared && c.name != f.name
    ensures IsSubsequence(Removed(compared, f), compared)
  {
    var keep := (c: Fund) => c.name != f.name;
    FilterIsSubsequence(compared, keep);
    DistinctNamesSurvive(Removed(compared, f), compared);
  }

  lemma {:induction false} DistinctNamesSurvive(r: seq<Fund>, s: seq<Fund>)
    requires IsSubsequence(r, s)
    requires forall i, j :: 0 <= i < j < |s| ==> s[i].name != s[j].name
    ensures forall i, j :: 0 <= i < j < |r| ==> r[i].name != r[j].name
    decreases |s|
  {
    if r != [] {
      if r[0] == s[0] && IsSubsequence(r[1..], s[1..]) {
        DistinctNamesSurvive(r[1..], s[1..]);
        SubsequenceIn(r[1..], s[1..]);
        forall j | 0 < j < |r| ensures r[0].name != r[j].name {
          assert r[j] == r[1..][j - 1];
          assert r[j] in s[1..];
          var k :| 0 <= k < |s[1..]| && s[1..][k] == r[j];
          assert s[k + 1] == r[j];
        }
      } else {
        DistinctNamesSurvive(r, s[1..]);
      }
    }
  }

  /** Adding a fund on offer and removing it again restores the comparison. */
  lemma RemoveUndoesAdd(all: seq<Fund>, selected: Fund, compared: seq<Fund>, f: Fund)
    requires |compared| < 2
    requires f in AvailableFunds(all, selected, compared)
    ensures Removed(Added(compared, f), f) == compared
  {
    AvailableExactly(all, selected, compared);
    var keep := (c: Fund) => c.name != f.name;
    assert forall i :: 0 <= i < |compared| ==> keep(compared[i]) by {
      assert !HasName(compared, f.name);
    }
    FilterAppend(compared, [f], keep);
    FilterKeepsAll(compared, keep);
    assert Filter([f], keep) == [];
  }

  /** One to three columns, the selected fund always first. */
  lemma ColumnsStartWithSelected(selected: Fund, compared: seq<Fund>)
    requires Kept(compared)
    ensures 1 <= |FundsToShow(selected, compared)| <= 3
    ensures FundsToShow(selected, compared)[0] == selected
    ensures FundsToShow(selected, compared)[1..] == compared
  {
  }

  /** A flag reads open only when it is exactly "1": "0", "true" or " 1"
      read closed. */
  lemma OnlyOneIsOpen(flag: string)
    ensures Status(flag) == Open <==> flag == "1"
    ensures Status("0") == Closed && Status("true") == Closed && Status(" 1") == Closed
  {
  }

  /** Comparing X with Y and Z, closing, then comparing Y: the comparison
      survives the close, so the dialog shows Y twice, its panel hidden. */
  lemma ReopenShowsFundTwice(all: seq<Fund>, x: Fund, y: Fund, z: Fund)
    requires y in all && z in all
    requires x.name != y.name && x.name != z.name && y.name != z.name
    ensures y in AvailableFunds(all, x, [])
    ensures z in AvailableFunds(all, x, Added([], y))
    ensures Added(Added([], y), z) == [y, z]
    ensures WellFormed(x, [y, z]) && !WellFormed(y, [y, z])
    ensures FundsToShow(y, Added(Added([], y), z)) == [y, y, z]
  {
    assert !HasName([], y.name);
    Offered(all, x, [], y);
    assert Added([], y) == [y];
    assert !HasName([y], z.name);
    Offered(all, x, [y], z);
    assert Added([y], z) == [y, z];
    assert [y, z][0].name == y.name;
  }

  /** A listed fund named neither like the selected one nor like a compared
      one is on offer. */
  lemma Offered(all: seq<Fund>, selected: Fund, compared: seq<Fund>, f: Fund)
    requires f in all && f.name != selected.name && !HasName(compared, f.name)
    ensures f in AvailableFunds(all, selected, compared)
  {
    AvailableExactly(all, selected, compared);
  }

  /** The comparison dialog as the fund page mounts it: once, so its
      comparison outlives every close and reopen. No fund is selected while
      it is closed, and then it shows nothing. */
  class ComparisonDialog {
    const allFunds: seq<Fund>
    var selectedFund: Option<Fund>
    var compareWith: seq<Fund>

    ghost predicate Valid()
      reads this
    {
      Kept(compareWith)
    }

    constructor (allFunds: seq<Fund>)
      ensures Valid()
      ensures this.allFunds == allFunds && selectedFund == None && compareWith == []
    {
      this.allFunds := allFunds;
      selectedFund := None;
      compareWith := [];
    }

    /** A fund card's compare button: the dialog opens on that fund, with
      the comparison left from any earlier opening. */
    method Open(f: Fund)
      modifies this
      ensures selectedFund == Some(f) && compareWith == old(compareWith)
    {
      selectedFund := Some(f);
    }

    /** Closing: the selection is cleared, the comparison is not. */
    method Close()
      modifies this
      ensures selectedFund == None && compareWith == old(compareWith)
    {
      selectedFund := None;
    }

    function Available(): seq<Fund>
      requires selectedFund.Some?
      reads this
    {
      AvailableFunds(allFunds, selectedFund.value, compareWith)
    }

    function Columns(): seq<Fund>
      requires selectedFund.Some?
      reads this
    {
      FundsToShow(selectedFund.value, compareWith)
    }

    /** The selection panel is shown while fewer than two funds are
      compared. */
    predicate PanelShown()
      reads this
    {
      |compareWith| < 2
    }

    /** A click on the `index`-th fund of the selection panel. */
    method PickAvailable(index: int)
      requires Valid() && selectedFund.Some? && PanelShown() && 0 <= index < |Available()|
      modifies this
      ensures Valid() && selectedFund == old(selectedFund)
      ensures compareWith == old(compareWith) + [old(Available())[index]]
      ensures WellFormed(selectedFund.value, old(compareWith)) ==> WellFormed(selectedFund.value, compareWith)
    {
      var f := Available()[index];
      AddKeepsWellFormed(allFunds, selectedFund.value, compareWith, f);
      compareWith := Added(compareWith, f);
    }

    /** `addToComparison` for a fund on offer, whether or not the panel is
      shown. */
    method AddToComparison(f: Fund)
      requires Valid() && selectedFund.Some? && f in Available()
      modifies this
      ensures Valid() && selectedFund == old(selectedFund)
      ensures compareWith == Added(old(compareWith), f)
      ensures WellFormed(selectedFund.value, old(compareWith)) ==> WellFormed(selectedFund.value, compareWith)
    {
      AddKeepsWellFormed(allFunds, selectedFund.value, compareWith, f);
      compareWith := Added(compareWith, f);
    }

    /** The remove button of column `index`; the first column has none. */
    method RemoveColumn(index: int)
      requires Valid() && selectedFund.Some? && 1 <= index < |Columns()|
      modifies this
      ensures Valid() && selectedFund == old(selectedFund)
      ensures compareWith == Removed(old(compareWith), old(Columns())[index])
      ensures |compareWith| == |old(compareWith)| - 1
      ensures Columns()[0] == selectedFund.value
    {
      var f := Columns()[index];
      assert f == compareWith[index - 1];
      RemoveKeepsWellFormed(selectedFund.value, compareWith, f);
      RemovedOne(compareWith, index - 1);
      compareWith := Removed(compareWith, f);
    }
  }

  /** With distinct names, removing by the name of one compared fund drops
      that fund alone. */
  lemma RemovedOne(compared: seq<Fund>, k: int)
    requires 0 <= k < |compared| && |compared| <= 2
    requires forall i, j :: 0 <= i < j < |compared| ==> compared[i].name != compared[j].name
    ensures |Removed(compared, compared[k])| == |compared| - 1
  {
    var f := compared[k];
    if |compared| == 2 {
      assert compared == [compared[0]] + [compared[1]];
      FilterAppend([compared[0]], [compared[1]], (c: Fund) => c.name != f.name);
    }
  }
}
