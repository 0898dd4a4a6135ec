/** The split-bill editor (`SplitBillsModal`): a participant list that starts
    with "You", an equal or custom split of the bill's total, and a submit
    step that checks the shares against the total within 0.01. */
module SplitBills {
  import opened Common
  import opened JsNumber
  import opened JsString
  import opened Lists

  datatype Participant = Participant(id: string, name: string, amount: real, settled: bool)

  /** One participant's line in an emitted bill. */
  datatype Share = Share(name: string, amount: real, settled: bool)

  /** The record handed to `onAddSplitBill`; the total is `parseFloat` of the
      text the user typed, so it may be NaN. */
  datatype Bill = Bill(description: string, totalAmount: Num, participants: seq<Share>, date: string)

  datatype SplitMethod = Equal | Custom

  /** The largest gap between the shares and the total that submit accepts. */
  const Tolerance: real := 0.01

  /** The list the form opens with and returns to after a submit. */
  function InitialParticipants(): (ps: seq<Participant>)
    ensures |ps| == 1 && ps[0].name == "You" && ps[0].amount == 0.0 && ps[0].settled
  {
    [Participant("1", "You", 0.0, true)]
  }

  /** The sum of the participants' amounts. */
  function SplitTotal(ps: seq<Participant>): real {
    Sum(ps, (p: Participant) => p.amount)
  }

  /** `parseFloat(totalAmount) || 0`. */
  function EnteredTotal(text: string): (t: real)
    ensures ParseFloat(text).Finite? ==> t == ParseFloat(text).v
    ensures ParseFloat(text).NaN? ==> t == 0.0
  {
    var n := OrZero(ParseFloat(text));
    if n.Finite? then n.v else 0.0
  }

  /** `calculateSplit`, with the participant count it divides by passed in:
      in equal mode every participant gets the total over `count`;
      in custom mode, or with a zero count, nothing changes. */
  function CalculateSplit(ps: seq<Participant>, total: real, how: SplitMethod, count: nat): seq<Participant> {
    if how == Equal && count > 0 then SplitEvenly(ps, total / count as real) else ps
  }

  /** Every participant's amount set to `share`. */
  function SplitEvenly(ps: seq<Participant>, share: real): seq<Participant> {
    MapWhere(ps, (p: Participant) => true, (p: Participant) => p.(amount := share))
  }

  /** The participant `addParticipant` appends. */
  function Newcomer(name: string, id: string): Participant {
    Participant(id, Trim(name), 0.0, false)
  }

  /** `addParticipant` AS WRITTEN: the split runs after the append but divides
      by the count read before it. */
  function AddParticipantAsWritten(ps: seq<Participant>, name: string, id: string, total: real, how: SplitMethod): seq<Participant> {
    if IsBlank(name) then ps else CalculateSplit(ps + [Newcomer(name, id)], total, how, |ps|)
  }

  /** The participants `removeParticipant` keeps: those without the id, in
      order. */
  function Remaining(ps: seq<Participant>, id: string): (r: seq<Participant>)
    ensures forall p :: p in r <==> p in ps && p.id != id
    ensures IsSubsequence(r, ps)
  {
    FilterIsSubsequence(ps, (p: Participant) => p.id != id);
    Filter(ps, (p: Participant) => p.id != id)
  }

  /** `removeParticipant` AS WRITTEN: the split divides by the count read
      before the removal. */
  function RemoveParticipantAsWritten(ps: seq<Participant>, id: string, total: real, how: SplitMethod): seq<Participant> {
    if |ps| > 1 then CalculateSplit(Remaining(ps, id), total, how, |ps|) else ps
  }

  /** `addParticipant` as intended: the split divides by the new count. */
  function AddParticipant(ps: seq<Participant>, name: string, id: string, total: real, how: SplitMethod): seq<Participant> {
    if IsBlank(name) then ps else CalculateSplit(ps + [Newcomer(name, id)], total, how, |ps| + 1)
  }

  /** `removeParticipant` as intended: the split divides by the count left. */
  function RemoveParticipant(ps: seq<Participant>, id: string, total: real, how: SplitMethod): seq<Participant> {
    if |ps| > 1 then
      var rest := Remaining(ps, id);
      CalculateSplit(rest, total, how, |rest|)
    else ps
  }

  /** `updateParticipantAmount`. */
  function UpdateAmount(ps: seq<Participant>, id: string, amount: real): seq<Participant> {
    MapWhere(ps, (p: Participant) => p.id == id, (p: Participant) => p.(amount := amount))
  }

  /** The shares an emitted bill carries: names, amounts and settled flags,
      in order. */
  function Shares(ps: seq<Participant>): (r: seq<Share>)
    ensures |r| == |ps|
    ensures forall i :: 0 <= i < |ps| ==>
      r[i].name == ps[i].name && r[i].amount == ps[i].amount && r[i].settled == ps[i].settled
  {
    if ps == [] then [] else [Share(ps[0].name, ps[0].amount, ps[0].settled)] + Shares(ps[1..])
  }

  /** The first check of `handleSubmit`. */
  predicate Incomplete(description: string, text: string, ps: seq<Participant>) {
    IsBlank(description) || text == [] || |ps| < 2
  }

  /** The second check of `handleSubmit`: `Math.abs(totalSplit - billAmount) > 0.01`,
      which is false when the total is NaN. */
  predicate Mismatched(text: string, ps: seq<Participant>) {
    Gt(Abs(Sub(Finite(SplitTotal(ps)), ParseFloat(text))), Finite(Tolerance))
  }

  /** The bill `handleSubmit` emits, if any. */
  function SubmitResult(description: string, text: string, ps: seq<Participant>, today: string): Option<Bill> {
    if Incomplete(description, text, ps) || Mismatched(text, ps) then None
    else Some(Bill(description, ParseFloat(text), Shares(ps), today))
  }

  /** `isAmountMatched`: strictly within 0.01 of `parseFloat(total) || 0`,
      which an infinite total never is. */
  predicate AmountMatched(text: string, ps: seq<Participant>) {
    Lt(Abs(Sub(Finite(SplitTotal(ps)), OrZero(ParseFloat(text)))), Finite(Tolerance))
  }

  /** The submit button is enabled. */
  predicate CanSubmit(description: string, text: string, ps: seq<Participant>) {
    AmountMatched(text, ps) && !IsBlank(description) && |ps| >= 2
  }

  // ---------------------------------------------------------------------
  // Properties

  lemma {:induction false} SumOfEqualAmounts(ps: seq<Participant>, a: real)
    requires forall i :: 0 <= i < |ps| ==> ps[i].amount == a
    ensures SplitTotal(ps) == |ps| as real * a
  {
    if ps != [] {
      SumOfEqualAmounts(ps[1..], a);
    }
  }

  /** In equal mode every participant gets the same amount, the entered total
      over the count, and keeps id, name and settled flag; custom mode
      changes nothing. */
  lemma SplitGivesEqualShares(ps: seq<Participant>, total: real, how: SplitMethod, count: nat)
    ensures |CalculateSplit(ps, total, how, count)| == |ps|
    ensures forall i :: 0 <= i < |ps| ==>
      var q := CalculateSplit(ps, total, how, count)[i];
      q.id == ps[i].id && q.name == ps[i].name && q.settled == ps[i].settled
    ensures how == Equal && count > 0 ==>
      forall i :: 0 <= i < |ps| ==> CalculateSplit(ps, total, how, count)[i].amount == total / count as real
    ensures how == Custom ==> CalculateSplit(ps, total, how, count) == ps
  {
  }

  /** An equal split over `count` gives |ps| shares of the total over
      `count`. */
  lemma EqualSplitTotal(ps: seq<Participant>, total: real, count: nat)
    requires count > 0
    ensures SplitTotal(CalculateSplit(ps, total, Equal, count)) == |ps| as real * (total / count as real)
  {
    EvenSplitTotal(ps, total / count as real);
  }

  lemma EvenSplitTotal(ps: seq<Participant>, share: real)
    ensures SplitTotal(SplitEvenly(ps, share)) == |ps| as real * share
  {
    var r := SplitEvenly(ps, share);
    assert forall i :: 0 <= i < |r| ==> r[i].amount == share;
    SumOfEqualAmounts(r, share);
  }

  lemma CountTimesShare(n: real, t: real)
    requires n > 0.0
    ensures n * (t / n) == t
  {
  }

  /** (n + k) copies of t / n miss t by k copies of t / n. */
  lemma ExtraShares(n: real, k: real, t: real)
    requires n > 0.0
    ensures (n + k) * (t / n) == t + k * (t / n)
    ensures t != 0.0 && k != 0.0 ==> k * (t / n) != 0.0
  {
    CountTimesShare(n, t);
  }

  /** An equal split over the current participants adds up to the entered
      total. */
  lemma EqualSplitAddsUp(ps: seq<Participant>, total: real)
    requires |ps| > 0
    ensures SplitTotal(CalculateSplit(ps, total, Equal, |ps|)) == total
  {
    EqualSplitTotal(ps, total, |ps|);
    CountTimesShare(|ps| as real, total);
  }

  /** Splitting over a count that is off by `k` from the list's length misses
      the total by k shares, which is not zero for a non-zero total. */
  lemma StaleCountMisses(ps: seq<Participant>, total: real, count: nat)
    requires count > 0
    ensures SplitTotal(CalculateSplit(ps, total, Equal, count)) == total + (|ps| - count) as real * (total / count as real)
    ensures total != 0.0 && |ps| != count ==> SplitTotal(CalculateSplit(ps, total, Equal, count)) != total
  {
    EqualSplitTotal(ps, total, count);
    ExtraShares(count as real, (|ps| - count) as real, total);
  }

  /** As written, adding a participant in equal mode gives every one of the
      n + 1 participants the total over n, so the shares add up to the total
      plus one more share and miss it whenever the total is not zero. */
  lemma AddParticipantAsWrittenOvershoots(ps: seq<Participant>, name: string, id: string, total: real)
    requires |ps| > 0 && !IsBlank(name)
    ensures SplitTotal(AddParticipantAsWritten(ps, name, id, total, Equal)) == total + total / |ps| as real
    ensures total != 0.0 ==> SplitTotal(AddParticipantAsWritten(ps, name, id, total, Equal)) != total
  {
    var grown := ps + [Newcomer(name, id)];
    assert AddParticipantAsWritten(ps, name, id, total, Equal) == CalculateSplit(grown, total, Equal, |ps|);
    StaleCountMisses(grown, total, |ps|);
    assert (|grown| - |ps|) as real == 1.0;
  }

  /** The smallest case: "You" alone with a total of 100, then adding "Ann",
      gives shares that add up to 200. */
  lemma AddParticipantAsWrittenExample()
    ensures SplitTotal(AddParticipantAsWritten(InitialParticipants(), "Ann", "2", EnteredTotal("100"), Equal)) == 200.0
  {
    HundredParses();
    AnnNotBlank();
    AddParticipantAsWrittenOvershoots(InitialParticipants(), "Ann", "2", 100.0);
  }

  /** The total input AS WRITTEN: the re-split it schedules runs the
      `calculateSplit` of the keystroke's own render, which reads the total
      from before the keystroke. */
  function TypedTotalAsWritten(ps: seq<Participant>, before: string, how: SplitMethod): seq<Participant> {
    CalculateSplit(ps, EnteredTotal(before), how, |ps|)
  }

  /** The total input as intended: the re-split reads the typed total. */
  function TypedTotal(ps: seq<Participant>, typed: string, how: SplitMethod): seq<Participant> {
    CalculateSplit(ps, EnteredTotal(typed), how, |ps|)
  }

  /** Typing a total re-splits it over the participants in equal mode and
      leaves custom shares alone. */
  lemma TypedTotalAddsUp(ps: seq<Participant>, typed: string)
    requires |ps| > 0
    ensures SplitTotal(TypedTotal(ps, typed, Equal)) == EnteredTotal(typed)
    ensures TypedTotal(ps, typed, Custom) == ps
  {
    EqualSplitAddsUp(ps, EnteredTotal(typed));
  }

  /** As written, the shares lag one keystroke behind: typing "100" after
      "10" leaves "You" with 10 of the 100. */
  lemma TypedTotalAsWrittenLags()
    ensures SplitTotal(TypedTotalAsWritten(InitialParticipants(), "10", Equal)) == 10.0
    ensures EnteredTotal("100") == 100.0
  {
    TenParses();
    HundredParses();
    EqualSplitAddsUp(InitialParticipants(), 10.0);
  }

  lemma TenParses()
    ensures EnteredTotal("10") == 10.0
  {
    var digits := "10";
    assert digits[..1] == "1" && "1"[..0] == "";
    assert DigitsValue("1") == 1;
    assert DigitsValue(digits) == 10;
    ParseFloatDigits(digits);
  }

  lemma AnnNotBlank()
    ensures !IsBlank("Ann")
  {
    var s := "Ann";
    assert !IsSpace(s[0]);
    BlankIffAllSpace(s);
  }

  lemma HundredParses()
    ensures EnteredTotal("100") == 100.0
  {
    var digits := "100";
    assert digits[..2] == "10" && "10"[..1] == "1" && "1"[..0] == "";
    assert DigitsValue("1") == 1;
    assert DigitsValue("10") == 10;
    assert DigitsValue(digits) == 100;
    ParseFloatDigits(digits);
  }

  /** As written, removing one of n participants in equal mode leaves shares
      that add up to the total less one share. */
  lemma RemoveParticipantAsWrittenUndershoots(ps: seq<Participant>, id: string, total: real)
    requires |ps| > 1
    requires |Remaining(ps, id)| == |ps| - 1
    ensures SplitTotal(RemoveParticipantAsWritten(ps, id, total, Equal)) == total - total / |ps| as real
    ensures total != 0.0 ==> SplitTotal(RemoveParticipantAsWritten(ps, id, total, Equal)) != total
  {
    var rest := Remaining(ps, id);
    StaleCountMisses(rest, total, |ps|);
  }

  /** Corrected: after adding a participant in equal mode the shares add up to
      the entered total; a blank name changes nothing; otherwise the list
      grows by exactly the trimmed, unsettled newcomer. */
  lemma AddParticipantAddsUp(ps: seq<Participant>, name: string, id: string, total: real, how: SplitMethod)
    ensures IsBlank(name) ==> AddParticipant(ps, name, id, total, how) == ps
    ensures !IsBlank(name) ==> |AddParticipant(ps, name, id, total, how)| == |ps| + 1
    ensures !IsBlank(name) ==>
      var q := AddParticipant(ps, name, id, total, how)[|ps|];
      q.id == id && q.name == Trim(name) && !q.settled
    ensures !IsBlank(name) && how == Equal ==> SplitTotal(AddParticipant(ps, name, id, total, how)) == total
    ensures !IsBlank(name) && how == Equal ==> forall i :: 0 <= i < |ps| ==>
      AddParticipant(ps, name, id, total, how)[i] == ps[i].(amount := total / (|ps| + 1) as real)
    ensures !IsBlank(name) && how == Equal ==>
      AddParticipant(ps, name, id, total, how)[|ps|].amount == total / (|ps| + 1) as real
    ensures !IsBlank(name) && how == Custom ==> AddParticipant(ps, name, id, total, how) == ps + [Newcomer(name, id)]
  {
    if !IsBlank(name) && how == Equal {
      var grown := ps + [Newcomer(name, id)];
      EqualSplitAddsUp(grown, total);
      SplitGivesEqualShares(grown, total, Equal, |ps| + 1);
      forall i | 0 <= i < |ps|
        ensures AddParticipant(ps, name, id, total, how)[i] == ps[i].(amount := total / (|ps| + 1) as real)
      {
        assert grown[i] == ps[i];
      }
    }
  }

  /** Corrected: with one participant nothing is removed; otherwise exactly
      the participants with the id go, and in equal mode the shares of those
      left add up to the entered total. */
  lemma RemoveParticipantAddsUp(ps: seq<Participant>, id: string, total: real, how: SplitMethod)
    ensures |ps| <= 1 ==> RemoveParticipant(ps, id, total, how) == ps
    ensures |ps| > 1 ==> |RemoveParticipant(ps, id, total, how)| == |Remaining(ps, id)|
    ensures |ps| > 1 ==> forall i :: 0 <= i < |Remaining(ps, id)| ==>
      var q := RemoveParticipant(ps, id, total, how)[i];
      q.id == Remaining(ps, id)[i].id && q.id != id &&
      q.name == Remaining(ps, id)[i].name && q.settled == Remaining(ps, id)[i].settled
    ensures |ps| > 1 && how == Custom ==> RemoveParticipant(ps, id, total, how) == Remaining(ps, id)
    ensures |ps| > 1 && how == Equal && Remaining(ps, id) != [] ==>
      SplitTotal(RemoveParticipant(ps, id, total, how)) == total
  {
    if |ps| > 1 {
      var rest := Remaining(ps, id);
      SplitGivesEqualShares(rest, total, how, |rest|);
      forall i | 0 <= i < |rest| ensures rest[i].id != id {
        assert rest[i] in rest;
      }
      if how == Equal && rest != [] {
        EqualSplitAddsUp(rest, total);
      }
    }
  }

  /** `updateParticipantAmount` changes the amount of the participants with
      the id and nothing else. */
  lemma UpdateAmountOnlyTouchesId(ps: seq<Participant>, id: string, amount: real)
    ensures |UpdateAmount(ps, id, amount)| == |ps|
    ensures forall i :: 0 <= i < |ps| && ps[i].id != id ==> UpdateAmount(ps, id, amount)[i] == ps[i]
    ensures forall i :: 0 <= i < |ps| && ps[i].id == id ==> UpdateAmount(ps, id, amount)[i] == ps[i].(amount := amount)
  {
  }

  /** Submit emits a bill exactly when the form is complete and the shares
      are not more than 0.01 away from the total; the bill carries the
      parsed total and the participants' shares in order. */
  lemma SubmitAcceptsExactly(description: string, text: string, ps: seq<Participant>, today: string)
    ensures SubmitResult(description, text, ps, today).Some? <==>
      !IsBlank(description) && text != [] && |ps| >= 2 && !Mismatched(text, ps)
    ensures SubmitResult(description, text, ps, today).Some? ==>
      var b := SubmitResult(description, text, ps, today).value;
      b.description == description && b.totalAmount == ParseFloat(text) && b.date == today &&
      |b.participants| == |ps| &&
      forall i :: 0 <= i < |ps| ==> b.participants[i] == Share(ps[i].name, ps[i].amount, ps[i].settled)
  {
  }

  /** A bill emitted with a numeric total is balanced to within 0.01. */
  lemma SubmittedBillBalanced(description: string, text: string, ps: seq<Participant>, today: string)
    requires SubmitResult(description, text, ps, today).Some?
    requires ParseFloat(text).Finite?
    ensures -Tolerance <= SplitTotal(ps) - ParseFloat(text).v <= Tolerance
  {
  }

  /** Whenever the button is enabled and a total was typed, submitting emits
      a bill. */
  lemma EnabledButtonSubmits(description: string, text: string, ps: seq<Participant>, today: string)
    requires CanSubmit(description, text, ps) && text != []
    ensures SubmitResult(description, text, ps, today).Some?
  {
    assert !Mismatched(text, ps) by {
      MatchedIsNotMismatched(SplitTotal(ps), ParseFloat(text));
    }
    assert !Incomplete(description, text, ps);
  }

  /** Within 0.01 of `n || 0` means not more than 0.01 away from `n`: a NaN
      total is compared as 0 by the one and never mismatches in the other. */
  lemma MatchedIsNotMismatched(split: real, n: Num)
    requires Lt(Abs(Sub(Finite(split), OrZero(n))), Finite(Tolerance))
    ensures !Gt(Abs(Sub(Finite(split), n)), Finite(Tolerance))
  {
  }

  /** The button's `< 0.01` and submit's `> 0.01` disagree at exactly 0.01:
      such a form would submit, yet its button is disabled. */
  lemma ToleranceBoundaryDisagrees(description: string, text: string, ps: seq<Participant>, today: string)
    requires !IsBlank(description) && text != [] && |ps| >= 2
    requires ParseFloat(text).Finite? && SplitTotal(ps) - ParseFloat(text).v == Tolerance
    ensures SubmitResult(description, text, ps, today).Some?
    ensures !CanSubmit(description, text, ps)
  {
    assert !Mismatched(text, ps) && !AmountMatched(text, ps) by {
      ExactlyAtTolerance(SplitTotal(ps), ParseFloat(text));
    }
    assert !Incomplete(description, text, ps);
  }

  /** A finite total exactly 0.01 away is neither mismatched nor matched. */
  lemma ExactlyAtTolerance(split: real, n: Num)
    requires n.Finite? && split - n.v == Tolerance
    ensures !Gt(Abs(Sub(Finite(split), n)), Finite(Tolerance))
    ensures !Lt(Abs(Sub(Finite(split), OrZero(n))), Finite(Tolerance))
  {
  }

  /** The editor's state. */
  class SplitBillForm {
    var description: string
    var totalAmount: string
    var participants: seq<Participant>
    var newParticipantName: string
    var splitMethod: SplitMethod

    /** The list is never empty and its ids are distinct. */
    ghost predicate Valid()
      reads this
    {
      |participants| >= 1 &&
      forall i, j :: 0 <= i < j < |participants| ==> participants[i].id != participants[j].id
    }

    /** The five fields as one value. */
    function Fields(): (string, string, seq<Participant>, string, SplitMethod)
      reads this
    {
      (description, totalAmount, participants, newParticipantName, splitMethod)
    }

    constructor ()
      ensures Valid()
      ensures description == "" && totalAmount == "" && newParticipantName == ""
      ensures participants == InitialParticipants() && splitMethod == Equal
    {
      description, totalAmount, newParticipantName := "", "", "";
      participants := InitialParticipants();
      splitMethod := Equal;
    }

    method SetDescription(text: string)
      modifies this
      ensures description == text
      ensures totalAmount == old(totalAmount) && participants == old(participants)
      ensures newParticipantName == old(newParticipantName) && splitMethod == old(splitMethod)
    {
      description := text;
    }

    method SetNewParticipantName(text: string)
      modifies this
      ensures newParticipantName == text
      ensures description == old(description) && totalAmount == old(totalAmount)
      ensures participants == old(participants) && splitMethod == old(splitMethod)
    {
      newParticipantName := text;
    }

    /** Typing a total, together with the re-split it schedules, with the
      corrected reading of the typed total. */
    method SetTotalAmount(text: string)
      requires Valid()
      modifies this
      ensures Valid()
      ensures totalAmount == text
      ensures participants == TypedTotal(old(participants), text, splitMethod)
      ensures splitMethod == Equal ==> SplitTotal(participants) == EnteredTotal(text)
      ensures splitMethod == Custom ==> participants == old(participants)
      ensures description == old(description)
      ensures newParticipantName == old(newParticipantName) && splitMethod == old(splitMethod)
    {
      TypedTotalAddsUp(participants, text);
      SplitGivesEqualShares(participants, EnteredTotal(text), splitMethod, |participants|);
      totalAmount := text;
      participants := TypedTotal(participants, text, splitMethod);
    }

    /** The "Equal Split" button: switch to equal mode, then split. The split
      reads the mode from before the click, so coming from custom mode it
      leaves the shares as they were. */
    method ChooseEqualSplit()
      requires Valid()
      modifies this
      ensures Valid()
      ensures splitMethod == Equal
      ensures participants == CalculateSplit(old(participants), EnteredTotal(totalAmount), old(splitMethod), |old(participants)|)
      ensures old(splitMethod) == Equal ==> SplitTotal(participants) == EnteredTotal(totalAmount)
      ensures old(splitMethod) == Custom ==> participants == old(participants)
      ensures description == old(description) && totalAmount == old(totalAmount)
      ensures newParticipantName == old(newParticipantName)
    {
      var total := EnteredTotal(totalAmount);
      EqualSplitAddsUp(participants, total);
      SplitGivesEqualShares(participants, total, splitMethod, |participants|);
      participants := CalculateSplit(participants, total, splitMethod, |participants|);
      splitMethod := Equal;
    }

    /** The "Custom Split" button. */
    method ChooseCustomSplit()
      modifies this
      ensures splitMethod == Custom
      ensures participants == old(participants)
      ensures description == old(description) && totalAmount == old(totalAmount)
      ensures newParticipantName == old(newParticipantName)
    {
      splitMethod := Custom;
    }

    /** `addParticipant`, with the corrected split. */
    method AddParticipantNamed(freshId: string)
      requires Valid()
      requires forall i :: 0 <= i < |participants| ==> participants[i].id != freshId
      modifies this
      ensures Valid()
      ensures Fields() == (old(description), old(totalAmount),
        AddParticipant(old(participants), old(newParticipantName), freshId, EnteredTotal(old(totalAmount)), old(splitMethod)),
        if IsBlank(old(newParticipantName)) then old(newParticipantName) else "", old(splitMethod))
    {
      if !IsBlank(newParticipantName) {
        SplitGivesEqualShares(participants + [Newcomer(newParticipantName, freshId)], EnteredTotal(totalAmount), splitMethod, |participants| + 1);
        participants := AddParticipant(participants, newParticipantName, freshId, EnteredTotal(totalAmount), splitMethod);
        newParticipantName := "";
      }
    }

    /** `removeParticipant`, with the corrected split. */
    method RemoveParticipantWithId(id: string)
      requires Valid()
      modifies this
      ensures Valid()
      ensures participants == RemoveParticipant(old(participants), id, EnteredTotal(totalAmount), splitMethod)
      ensures description == old(description) && totalAmount == old(totalAmount)
      ensures newParticipantName == old(newParticipantName) && splitMethod == old(splitMethod)
    {
      if |participants| > 1 {
        var keep := (p: Participant) => p.id != id;
        var rest := Filter(participants, keep);
        DistinctFilterKeepsOne(participants, id);
        SplitGivesEqualShares(rest, EnteredTotal(totalAmount), splitMethod, |rest|);
        participants := RemoveParticipant(participants, id, EnteredTotal(totalAmount), splitMethod);
      }
    }

    /** `updateParticipantAmount`. */
    method UpdateParticipantAmount(id: string, amount: real)
      requires Valid()
      modifies this
      ensures Valid()
      ensures participants == UpdateAmount(old(participants), id, amount)
      ensures description == old(description) && totalAmount == old(totalAmount)
      ensures newParticipantName == old(newParticipantName) && splitMethod == old(splitMethod)
    {
      UpdateAmountOnlyTouchesId(participants, id, amount);
      participants := UpdateAmount(participants, id, amount);
    }

    /** `handleSubmit`: emit the bill and reset, or reject and keep the form. */
    method HandleSubmit(today: string) returns (bill: Option<Bill>)
      requires Valid()
      modifies this
      ensures Valid()
      ensures bill == SubmitResult(old(description), old(totalAmount), old(participants), today)
      ensures Fields() == if bill.Some? then ("", "", InitialParticipants(), old(newParticipantName), Equal)
        else old(Fields())
    {
      bill := SubmitResult(description, totalAmount, participants, today);
      if bill.Some? {
        description, totalAmount, participants, splitMethod := "", "", InitialParticipants(), Equal;
      }
    }
  }

  /** With distinct ids, removing one id from two or more participants leaves
      at least one, and the survivors' ids stay distinct. */
  lemma {:induction false} DistinctFilterKeepsOne(ps: seq<Participant>, id: string)
    requires |ps| >= 2
    requires forall i, j :: 0 <= i < j < |ps| ==> ps[i].id != ps[j].id
    ensures |Remaining(ps, id)| >= 1
    ensures var r := Remaining(ps, id);
      forall i, j :: 0 <= i < j < |r| ==> r[i].id != r[j].id
  {
    var keep := (p: Participant) => p.id != id;
    FilterIsSubsequence(ps, keep);
    if ps[0].id == id {
      assert keep(ps[1]);
    } else {
      assert keep(ps[0]);
    }
    SubsequenceKeepsDistinct(Filter(ps, keep), ps);
  }

  lemma {:induction false} SubsequenceKeepsDistinct(r: seq<Participant>, s: seq<Participant>)
    requires IsSubsequence(r, s)
    requires forall i, j :: 0 <= i < j < |s| ==> s[i].id != s[j].id
    ensures forall i, j :: 0 <= i < j < |r| ==> r[i].id != r[j].id
    decreases |s|
  {
    if r != [] {
      if r[0] == s[0] && IsSubsequence(r[1..], s[1..]) {
        SubsequenceKeepsDistinct(r[1..], s[1..]);
        SubsequenceElements(r[1..], s[1..]);
        forall j | 0 < j < |r| ensures r[0].id != r[j].id {
          assert r[j] == r[1..][j - 1];
        }
      } else {
        SubsequenceKeepsDistinct(r, s[1..]);
      }
    }
  }

  lemma {:induction false} SubsequenceElements<T>(r: seq<T>, s: seq<T>)
    requires IsSubsequence(r, s)
    ensures forall i :: 0 <= i < |r| ==> exists j :: 0 <= j < |s| && r[i] == s[j]
    decreases |s|
  {
    if r != [] {
      if r[0] == s[0] && IsSubsequence(r[1..], s[1..]) {
        SubsequenceElements(r[1..], s[1..]);
        forall i | 0 < i < |r| ensures exists j :: 0 <= j < |s| && r[i] == s[j] {
          assert r[i] == r[1..][i - 1];
          var j :| 0 <= j < |s[1..]| && r[1..][i - 1] == s[1..][j];
          assert r[i] == s[j + 1];
        }
      } else {
        SubsequenceElements(r, s[1..]);
        forall i | 0 <= i < |r| ensures exists j :: 0 <= j < |s| && r[i] == s[j] {
          var j :| 0 <= j < |s[1..]| && r[i] == s[1..][j];
          assert r[i] == s[j + 1];
        }
      }
    }
  }
}
