/** Properties of `runValidationChecks`, stated about the as-written pass
    (AnthropicService.RunValidationChecks; the OpenAI copy returns the same
    result by OpenAIService.RunAgreesWithAnthropic). Each property is
    obtained from the reference account in ValidationReference through
    AnthropicService.RunMatchesReference. */
module ValidationProperties {
  import opened Js
  import opened Bill
  import opened ValidationReference
  import opened AnthropicService

  // ---------------------------------------------------------------------
  // Counting
  // ---------------------------------------------------------------------

  /** Number of items from position lo on that repeat an earlier key. */
  function CountRepeats(items: seq<LineItem>, lo: nat): nat
    requires lo <= |items|
    decreases |items| - lo
  {
    if lo == |items| then 0 else (if IsRepeat(items, lo) then 1 else 0) + CountRepeats(items, lo + 1)
  }

  /** Number of items from position lo on whose code the validator rejects. */
  function CountFailing(items: seq<LineItem>, lo: nat, validate: CodeValidator): nat
    requires lo <= |items|
    decreases |items| - lo
  {
    if lo == |items| then 0
    else (if FailsValidation(items[lo], validate) then 1 else 0) + CountFailing(items, lo + 1, validate)
  }

  /** Number of items from position lo on that the benchmark reports overcharged. */
  function CountOvercharged(items: seq<LineItem>, lo: nat, check: OverchargeChecker): nat
    requires lo <= |items|
    decreases |items| - lo
  {
    if lo == |items| then 0
    else (if ReportedOvercharged(items[lo], check) then 1 else 0) + CountOvercharged(items, lo + 1, check)
  }

  /** Number of findings of one kind. */
  function CountKind(fs: seq<Finding>, kind: FlagKind): nat
    decreases |fs|
  {
    if |fs| == 0 then 0 else (if fs[0].kind == kind then 1 else 0) + CountKind(fs[1..], kind)
  }

  lemma {:induction false} CountKindConcat(a: seq<Finding>, b: seq<Finding>, kind: FlagKind)
    ensures CountKind(a + b, kind) == CountKind(a, kind) + CountKind(b, kind)
    decreases |a|
  {
    if |a| == 0 {
      assert a + b == b;
    } else {
      assert (a + b)[1..] == a[1..] + b;
      CountKindConcat(a[1..], b, kind);
    }
  }

  /** The duplicate phase's counts for the items from lo on. */
  predicate DuplicateCountsFrom(items: seq<LineItem>, lo: nat)
    requires lo <= |items|
  {
    var fs := DuplicateFindings(items, lo);
    && CountKind(fs, Duplicate) == CountRepeats(items, lo)
    && CountKind(fs, InvalidCode) == 0
    && CountKind(fs, Overcharge) == 0
  }

  /** One item's duplicate finding, if any, added in front of the rest. */
  lemma DuplicateFindingsCountStep(items: seq<LineItem>, lo: nat)
    requires lo < |items|
    requires DuplicateCountsFrom(items, lo + 1)
    ensures DuplicateCountsFrom(items, lo)
  {
    var rest := DuplicateFindings(items, lo + 1);
    if IsRepeat(items, lo) {
      var all := DuplicateFindings(items, lo);
      assert all == [Finding(Duplicate, lo)] + rest;
      assert all[1..] == rest;
    } else {
      assert DuplicateFindings(items, lo) == rest;
    }
  }

  lemma {:induction false} DuplicateFindingsCount(items: seq<LineItem>, lo: nat)
    requires lo <= |items|
    ensures DuplicateCountsFrom(items, lo)
    decreases |items| - lo
  {
    if lo < |items| {
      DuplicateFindingsCount(items, lo + 1);
      DuplicateFindingsCountStep(items, lo);
    } else {
      assert DuplicateFindings(items, lo) == [];
    }
  }

  /** CountKindConcat, for a list known to be a concatenation. */
  lemma CountSum(all: seq<Finding>, here: seq<Finding>, rest: seq<Finding>, kind: FlagKind)
    requires all == here + rest
    ensures CountKind(all, kind) == CountKind(here, kind) + CountKind(rest, kind)
  {
    CountKindConcat(here, rest, kind);
  }

  /** The item phase's counts for the items from lo on. */
  predicate CheckCountsFrom(items: seq<LineItem>, lo: nat, validate: CodeValidator, check: OverchargeChecker)
    requires lo <= |items|
  {
    var fs := CheckFindings(items, lo, validate, check);
    && CountKind(fs, Duplicate) == 0
    && CountKind(fs, InvalidCode) == CountFailing(items, lo, validate)
    && CountKind(fs, Overcharge) == CountOvercharged(items, lo, check)
  }

  /** One item's findings added in front of the counts for the rest. */
  lemma CheckFindingsCountStep(items: seq<LineItem>, lo: nat, validate: CodeValidator, check: OverchargeChecker)
    requires lo < |items|
    requires CheckCountsFrom(items, lo + 1, validate, check)
    ensures CheckCountsFrom(items, lo, validate, check)
  {
    var here := ItemFindings(items, lo, validate, check);
    var rest := CheckFindings(items, lo + 1, validate, check);
    var all := CheckFindings(items, lo, validate, check);
    assert all == here + rest;
    ItemFindingsCount(items, lo, validate, check);
    CountSum(all, here, rest, Duplicate);
    CountSum(all, here, rest, InvalidCode);
    CountSum(all, here, rest, Overcharge);
  }

  /** Past the last item there is nothing to count. */
  lemma CheckFindingsCountEnd(items: seq<LineItem>, validate: CodeValidator, check: OverchargeChecker)
    ensures CheckCountsFrom(items, |items|, validate, check)
  {
    assert CheckFindings(items, |items|, validate, check) == [];
  }

  lemma {:induction false} CheckFindingsCount(items: seq<LineItem>, lo: nat, validate: CodeValidator,
                                              check: OverchargeChecker)
    requires lo <= |items|
    ensures CheckCountsFrom(items, lo, validate, check)
    decreases |items| - lo
  {
    if lo < |items| {
      CheckFindingsCount(items, lo + 1, validate, check);
      CheckFindingsCountStep(items, lo, validate, check);
    } else {
      CheckFindingsCountEnd(items, validate, check);
    }
  }

  lemma ItemFindingsCount(items: seq<LineItem>, i: nat, validate: CodeValidator, check: OverchargeChecker)
    requires i < |items|
    ensures CountKind(ItemFindings(items, i, validate, check), Duplicate) == 0
    ensures CountKind(ItemFindings(items, i, validate, check), InvalidCode)
         == if FailsValidation(items[i], validate) then 1 else 0
    ensures CountKind(ItemFindings(items, i, validate, check), Overcharge)
         == if ReportedOvercharged(items[i], check) then 1 else 0
  {
    var a := if FailsValidation(items[i], validate) then [Finding(InvalidCode, i)] else [];
    var b := if ReportedOvercharged(items[i], check) then [Finding(Overcharge, i)] else [];
    CountKindConcat(a, b, Duplicate);
    CountKindConcat(a, b, InvalidCode);
    CountKindConcat(a, b, Overcharge);
  }

  /** Every duplicate record says two occurrences. */
  predicate OccurrencesTwo(duplicates: seq<DuplicateRecord>) {
    forall k :: 0 <= k < |duplicates| ==> duplicates[k].occurrences == 2
  }

  /** Applying findings adds one detail record per finding of the record's
      kind, and every duplicate record it adds says two occurrences. */
  lemma {:induction false} ApplyCounts(items: seq<LineItem>, r: ValidationResult, fs: seq<Finding>,
                                       validate: CodeValidator, check: OverchargeChecker)
    requires AllApplicable(items, fs)
    ensures var r' := Apply(items, r, fs, validate, check);
      && |r'.duplicates| == |r.duplicates| + CountKind(fs, Duplicate)
      && |r'.invalidCodes| == |r.invalidCodes| + CountKind(fs, InvalidCode)
      && |r'.overcharges| == |r.overcharges| + CountKind(fs, Overcharge)
      && (OccurrencesTwo(r.duplicates) ==> OccurrencesTwo(r'.duplicates))
    decreases |fs|
  {
    if |fs| > 0 {
      ApplyCounts(items, Record(items, r, fs[0], validate, check), fs[1..], validate, check);
    }
  }

  // ---------------------------------------------------------------------
  // The pass as a whole
  // ---------------------------------------------------------------------

  /** Without line items (absent or an empty list) nothing is reported. */
  lemma NoItemsNoIssues(bill: StructuredBill, validate: CodeValidator, check: OverchargeChecker)
    requires bill.lineItems.None? || |bill.lineItems.value| == 0
    ensures RunValidationChecks(bill, validate, check) == EmptyResult
  {
    RunMatchesReference(bill, validate, check);
    if bill.lineItems.Some? {
      assert Findings(bill.lineItems.value, validate, check) == [];
    }
  }

  /** The flags are, one for one and in order, those of the reference
      findings, and the issue counter is their number. */
  lemma FlagsFollowFindings(bill: StructuredBill, validate: CodeValidator, check: OverchargeChecker)
    requires bill.lineItems.Some?
    ensures var items := bill.lineItems.value;
      var fs := Findings(items, validate, check);
      var r := RunValidationChecks(bill, validate, check);
      && AllApplicable(items, fs)
      && |r.flags| == |fs| == r.totalIssues
      && forall k :: 0 <= k < |fs| ==> r.flags[k] == FlagFor(items, fs[k], validate, check)
  {
    var items := bill.lineItems.value;
    RunMatchesReference(bill, validate, check);
    FindingsApplicable(items, validate, check);
    ApplyAppendsFlags(items, EmptyResult, Findings(items, validate, check), validate, check);
  }

  /** Every duplicate flag comes before every invalid-code and overcharge
      flag. */
  lemma DuplicatesComeFirst(bill: StructuredBill, validate: CodeValidator, check: OverchargeChecker)
    ensures var flags := RunValidationChecks(bill, validate, check).flags;
      forall k, l :: 0 <= k < l < |flags| && flags[l].kind == Duplicate ==> flags[k].kind == Duplicate
  {
    if bill.lineItems.Some? {
      FlagsFollowFindings(bill, validate, check);
      var items := bill.lineItems.value;
      FindingsOrdered(items, validate, check);
      var fs := Findings(items, validate, check);
      var flags := RunValidationChecks(bill, validate, check).flags;
      forall k, l | 0 <= k < l < |flags| && flags[l].kind == Duplicate
        ensures flags[k].kind == Duplicate
      {
        assert Precedes(fs[k], fs[l]);
      }
    } else {
      NoItemsNoIssues(bill, validate, check);
    }
  }

  /** Flags from the item loop follow item order, and an item's
      invalid-code flag precedes its overcharge flag: for two phase-two
      flags, the earlier one names an earlier item, or the same item with
      invalid code before overcharge. */
  lemma CheckFlagsFollowItems(bill: StructuredBill, validate: CodeValidator, check: OverchargeChecker)
    requires bill.lineItems.Some?
    ensures var items := bill.lineItems.value;
      var fs := Findings(items, validate, check);
      var flags := RunValidationChecks(bill, validate, check).flags;
      && |flags| == |fs|
      && forall k, l :: 0 <= k < l < |fs| && flags[k].kind != Duplicate ==>
        && flags[l].kind != Duplicate
        && (fs[k].index < fs[l].index
            || (fs[k].index == fs[l].index && flags[k].kind == InvalidCode && flags[l].kind == Overcharge))
  {
    FlagsFollowFindings(bill, validate, check);
    var items := bill.lineItems.value;
    FindingsOrdered(items, validate, check);
    var fs := Findings(items, validate, check);
    var flags := RunValidationChecks(bill, validate, check).flags;
    forall k, l | 0 <= k < l < |flags| && flags[k].kind != Duplicate
      ensures flags[l].kind != Duplicate
      ensures fs[k].index < fs[l].index
              || (fs[k].index == fs[l].index && flags[k].kind == InvalidCode && flags[l].kind == Overcharge)
    {
      assert Precedes(fs[k], fs[l]);
    }
  }

  /** Well-formedness of every result: the counter is the number of flags,
      each detail array lines up with the flags of its kind, severities are
      fixed per kind, and every duplicate record says two occurrences. */
  lemma ResultWellFormed(bill: StructuredBill, validate: CodeValidator, check: OverchargeChecker)
    ensures var r := RunValidationChecks(bill, validate, check);
      && r.totalIssues == |r.flags|
      && DetailsMatchFlags(r)
      && SeveritiesFixed(r.flags)
      && OccurrencesTwo(r.duplicates)
  {
    RunMatchesReference(bill, validate, check);
    if bill.lineItems.Some? {
      var items := bill.lineItems.value;
      FindingsApplicable(items, validate, check);
      var fs := Findings(items, validate, check);
      ApplyKeepsInvariants(items, EmptyResult, fs, validate, check);
      ApplyCounts(items, EmptyResult, fs, validate, check);
    }
  }

  /** The per-kind counts: one duplicate per item that repeats an earlier
      key, one invalid code per rejected code, one overcharge per reported
      overcharge; each equals the number of flags of that kind. */
  lemma IssueCounts(bill: StructuredBill, validate: CodeValidator, check: OverchargeChecker)
    requires bill.lineItems.Some?
    ensures var items := bill.lineItems.value;
      var r := RunValidationChecks(bill, validate, check);
      && |r.duplicates| == |OfKind(r.flags, Duplicate)| == CountRepeats(items, 0)
      && |r.invalidCodes| == |OfKind(r.flags, InvalidCode)| == CountFailing(items, 0, validate)
      && |r.overcharges| == |OfKind(r.flags, Overcharge)| == CountOvercharged(items, 0, check)
  {
    var items := bill.lineItems.value;
    RunMatchesReference(bill, validate, check);
    ResultWellFormed(bill, validate, check);
    FindingsApplicable(items, validate, check);
    var d := DuplicateFindings(items, 0);
    var c := CheckFindings(items, 0, validate, check);
    ApplyCounts(items, EmptyResult, d + c, validate, check);
    DuplicateFindingsCount(items, 0);
    CheckFindingsCount(items, 0, validate, check);
    CountKindConcat(d, c, Duplicate);
    CountKindConcat(d, c, InvalidCode);
    CountKindConcat(d, c, Overcharge);
  }

  // ---------------------------------------------------------------------
  // Particular bills
  // ---------------------------------------------------------------------

  /** Items without a code type produce no item-phase findings. */
  lemma {:induction false} UntypedItemsNoCheckFindings(items: seq<LineItem>, lo: nat,
                                                       validate: CodeValidator, check: OverchargeChecker)
    requires lo <= |items|
    requires forall i :: lo <= i < |items| ==> items[i].codeType.None?
    ensures CheckFindings(items, lo, validate, check) == []
    decreases |items| - lo
  {
    if lo < |items| {
      UntypedItemsNoCheckFindings(items, lo + 1, validate, check);
      assert ItemFindings(items, lo, validate, check) == [];
    }
  }

  /** Of three identical items, the second and third repeat the first. */
  lemma ThreeIdenticalDuplicates(item: LineItem)
    ensures DuplicateFindings([item, item, item], 0) == [Finding(Duplicate, 1), Finding(Duplicate, 2)]
    ensures CountRepeats([item, item, item], 0) == 2
  {
    var items := [item, item, item];
    assert !IsRepeat(items, 0);
    assert IsRepeat(items, 1) by { assert DuplicateKey(items[0]) == DuplicateKey(items[1]); }
    assert IsRepeat(items, 2) by { assert DuplicateKey(items[0]) == DuplicateKey(items[2]); }
    assert DuplicateFindings(items, 3) == [];
    assert DuplicateFindings(items, 2) == [Finding(Duplicate, 2)];
    assert DuplicateFindings(items, 1) == [Finding(Duplicate, 1), Finding(Duplicate, 2)];
    assert CountRepeats(items, 3) == 0;
    assert CountRepeats(items, 2) == 1;
  }

  /** Three identical items give two duplicate records and two duplicate
      flags. */
  lemma ThreeIdenticalCounts(item: LineItem, validate: CodeValidator, check: OverchargeChecker)
    ensures var r := RunValidationChecks(StructuredBill(Some([item, item, item])), validate, check);
      |r.duplicates| == 2 && |OfKind(r.flags, Duplicate)| == 2
  {
    ThreeIdenticalDuplicates(item);
    IssueCounts(StructuredBill(Some([item, item, item])), validate, check);
  }

  /** Three identical items: the first two flags are duplicate flags for
      the item. */
  lemma ThreeIdenticalFlags(item: LineItem, validate: CodeValidator, check: OverchargeChecker)
    ensures var r := RunValidationChecks(StructuredBill(Some([item, item, item])), validate, check);
      |r.flags| >= 2 && r.flags[0] == r.flags[1] == DuplicateFlag(item)
  {
    var items := [item, item, item];
    ThreeIdenticalDuplicates(item);
    FlagsFollowFindings(StructuredBill(Some(items)), validate, check);
    var fs := Findings(items, validate, check);
    var d := DuplicateFindings(items, 0);
    assert fs == d + CheckFindings(items, 0, validate, check);
    assert fs[0] == d[0] && fs[1] == d[1];
  }

  /** Three identical items: the first occurrence is not flagged, the other
      two are. */
  lemma ThreeIdenticalItems(item: LineItem, validate: CodeValidator, check: OverchargeChecker)
    ensures var r := RunValidationChecks(StructuredBill(Some([item, item, item])), validate, check);
      && |r.duplicates| == 2
      && |OfKind(r.flags, Duplicate)| == 2
      && r.flags[0] == r.flags[1] == DuplicateFlag(item)
  {
    ThreeIdenticalCounts(item, validate, check);
    ThreeIdenticalFlags(item, validate, check);
  }

  /** A plain item (no code type) with the given code and description. */
  function PlainItem(code: Option<string>, description: string): LineItem {
    LineItem(Some(description), code, None, None, None, None)
  }

  /** The findings for two untyped items: a duplicate of the second exactly
      when the keys agree. */
  lemma TwoUntypedFindings(first: LineItem, second: LineItem, validate: CodeValidator, check: OverchargeChecker)
    requires first.codeType.None? && second.codeType.None?
    ensures Findings([first, second], validate, check)
         == if DuplicateKey(first) == DuplicateKey(second) then [Finding(Duplicate, 1)] else []
  {
    var items := [first, second];
    assert !IsRepeat(items, 0);
    assert IsRepeat(items, 1) <==> DuplicateKey(first) == DuplicateKey(second) by {
      if DuplicateKey(first) == DuplicateKey(second) {
        assert DuplicateKey(items[0]) == DuplicateKey(items[1]);
      }
    }
    UntypedItemsNoCheckFindings(items, 0, validate, check);
    assert DuplicateFindings(items, 2) == [];
    assert DuplicateFindings(items, 0) == DuplicateFindings(items, 1);
  }

  /** The bill of two plain items, and what the pass reports for it: the
      second item is flagged as a duplicate of the first when their keys
      agree, and nothing is reported otherwise. */
  lemma TwoPlainItems(first: LineItem, second: LineItem, validate: CodeValidator, check: OverchargeChecker)
    requires first.codeType.None? && second.codeType.None?
    ensures var r := RunValidationChecks(StructuredBill(Some([first, second])), validate, check);
      && (DuplicateKey(first) == DuplicateKey(second) ==> r.flags == [DuplicateFlag(second)])
      && (DuplicateKey(first) != DuplicateKey(second) ==> r.flags == [])
  {
    var items := [first, second];
    var bill := StructuredBill(Some(items));
    FlagsFollowFindings(bill, validate, check);
    TwoUntypedFindings(first, second, validate, check);
  }

  /** The key is a bare concatenation: code "a_b" with description "c"
      collides with code "a" and description "b_c". */
  lemma KeyCollision(validate: CodeValidator, check: OverchargeChecker)
    ensures var first, second := PlainItem(Some("a_b"), "c"), PlainItem(Some("a"), "b_c");
      RunValidationChecks(StructuredBill(Some([first, second])), validate, check).flags == [DuplicateFlag(second)]
  {
    var first, second := PlainItem(Some("a_b"), "c"), PlainItem(Some("a"), "b_c");
    assert DuplicateKey(first) == "a_b_c" == DuplicateKey(second);
    TwoPlainItems(first, second, validate, check);
  }

  /** A missing code prints as "undefined" and so matches the literal code
      "undefined". */
  lemma MissingCodeMatchesUndefined(description: string, validate: CodeValidator, check: OverchargeChecker)
    ensures var first, second := PlainItem(None, description), PlainItem(Some("undefined"), description);
      RunValidationChecks(StructuredBill(Some([first, second])), validate, check).flags == [DuplicateFlag(second)]
  {
    var first, second := PlainItem(None, description), PlainItem(Some("undefined"), description);
    TwoPlainItems(first, second, validate, check);
  }

  /** A lone item is never a duplicate; its findings are its own item-phase
      findings. */
  lemma SingleItemFindings(item: LineItem, validate: CodeValidator, check: OverchargeChecker)
    ensures Findings([item], validate, check) == ItemFindings([item], 0, validate, check)
  {
    var items := [item];
    assert !IsRepeat(items, 0);
    assert DuplicateFindings(items, 0) == [];
    assert CheckFindings(items, 1, validate, check) == [];
    assert CheckFindings(items, 0, validate, check) == ItemFindings(items, 0, validate, check) + [];
  }

  /** The benchmark is consulted whether or not the code passed validation:
      a rejected CPT code that is also overcharged gets both flags, the
      invalid-code flag first, and the overcharge carries the overcharge oracle's
      savings figure. */
  lemma InvalidAndOvercharged(item: LineItem, validate: CodeValidator, check: OverchargeChecker)
    requires FailsValidation(item, validate) && ReportedOvercharged(item, check)
    ensures var r := RunValidationChecks(StructuredBill(Some([item])), validate, check);
      var answer := check(item.code.value, item.totalCharge);
      && r.flags == [InvalidCodeFlag(item, validate(item.code.value, item.codeType.value)), OverchargeFlag(item, answer)]
      && r.flags[1].potentialSavings == Some(answer.potentialSavings)
      && |r.invalidCodes| == |r.overcharges| == 1
      && r.overcharges[0].potentialSavings == answer.potentialSavings
  {
    var items := [item];
    var bill := StructuredBill(Some(items));
    var r := RunValidationChecks(bill, validate, check);
    var answer := check(item.code.value, item.totalCharge);
    assert r.flags == [InvalidCodeFlag(item, validate(item.code.value, item.codeType.value)), OverchargeFlag(item, answer)] by {
      SingleItemFindings(item, validate, check);
      FlagsFollowFindings(bill, validate, check);
    }
    assert |r.invalidCodes| == |r.overcharges| == 1 by {
      assert CountFailing(items, 0, validate) == 1;
      assert CountOvercharged(items, 0, check) == 1;
      IssueCounts(bill, validate, check);
    }
    assert r.overcharges[0].potentialSavings == answer.potentialSavings by {
      ResultWellFormed(bill, validate, check);
      assert OfKind(r.flags, Overcharge) == [r.flags[1]] by {
        assert r.flags[..1] == [r.flags[0]];
      }
    }
  }
}
