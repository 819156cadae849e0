/** A declarative account of what one validation pass reports. A Finding
    names the line item (by index) that causes a flag and the flag's kind.
    `Findings` lists them in emission order, and its contract says exactly
    which findings occur and in what order. `Apply` turns a list of findings
    into flags and detail records using the shared push helpers. */
module ValidationReference {
  import opened Js
  import opened Bill

  datatype Finding = Finding(kind: FlagKind, index: nat)

  /** Item i repeats the duplicate key of some earlier item. */
  predicate IsRepeat(items: seq<LineItem>, i: nat)
    requires i < |items|
  {
    exists j :: 0 <= j < i && DuplicateKey(items[j]) == DuplicateKey(items[i])
  }

  /** The validator is consulted for the item and rejects its code. */
  predicate FailsValidation(item: LineItem, validate: CodeValidator) {
    ValidatorApplies(item) && !validate(item.code.value, item.codeType.value).valid
  }

  /** The benchmark is consulted for the item and reports an overcharge. */
  predicate ReportedOvercharged(item: LineItem, check: OverchargeChecker) {
    CheckerApplies(item) && check(item.code.value, item.totalCharge).isOvercharged
  }

  /** Emission order: all duplicates first, by item; then per item its
      invalid-code finding before its overcharge finding, items in order. */
  predicate Precedes(a: Finding, b: Finding) {
    if a.kind == Duplicate then
      b.kind != Duplicate || a.index < b.index
    else
      && b.kind != Duplicate
      && (a.index < b.index || (a.index == b.index && a.kind == InvalidCode && b.kind == Overcharge))
  }

  predicate Ordered(fs: seq<Finding>) {
    forall k, l :: 0 <= k < l < |fs| ==> Precedes(fs[k], fs[l])
  }

  /** The fact behind a finding holds for the item it names: its key
      repeats an earlier key, the validator rejects its code, or the
      benchmark reports it overcharged. */
  predicate Justified(items: seq<LineItem>, f: Finding, validate: CodeValidator, check: OverchargeChecker)
    requires f.index < |items|
  {
    match f.kind
    case Duplicate => IsRepeat(items, f.index)
    case InvalidCode => FailsValidation(items[f.index], validate)
    case Overcharge => ReportedOvercharged(items[f.index], check)
  }

  /** Duplicate findings for the items from position lo on. */
  function DuplicateFindings(items: seq<LineItem>, lo: nat): (fs: seq<Finding>)
    requires lo <= |items|
    ensures forall k :: 0 <= k < |fs| ==>
      fs[k].kind == Duplicate && lo <= fs[k].index < |items| && IsRepeat(items, fs[k].index)
    decreases |items| - lo
  {
    if lo == |items| then []
    else
      var rest := DuplicateFindings(items, lo + 1);
      if IsRepeat(items, lo) then [Finding(Duplicate, lo)] + rest else rest
  }

  /** Concatenating two ordered lists, each element of the first preceding
      each of the second, gives an ordered list. */
  lemma OrderedConcat(a: seq<Finding>, b: seq<Finding>)
    requires Ordered(a) && Ordered(b)
    requires forall k, l :: 0 <= k < |a| && 0 <= l < |b| ==> Precedes(a[k], b[l])
    ensures Ordered(a + b)
  {
    var c := a + b;
    forall k, l | 0 <= k < l < |c|
      ensures Precedes(c[k], c[l])
    {
      if l < |a| {
        assert c[k] == a[k] && c[l] == a[l];
      } else if k >= |a| {
        assert c[k] == b[k - |a|] && c[l] == b[l - |a|];
      } else {
        assert c[k] == a[k] && c[l] == b[l - |a|];
      }
    }
  }

  /** A duplicate finding for an item before every item of an ordered list
      of duplicate findings keeps it ordered. */
  lemma PrependDuplicateOrdered(i: nat, rest: seq<Finding>)
    requires Ordered(rest)
    requires forall k :: 0 <= k < |rest| ==> rest[k].kind == Duplicate && i < rest[k].index
    ensures Ordered([Finding(Duplicate, i)] + rest)
  {
    OrderedConcat([Finding(Duplicate, i)], rest);
  }

  /** The duplicate findings come in item order. */
  lemma {:induction false} DuplicateFindingsOrdered(items: seq<LineItem>, lo: nat)
    requires lo <= |items|
    ensures Ordered(DuplicateFindings(items, lo))
    decreases |items| - lo
  {
    if lo < |items| {
      var rest := DuplicateFindings(items, lo + 1);
      DuplicateFindingsOrdered(items, lo + 1);
      if IsRepeat(items, lo) {
        PrependDuplicateOrdered(lo, rest);
        assert DuplicateFindings(items, lo) == [Finding(Duplicate, lo)] + rest;
      } else {
        assert DuplicateFindings(items, lo) == rest;
      }
    }
  }

  /** Every item from lo on whose key repeats an earlier key has its
      duplicate finding, and no other item has one. */
  lemma {:induction false} DuplicateFindingsExact(items: seq<LineItem>, lo: nat)
    requires lo <= |items|
    ensures forall i :: lo <= i < |items| ==> (Finding(Duplicate, i) in DuplicateFindings(items, lo) <==> IsRepeat(items, i))
    decreases |items| - lo
  {
    if lo < |items| {
      var rest := DuplicateFindings(items, lo + 1);
      DuplicateFindingsExact(items, lo + 1);
      var fs := DuplicateFindings(items, lo);
      assert Finding(Duplicate, lo) !in rest;
      if IsRepeat(items, lo) {
        assert fs == [Finding(Duplicate, lo)] + rest;
        assert forall x :: x in fs <==> x == Finding(Duplicate, lo) || x in rest;
      } else {
        assert fs == rest;
      }
    }
  }

  /** Phase-two findings of one item: invalid code first, then overcharge. */
  function ItemFindings(items: seq<LineItem>, i: nat, validate: CodeValidator, check: OverchargeChecker): (fs: seq<Finding>)
    requires i < |items|
    ensures forall k :: 0 <= k < |fs| ==>
      fs[k].index == i && fs[k].kind != Duplicate && Justified(items, fs[k], validate, check)
  {
    (if FailsValidation(items[i], validate) then [Finding(InvalidCode, i)] else [])
    + (if ReportedOvercharged(items[i], check) then [Finding(Overcharge, i)] else [])
  }

  /** Phase-two findings for the items from position lo on. */
  function CheckFindings(items: seq<LineItem>, lo: nat, validate: CodeValidator, check: OverchargeChecker): (fs: seq<Finding>)
    requires lo <= |items|
    ensures forall k :: 0 <= k < |fs| ==>
      fs[k].kind != Duplicate && lo <= fs[k].index < |items| && Justified(items, fs[k], validate, check)
    decreases |items| - lo
  {
    if lo == |items| then []
    else ItemFindings(items, lo, validate, check) + CheckFindings(items, lo + 1, validate, check)
  }

  /** The phase-two findings come by item, an item's invalid code before
      its overcharge. */
  lemma {:induction false} CheckFindingsOrdered(items: seq<LineItem>, lo: nat, validate: CodeValidator, check: OverchargeChecker)
    requires lo <= |items|
    ensures Ordered(CheckFindings(items, lo, validate, check))
    decreases |items| - lo
  {
    if lo < |items| {
      var here := ItemFindings(items, lo, validate, check);
      var rest := CheckFindings(items, lo + 1, validate, check);
      CheckFindingsOrdered(items, lo + 1, validate, check);
      assert Ordered(here);
      OrderedConcat(here, rest);
    }
  }

  /** Every item from lo on has an invalid-code finding exactly when the
      validator rejects its code, and an overcharge finding exactly when the
      benchmark reports it overcharged. */
  lemma {:induction false} CheckFindingsExact(items: seq<LineItem>, lo: nat, validate: CodeValidator, check: OverchargeChecker)
    requires lo <= |items|
    ensures forall i :: lo <= i < |items| ==>
      && (Finding(InvalidCode, i) in CheckFindings(items, lo, validate, check) <==> FailsValidation(items[i], validate))
      && (Finding(Overcharge, i) in CheckFindings(items, lo, validate, check) <==> ReportedOvercharged(items[i], check))
    decreases |items| - lo
  {
    if lo < |items| {
      var here := ItemFindings(items, lo, validate, check);
      var rest := CheckFindings(items, lo + 1, validate, check);
      CheckFindingsExact(items, lo + 1, validate, check);
      assert CheckFindings(items, lo, validate, check) == here + rest;
      assert forall x :: x in here + rest <==> x in here || x in rest;
      assert Finding(InvalidCode, lo) !in rest && Finding(Overcharge, lo) !in rest;
      assert Finding(InvalidCode, lo) in here <==> FailsValidation(items[lo], validate);
      assert Finding(Overcharge, lo) in here <==> ReportedOvercharged(items[lo], check);
    }
  }

  /** Everything one pass reports, in emission order: the duplicate
      findings, then the phase-two findings. */
  function Findings(items: seq<LineItem>, validate: CodeValidator, check: OverchargeChecker): (fs: seq<Finding>)
    ensures forall k :: 0 <= k < |fs| ==> fs[k].index < |items| && Justified(items, fs[k], validate, check)
  {
    DuplicateFindings(items, 0) + CheckFindings(items, 0, validate, check)
  }

  /** The findings hold each kind for exactly the items that call for it. */
  lemma FindingsExact(items: seq<LineItem>, validate: CodeValidator, check: OverchargeChecker)
    ensures var fs := Findings(items, validate, check);
      forall i :: 0 <= i < |items| ==>
        && (Finding(Duplicate, i) in fs <==> IsRepeat(items, i))
        && (Finding(InvalidCode, i) in fs <==> FailsValidation(items[i], validate))
        && (Finding(Overcharge, i) in fs <==> ReportedOvercharged(items[i], check))
  {
    var d := DuplicateFindings(items, 0);
    var c := CheckFindings(items, 0, validate, check);
    DuplicateFindingsExact(items, 0);
    CheckFindingsExact(items, 0, validate, check);
    assert forall x :: x in d + c <==> x in d || x in c;
    assert forall i :: 0 <= i < |items| ==> Finding(Duplicate, i) !in c;
    assert forall i :: 0 <= i < |items| ==> Finding(InvalidCode, i) !in d && Finding(Overcharge, i) !in d;
  }

  /** The findings come in emission order: duplicates first, by item; then
      by item, invalid code before overcharge. */
  lemma FindingsOrdered(items: seq<LineItem>, validate: CodeValidator, check: OverchargeChecker)
    ensures Ordered(Findings(items, validate, check))
  {
    DuplicateFindingsOrdered(items, 0);
    CheckFindingsOrdered(items, 0, validate, check);
    OrderedConcat(DuplicateFindings(items, 0), CheckFindings(items, 0, validate, check));
  }

  /** A finding that names an item and whose kind's oracle applies to it. */
  predicate Applicable(items: seq<LineItem>, f: Finding) {
    && f.index < |items|
    && (f.kind == InvalidCode ==> ValidatorApplies(items[f.index]))
    && (f.kind == Overcharge ==> CheckerApplies(items[f.index]))
  }

  predicate AllApplicable(items: seq<LineItem>, fs: seq<Finding>) {
    forall k :: 0 <= k < |fs| ==> Applicable(items, fs[k])
  }

  lemma FindingsApplicable(items: seq<LineItem>, validate: CodeValidator, check: OverchargeChecker)
    ensures AllApplicable(items, Findings(items, validate, check))
  {
  }

  /** The flag a finding stands for. */
  function FlagFor(items: seq<LineItem>, f: Finding, validate: CodeValidator, check: OverchargeChecker): Flag
    requires Applicable(items, f)
  {
    var item := items[f.index];
    match f.kind
    case Duplicate => DuplicateFlag(item)
    case InvalidCode => InvalidCodeFlag(item, validate(item.code.value, item.codeType.value))
    case Overcharge => OverchargeFlag(item, check(item.code.value, item.totalCharge))
  }

  /** Push the flag and detail record of one finding. */
  function Record(items: seq<LineItem>, r: ValidationResult, f: Finding,
                  validate: CodeValidator, check: OverchargeChecker): ValidationResult
    requires Applicable(items, f)
  {
    var item := items[f.index];
    match f.kind
    case Duplicate => RecordDuplicate(r, item)
    case InvalidCode => RecordInvalidCode(r, item, validate(item.code.value, item.codeType.value))
    case Overcharge => RecordOvercharge(r, item, check(item.code.value, item.totalCharge))
  }

  /** Push the findings one after another. */
  function Apply(items: seq<LineItem>, r: ValidationResult, fs: seq<Finding>,
                 validate: CodeValidator, check: OverchargeChecker): ValidationResult
    requires AllApplicable(items, fs)
    decreases |fs|
  {
    if |fs| == 0 then r
    else Apply(items, Record(items, r, fs[0], validate, check), fs[1..], validate, check)
  }

  /** The result one pass should return for a bill. */
  function Outcome(bill: StructuredBill, validate: CodeValidator, check: OverchargeChecker): ValidationResult {
    match bill.lineItems
    case None => EmptyResult
    case Some(items) =>
      FindingsApplicable(items, validate, check);
      var r := Apply(items, EmptyResult, Findings(items, validate, check), validate, check);
      r.(totalIssues := |r.flags|)
  }

  /** Applying a list of findings appends exactly their flags, in order,
      and leaves the issue counter alone. */
  lemma {:induction false} ApplyAppendsFlags(items: seq<LineItem>, r: ValidationResult, fs: seq<Finding>,
                                             validate: CodeValidator, check: OverchargeChecker)
    requires AllApplicable(items, fs)
    ensures var r' := Apply(items, r, fs, validate, check);
      && |r'.flags| == |r.flags| + |fs|
      && r'.flags[..|r.flags|] == r.flags
      && r'.totalIssues == r.totalIssues
      && forall k :: 0 <= k < |fs| ==> r'.flags[|r.flags| + k] == FlagFor(items, fs[k], validate, check)
    decreases |fs|
  {
    if |fs| > 0 {
      var r1 := Record(items, r, fs[0], validate, check);
      RecordAppendsFlag(items, r, fs[0], validate, check);
      ApplyAppendsFlags(items, r1, fs[1..], validate, check);
      AppendsFlagsStep(items, r, r1, Apply(items, r1, fs[1..], validate, check), fs, validate, check);
    }
  }

  /** r' extends r's flags by one flag per finding, the counter untouched. */
  predicate AppendsFlags(items: seq<LineItem>, r: ValidationResult, r': ValidationResult, fs: seq<Finding>,
                         validate: CodeValidator, check: OverchargeChecker)
    requires AllApplicable(items, fs)
  {
    && |r'.flags| == |r.flags| + |fs|
    && r'.flags[..|r.flags|] == r.flags
    && r'.totalIssues == r.totalIssues
    && forall k :: 0 <= k < |fs| ==> r'.flags[|r.flags| + k] == FlagFor(items, fs[k], validate, check)
  }

  /** Recording one finding pushes exactly its flag. */
  lemma RecordAppendsFlag(items: seq<LineItem>, r: ValidationResult, f: Finding,
                          validate: CodeValidator, check: OverchargeChecker)
    requires Applicable(items, f)
    ensures Record(items, r, f, validate, check).flags == r.flags + [FlagFor(items, f, validate, check)]
    ensures Record(items, r, f, validate, check).totalIssues == r.totalIssues
  {
  }

  lemma AppendsFlagsStep(items: seq<LineItem>, r: ValidationResult, r1: ValidationResult, r': ValidationResult,
                         fs: seq<Finding>, validate: CodeValidator, check: OverchargeChecker)
    requires |fs| > 0 && AllApplicable(items, fs)
    requires r1.flags == r.flags + [FlagFor(items, fs[0], validate, check)] && r1.totalIssues == r.totalIssues
    requires AppendsFlags(items, r1, r', fs[1..], validate, check)
    ensures AppendsFlags(items, r, r', fs, validate, check)
  {
    assert r'.flags[..|r.flags|] == r'.flags[..|r1.flags|][..|r.flags|];
    forall k | 0 <= k < |fs|
      ensures r'.flags[|r.flags| + k] == FlagFor(items, fs[k], validate, check)
    {
      if k > 0 {
        assert fs[1..][k - 1] == fs[k];
        assert r'.flags[|r1.flags| + (k - 1)] == FlagFor(items, fs[1..][k - 1], validate, check);
      } else {
        assert r'.flags[..|r1.flags|][|r.flags|] == r1.flags[|r.flags|];
      }
    }
  }

  /** Applying findings keeps the detail arrays aligned with the flags and
      every severity fixed by kind. */
  lemma {:induction false} ApplyKeepsInvariants(items: seq<LineItem>, r: ValidationResult, fs: seq<Finding>,
                                                validate: CodeValidator, check: OverchargeChecker)
    requires AllApplicable(items, fs)
    requires DetailsMatchFlags(r) && SeveritiesFixed(r.flags)
    ensures DetailsMatchFlags(Apply(items, r, fs, validate, check))
    ensures SeveritiesFixed(Apply(items, r, fs, validate, check).flags)
    decreases |fs|
  {
    if |fs| > 0 {
      var f := fs[0];
      var item := items[f.index];
      match f.kind {
        case Duplicate => RecordDuplicateKeepsInvariants(r, item);
        case InvalidCode => RecordInvalidCodeKeepsInvariants(r, item, validate(item.code.value, item.codeType.value));
        case Overcharge => RecordOverchargeKeepsInvariants(r, item, check(item.code.value, item.totalCharge));
      }
      ApplyKeepsInvariants(items, Record(items, r, f, validate, check), fs[1..], validate, check);
    }
  }

  /** Applying a concatenation is applying its parts in turn. */
  lemma {:induction false} ApplyConcat(items: seq<LineItem>, r: ValidationResult, a: seq<Finding>, b: seq<Finding>,
                                       validate: CodeValidator, check: OverchargeChecker)
    requires AllApplicable(items, a) && AllApplicable(items, b)
    ensures AllApplicable(items, a + b)
    ensures Apply(items, r, a + b, validate, check)
         == Apply(items, Apply(items, r, a, validate, check), b, validate, check)
    decreases |a|
  {
    assert forall k :: 0 <= k < |a + b| ==> (a + b)[k] == (if k < |a| then a[k] else b[k - |a|]);
    if |a| > 0 {
      assert (a + b)[1..] == a[1..] + b;
      ApplyConcat(items, Record(items, r, a[0], validate, check), a[1..], b, validate, check);
    } else {
      assert a + b == b;
    }
  }
}
