/** The data a validation pass reads and produces: extracted line items, the
    answers of the two external oracles (code validator and benchmark
    checker), flags, the per-type detail records, and the aggregate result.
    The push helpers here are the only way flags and detail records are
    created, so both service copies and the reference build identical
    records. */
module Bill {
  import opened Js

  /** One extracted line item as the language model returns it. Every field
      may be missing from the JSON. */
  datatype LineItem = LineItem(
    description: Option<string>,
    code: Option<string>,
    codeType: Option<string>,
    quantity: Option<int>,
    unitPrice: Option<real>,
    totalCharge: Option<real>)

  /** The parsed model output; only `line_items` is read by validation. */
  datatype StructuredBill = StructuredBill(lineItems: Option<seq<LineItem>>)

  /** Answer of `validateMedicalCode(code, codeType)`. */
  datatype CodeValidation = CodeValidation(valid: bool, message: string)

  /** Answer of `isOvercharged(code, charge)`; `percentOver` is a whole
      percentage and `benchmark` is null when no reference price exists. */
  datatype OverchargeCheck = OverchargeCheck(
    isOvercharged: bool,
    benchmark: Option<real>,
    percentOver: int,
    potentialSavings: real,
    message: string)

  /** The two oracles, whose bodies live outside this model. */
  type CodeValidator = (string, string) -> CodeValidation
  type OverchargeChecker = (string, Option<real>) -> OverchargeCheck

  datatype FlagKind = Duplicate | InvalidCode | Overcharge

  datatype Severity = High | Medium | Low

  datatype Flag = Flag(
    kind: FlagKind,
    severity: Severity,
    code: Option<string>,
    message: string,
    potentialSavings: Option<real>)

  datatype DuplicateRecord = DuplicateRecord(code: Option<string>, description: Option<string>, occurrences: nat)

  datatype InvalidCodeRecord = InvalidCodeRecord(code: string, codeType: string, message: string)

  datatype OverchargeRecord = OverchargeRecord(
    code: string,
    description: Option<string>,
    charged: Option<real>,
    benchmark: Option<real>,
    percentOver: int,
    potentialSavings: real)

  /** The object `runValidationChecks` returns. */
  datatype ValidationResult = ValidationResult(
    flags: seq<Flag>,
    duplicates: seq<DuplicateRecord>,
    overcharges: seq<OverchargeRecord>,
    invalidCodes: seq<InvalidCodeRecord>,
    totalIssues: nat)

  const EmptyResult := ValidationResult([], [], [], [], 0)

  /** The duplicate-detection key: the template `${code}_${description}`,
      in which a missing field prints as "undefined". */
  function DuplicateKey(item: LineItem): string {
    Render(item.code) + "_" + Render(item.description)
  }

  /** `item.code && item.code_type`: the validator is consulted. */
  predicate ValidatorApplies(item: LineItem) {
    Truthy(item.code) && Truthy(item.codeType)
  }

  /** `item.code && item.code_type === 'CPT'`: the benchmark is consulted. */
  predicate CheckerApplies(item: LineItem) {
    Truthy(item.code) && item.codeType == Some("CPT")
  }

  function DuplicateFlag(item: LineItem): Flag {
    Flag(Duplicate, High, item.code, "Duplicate charge detected: " + Render(item.description), None)
  }

  function InvalidCodeFlag(item: LineItem, validation: CodeValidation): Flag
    requires ValidatorApplies(item)
  {
    Flag(InvalidCode, Medium, item.code,
         "Invalid code: " + item.code.value + " - " + validation.message, None)
  }

  function OverchargeFlag(item: LineItem, check: OverchargeCheck): Flag
    requires CheckerApplies(item)
  {
    Flag(Overcharge, High, item.code,
         "Charge is " + IntToString(check.percentOver) + "% above benchmark",
         Some(check.potentialSavings))
  }

  /** Push a duplicate record (always with 2 occurrences) and its flag. */
  function RecordDuplicate(r: ValidationResult, item: LineItem): ValidationResult {
    r.(duplicates := r.duplicates + [DuplicateRecord(item.code, item.description, 2)],
       flags := r.flags + [DuplicateFlag(item)])
  }

  function RecordInvalidCode(r: ValidationResult, item: LineItem, validation: CodeValidation): ValidationResult
    requires ValidatorApplies(item)
  {
    r.(invalidCodes := r.invalidCodes + [InvalidCodeRecord(item.code.value, item.codeType.value, validation.message)],
       flags := r.flags + [InvalidCodeFlag(item, validation)])
  }

  function RecordOvercharge(r: ValidationResult, item: LineItem, check: OverchargeCheck): ValidationResult
    requires CheckerApplies(item)
  {
    r.(overcharges := r.overcharges + [OverchargeRecord(item.code.value, item.description, item.totalCharge,
                                                        check.benchmark, check.percentOver, check.potentialSavings)],
       flags := r.flags + [OverchargeFlag(item, check)])
  }

  /** The flags of one kind, in order. */
  function OfKind(flags: seq<Flag>, kind: FlagKind): (r: seq<Flag>)
    ensures |r| <= |flags|
    ensures forall k :: 0 <= k < |r| ==> r[k].kind == kind && r[k] in flags
  {
    if |flags| == 0 then []
    else
      var last := flags[|flags| - 1];
      OfKind(flags[..|flags| - 1], kind) + (if last.kind == kind then [last] else [])
  }

  /** The detail arrays are views over `flags`: the k-th record of a kind
      belongs to the k-th flag of that kind (same code, and for overcharges
      the same savings figure). */
  predicate DetailsMatchFlags(r: ValidationResult) {
    var d, i, o := OfKind(r.flags, Duplicate), OfKind(r.flags, InvalidCode), OfKind(r.flags, Overcharge);
    && |r.duplicates| == |d|
    && |r.invalidCodes| == |i|
    && |r.overcharges| == |o|
    && (forall k :: 0 <= k < |d| ==> r.duplicates[k].code == d[k].code)
    && (forall k :: 0 <= k < |i| ==> Some(r.invalidCodes[k].code) == i[k].code)
    && (forall k :: 0 <= k < |o| ==> Some(r.overcharges[k].code) == o[k].code
                                      && Some(r.overcharges[k].potentialSavings) == o[k].potentialSavings)
  }

  /** Every flag carries the severity fixed for its kind. */
  predicate SeveritiesFixed(flags: seq<Flag>) {
    forall k :: 0 <= k < |flags| ==>
      && (flags[k].kind == Duplicate ==> flags[k].severity == High)
      && (flags[k].kind == InvalidCode ==> flags[k].severity == Medium)
      && (flags[k].kind == Overcharge ==> flags[k].severity == High)
  }

  /** Pushing a duplicate keeps the detail arrays aligned with the flags and
      the severities fixed. */
  lemma RecordDuplicateKeepsInvariants(r: ValidationResult, item: LineItem)
    requires DetailsMatchFlags(r) && SeveritiesFixed(r.flags)
    ensures DetailsMatchFlags(RecordDuplicate(r, item)) && SeveritiesFixed(RecordDuplicate(r, item).flags)
  {
    var r' := RecordDuplicate(r, item);
    assert r'.flags[..|r'.flags| - 1] == r.flags;
  }

  lemma RecordInvalidCodeKeepsInvariants(r: ValidationResult, item: LineItem, validation: CodeValidation)
    requires ValidatorApplies(item)
    requires DetailsMatchFlags(r) && SeveritiesFixed(r.flags)
    ensures DetailsMatchFlags(RecordInvalidCode(r, item, validation))
    ensures SeveritiesFixed(RecordInvalidCode(r, item, validation).flags)
  {
    var r' := RecordInvalidCode(r, item, validation);
    assert r'.flags[..|r'.flags| - 1] == r.flags;
  }

  lemma RecordOverchargeKeepsInvariants(r: ValidationResult, item: LineItem, check: OverchargeCheck)
    requires CheckerApplies(item)
    requires DetailsMatchFlags(r) && SeveritiesFixed(r.flags)
    ensures DetailsMatchFlags(RecordOvercharge(r, item, check))
    ensures SeveritiesFixed(RecordOvercharge(r, item, check).flags)
  {
    var r' := RecordOvercharge(r, item, check);
    assert r'.flags[..|r'.flags| - 1] == r.flags;
  }

  // ---------------------------------------------------------------------
  // Database rows written by the services
  // ---------------------------------------------------------------------

  /** One row of `bill_line_items` as inserted. */
  datatype LineItemRow = LineItemRow(
    billId: string,
    description: string,
    code: Option<string>,
    codeType: Option<string>,
    chargeAmount: real,
    quantity: int,
    serviceDate: Option<string>)

  /** The defaults applied to each item (`||` on every field). */
  predicate RowDefaults(billId: string, item: LineItem, row: LineItemRow) {
    && row.billId == billId
    && (Truthy(item.description) ==> row.description == item.description.value)
    && (!Truthy(item.description) ==> row.description == "Unknown")
    && (Truthy(item.code) ==> row.code == item.code)
    && (!Truthy(item.code) ==> row.code.None?)
    && (Truthy(item.codeType) ==> row.codeType == item.codeType)
    && (!Truthy(item.codeType) ==> row.codeType.None?)
    && row.chargeAmount == item.totalCharge.GetOr(0.0)
    && (item.quantity.Some? && item.quantity.value != 0 ==> row.quantity == item.quantity.value)
    && (item.quantity.None? || item.quantity.value == 0 ==> row.quantity == 1)
    && row.serviceDate.None?
  }

  /** Reading a stored row back as a line item. */
  function ItemOfRow(row: LineItemRow): LineItem {
    LineItem(Some(row.description), row.code, row.codeType, Some(row.quantity), None, Some(row.chargeAmount))
  }

  /** The fields of the model's analysis report that the record reads. */
  datatype AnalysisReport = AnalysisReport(
    totalFlags: Option<int>,
    potentialSavings: Option<real>,
    summary: Option<string>,
    recommendations: Option<seq<string>>)

  /** One row of `bill_analyses` as inserted. */
  datatype AnalysisRecord = AnalysisRecord(
    billId: string,
    totalFlags: int,
    potentialSavings: real,
    summary: string,
    detailedReport: AnalysisReport,
    recommendations: seq<string>)
}
