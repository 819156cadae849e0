/** The deterministic parts of src/services/aiAnalysis.js (the Anthropic
    variant of the analysis service): the validation pass, the mapping of
    line items to database rows, the analysis record defaults, and the
    clean-up of model output before JSON parsing. Database writes and model
    calls are left to the caller; each function here returns the value that
    would be written or parsed. */
module AnthropicService {
  import opened Js
  import opened Text
  import opened Bill
  import opened ValidationReference

  // ---------------------------------------------------------------------
  // runValidationChecks
  // ---------------------------------------------------------------------

  /** Phase 1, the `forEach` over the items: `seen` maps each key met so far
      to the index where it was last seen. */
  function ScanDuplicates(items: seq<LineItem>, index: nat, seen: map<string, nat>,
                          results: ValidationResult): ValidationResult
    requires index <= |items|
    decreases |items| - index
  {
    if index == |items| then results
    else
      var item := items[index];
      var key := DuplicateKey(item);
      var results' := if key in seen then RecordDuplicate(results, item) else results;
      ScanDuplicates(items, index + 1, seen[key := index], results')
  }

  /** Phase 2, the `for ... of` loop: the validator and the benchmark are
      consulted independently for each item. */
  function CheckItems(items: seq<LineItem>, index: nat, validate: CodeValidator, check: OverchargeChecker,
                      results: ValidationResult): ValidationResult
    requires index <= |items|
    decreases |items| - index
  {
    if index == |items| then results
    else
      var item := items[index];
      var afterCode :=
        if Truthy(item.code) && Truthy(item.codeType) then
          var validation := validate(item.code.value, item.codeType.value);
          if !validation.valid then RecordInvalidCode(results, item, validation) else results
        else results;
      var afterPrice :=
        if Truthy(item.code) && item.codeType == Some("CPT") then
          var overchargeCheck := check(item.code.value, item.totalCharge);
          if overchargeCheck.isOvercharged then RecordOvercharge(afterCode, item, overchargeCheck) else afterCode
        else afterCode;
      CheckItems(items, index + 1, validate, check, afterPrice)
  }

  /** `runValidationChecks(billId, structuredData)` without the per-item
      database update (which does not influence the result). */
  function RunValidationChecks(bill: StructuredBill, validate: CodeValidator, check: OverchargeChecker)
    : (results: ValidationResult)
    ensures results.totalIssues == |results.flags|
  {
    match bill.lineItems
    case None => EmptyResult
    case Some(items) =>
      var afterDuplicates := ScanDuplicates(items, 0, map[], EmptyResult);
      var afterChecks := CheckItems(items, 0, validate, check, afterDuplicates);
      afterChecks.(totalIssues := |afterChecks.flags|)
  }

  /** The keys of the items before position index. */
  ghost function KeysBefore(items: seq<LineItem>, index: nat): set<string>
    requires index <= |items|
  {
    set j | 0 <= j < index :: DuplicateKey(items[j])
  }

  lemma KeysBeforeStep(items: seq<LineItem>, index: nat)
    requires index < |items|
    ensures DuplicateKey(items[index]) in KeysBefore(items, index) <==> IsRepeat(items, index)
    ensures KeysBefore(items, index + 1) == KeysBefore(items, index) + {DuplicateKey(items[index])}
  {
    if IsRepeat(items, index) {
      var j :| 0 <= j < index && DuplicateKey(items[j]) == DuplicateKey(items[index]);
      assert DuplicateKey(items[j]) in KeysBefore(items, index);
    }
  }

  /** One step of the duplicate scan: the item is recorded exactly when it
      repeats an earlier key, and the updated map holds the keys up to and
      including it. */
  lemma ScanDuplicatesStep(items: seq<LineItem>, index: nat, seen: map<string, nat>, results: ValidationResult)
    requires index < |items|
    requires seen.Keys == KeysBefore(items, index)
    ensures seen[DuplicateKey(items[index]) := index].Keys == KeysBefore(items, index + 1)
    ensures ScanDuplicates(items, index, seen, results)
         == ScanDuplicates(items, index + 1, seen[DuplicateKey(items[index]) := index],
                           if IsRepeat(items, index) then RecordDuplicate(results, items[index]) else results)
  {
    KeysBeforeStep(items, index);
  }

  /** The duplicate scan emits exactly the duplicate findings, provided the
      map holds the keys of the items already scanned. */
  lemma {:induction false} ScanDuplicatesFollowsReference(
    items: seq<LineItem>, index: nat, seen: map<string, nat>, results: ValidationResult,
    validate: CodeValidator, check: OverchargeChecker)
    requires index <= |items|
    requires seen.Keys == KeysBefore(items, index)
    ensures ScanDuplicates(items, index, seen, results)
         == Apply(items, results, DuplicateFindings(items, index), validate, check)
    decreases |items| - index
  {
    if index < |items| {
      var seen' := seen[DuplicateKey(items[index]) := index];
      var results' := if IsRepeat(items, index) then RecordDuplicate(results, items[index]) else results;
      ScanDuplicatesStep(items, index, seen, results);
      DuplicateFindingsStep(items, index, results, validate, check);
      ScanDuplicatesFollowsReference(items, index + 1, seen', results', validate, check);
    } else {
      assert DuplicateFindings(items, index) == [];
    }
  }

  /** One step of the reference duplicate findings, applied. */
  lemma DuplicateFindingsStep(items: seq<LineItem>, index: nat, results: ValidationResult,
                              validate: CodeValidator, check: OverchargeChecker)
    requires index < |items|
    ensures AllApplicable(items, DuplicateFindings(items, index))
    ensures Apply(items, results, DuplicateFindings(items, index), validate, check)
         == Apply(items, if IsRepeat(items, index) then RecordDuplicate(results, items[index]) else results,
                  DuplicateFindings(items, index + 1), validate, check)
  {
    var rest := DuplicateFindings(items, index + 1);
    if IsRepeat(items, index) {
      var f := Finding(Duplicate, index);
      assert DuplicateFindings(items, index) == [f] + rest;
      assert ([f] + rest)[1..] == rest;
    }
  }

  lemma CheckFindingsApplicable(items: seq<LineItem>, lo: nat, validate: CodeValidator, check: OverchargeChecker)
    requires lo <= |items|
    ensures AllApplicable(items, CheckFindings(items, lo, validate, check))
  {
  }

  /** The item loop emits exactly the phase-two findings. */
  lemma {:induction false} CheckItemsFollowsReference(
    items: seq<LineItem>, index: nat, validate: CodeValidator, check: OverchargeChecker, results: ValidationResult)
    requires index <= |items|
    ensures AllApplicable(items, CheckFindings(items, index, validate, check))
    ensures CheckItems(items, index, validate, check, results)
         == Apply(items, results, CheckFindings(items, index, validate, check), validate, check)
    decreases |items| - index
  {
    CheckFindingsApplicable(items, index, validate, check);
    if index < |items| {
      var item := items[index];
      var here := ItemFindings(items, index, validate, check);
      var rest := CheckFindings(items, index + 1, validate, check);
      CheckFindingsApplicable(items, index + 1, validate, check);
      assert AllApplicable(items, here);
      var afterCode :=
        if Truthy(item.code) && Truthy(item.codeType) then
          var validation := validate(item.code.value, item.codeType.value);
          if !validation.valid then RecordInvalidCode(results, item, validation) else results
        else results;
      var afterPrice :=
        if Truthy(item.code) && item.codeType == Some("CPT") then
          var overchargeCheck := check(item.code.value, item.totalCharge);
          if overchargeCheck.isOvercharged then RecordOvercharge(afterCode, item, overchargeCheck) else afterCode
        else afterCode;
      var a := if FailsValidation(item, validate) then [Finding(InvalidCode, index)] else [];
      var b := if ReportedOvercharged(item, check) then [Finding(Overcharge, index)] else [];
      assert here == a + b;
      assert Apply(items, results, a, validate, check) == afterCode;
      assert Apply(items, afterCode, b, validate, check) == afterPrice;
      ApplyConcat(items, results, a, b, validate, check);
      ApplyConcat(items, results, here, rest, validate, check);
      CheckItemsFollowsReference(items, index + 1, validate, check, afterPrice);
    }
  }

  /** The as-written pass returns exactly the reference outcome. */
  lemma RunMatchesReference(bill: StructuredBill, validate: CodeValidator, check: OverchargeChecker)
    ensures RunValidationChecks(bill, validate, check) == Outcome(bill, validate, check)
  {
    if bill.lineItems.Some? {
      var items := bill.lineItems.value;
      assert KeysBefore(items, 0) == {};
      ScanDuplicatesFollowsReference(items, 0, map[], EmptyResult, validate, check);
      var afterDuplicates := ScanDuplicates(items, 0, map[], EmptyResult);
      CheckItemsFollowsReference(items, 0, validate, check, afterDuplicates);
      ApplyConcat(items, EmptyResult, DuplicateFindings(items, 0), CheckFindings(items, 0, validate, check),
                  validate, check);
    }
  }

  // ---------------------------------------------------------------------
  // saveLineItems
  // ---------------------------------------------------------------------

  function RowOf(billId: string, item: LineItem): (row: LineItemRow)
    ensures RowDefaults(billId, item, row)
  {
    LineItemRow(billId,
                StringOr(item.description, "Unknown"),
                StringOrNull(item.code),
                StringOrNull(item.codeType),
                RealOr(item.totalCharge, 0.0),
                IntOr(item.quantity, 1),
                None)
  }

  /** The payload `saveLineItems` inserts, or None when it returns early
      without touching the database. */
  function LineItemRows(billId: string, lineItems: Option<seq<LineItem>>): (rows: Option<seq<LineItemRow>>)
    ensures rows.None? <==> lineItems.None? || |lineItems.value| == 0
    ensures rows.Some? ==> |rows.value| == |lineItems.value|
    ensures rows.Some? ==> forall i :: 0 <= i < |rows.value| ==> RowDefaults(billId, lineItems.value[i], rows.value[i])
  {
    if lineItems.None? || |lineItems.value| == 0 then None
    else
      var items := lineItems.value;
      Some(seq(|items|, i requires 0 <= i < |items| => RowOf(billId, items[i])))
  }

  /** Rows are a normal form: mapping a stored row again reproduces it. */
  lemma RowsAreNormalForm(billId: string, item: LineItem)
    ensures RowOf(billId, ItemOfRow(RowOf(billId, item))) == RowOf(billId, item)
  {
  }

  // ---------------------------------------------------------------------
  // saveAnalysis
  // ---------------------------------------------------------------------

  /** The record `saveAnalysis` inserts. Since 0 is both falsy and the
      default, the numeric `|| 0` defaults amount to "0 when missing"; an
      array is always truthy, so an empty recommendation list is kept. */
  function AnalysisRow(billId: string, report: AnalysisReport): (rec: AnalysisRecord)
    ensures rec.billId == billId && rec.detailedReport == report
    ensures rec.totalFlags == report.totalFlags.GetOr(0)
    ensures rec.potentialSavings == report.potentialSavings.GetOr(0.0)
    ensures |rec.summary| > 0
    ensures Truthy(report.summary) ==> rec.summary == report.summary.value
    ensures !Truthy(report.summary) ==> rec.summary == "Analysis complete"
    ensures rec.recommendations == report.recommendations.GetOr([])
  {
    AnalysisRecord(billId,
                   IntOr(report.totalFlags, 0),
                   RealOr(report.potentialSavings, 0.0),
                   StringOr(report.summary, "Analysis complete"),
                   report,
                   if report.recommendations.Some? then report.recommendations.value else [])
  }

  // ---------------------------------------------------------------------
  // Cleaning the model's reply before JSON.parse
  // ---------------------------------------------------------------------

  /** The clean-up in `extractStructuredData` and `generateAnalysisReport`. */
  function StripCodeFences(responseText: string): (cleaned: string)
    ensures |cleaned| <= |responseText|
    ensures |cleaned| > 0 ==> !IsWhitespace(cleaned[0]) && !IsWhitespace(cleaned[|cleaned| - 1])
  {
    var trimmed := Trim(responseText);
    var noJsonFence := RemoveToken(trimmed, "```json");
    var noFence := RemoveToken(noJsonFence, "```");
    Trim(noFence)
  }

  /** Text without backticks is only trimmed. */
  lemma PlainReplyIsOnlyTrimmed(text: string)
    requires BacktickFree(text)
    ensures StripCodeFences(text) == Trim(text)
  {
    var t := Trim(text);
    assert BacktickFree(t) by {
      var s := TrimStart(text);
      assert t == s[..|t|];
      assert s == text[|text| - |s|..];
    }
    RemoveTokenSkipsPlainText(t, "", "```json");
    RemoveTokenSkipsPlainText(t, "", "```");
    assert t + "" == t;
    TrimIdempotent(text);
  }

  lemma RemoveJsonFenceOfShortTail()
    ensures RemoveToken("```", "```json") == "```"
  {
    assert RemoveToken("`", "```json") == ['`'] + RemoveToken("", "```json");
    assert RemoveToken("``", "```json") == ['`'] + RemoveToken("`", "```json");
    assert RemoveToken("```", "```json") == ['`'] + RemoveToken("``", "```json");
  }

  lemma RemoveFenceOfFence()
    ensures RemoveToken("```", "```") == ""
  {
    assert "```"[..3] == "```";
    assert "```"[3..] == "";
  }

  /** The opening fence and the newline after it are removed in one step. */
  lemma RemoveOpeningFence(body: string)
    ensures RemoveToken("```json\n" + body + "\n```", "```json") == RemoveToken(body + "\n```", "```json")
  {
    var reply := "```json\n" + body + "\n```";
    assert reply[..7] == "```json";
    assert reply[7..][0] == '\n';
    assert reply[7..][1..] == body + "\n```";
  }

  /** A reply fenced as a json code block yields its (trimmed) body. */
  lemma FencedReplyYieldsBody(body: string)
    requires BacktickFree(body)
    ensures StripCodeFences("```json\n" + body + "\n```") == Trim(body)
  {
    var reply := "```json\n" + body + "\n```";
    assert reply[0] == '`' && reply[|reply| - 1] == '`';
    TrimKeepsTrimmed(reply);
    var bodyNl := body + "\n";
    assert BacktickFree(bodyNl);
    RemoveOpeningFence(body);
    assert body + "\n```" == bodyNl + "```";
    RemoveTokenSkipsPlainText(bodyNl, "```", "```json");
    RemoveJsonFenceOfShortTail();
    var afterJson := RemoveToken(reply, "```json");
    assert afterJson == bodyNl + "```";
    RemoveTokenSkipsPlainText(bodyNl, "```", "```");
    RemoveFenceOfFence();
    assert RemoveToken(afterJson, "```") == bodyNl + "";
    assert bodyNl + "" == bodyNl;
    TrimIgnoresTrailingWhitespace(body, "\n");
  }
}
