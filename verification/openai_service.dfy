/** The deterministic parts of src/services/aiAnalysisOpenAI.js, the OpenAI
    variant of the analysis service. Its code repeats the Anthropic
    variant; the one textual difference is that the duplicate map stores
    the item instead of its index. Each member here is proved to agree with
    its Anthropic counterpart on every input and every pair of oracles. */
module OpenAIService {
  import opened Js
  import opened Text
  import opened Bill
  import AnthropicService

  /** Phase 1; `seen` maps each key met so far to the item last seen with it. */
  function ScanDuplicates(items: seq<LineItem>, index: nat, seen: map<string, LineItem>,
                          results: ValidationResult): ValidationResult
    requires index <= |items|
    decreases |items| - index
  {
    if index == |items| then results
    else
      var item := items[index];
      var key := DuplicateKey(item);
      var results' := if key in seen then RecordDuplicate(results, item) else results;
      ScanDuplicates(items, index + 1, seen[key := item], results')
  }

  /** Phase 2, identical in shape to the Anthropic loop. */
  function CheckItems(items: seq<LineItem>, index: nat, validate: CodeValidator, check: OverchargeChecker,
                      results: ValidationResult): ValidationResult
    requires index <= |items|
    decreases |items| - index
  {
    if index == |items| then results
    else
      var item := items[index];
      var afterCode :=
        if Truthy(item.code) && Truthy(item.codeType) then
          var validation := validate(item.code.value, item.codeType.value);
          if !validation.valid then RecordInvalidCode(results, item, validation) else results
        else results;
      var afterPrice :=
        if Truthy(item.code) && item.codeType == Some("CPT") then
          var overchargeCheck := check(item.code.value, item.totalCharge);
          if overchargeCheck.isOvercharged then RecordOvercharge(afterCode, item, overchargeCheck) else afterCode
        else afterCode;
      CheckItems(items, index + 1, validate, check, afterPrice)
  }

  function RunValidationChecks(bill: StructuredBill, validate: CodeValidator, check: OverchargeChecker)
    : (results: ValidationResult)
    ensures results.totalIssues == |results.flags|
  {
    match bill.lineItems
    case None => EmptyResult
    case Some(items) =>
      var afterDuplicates := ScanDuplicates(items, 0, map[], EmptyResult);
      var afterChecks := CheckItems(items, 0, validate, check, afterDuplicates);
      afterChecks.(totalIssues := |afterChecks.flags|)
  }

  /** Only the keys of the duplicate map are ever read, so the two scans
      agree whenever their maps hold the same keys. */
  lemma {:induction false} ScanDuplicatesAgree(items: seq<LineItem>, index: nat,
                                               seenItems: map<string, LineItem>, seenIndices: map<string, nat>,
                                               results: ValidationResult)
    requires index <= |items|
    requires seenItems.Keys == seenIndices.Keys
    ensures ScanDuplicates(items, index, seenItems, results)
         == AnthropicService.ScanDuplicates(items, index, seenIndices, results)
    decreases |items| - index
  {
    if index < |items| {
      var item := items[index];
      var key := DuplicateKey(item);
      var results' := if key in seenItems then RecordDuplicate(results, item) else results;
      ScanDuplicatesAgree(items, index + 1, seenItems[key := item], seenIndices[key := index], results');
    }
  }

  lemma {:induction false} CheckItemsAgree(items: seq<LineItem>, index: nat, validate: CodeValidator,
                                           check: OverchargeChecker, results: ValidationResult)
    requires index <= |items|
    ensures CheckItems(items, index, validate, check, results)
         == AnthropicService.CheckItems(items, index, validate, check, results)
    decreases |items| - index
  {
    if index < |items| {
      var item := items[index];
      var afterCode :=
        if Truthy(item.code) && Truthy(item.codeType) then
          var validation := validate(item.code.value, item.codeType.value);
          if !validation.valid then RecordInvalidCode(results, item, validation) else results
        else results;
      var afterPrice :=
        if Truthy(item.code) && item.codeType == Some("CPT") then
          var overchargeCheck := check(item.code.value, item.totalCharge);
          if overchargeCheck.isOvercharged then RecordOvercharge(afterCode, item, overchargeCheck) else afterCode
        else afterCode;
      CheckItemsAgree(items, index + 1, validate, check, afterPrice);
    }
  }

  /** Given the same bill and oracles, both providers report the same
      result, flag for flag. */
  lemma RunAgreesWithAnthropic(bill: StructuredBill, validate: CodeValidator, check: OverchargeChecker)
    ensures RunValidationChecks(bill, validate, check) == AnthropicService.RunValidationChecks(bill, validate, check)
  {
    if bill.lineItems.Some? {
      var items := bill.lineItems.value;
      ScanDuplicatesAgree(items, 0, map[], map[], EmptyResult);
      var afterDuplicates := ScanDuplicates(items, 0, map[], EmptyResult);
      CheckItemsAgree(items, 0, validate, check, afterDuplicates);
    }
  }

  /** The `saveLineItems` payload, or None when nothing is inserted. */
  function LineItemRows(billId: string, lineItems: Option<seq<LineItem>>): (rows: Option<seq<LineItemRow>>)
    ensures rows == AnthropicService.LineItemRows(billId, lineItems)
  {
    if lineItems.None? || |lineItems.value| == 0 then None
    else
      var items := lineItems.value;
      var rows := seq(|items|, i requires 0 <= i < |items| =>
        LineItemRow(billId,
                    StringOr(items[i].description, "Unknown"),
                    StringOrNull(items[i].code),
                    StringOrNull(items[i].codeType),
                    RealOr(items[i].totalCharge, 0.0),
                    IntOr(items[i].quantity, 1),
                    None));
      var theirs := AnthropicService.LineItemRows(billId, lineItems).value;
      assert |theirs| == |rows|;
      assert forall i :: 0 <= i < |items| ==> rows[i] == AnthropicService.RowOf(billId, items[i]) == theirs[i];
      assert rows == theirs;
      Some(rows)
  }

  /** The record `saveAnalysis` inserts. */
  function AnalysisRow(billId: string, report: AnalysisReport): (rec: AnalysisRecord)
    ensures rec == AnthropicService.AnalysisRow(billId, report)
  {
    AnalysisRecord(billId,
                   IntOr(report.totalFlags, 0),
                   RealOr(report.potentialSavings, 0.0),
                   StringOr(report.summary, "Analysis complete"),
                   report,
                   if report.recommendations.Some? then report.recommendations.value else [])
  }

  /** The clean-up of the model's reply before `JSON.parse`. */
  function StripCodeFences(responseText: string): (cleaned: string)
    ensures cleaned == AnthropicService.StripCodeFences(responseText)
  {
    var trimmed := Trim(responseText);
    var noJsonFence := RemoveToken(trimmed, "```json");
    var noFence := RemoveToken(noJsonFence, "```");
    Trim(noFence)
  }
}
