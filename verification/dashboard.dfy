/** The pure fragments of src/pages/Dashboard.jsx: the search filter over
    the bill list, the integer statistics computed after a fetch, and the
    status badge, issue count and summary preview of one bill row. */
module Dashboard {
  import opened Js
  import opened Text

  /** The joined `bill_analyses` columns the list reads. */
  datatype AnalysisSummary = AnalysisSummary(totalFlags: Option<int>, summary: Option<string>)

  /** A fetched `medical_bills` row with its analyses. */
  datatype BillRow = BillRow(providerName: Option<string>, fileName: Option<string>,
                             status: Option<string>, analyses: seq<AnalysisSummary>)

  /** `field?.toLowerCase().includes(query.toLowerCase())`; an absent field
      yields `undefined`, which is falsy. */
  predicate FieldMatches(field: Option<string>, query: string) {
    field.Some? && Includes(Lower(field.value), Lower(query))
  }

  /** The predicate passed to `bills.filter`. */
  predicate Keeps(query: string, bill: BillRow) {
    |query| == 0 || FieldMatches(bill.providerName, query) || FieldMatches(bill.fileName, query)
  }

  /** xs can be obtained from ys by deleting elements. */
  predicate IsSubsequence<T(==)>(xs: seq<T>, ys: seq<T>)
    decreases |ys|
  {
    if |xs| == 0 then true
    else if |ys| == 0 then false
    else (xs[0] == ys[0] && IsSubsequence(xs[1..], ys[1..])) || IsSubsequence(xs, ys[1..])
  }

  /** The bills listed under the search box. */
  function FilterBills(bills: seq<BillRow>, query: string): (kept: seq<BillRow>)
    ensures |kept| <= |bills|
    ensures IsSubsequence(kept, bills)
    ensures forall b :: b in kept <==> b in bills && Keeps(query, b)
  {
    if |bills| == 0 then []
    else
      var rest := FilterBills(bills[1..], query);
      assert forall b :: b in bills <==> b == bills[0] || b in bills[1..];
      if Keeps(query, bills[0]) then
        var kept := [bills[0]] + rest;
        assert kept[1..] == rest;
        kept
      else rest
  }

  /** Every copy of a kept bill is listed, and no copy of another. */
  lemma {:induction false} FilterBillsKeepsCopies(bills: seq<BillRow>, query: string)
    ensures forall b :: multiset(FilterBills(bills, query))[b] == if Keeps(query, b) then multiset(bills)[b] else 0
    decreases |bills|
  {
    if |bills| > 0 {
      FilterBillsKeepsCopies(bills[1..], query);
      assert bills == [bills[0]] + bills[1..];
      if Keeps(query, bills[0]) {
        assert FilterBills(bills, query) == [bills[0]] + FilterBills(bills[1..], query);
      }
    }
  }

  /** An empty query lists every bill, in the fetched order. */
  lemma {:induction false} EmptyQueryKeepsAll(bills: seq<BillRow>)
    ensures FilterBills(bills, "") == bills
  {
    if |bills| > 0 {
      EmptyQueryKeepsAll(bills[1..]);
      assert bills == [bills[0]] + bills[1..];
    }
  }

  /** A non-empty query keeps a bill iff its provider or file name contains
      the query, ignoring ASCII case. */
  lemma KeepsIffContains(query: string, bill: BillRow)
    requires |query| > 0
    ensures Keeps(query, bill) <==>
      (bill.providerName.Some? && exists i :: OccursAt(Lower(bill.providerName.value), Lower(query), i))
      || (bill.fileName.Some? && exists i :: OccursAt(Lower(bill.fileName.value), Lower(query), i))
  {
    if bill.providerName.Some? {
      var h, n := Lower(bill.providerName.value), Lower(query);
      assert (exists i :: OccursAt(h, n, i)) <==> exists i :: 0 <= i <= |h| - |n| && OccursAt(h, n, i);
    }
    if bill.fileName.Some? {
      var h, n := Lower(bill.fileName.value), Lower(query);
      assert (exists i :: OccursAt(h, n, i)) <==> exists i :: 0 <= i <= |h| - |n| && OccursAt(h, n, i);
    }
  }

  /** A bill with neither name is never found by a non-empty query. */
  lemma NamelessNeverKept(query: string, bills: seq<BillRow>, status: Option<string>, analyses: seq<AnalysisSummary>)
    requires |query| > 0
    ensures BillRow(None, None, status, analyses) !in FilterBills(bills, query)
  {
  }

  /** Case does not matter on either side. */
  lemma SearchIgnoresCase()
    ensures Keeps("CITY", BillRow(Some("City General"), None, None, []))
    ensures Keeps("city", BillRow(None, Some("BILL_City.pdf"), None, []))
  {
    assert OccursAt(Lower("City General"), Lower("CITY"), 0);
    assert OccursAt(Lower("BILL_City.pdf"), Lower("city"), 5);
  }

  /** `billsData?.length || 0`. */
  function TotalBills(billsData: Option<seq<BillRow>>): (n: nat)
    ensures billsData.None? ==> n == 0
    ensures billsData.Some? ==> n == |billsData.value|
  {
    var length := if billsData.Some? then Some(|billsData.value|) else None;
    IntOr(length, 0)
  }

  /** The bill statistic is the number of rows the list shows before any
      search is typed. */
  lemma TotalBillsCountsListed(bills: seq<BillRow>)
    ensures TotalBills(Some(bills)) == |FilterBills(bills, "")|
  {
    EmptyQueryKeepsAll(bills);
  }

  /** `bill.bill_analyses[0]?.total_flags || 0`. */
  function FlagsOf(bill: BillRow): (n: int)
    ensures |bill.analyses| == 0 ==> n == 0
    ensures |bill.analyses| > 0 ==> n == bill.analyses[0].totalFlags.GetOr(0)
  {
    if |bill.analyses| == 0 then 0
    else
      IntOrZeroIsGetOr(bill.analyses[0].totalFlags);
      IntOr(bill.analyses[0].totalFlags, 0)
  }

  /** The `reduce` callback folded from the left. */
  function FoldFlags(bills: seq<BillRow>, sum: int): int
    decreases |bills|
  {
    if |bills| == 0 then sum else FoldFlags(bills[1..], sum + FlagsOf(bills[0]))
  }

  /** `billsData?.reduce((sum, bill) => sum + …, 0) || 0`. */
  function TotalFlags(billsData: Option<seq<BillRow>>): (n: int)
    ensures billsData.None? ==> n == 0
  {
    if billsData.None? then 0
    else
      var total := FoldFlags(billsData.value, 0);
      if total == 0 then 0 else total
  }

  /** The sum of the flag counts, as a plain recursive definition. */
  function SumFlags(bills: seq<BillRow>): int
    decreases |bills|
  {
    if |bills| == 0 then 0 else FlagsOf(bills[0]) + SumFlags(bills[1..])
  }

  lemma {:induction false} FoldFlagsIsSum(bills: seq<BillRow>, sum: int)
    ensures FoldFlags(bills, sum) == sum + SumFlags(bills)
    decreases |bills|
  {
    if |bills| > 0 {
      FoldFlagsIsSum(bills[1..], sum + FlagsOf(bills[0]));
    }
  }

  /** The flag statistic is the sum over bills of their first analysis's
      count, a bill without an analysis adding nothing. */
  lemma TotalFlagsIsSum(bills: seq<BillRow>)
    ensures TotalFlags(Some(bills)) == SumFlags(bills)
  {
    FoldFlagsIsSum(bills, 0);
  }

  /** Fetching two lists' bills together adds their flag counts. */
  lemma {:induction false} SumFlagsConcat(a: seq<BillRow>, b: seq<BillRow>)
    ensures SumFlags(a + b) == SumFlags(a) + SumFlags(b)
    decreases |a|
  {
    if |a| == 0 {
      assert a + b == b;
    } else {
      assert (a + b)[1..] == a[1..] + b;
      SumFlagsConcat(a[1..], b);
    }
  }

  /** One entry of the `statusConfig` table. */
  datatype StatusConfig = StatusConfig(bg: string, text: string, badge: string)

  const StatusTable: map<string, StatusConfig> := map[
    "uploaded" := StatusConfig("bg-gray-100", "text-gray-700", "Uploaded"),
    "extracted" := StatusConfig("bg-blue-100", "text-blue-700", "Extracting"),
    "analyzed" := StatusConfig("bg-green-100", "text-green-700", "Analyzed"),
    "error" := StatusConfig("bg-red-100", "text-red-700", "Error")
  ]

  /** `statusConfig[bill.status] || statusConfig.uploaded`. */
  function ConfigFor(status: Option<string>): (c: StatusConfig)
    ensures status.Some? && status.value in StatusTable ==> c == StatusTable[status.value]
    ensures !(status.Some? && status.value in StatusTable) ==> c == StatusTable["uploaded"]
  {
    if status.Some? && status.value in StatusTable then StatusTable[status.value]
    else StatusTable["uploaded"]
  }

  /** The badge reads "Uploaded" exactly when the status is not one of the
      three other known statuses. */
  lemma UploadedIsTheFallback(status: Option<string>)
    ensures ConfigFor(status).badge == "Uploaded" <==>
      !(status.Some? && status.value in {"extracted", "analyzed", "error"})
  {
  }

  /** `{analysis.total_flags} {total_flags === 1 ? 'issue' : 'issues'}`,
      drawn only when there is an analysis with a positive count. */
  function IssueLine(analysis: Option<AnalysisSummary>): (line: Option<string>)
    ensures line.Some? <==> analysis.Some? && analysis.value.totalFlags.Some? && analysis.value.totalFlags.value > 0
    ensures line.Some? ==>
      var n := analysis.value.totalFlags.value;
      line.value == IntToString(n) + " " + (if n == 1 then "issue" else "issues")
  {
    if analysis.Some? && analysis.value.totalFlags.Some? && analysis.value.totalFlags.value > 0 then
      var n := analysis.value.totalFlags.value;
      var word := if n == 1 then "issue" else "issues";
      Some(IntToString(n) + " " + word)
    else None
  }

  /** The count can be read back from the line: the digits up to the space. */
  lemma IssueLineShowsCount(a: AnalysisSummary, b: AnalysisSummary)
    requires IssueLine(Some(a)).Some? && IssueLine(Some(a)) == IssueLine(Some(b))
    ensures a.totalFlags == b.totalFlags
  {
    var n, m := a.totalFlags.value, b.totalFlags.value;
    var sn, sm := IntToString(n), IntToString(m);
    var line := IssueLine(Some(a)).value;
    assert line == sn + " " + (if n == 1 then "issue" else "issues");
    assert line == sm + " " + (if m == 1 then "issue" else "issues");
    assert line[|sn|] == ' ' && line[|sm|] == ' ';
    assert |sn| == |sm|;
    assert sn == line[..|sn|] == sm;
    IntToStringInjective(n, m);
  }

  const PreviewLength: nat := 80

  /** `{summary?.slice(0, 80)}{summary?.length > 80 ? '...' : ''}`; an
      absent summary draws nothing. */
  function SummaryPreview(summary: Option<string>): (preview: string)
    ensures summary.None? ==> preview == ""
    ensures summary.Some? && |summary.value| <= PreviewLength ==> preview == summary.value
    ensures summary.Some? && |summary.value| > PreviewLength ==>
      |preview| == PreviewLength + 3 && preview == summary.value[..PreviewLength] + "..."
  {
    match summary
    case None => ""
    case Some(s) =>
      var shown := if |s| <= PreviewLength then s else s[..PreviewLength];
      shown + (if |s| > PreviewLength then "..." else "")
  }

  /** The preview never exceeds 83 characters and always begins with the
      start of the summary. */
  lemma PreviewIsBoundedPrefix(s: string)
    ensures |SummaryPreview(Some(s))| <= PreviewLength + 3
    ensures var k := if |s| < PreviewLength then |s| else PreviewLength;
            SummaryPreview(Some(s))[..k] == s[..k]
  {
  }
}
