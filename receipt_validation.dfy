/**
 * The receipt-service's request validators (`utils/validation.ts`): the upload body and the query
 * of the receipt list.
 */
module ReceiptValidation {
  import opened Wrappers
  import opened JsText
  import opened Zod

  /** A valid upload: the QR code payload and the authenticated user. */
  datatype UploadInput = UploadInput(qrCodeData: string, userId: string)

  /**
   * `uploadReceiptSchema`: the QR code payload is a string of 10 to 1000 characters and the user
   * id is a UUID.
   */
  function ValidateUpload(qrCodeData: Input, userId: string): (r: Result<UploadInput, seq<Issue>>)
    ensures r.Ok? <==> qrCodeData.Str? && 10 <= Utf16Length(qrCodeData.text) <= 1000 && IsUuid(userId)
    ensures r.Ok? ==> r.value == UploadInput(qrCodeData.text, userId)
  {
    var issues := QrIssues(qrCodeData) + UserIdIssues(userId);
    if issues == [] then Ok(UploadInput(qrCodeData.text, userId)) else Err(issues)
  }

  /** The checks of the QR code payload: a string of 10 to 1000 characters. */
  function QrIssues(qrCodeData: Input): (issues: seq<Issue>)
    ensures issues == [] <==> qrCodeData.Str? && 10 <= Utf16Length(qrCodeData.text) <= 1000
    ensures About(issues, "qrCodeData")
  {
    if qrCodeData.Str? then
      MinIssues("qrCodeData", qrCodeData.text, 10, "QR code data must be at least 10 characters") +
      MaxIssues("qrCodeData", qrCodeData.text, 1000, "QR code data must be at most 1000 characters")
    else TypeIssues("qrCodeData", qrCodeData)
  }

  /** The check of the user id: a UUID. */
  function UserIdIssues(userId: string): (issues: seq<Issue>)
    ensures issues == [] <==> IsUuid(userId)
    ensures About(issues, "userId")
  {
    FormatIssues("userId", IsUuid(userId), "Invalid user ID format")
  }

  /** A refused upload reports every failing field, and only those. */
  lemma {:induction false} UploadIssuesByField(qrCodeData: Input, userId: string)
    requires ValidateUpload(qrCodeData, userId).Err?
    ensures var issues := ValidateUpload(qrCodeData, userId).error;
            (Reports(issues, "qrCodeData") <==> !(qrCodeData.Str? && 10 <= Utf16Length(qrCodeData.text) <= 1000)) &&
            (Reports(issues, "userId") <==> !IsUuid(userId))
  {
    var q := QrIssues(qrCodeData);
    var u := UserIdIssues(userId);
    ReportsConcat(q, u, "qrCodeData");
    ReportsConcat(q, u, "userId");
    AboutOnly(q, "qrCodeData", "userId");
    AboutOnly(u, "userId", "qrCodeData");
  }

  /** A valid list query: page and limit as numbers (possibly NaN), the filters as given. */
  datatype ListReceiptsQuery = ListReceiptsQuery(
    page: JsNum,
    limit: JsNum,
    startDate: Option<string>,
    endDate: Option<string>,
    storeName: Option<string>)

  /** Every field is absent or a string: what the list query schema asks. */
  predicate StringOrAbsent(v: Input) { v.Absent? || v.Str? }

  /**
   * `listReceiptsQuerySchema`: page and limit default to "1" and "10" and go through `Number`;
   * the three filters are optional strings passed on unchanged.
   */
  function ValidateListQuery(page: Input, limit: Input, startDate: Input, endDate: Input, storeName: Input)
    : (r: Result<ListReceiptsQuery, seq<Issue>>)
    ensures r.Ok? <==> StringOrAbsent(page) && StringOrAbsent(limit) && StringOrAbsent(startDate) &&
                       StringOrAbsent(endDate) && StringOrAbsent(storeName)
    ensures r.Ok? ==>
      r.value.page == NumberOf(if page.Str? then page.text else "1") &&
      r.value.limit == NumberOf(if limit.Str? then limit.text else "10") &&
      r.value.startDate == (if startDate.Str? then Some(startDate.text) else None) &&
      r.value.endDate == (if endDate.Str? then Some(endDate.text) else None) &&
      r.value.storeName == (if storeName.Str? then Some(storeName.text) else None)
  {
    var p := NumberWithDefault("page", page, "1");
    var l := NumberWithDefault("limit", limit, "10");
    var s := OptionalString("startDate", startDate);
    var e := OptionalString("endDate", endDate);
    var n := OptionalString("storeName", storeName);
    var issues := IssuesOf(p) + IssuesOf(l) + IssuesOf(s) + IssuesOf(e) + IssuesOf(n);
    if p.Ok? && l.Ok? && s.Ok? && e.Ok? && n.Ok? then
      Ok(ListReceiptsQuery(p.value, l.value, s.value, e.value, n.value))
    else
      Err(issues)
  }

  lemma {:induction false} NumberOfOne(s: string)
    requires s == "1"
    ensures NumberOf(s) == Int(1)
  {
    assert AllDigits(s);
    NumberOfDigits(s);
    assert s[..0] == [];
  }

  lemma {:induction false} NumberOfTen(s: string)
    requires |s| == 2 && s[0] == '1' && s[1] == '0'
    ensures NumberOf(s) == Int(10)
  {
    assert AllDigits(s);
    NumberOfDigits(s);
    var head := s[..1];
    assert DigitsValue(head) == 1 by {
      assert head[..0] == [];
    }
    assert DigitsValue(s) == 10 * DigitsValue(head) + DigitValue(s[1]);
  }

  /** With no query parameters the list asks for page 1 of 10 receipts, without filters. */
  lemma {:induction false} ListQueryDefaults()
    ensures ValidateListQuery(Absent, Absent, Absent, Absent, Absent) ==
            Ok(ListReceiptsQuery(Int(1), Int(10), None, None, None))
  {
    NumberOfOne("1");
    NumberOfTen("10");
  }

  /** A page that is not a number is accepted and becomes NaN. */
  lemma {:induction false} NonNumericPageAccepted(s: string)
    requires NumberOf(s) == NotANumber
    ensures ValidateListQuery(Str(s), Absent, Absent, Absent, Absent).Ok?
    ensures ValidateListQuery(Str(s), Absent, Absent, Absent, Absent).value.page == NotANumber
  {
  }
}
