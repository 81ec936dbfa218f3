/**
 * The analytics-service's query validators (`utils/validation.ts`): the period of the summary, and
 * the bounded counts and groupings of the top products, the spending trend and the store
 * comparison.
 */
module AnalyticsValidation {
  import opened Wrappers
  import opened JsText
  import opened Zod

  /** Zod's list of the options in a message: each in single quotes, separated by ` | `. */
  function JoinValues(options: seq<string>): string {
    if options == [] then ""
    else if |options| == 1 then "'" + options[0] + "'"
    else "'" + options[0] + "' | " + JoinValues(options[1..])
  }

  /**
   * `z.enum(options).default(d)`: an absent field takes the default; a string that is one of the
   * options is kept; any other string is refused with Zod's `invalid_enum_value` text, naming the
   * options and the value; a value that is not a string is refused as a type error.
   */
  function EnumField(path: string, v: Input, options: seq<string>, d: string): (r: Result<string, seq<Issue>>)
    ensures r.Ok? <==> v.Absent? || (v.Str? && v.text in options)
    ensures r.Ok? ==> r.value == (if v.Str? then v.text else d)
    ensures r.Err? ==> |r.error| == 1 && r.error[0].path == path
    ensures r.Err? && v.Str? ==>
      r.error[0].message == "Invalid enum value. Expected " + JoinValues(options) + ", received '" + v.text + "'"
  {
    match v
    case Absent => Ok(d)
    case Str(s) =>
      if s in options then Ok(s)
      else Err([Issue(path, "Invalid enum value. Expected " + JoinValues(options) + ", received '" + s + "'")])
    case Null => Err([Issue(path, "Expected " + JoinValues(options) + ", received null")])
    case Other => Err([Issue(path, "Expected " + JoinValues(options))])
  }

  /**
   * What `z.coerce.number()` makes of a field: `Number(s)` of a string, 0 of null (`Number(null)`);
   * any other value (an array or object of a repeated or nested query parameter) is taken as NaN.
   */
  function Coerce(v: Input, d: int): (n: JsNum)
    ensures v.Absent? ==> n == Int(d)
    ensures v.Str? ==> n == NumberOf(v.text)
    ensures v.Null? ==> n == Int(0)
  {
    match v
    case Absent => Int(d)
    case Str(s) => NumberOf(s)
    case Null => Int(0)
    case Other => NotANumber
  }

  /**
   * `.int().positive().max(max)` on a coerced number: NaN is refused as not a number, and a number
   * must lie in 1..max; every failing check is reported.
   */
  function BoundedInt(path: string, n: JsNum, max: int): (r: Result<int, seq<Issue>>)
    ensures r.Ok? <==> n.Int? && 0 < n.value <= max
    ensures r.Ok? ==> r.value == n.value
    ensures r.Err? ==> r.error != []
  {
    if n.NotANumber? then Err([Issue(path, "Expected number, received nan")])
    else
      var issues :=
        (if n.value > 0 then [] else [Issue(path, "Number must be greater than 0")]) +
        (if n.value <= max then [] else [Issue(path, "Number must be less than or equal to " + Decimal(max))]);
      if issues == [] then Ok(n.value) else Err(issues)
  }

  /** The decimal text of a number, for the issue messages. */
  function Decimal(n: int): string
    decreases if n < 0 then 1 - n else n
  {
    if n < 0 then "-" + Decimal(-n)
    else if n < 10 then ["0123456789"[n]]
    else Decimal(n / 10) + ["0123456789"[n % 10]]
  }

  /** `z.coerce.number().int().positive().max(max).default(d)`: the default goes through the same checks. */
  function CountField(path: string, v: Input, max: int, d: int): (r: Result<int, seq<Issue>>)
    ensures r.Ok? <==> Coerce(v, d).Int? && 0 < Coerce(v, d).value <= max
    ensures r.Ok? ==> r.value == Coerce(v, d).value
    ensures r.Err? ==> r.error != []
  {
    BoundedInt(path, Coerce(v, d), max)
  }

  const SummaryPeriods: seq<string> := ["day", "week", "month", "year"]
  const TopPeriods: seq<string> := ["week", "month", "year", "all"]
  const Groupings: seq<string> := ["day", "week", "month"]

  /** `summaryQuerySchema`: the period, "month" by default. */
  function ValidateSummary(period: Input): (r: Result<string, seq<Issue>>)
    ensures r.Ok? <==> period.Absent? || (period.Str? && period.text in SummaryPeriods)
    ensures r.Ok? ==> r.value in SummaryPeriods
  {
    EnumField("period", period, SummaryPeriods, "month")
  }

  datatype TopProductsQuery = TopProductsQuery(limit: int, period: string)

  /** `topProductsQuerySchema`: a limit in 1..100 (10 by default) and a period ("all" by default). */
  function ValidateTopProducts(limit: Input, period: Input): (r: Result<TopProductsQuery, seq<Issue>>)
    ensures r.Ok? <==> CountField("limit", limit, 100, 10).Ok? &&
                       (period.Absent? || (period.Str? && period.text in TopPeriods))
    ensures r.Ok? ==> 1 <= r.value.limit <= 100 && r.value.period in TopPeriods
    ensures r.Ok? && limit.Str? ==> NumberOf(limit.text) == Int(r.value.limit)
    ensures r.Err? ==> r.error != []
  {
    var l := CountField("limit", limit, 100, 10);
    var p := EnumField("period", period, TopPeriods, "all");
    if l.Ok? && p.Ok? then Ok(TopProductsQuery(l.value, p.value)) else Err(IssuesOf(l) + IssuesOf(p))
  }

  datatype SpendingTrendQuery = SpendingTrendQuery(days: int, groupBy: string)

  /** `spendingTrendQuerySchema`: days in 1..365 (30 by default) and a grouping ("day" by default). */
  function ValidateSpendingTrend(days: Input, groupBy: Input): (r: Result<SpendingTrendQuery, seq<Issue>>)
    ensures r.Ok? <==> CountField("days", days, 365, 30).Ok? &&
                       (groupBy.Absent? || (groupBy.Str? && groupBy.text in Groupings))
    ensures r.Ok? ==> 1 <= r.value.days <= 365 && r.value.groupBy in Groupings
    ensures r.Ok? && days.Str? ==> NumberOf(days.text) == Int(r.value.days)
    ensures r.Err? ==> r.error != []
  {
    var d := CountField("days", days, 365, 30);
    var g := EnumField("groupBy", groupBy, Groupings, "day");
    if d.Ok? && g.Ok? then Ok(SpendingTrendQuery(d.value, g.value)) else Err(IssuesOf(d) + IssuesOf(g))
  }

  datatype StoresCompareQuery = StoresCompareQuery(limit: int, productId: Option<string>)

  /** `storesCompareQuerySchema`: a limit in 1..50 (10 by default) and an optional product UUID. */
  function ValidateStoresCompare(limit: Input, productId: Input): (r: Result<StoresCompareQuery, seq<Issue>>)
    ensures r.Ok? <==> CountField("limit", limit, 50, 10).Ok? &&
                       (productId.Absent? || (productId.Str? && IsUuid(productId.text)))
    ensures r.Ok? ==> 1 <= r.value.limit <= 50
    ensures r.Ok? ==> r.value.productId == (if productId.Str? then Some(productId.text) else None)
    ensures r.Err? ==> r.error != []
  {
    var l := CountField("limit", limit, 50, 10);
    var p :=
      match productId
      case Absent => Ok(None)
      case Str(s) => if IsUuid(s) then Ok(Some(s)) else Err([Issue("productId", "Invalid uuid")])
      case _ => Err(TypeIssues("productId", productId));
    if l.Ok? && p.Ok? then Ok(StoresCompareQuery(l.value, p.value)) else Err(IssuesOf(l) + IssuesOf(p))
  }

  /** With no query parameters every schema yields its defaults. */
  lemma {:induction false} Defaults()
    ensures ValidateSummary(Absent) == Ok("month")
    ensures ValidateTopProducts(Absent, Absent) == Ok(TopProductsQuery(10, "all"))
    ensures ValidateSpendingTrend(Absent, Absent) == Ok(SpendingTrendQuery(30, "day"))
    ensures ValidateStoresCompare(Absent, Absent) == Ok(StoresCompareQuery(10, None))
  {
  }

  /**
   * An empty or null count is refused rather than defaulted: `Number("")` and `Number(null)` are 0,
   * which is not positive.
   */
  lemma {:induction false} EmptyCountRefused()
    ensures ValidateTopProducts(Str(""), Absent).Err?
    ensures ValidateTopProducts(Null, Absent).Err?
    ensures ValidateSpendingTrend(Str(""), Absent).Err?
  {
  }

  /** A period outside the enum is refused, even one another schema accepts ("day" for top products). */
  lemma {:induction false} DayNotTopPeriod()
    ensures ValidateTopProducts(Absent, Str("day")).Err?
    ensures ValidateSummary(Str("day")) == Ok("day")
  {
    assert "day" != "week" && "day" != "month" && "day" != "year" && "day" != "all";
  }
}
