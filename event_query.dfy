/**
 * The query parameters of `GET /api/events` and what the handler turns them into: the
 * bounds of the `@timestamp` range filter, the `alert.severity` lower bound and the
 * number of hits asked of the search engine.
 */
module EventQuery {
  import opened Wrappers
  import opened IntParsing

  const DefaultSince: string := "now-1h"
  const DefaultUntil: string := "now"
  /** The default `size` is the number 200, which parseInt first turns into the text "200". */
  const DefaultSizeText: string := "200"
  const DefaultSize: int := 200
  const MaxSize: int := 1000

  /**
   * The `severity` the handler holds: the number 0 when the parameter is missing, the
   * parameter's text otherwise. Its conversion with `Number` is not part of this model.
   */
  datatype SeverityArg = DefaultSeverity | SeverityText(text: string)

  /** The parameters of the search the handler issues (the index list and sort are fixed). */
  datatype SearchRequest = SearchRequest(
    timestampGte: string,
    timestampLte: string,
    minSeverity: SeverityArg,
    size: int)

  /** `Math.min(parseInt(size, 10) || 200, 1000)` */
  function ResolveSize(sizeText: string): (r: int)
    ensures r <= MaxSize
    ensures r != 0
    ensures r == DefaultSize || r == MaxSize || ParseInt(sizeText) == Some(r)
  {
    var parsed := ParseInt(sizeText);
    var requested := if parsed.None? || parsed.value == 0 then DefaultSize else parsed.value;
    if requested < MaxSize then requested else MaxSize
  }

  /** A destructuring default: the parameter when the query has it, even when it is empty. */
  function Param(query: map<string, string>, name: string, default: string): string {
    if name in query then query[name] else default
  }

  /** `const { since = 'now-1h', until = 'now', severity = 0, size = 200 } = req.query` and the search body. */
  function ResolveQuery(query: map<string, string>): (r: SearchRequest)
    ensures r.timestampGte == if "since" in query then query["since"] else DefaultSince
    ensures r.timestampLte == if "until" in query then query["until"] else DefaultUntil
    ensures r.minSeverity == if "severity" in query then SeverityText(query["severity"]) else DefaultSeverity
    ensures "size" in query ==> r.size == ResolveSize(query["size"])
    ensures r.size <= MaxSize && r.size != 0
  {
    SearchRequest(
      Param(query, "since", DefaultSince),
      Param(query, "until", DefaultUntil),
      if "severity" in query then SeverityText(query["severity"]) else DefaultSeverity,
      ResolveSize(Param(query, "size", DefaultSizeText)))
  }

  /**
   * A `size` written as an optionally signed run of decimal digits (leading zeros allowed),
   * with white space before it and anything but a digit after it: a run worth 0 gives the
   * default 200, a value above 1000 gives 1000, and any other value, negative ones
   * included, is used as it is.
   */
  lemma SizeOfDigits(ws: string, sign: string, d: string, rest: string)
    requires AllWhitespace(ws) && OptionalSign(sign) && StopsDigits(rest)
    requires d != [] && AllDigits(d)
    ensures ResolveSize(ws + sign + d + rest)
      == if DigitsValue(d) == 0 then DefaultSize
         else if Signed(sign, DigitsValue(d)) > MaxSize then MaxSize
         else Signed(sign, DigitsValue(d))
  {
    ParseIntOfRun(ws, sign, d, rest);
  }

  /** SizeOfDigits for the canonical spelling of `n`: "5000" asks for 1000 hits. */
  lemma SizeOfDecimal(ws: string, sign: string, n: nat, rest: string)
    requires AllWhitespace(ws) && OptionalSign(sign) && StopsDigits(rest)
    ensures ResolveSize(ws + sign + DecimalText(n) + rest)
      == if n == 0 then DefaultSize else if Signed(sign, n) > MaxSize then MaxSize else Signed(sign, n)
  {
    SizeOfDigits(ws, sign, DecimalText(n), rest);
    DigitsValueOfDecimalText(n);
  }

  /**
   * A `size` that parseInt maps to NaN gives the default. That is exactly the text in which,
   * after the white space and one optional sign, no digit follows ("abc", "x5", "- 5", "+-5").
   */
  lemma NonNumericSizeIsDefault(sizeText: string)
    requires ParseInt(sizeText).None?
    ensures ResolveSize(sizeText) == DefaultSize
    ensures StopsDigits(DropSign(TrimStart(sizeText)))
  {
    NaNExactlyWithoutDigitRun(sizeText);
  }

  /** Texts that parseInt maps to NaN although they contain a digit: the default applies. */
  lemma NaNSizeExamples()
    ensures ResolveSize("x5") == DefaultSize
    ensures ResolveSize("+-5") == DefaultSize
  {
    assert "x5"[0] == 'x';
    DoubleSignIsNaN("", "5");
    assert "" + "+-" + "5" == "+-5";
  }

  /**
   * A query's `size` written as an optionally signed run of digits reaches the search as
   * SizeOfDigits says: `?size=5000` asks for 1000 hits, `?size=0050` for 50, `?size=-5` for -5.
   */
  lemma QuerySizeOfDigits(query: map<string, string>, ws: string, sign: string, d: string, rest: string)
    requires AllWhitespace(ws) && OptionalSign(sign) && StopsDigits(rest)
    requires d != [] && AllDigits(d)
    requires "size" in query && query["size"] == ws + sign + d + rest
    ensures ResolveQuery(query).size
      == if DigitsValue(d) == 0 then DefaultSize
         else if Signed(sign, DigitsValue(d)) > MaxSize then MaxSize
         else Signed(sign, DigitsValue(d))
  {
    SizeOfDigits(ws, sign, d, rest);
  }

  /** A request without `size` asks for 200 hits, as one with `size=200` does. */
  lemma MissingSizeIsDefault(query: map<string, string>)
    requires "size" !in query
    ensures ResolveQuery(query).size == DefaultSize
  {
    assert DecimalText(200) == DefaultSizeText;
    assert "" + "" + DecimalText(200) + "" == DefaultSizeText;
    SizeOfDecimal("", "", 200, "");
  }

  /** Only `since`, `until`, `severity` and `size` influence the search. */
  lemma OnlyFourParametersMatter(q1: map<string, string>, q2: map<string, string>)
    requires forall name :: name in {"since", "until", "severity", "size"} ==>
      (name in q1 <==> name in q2) && (name in q1 ==> q1[name] == q2[name])
    ensures ResolveQuery(q1) == ResolveQuery(q2)
  {
  }

  /** `size=5000` asks for 1000 hits. */
  lemma LargeSizeExample()
    ensures ResolveSize("5000") == 1000
  {
    assert "" + "" + DecimalText(5000) + "" == "5000";
    SizeOfDecimal("", "", 5000, "");
  }

  /** `size=0` and `size=abc` ask for the default 200 hits. */
  lemma FallbackSizeExamples()
    ensures ResolveSize("0") == 200
    ensures ResolveSize("abc") == 200
  {
    assert "" + "" + DecimalText(0) + "" == "0";
    SizeOfDecimal("", "", 0, "");
    NonNumericSizeIsDefault("abc");
  }

  /** Leading zeros do not matter: `size=00` is worth 0, so it asks for the default 200 hits. */
  lemma ZeroRunSizeExample()
    ensures ResolveSize("00") == 200
  {
    assert "" + "" + "00" + "" == "00";
    LeadingZeroIgnored("0");
    SizeOfDigits("", "", "00", "");
  }

  /** Leading zeros do not matter: `size=0050` asks for 50 hits. */
  lemma LeadingZeroSizeExample()
    ensures ResolveSize("0050") == 50
  {
    assert "" + "" + "0050" + "" == "0050";
    assert "0050" == ['0'] + "050" && "050" == ['0'] + "50";
    LeadingZeroIgnored("050");
    LeadingZeroIgnored("50");
    SizeOfDigits("", "", "0050", "");
  }

  /** `size=12abc` asks for 12 hits, and `size=%20-5` passes -5 on: there is no lower bound. */
  lemma LenientSizeExamples()
    ensures ResolveSize("12abc") == 12
    ensures ResolveSize(" -5") == -5
  {
    assert "" + "" + DecimalText(12) + "abc" == "12abc";
    SizeOfDecimal("", "", 12, "abc");
    assert " " + "-" + DecimalText(5) + "" == " -5";
    SizeOfDecimal(" ", "-", 5, "");
  }
}
