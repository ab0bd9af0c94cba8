/** The pagination block of `GET /stories` and `GET /stories/user/mystories`:
    `page` and `limit` come from `parseInt(query) || default`, then
    `skip = (page - 1) * limit`, `totalPages = Math.ceil(total / limit)`,
    `hasNextPage = page < totalPages` and `hasPrevPage = page > 1`. */
module Pagination {
  import opened Common

  // ---------------------------------------------------------------------------
  // JavaScript `parseInt(string)` without a radix argument
  // ---------------------------------------------------------------------------

  /** White space and line terminators, which `parseInt` skips before the number. */
  predicate IsJsWhiteSpace(c: char) {
    var n := c as int;
    n == 0x09 || n == 0x0A || n == 0x0B || n == 0x0C || n == 0x0D || n == 0x20 || n == 0xA0
    || n == 0x1680 || (0x2000 <= n <= 0x200A) || n == 0x2028 || n == 0x2029 || n == 0x202F
    || n == 0x205F || n == 0x3000 || n == 0xFEFF
  }

  function TrimStart(s: string): (r: string)
    ensures |r| <= |s| && r == s[|s| - |r|..]
    ensures |r| > 0 ==> !IsJsWhiteSpace(r[0])
    ensures forall k :: 0 <= k < |s| - |r| ==> IsJsWhiteSpace(s[k])
  {
    if |s| > 0 && IsJsWhiteSpace(s[0]) then TrimStart(s[1..]) else s
  }

  /** The value of `c` as a digit in radix up to 36 (`0`-`9`, then `a`-`z` in either case);
      36 for a character that is no digit at all. */
  function DigitValue(c: char): (d: nat)
    ensures d <= 36
  {
    if '0' <= c <= '9' then c as int - '0' as int
    else if 'a' <= c <= 'z' then c as int - 'a' as int + 10
    else if 'A' <= c <= 'Z' then c as int - 'A' as int + 10
    else 36
  }

  /** The length of the longest prefix of `s` made of digits of `radix`. */
  function LeadingDigits(s: string, radix: nat): (n: nat)
    ensures n <= |s|
    ensures forall k :: 0 <= k < n ==> DigitValue(s[k]) < radix
    ensures n < |s| ==> DigitValue(s[n]) >= radix
  {
    if |s| > 0 && DigitValue(s[0]) < radix then 1 + LeadingDigits(s[1..], radix) else 0
  }

  /** The number that the digits `s` denote in `radix`, most significant first. */
  function DigitsValue(s: string, radix: nat): nat {
    if |s| == 0 then 0 else DigitsValue(s[..|s| - 1], radix) * radix + DigitValue(s[|s| - 1])
  }

  /** `parseInt(s)`: skip leading white space, take an optional sign, then read the number;
      `None` stands for NaN. */
  function ParseInt(s: string): Option<int> {
    ParseSigned(TrimStart(s))
  }

  /** What is left of `s` once `parseInt` has skipped the white space and the sign. */
  function Unsigned(s: string): (u: string)
    ensures |u| <= |s|
  {
    var t := TrimStart(s);
    if |t| > 0 && (t[0] == '-' || t[0] == '+') then t[1..] else t
  }

  /** No decimal digit follows the white space and the sign. */
  predicate NoLeadingNumber(s: string) {
    var u := Unsigned(s);
    |u| == 0 || !('0' <= u[0] <= '9')
  }

  /** A `0x` prefix with no hexadecimal digit after it. */
  predicate HexWithoutDigits(s: string) {
    var u := Unsigned(s);
    |u| >= 2 && u[0] == '0' && (u[1] == 'x' || u[1] == 'X') && (|u| == 2 || DigitValue(u[2]) >= 16)
  }

  /** `parseInt` gives NaN exactly when no digit follows the white space and the sign, or when
      a `0x` prefix has no hexadecimal digit after it. */
  lemma ParseIntNaN(s: string)
    ensures ParseInt(s).None? <==> NoLeadingNumber(s) || HexWithoutDigits(s)
  {
    SignedNaN(TrimStart(s));
    UnsignedNaN(Unsigned(s));
  }

  /** The sign never decides whether the number is NaN. */
  lemma SignedNaN(t: string)
    ensures ParseSigned(t).None? <==>
      ParseUnsigned(if |t| > 0 && (t[0] == '-' || t[0] == '+') then t[1..] else t).None?
  {
  }

  lemma UnsignedNaN(u: string)
    ensures ParseUnsigned(u).None? <==> ((|u| == 0 || !('0' <= u[0] <= '9'))
      || (|u| >= 2 && u[0] == '0' && (u[1] == 'x' || u[1] == 'X') && (|u| == 2 || DigitValue(u[2]) >= 16)))
  {
    if |u| >= 2 && u[0] == '0' && (u[1] == 'x' || u[1] == 'X') {
      assert |u| > 2 ==> u[2..][0] == u[2];
    } else if |u| > 0 && '0' <= u[0] <= '9' {
      assert DigitValue(u[0]) < 10;
    } else if |u| > 0 {
      assert DigitValue(u[0]) >= 10;
    }
  }

  function ParseSigned(t: string): Option<int> {
    if |t| > 0 && t[0] == '-' then
      match ParseUnsigned(t[1..])
      case None => None
      case Some(n) => var m: int := n; Some(-m)
    else if |t| > 0 && t[0] == '+' then ParseUnsigned(t[1..])
    else ParseUnsigned(t)
  }

  /** A `0x` or `0X` prefix selects radix 16; otherwise the radix is 10. */
  function ParseUnsigned(u: string): Option<nat> {
    if |u| >= 2 && u[0] == '0' && (u[1] == 'x' || u[1] == 'X') then ParseDigits(u[2..], 16)
    else ParseDigits(u, 10)
  }

  /** The longest run of digits at the start of `d`; NaN when that run is empty. */
  function ParseDigits(d: string, radix: nat): Option<nat> {
    var n := LeadingDigits(d, radix);
    if n == 0 then None else Some(DigitsValue(d[..n], radix))
  }

  /** `parseInt(req.query.x)`: an absent query parameter is `undefined`, which `parseInt`
      reads as the string "undefined" and so as NaN (`UndefinedIsNaN`). */
  function ParseQuery(raw: Option<string>): Option<int> {
    match raw
    case None => None
    case Some(s) => ParseInt(s)
  }

  lemma UndefinedIsNaN()
    ensures ParseInt("undefined") == None
  {
    var u := "undefined";
    assert !IsJsWhiteSpace(u[0]);
    assert TrimStart(u) == u;
    assert DigitValue(u[0]) == 30;
    assert ParseDigits(u, 10) == None;
  }

  /** `parsed || d`: NaN and 0 are falsy and fall back to `d`; every other number is kept. */
  function OrDefault(parsed: Option<int>, d: int): (r: int)
    ensures r == d || (parsed == Some(r) && r != 0)
    ensures parsed.Some? && parsed.value != 0 ==> r == parsed.value
    ensures d != 0 ==> r != 0
  {
    if parsed.None? || parsed.value == 0 then d else parsed.value
  }

  /** The page number: the parsed `page` query parameter, or 1 when it is NaN or 0. */
  function PageParam(raw: Option<string>): (page: int)
    ensures page != 0
    ensures page == 1 <==> ParseQuery(raw).None? || ParseQuery(raw).value == 0 || ParseQuery(raw).value == 1
  {
    OrDefault(ParseQuery(raw), 1)
  }

  /** The page size: the parsed `limit` query parameter, or 10 when it is NaN or 0. It is
      never 0, so the division by it below is always defined. */
  function LimitParam(raw: Option<string>): (limit: int)
    ensures limit != 0
    ensures limit == 10 <==> ParseQuery(raw).None? || ParseQuery(raw).value == 0 || ParseQuery(raw).value == 10
  {
    OrDefault(ParseQuery(raw), 10)
  }

  // ---------------------------------------------------------------------------
  // Decimal notation, used to show that `parseInt` reads back every integer
  // ---------------------------------------------------------------------------

  function DigitChar(d: nat): (c: char)
    requires d < 10
    ensures DigitValue(c) == d
  {
    ['0', '1', '2', '3', '4', '5', '6', '7', '8', '9'][d]
  }

  function NaturalString(n: nat): (s: string)
    ensures |s| > 0
    ensures forall k :: 0 <= k < |s| ==> DigitValue(s[k]) < 10
  {
    if n < 10 then [DigitChar(n)] else NaturalString(n / 10) + [DigitChar(n % 10)]
  }

  /** The decimal notation of `n`, as a client puts it into a query string. */
  function DecimalString(n: int): string {
    if n < 0 then "-" + NaturalString(-n) else NaturalString(n)
  }

  lemma {:induction false} NaturalStringValue(n: nat)
    ensures DigitsValue(NaturalString(n), 10) == n
  {
    if n >= 10 {
      var s := NaturalString(n);
      NaturalStringValue(n / 10);
      assert s[..|s| - 1] == NaturalString(n / 10);
    }
  }

  /** Only the notation of 0 starts with the digit 0. */
  lemma {:induction false} NaturalStringLead(n: nat)
    ensures NaturalString(n)[0] == '0' ==> n == 0
  {
    if n >= 10 {
      NaturalStringLead(n / 10);
      assert NaturalString(n)[0] == NaturalString(n / 10)[0];
    }
  }

  lemma AllDigitsAreLeading(s: string, radix: nat)
    requires forall k :: 0 <= k < |s| ==> DigitValue(s[k]) < radix
    ensures LeadingDigits(s, radix) == |s|
  {
  }

  lemma {:induction false} ParseNatural(n: nat)
    ensures ParseUnsigned(NaturalString(n)) == Some(n)
  {
    var s := NaturalString(n);
    NaturalStringLead(n);
    assert !(|s| >= 2 && s[0] == '0');
    AllDigitsAreLeading(s, 10);
    NaturalStringValue(n);
    assert s[..|s|] == s;
  }

  /** A decimal notation starts with a sign or a digit, so `parseInt` skips nothing. */
  lemma DecimalStringStart(n: int)
    ensures TrimStart(DecimalString(n)) == DecimalString(n)
  {
    var s := DecimalString(n);
    if n >= 0 {
      assert DigitValue(s[0]) < 10;
      assert '0' <= s[0] <= '9';
    } else {
      assert s[0] == '-';
    }
    assert !IsJsWhiteSpace(s[0]);
  }

  /** `parseInt` reads back the decimal notation of every integer. */
  lemma {:induction false} ParseDecimal(n: int)
    ensures ParseInt(DecimalString(n)) == Some(n)
  {
    DecimalStringStart(n);
    if n >= 0 {
      ParseNonNegative(n);
    } else {
      ParseNegative(n);
    }
  }

  lemma {:induction false} ParseNonNegative(n: nat)
    ensures ParseSigned(DecimalString(n)) == Some(n)
  {
    var s := DecimalString(n);
    assert DigitValue(s[0]) < 10;
    assert s[0] != '-' && s[0] != '+';
    ParseNatural(n);
  }

  lemma {:induction false} ParseNegative(n: int)
    requires n < 0
    ensures ParseSigned(DecimalString(n)) == Some(n)
  {
    ParseNatural(-n);
    MinusNegates(NaturalString(-n), -n);
  }

  /** A leading minus sign negates the number that follows it. */
  lemma MinusNegates(t: string, v: nat)
    requires ParseUnsigned(t) == Some(v)
    ensures ParseSigned("-" + t) == Some(-(v as int))
  {
    var s := "-" + t;
    assert s[1..] == t;
  }

  /** Any integer a client passes in decimal, negative ones included, is kept as `page`
      unless it is 0. */
  lemma PageParamKeepsNonZero(n: int)
    requires n != 0
    ensures PageParam(Some(DecimalString(n))) == n
    ensures LimitParam(Some(DecimalString(n))) == n
  {
    ParseDecimal(n);
  }

  /** An absent parameter, and one in which no digit follows the white space and the sign,
      parse to NaN and fall back to page 1 and 10 stories per page. */
  lemma AbsentParamsDefault(s: string)
    requires NoLeadingNumber(s)
    ensures ParseInt(s) == None
    ensures PageParam(None) == 1 && LimitParam(None) == 10
    ensures PageParam(Some(s)) == 1 && LimitParam(Some(s)) == 10
  {
    ParseIntNaN(s);
  }

  /** A zero parameter falls back to the defaults too. */
  lemma ZeroParamsDefault()
    ensures PageParam(Some("0")) == 1 && LimitParam(Some("0")) == 10
  {
    assert DecimalString(0) == "0";
    ParseDecimal(0);
  }

  // ---------------------------------------------------------------------------
  // Page arithmetic
  // ---------------------------------------------------------------------------

  /** `Math.ceil(a / b)` for integers: the least integer not below the quotient. */
  function CeilDiv(a: int, b: int): (q: int)
    requires b != 0
    ensures b > 0 ==> b * (q - 1) < a <= b * q
    ensures b < 0 ==> b * q <= a < b * (q - 1)
  {
    if b > 0 then -((-a) / b) else -(a / (-b))
  }

  /** How many stories the query passes over before the page starts. */
  function Skip(page: int, limit: int): int {
    (page - 1) * limit
  }

  /** The skip is negative, which the database refuses, exactly when a page before the first
      comes with a positive limit or a page after the first with a negative limit. */
  lemma {:induction false} NegativeSkip(page: int, limit: int)
    requires page != 0
    ensures Skip(page, limit) < 0 <==> (page <= -1 && limit > 0) || (page >= 2 && limit < 0)
  {
    if page <= -1 && limit > 0 {
      MulLeftMono(page - 1, -1, limit);
    } else if page >= 2 && limit < 0 {
      MulLeftMono(1, page - 1, -limit);
    } else if page >= 2 {
      MulLeftMono(0, page - 1, limit);
    } else if page <= -1 {
      MulLeftMono(0, 1 - page, -limit);
    }
  }

  /** The `pagination` object of the response. */
  datatype PageInfo = PageInfo(
    currentPage: int,
    totalPages: int,
    totalStories: nat,
    hasNextPage: bool,
    hasPrevPage: bool)

  function Paginate(total: nat, page: int, limit: int): (p: PageInfo)
    requires limit != 0
    ensures p.currentPage == page && p.totalStories == total
    ensures limit > 0 ==> (p.totalPages - 1) * limit < total <= p.totalPages * limit
  {
    var totalPages := CeilDiv(total, limit);
    PageInfo(page, totalPages, total, page < totalPages, page > 1)
  }

  /** The pagination of a request, from its raw query parameters and the count of stories. */
  function PaginationOf(pageRaw: Option<string>, limitRaw: Option<string>, total: nat): (p: PageInfo)
    ensures p.currentPage == PageParam(pageRaw) && p.currentPage != 0 && p.totalStories == total
    ensures LimitParam(limitRaw) > 0 ==>
      (p.hasNextPage <==> Skip(p.currentPage, LimitParam(limitRaw)) + LimitParam(limitRaw) < total)
    ensures LimitParam(limitRaw) > 0 ==> (p.hasPrevPage <==> Skip(p.currentPage, LimitParam(limitRaw)) > 0)
    ensures LimitParam(limitRaw) > 0 ==> (p.totalPages == 0 <==> total == 0)
  {
    var page := PageParam(pageRaw);
    var limit := LimitParam(limitRaw);
    if limit > 0 then
      HasNextPageIffMoreStories(total, page, limit);
      HasPrevPageIffSkipped(total, page, limit);
      NoPagesIffNoStories(total, page, limit);
      Paginate(total, page, limit)
    else
      Paginate(total, page, limit)
  }

  lemma MulLeftMono(a: int, b: int, c: int)
    requires a <= b && c >= 0
    ensures a * c <= b * c
  {
  }

  /** With a positive limit, there is a next page exactly when stories remain after the ones
      this page shows. */
  lemma {:induction false} HasNextPageIffMoreStories(total: nat, page: int, limit: int)
    requires limit > 0
    ensures Paginate(total, page, limit).hasNextPage <==> Skip(page, limit) + limit < total
  {
    var q := Paginate(total, page, limit).totalPages;
    assert Skip(page, limit) + limit == page * limit;
    if page < q {
      MulLeftMono(page, q - 1, limit);
    } else {
      MulLeftMono(q, page, limit);
    }
  }

  /** With a positive limit, every story lies on a page between 1 and `totalPages`, the page
      whose window `[skip, skip + limit)` holds its position. */
  lemma {:induction false} EveryStoryOnAPage(total: nat, limit: int, i: nat)
    requires limit > 0 && i < total
    ensures var p := i / limit + 1;
      && 1 <= p <= Paginate(total, p, limit).totalPages
      && Skip(p, limit) <= i < Skip(p, limit) + limit
  {
    var p := i / limit + 1;
    var q := Paginate(total, p, limit).totalPages;
    assert Skip(p, limit) == (i / limit) * limit;
    if q < p {
      MulLeftMono(q, p - 1, limit);
    }
  }

  /** With a positive limit, no other page's window holds the same position, so every story
      lies on exactly one page. */
  lemma {:induction false} OnlyOnePageHoldsAStory(limit: int, i: nat, q: int)
    requires limit > 0
    requires Skip(q, limit) <= i < Skip(q, limit) + limit
    ensures q == i / limit + 1
  {
    var d := i / limit;
    assert Skip(q, limit) + limit == q * limit;
    if q - 1 < d {
      MulLeftMono(q, d, limit);
    } else if q - 1 > d {
      MulLeftMono(d + 1, q - 1, limit);
    }
  }

  /** With a positive limit, there is a previous page exactly when this page skips stories. */
  lemma {:induction false} HasPrevPageIffSkipped(total: nat, page: int, limit: int)
    requires limit > 0
    ensures Paginate(total, page, limit).hasPrevPage <==> Skip(page, limit) > 0
  {
    if page > 1 {
      MulLeftMono(1, page - 1, limit);
    } else {
      MulLeftMono(page - 1, 0, limit);
    }
  }

  /** With a positive limit there are no pages exactly when there are no stories. */
  lemma {:induction false} NoPagesIffNoStories(total: nat, page: int, limit: int)
    requires limit > 0
    ensures Paginate(total, page, limit).totalPages == 0 <==> total == 0
  {
    var q := Paginate(total, page, limit).totalPages;
    if q < 0 {
      MulLeftMono(q, -1, limit);
    } else if q > 0 {
      MulLeftMono(0, q - 1, limit);
    }
  }

  /** A negative limit that a client passes is kept. Then no page from 1 on has a next page,
      and every page from 2 on has a negative skip, which the database refuses. */
  lemma {:induction false} NegativeLimitHasNoNextPage(total: nat, page: int, limit: int)
    requires limit < 0 && page >= 1
    ensures Paginate(total, page, limit).totalPages <= 0
    ensures !Paginate(total, page, limit).hasNextPage
    ensures page >= 2 ==> Skip(page, limit) < 0
  {
    var q := Paginate(total, page, limit).totalPages;
    if q > 0 {
      MulLeftMono(1, q, -limit);
    }
    NegativeSkip(page, limit);
  }

  /** 25 stories, 10 per page: page 1 has a next page and no previous one, page 3 the reverse. */
  lemma TwentyFiveStories()
    ensures PaginationOf(Some("1"), Some("10"), 25) == PageInfo(1, 3, 25, true, false)
    ensures PaginationOf(Some("3"), Some("10"), 25) == PageInfo(3, 3, 25, false, true)
  {
    assert DecimalString(1) == "1" && DecimalString(3) == "3" && DecimalString(10) == "10";
    PageParamKeepsNonZero(1);
    PageParamKeepsNonZero(3);
    PageParamKeepsNonZero(10);
  }
}
