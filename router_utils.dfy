/** Route helpers of the wallet router (src/wallets/router/router.utils.ts):
    override detection, route prefixing, and the target path that
    `navigate` computes from the current location. */
module RouterUtils {
  import opened Wrappers
  import opened Strings

  const OverridePrefix: string := "/__OVERRIDES/"

  /** isRouteOverride */
  predicate IsRouteOverride(path: string) {
    StartsWith(path, OverridePrefix)
  }

  /** A route of the configuration; `component` stands for every other
      field, which prefixing keeps. */
  datatype RouteConfig = RouteConfig(path: string, component: nat)

  function PrefixRoute(route: RouteConfig, prefix: string): RouteConfig {
    route.(path := if IsRouteOverride(route.path) then route.path else prefix + route.path)
  }

  /** prefixRoutes: every route, in order, with its path prefixed unless it
      is an override. */
  function PrefixRoutes(routes: seq<RouteConfig>, prefix: string): (r: seq<RouteConfig>)
    ensures |r| == |routes|
    ensures forall i :: 0 <= i < |routes| ==> r[i].component == routes[i].component
    ensures forall i :: 0 <= i < |routes| && IsRouteOverride(routes[i].path) ==> r[i].path == routes[i].path
    ensures forall i :: 0 <= i < |routes| && !IsRouteOverride(routes[i].path) ==>
      StartsWith(r[i].path, prefix) && r[i].path[|prefix|..] == routes[i].path
  {
    seq(|routes|, i requires 0 <= i < |routes| => PrefixRoute(routes[i], prefix))
  }

  /** Prefixing with `inner` and then `outer` is prefixing with
      `outer + inner`, as long as no inner-prefixed path looks like an
      override. */
  lemma PrefixRoutesCompose(routes: seq<RouteConfig>, inner: string, outer: string)
    requires forall i :: 0 <= i < |routes| && !IsRouteOverride(routes[i].path) ==> !IsRouteOverride(inner + routes[i].path)
    ensures PrefixRoutes(PrefixRoutes(routes, inner), outer) == PrefixRoutes(routes, outer + inner)
  {
    var a := PrefixRoutes(PrefixRoutes(routes, inner), outer);
    var b := PrefixRoutes(routes, outer + inner);
    forall i | 0 <= i < |routes| ensures a[i] == b[i] {
      if !IsRouteOverride(routes[i].path) {
        assert outer + (inner + routes[i].path) == (outer + inner) + routes[i].path;
      }
    }
  }

  // ---------------------------------------------------------------------------
  // navigate

  /** The `to` argument: a path or action string, or a page number. */
  datatype NavTarget = Path(s: string) | Number(n: int)

  /** isNavigateAction: a number, or a string that is not an absolute path. */
  predicate IsNavigateAction(to: NavTarget) {
    to.Number? || !StartsWith(to.s, "/")
  }

  predicate IsWhitespace(c: char) {
    c == ' ' || c == '\t' || c == '\n' || c == '\r' || c == '\U{B}' || c == '\U{C}'
  }

  function TrimStart(s: string): string {
    if |s| > 0 && IsWhitespace(s[0]) then TrimStart(s[1..]) else s
  }

  /** The longest prefix of decimal digits. */
  function DigitPrefix(s: string): (d: string)
    ensures AllDigits(d) && |d| <= |s| && d == s[..|d|]
    ensures |d| < |s| ==> !IsDigit(s[|d|])
  {
    if |s| > 0 && IsDigit(s[0]) then [s[0]] + DigitPrefix(s[1..]) else ""
  }

  /** `parseInt(s)` in base 10: leading white space, an optional sign, then
      the longest run of digits; None (NaN) when there is no digit. */
  function ParseInt(s: string): Option<int> {
    var t := TrimStart(s);
    var negative := |t| > 0 && t[0] == '-';
    var body := if |t| > 0 && (t[0] == '-' || t[0] == '+') then t[1..] else t;
    var digits := DigitPrefix(body);
    var value: int := DigitsValue(digits);
    if |digits| == 0 then None
    else Some(if negative then -value else value)
  }

  lemma {:induction false} DigitPrefixOfDigits(s: string)
    requires AllDigits(s)
    ensures DigitPrefix(s) == s
  {
    if |s| > 0 {
      DigitPrefixOfDigits(s[1..]);
      assert [s[0]] + s[1..] == s;
    }
  }

  /** parseInt reads back the decimal text of any integer. */
  lemma ParseIntRoundTrip(n: int)
    ensures ParseInt(IntToString(n)) == Some(n)
  {
    var digits := NatToString(if n < 0 then -n else n);
    DigitPrefixOfDigits(digits);
    NatToStringValue(if n < 0 then -n else n);
    if n < 0 {
      assert IntToString(n) == "-" + digits;
      assert ("-" + digits)[1..] == digits;
    }
  }

  datatype NavError =
    | NoIndex               // the location does not end with an index
    | PageOutOfBounds(page: int)

  /** The message of the Error thrown; the first names the page's
      `location.href`. */
  function ErrorMessage(e: NavError, href: string): string {
    match e
    case NoIndex => "The current location \"" + href + "\" doesn't end with an index"
    case PageOutOfBounds(page) => "Page " + IntToString(page) + " out of bounds"
  }

  /** `"/" + toParts.join("/")` after `toParts.pop()`. */
  function ParentPath(location: string): string {
    var parts := Split(location, '/');
    "/" + Join(parts[..|parts| - 1], "/")
  }

  function LastSegment(location: string): string {
    var parts := Split(location, '/');
    parts[|parts| - 1]
  }

  /** The path that navigate hands to the router (before any search
      string), or the error it throws. */
  function NavigationTarget(location: string, to: NavTarget): Result<string, NavError> {
    if !IsNavigateAction(to) then Success(to.s)
    else
      var parent := ParentPath(location);
      match to
      case Number(n) =>
        if n <= 0 then Failure(PageOutOfBounds(n)) else Success(parent + "/" + IntToString(n))
      case Path(s) =>
        if s == "up" then Success(parent)
        else match ParseInt(LastSegment(location))
          case None => Failure(NoIndex)
          case Some(page) =>
            if s == "prev" then
              if page == 1 then Failure(PageOutOfBounds(0)) else Success(parent + "/" + IntToString(page - 1))
            else if s == "next" then Success("/" + parent + "/" + IntToString(page + 1))
            else Success(s)
  }

  lemma {:induction false} SplitAppend(a: string, b: string)
    requires '/' !in b
    ensures Split(a + "/" + b, '/') == Split(a, '/') + [b]
  {
    if |a| == 0 {
      assert a + "/" + b == "/" + b;
      assert ("/" + b)[1..] == b;
      SplitWithout(b, '/');
    } else {
      SplitAppend(a[1..], b);
      assert (a + "/" + b)[1..] == a[1..] + "/" + b;
      assert (a + "/" + b)[0] == a[0];
    }
  }

  /** For a location `p/last` whose last segment has no '/', the parent path
      is "/" followed by `p`, so an absolute `p` starts with two slashes. */
  lemma {:induction false} ParentOfLocation(p: string, last: string)
    requires '/' !in last
    ensures ParentPath(p + "/" + last) == "/" + p
    ensures LastSegment(p + "/" + last) == last
  {
    SplitAppend(p, last);
    var parts := Split(p + "/" + last, '/');
    assert parts[..|parts| - 1] == Split(p, '/');
    JoinSplit(p, '/');
  }

  /** Absolute paths pass through unchanged. */
  lemma AbsolutePathUnchanged(location: string, s: string)
    requires StartsWith(s, "/")
    ensures NavigationTarget(location, Path(s)) == Success(s)
  {
  }

  /** The targets for a location `p/last`: "up" is the parent, "prev" and
      "next" step the index read from the last segment (failing without an
      index, and "prev" failing on page 1), and "next" carries one more
      leading slash. */
  lemma NavigationFromLocation(p: string, last: string)
    requires '/' !in last
    ensures var loc := p + "/" + last;
      NavigationTarget(loc, Path("up")) == Success("/" + p) &&
      (ParseInt(last).None? ==> NavigationTarget(loc, Path("prev")) == Failure(NoIndex) &&
                                NavigationTarget(loc, Path("next")) == Failure(NoIndex)) &&
      (ParseInt(last) == Some(1) ==> NavigationTarget(loc, Path("prev")) == Failure(PageOutOfBounds(0))) &&
      (ParseInt(last).Some? && ParseInt(last).value != 1 ==>
        NavigationTarget(loc, Path("prev")) == Success("/" + p + "/" + IntToString(ParseInt(last).value - 1))) &&
      (ParseInt(last).Some? ==>
        NavigationTarget(loc, Path("next")) == Success("//" + p + "/" + IntToString(ParseInt(last).value + 1)))
  {
    ParentOfLocation(p, last);
    assert "up"[..1] == "u" && "prev"[..1] == "p" && "next"[..1] == "n";
    assert "/" + ("/" + p) == "//" + p;
  }

  /** A page number is reached from the parent path, and must be positive. */
  lemma NavigationToNumber(p: string, last: string, n: int)
    requires '/' !in last
    ensures n <= 0 ==> NavigationTarget(p + "/" + last, Number(n)) == Failure(PageOutOfBounds(n))
    ensures n > 0 ==> NavigationTarget(p + "/" + last, Number(n)) == Success("/" + p + "/" + IntToString(n))
  {
    ParentOfLocation(p, last);
  }

  /** Stepping back from a page printed by "prev" reads back the page
      number: the index in the new last segment is one less. */
  lemma PrevReadsBack(p: string, page: int)
    requires page != 1
    ensures var loc := p + "/" + IntToString(page);
      NavigationTarget(loc, Path("prev")).Success? &&
      LastSegment(NavigationTarget(loc, Path("prev")).value) == IntToString(page - 1) &&
      ParseInt(LastSegment(NavigationTarget(loc, Path("prev")).value)) == Some(page - 1)
  {
    NoSlashInNumber(page);
    NoSlashInNumber(page - 1);
    ParseIntRoundTrip(page);
    ParseIntRoundTrip(page - 1);
    ParentOfLocation(p, IntToString(page));
    ParentOfLocation("/" + p, IntToString(page - 1));
  }

  lemma NoSlashInNumber(n: int)
    ensures '/' !in IntToString(n)
  {
    var d := NatToString(if n < 0 then -n else n);
    assert forall i :: 0 <= i < |d| ==> IsDigit(d[i]);
  }
}
