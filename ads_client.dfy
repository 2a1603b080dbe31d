/**
 * The Google Ads side of the application: the client configuration built
 * from the environment, and the keyword-idea request — its input checks,
 * the geo target filter, the customer id and URL normalisation, the
 * extraction of metrics from the response, and the error message every
 * failure is turned into.
 *
 * The SDK is out of view: `urlparse` is a function parameter yielding the
 * network location and path of a URL, and the keyword plan idea service is
 * a function parameter from the request to the results or a failure.
 */
module AdsClient {
  import opened Wrappers
  import opened Text
  import opened Keywords

  const ErrorPrefix := "Google Ads API error"
  const GeoPrefix := "geoTargetConstants/"
  const MaxGeoTargets := 10

  /*
   * Client configuration
   */

  /** The configuration dictionary handed to `GoogleAdsClient.load_from_dict`. */
  datatype ClientConfig = ClientConfig(
    developerToken: Option<string>,
    clientId: Option<string>,
    clientSecret: Option<string>,
    refreshToken: Option<string>,
    useProtoPlus: bool,
    loginCustomerId: Option<string>)

  function Lookup(env: map<string, string>, name: string): Option<string> {
    if name in env then Some(env[name]) else None
  }

  /** A login customer id the configuration accepts: exactly ten ASCII digits. */
  predicate IsLoginId(id: string) {
    IsDigits(id) && |id| == 10
  }

  /**
   * `create_google_ads_client` up to the SDK call: the four credentials as
   * read, and the login customer id, with its dashes removed, only when
   * that leaves exactly ten digits.
   */
  method BuildClientConfig(env: map<string, string>) returns (config: ClientConfig)
    ensures config.developerToken == Lookup(env, "GOOGLE_ADS_DEVELOPER_TOKEN")
    ensures config.clientId == Lookup(env, "GOOGLE_ADS_CLIENT_ID")
    ensures config.clientSecret == Lookup(env, "GOOGLE_ADS_CLIENT_SECRET")
    ensures config.refreshToken == Lookup(env, "GOOGLE_ADS_REFRESH_TOKEN")
    ensures config.useProtoPlus
    ensures var login := Lookup(env, "GOOGLE_ADS_LOGIN_CUSTOMER_ID");
      config.loginCustomerId.Some? <==> login.Some? && IsLoginId(Without(login.value, '-'))
    ensures config.loginCustomerId.Some? ==>
      config.loginCustomerId.value == Without(env["GOOGLE_ADS_LOGIN_CUSTOMER_ID"], '-')
  {
    config := ClientConfig(
      Lookup(env, "GOOGLE_ADS_DEVELOPER_TOKEN"),
      Lookup(env, "GOOGLE_ADS_CLIENT_ID"),
      Lookup(env, "GOOGLE_ADS_CLIENT_SECRET"),
      Lookup(env, "GOOGLE_ADS_REFRESH_TOKEN"),
      true,
      None);
    var login := Lookup(env, "GOOGLE_ADS_LOGIN_CUSTOMER_ID");
    if login.Some? && login.value != "" {
      var clean := Replace(login.value, "-", "");
      ReplaceDeletesChar(login.value, '-');
      if IsDigits(clean) && |clean| == 10 {
        config := config.(loginCustomerId := Some(clean));
      }
    }
  }

  /** A dashed id such as `123-456-7890` is accepted as `1234567890`; the accepted id has no dash. */
  lemma LoginIdHasNoDash(raw: string)
    requires IsLoginId(Without(raw, '-'))
    ensures '-' !in Without(raw, '-') && |Without(raw, '-')| == 10
    ensures |raw| >= 10
  {
    WithoutShorter(raw, '-');
  }

  lemma {:induction false} WithoutShorter(s: string, a: char)
    ensures |Without(s, a)| <= |s|
    decreases |s|
  {
    if s != [] {
      WithoutShorter(s[1..], a);
    }
  }

  /*
   * Geo target filter
   */

  /** `[gt for gt in geo if gt and isinstance(gt, str) and gt.strip()]`: `None` stands for any non-string or None entry. */
  function DropBlank(geo: seq<Option<string>>): (r: seq<string>)
    ensures |r| <= |geo|
    ensures forall i :: 0 <= i < |r| ==> !IsBlank(r[i])
    decreases |geo|
  {
    if geo == [] then []
    else
      var rest := DropBlank(geo[1..]);
      if geo[0].Some? && !IsBlank(geo[0].value) then [geo[0].value] + rest else rest
  }

  /** Exactly the present, non-blank entries survive. */
  lemma {:induction false} DropBlankMembers(geo: seq<Option<string>>, x: string)
    ensures x in DropBlank(geo) <==> Some(x) in geo && !IsBlank(x)
    decreases |geo|
  {
    if geo != [] {
      DropBlankMembers(geo[1..], x);
      assert geo == [geo[0]] + geo[1..];
    }
  }

  /** The filter runs entry by entry in order: the survivors of a concatenation are the survivors of each part, in turn. */
  lemma {:induction false} DropBlankAppend(a: seq<Option<string>>, b: seq<Option<string>>)
    ensures DropBlank(a + b) == DropBlank(a) + DropBlank(b)
    decreases |a|
  {
    if a == [] {
      assert a + b == b;
    } else {
      assert (a + b)[1..] == a[1..] + b;
      DropBlankAppend(a[1..], b);
    }
  }

  /** One entry survives as its text exactly when it is present and not blank. */
  lemma DropBlankOne(x: Option<string>)
    ensures DropBlank([x]) == if x.Some? && !IsBlank(x.value) then [x.value] else []
  {
    assert [x][1..] == [];
  }

  /** `list(dict.fromkeys(xs))` */
  function Dedupe(xs: seq<string>): (r: seq<string>)
    ensures |r| <= |xs|
    ensures forall i, j :: 0 <= i < j < |r| ==> r[i] != r[j]
    ensures forall x :: x in r <==> x in xs
    decreases |xs|
  {
    if xs == [] then []
    else
      var rest := Dedupe(xs[..|xs| - 1]);
      var last := xs[|xs| - 1];
      assert xs == xs[..|xs| - 1] + [last];
      if last in rest then rest else rest + [last]
  }

  /** The position of the first occurrence of `x`. */
  function FirstIndex(xs: seq<string>, x: string): (k: nat)
    requires x in xs
    ensures k < |xs| && xs[k] == x && x !in xs[..k]
    decreases |xs|
  {
    if xs[0] == x then 0
    else
      var k := FirstIndex(xs[1..], x);
      assert xs[..k + 1] == [xs[0]] + xs[1..][..k];
      k + 1
  }

  lemma FirstIndexUnique(xs: seq<string>, x: string, k: nat)
    requires k < |xs| && xs[k] == x && x !in xs[..k]
    ensures FirstIndex(xs, x) == k
  {
    var f := FirstIndex(xs, x);
    assert forall m :: 0 <= m < k ==> xs[..k][m] == xs[m];
    assert forall m :: 0 <= m < f ==> xs[..f][m] == xs[m];
  }

  /** De-duplication keeps each text where it first occurred: kept texts are in order of first occurrence. */
  lemma {:induction false} DedupeKeepsFirstOrder(xs: seq<string>, i: nat, j: nat)
    requires i < j < |Dedupe(xs)|
    ensures FirstIndex(xs, Dedupe(xs)[i]) < FirstIndex(xs, Dedupe(xs)[j])
    decreases |xs|
  {
    var init := xs[..|xs| - 1];
    var last := xs[|xs| - 1];
    var rest := Dedupe(init);
    var r := Dedupe(xs);
    assert xs == init + [last];
    assert r[i] in rest;
    PrefixFirstIndex(init, last, r[i]);
    if j < |rest| {
      DedupeKeepsFirstOrder(init, i, j);
      PrefixFirstIndex(init, last, r[j]);
    } else {
      assert r[j] == last && last !in init;
      assert xs[..|init|] == init;
      FirstIndexUnique(xs, last, |init|);
    }
  }

  lemma PrefixFirstIndex(init: seq<string>, last: string, x: string)
    requires x in init
    ensures FirstIndex(init + [last], x) == FirstIndex(init, x)
  {
    var k := FirstIndex(init, x);
    assert (init + [last])[..k] == init[..k];
    FirstIndexUnique(init + [last], x, k);
  }

  /** Texts that are already distinct pass through de-duplication unchanged. */
  lemma {:induction false} DedupeDistinct(xs: seq<string>)
    requires forall i, j :: 0 <= i < j < |xs| ==> xs[i] != xs[j]
    ensures Dedupe(xs) == xs
    decreases |xs|
  {
    if xs != [] {
      var init := xs[..|xs| - 1];
      DedupeDistinct(init);
      assert xs[|xs| - 1] !in init;
      assert init + [xs[|xs| - 1]] == xs;
    }
  }

  /** The format check: the prefix and at least two characters after it. */
  predicate IsGeoTarget(gt: string) {
    StartsWith(gt, GeoPrefix) && |gt| > 20
  }

  /** The stripped entries that pass the format check, in order. */
  function Validated(xs: seq<string>): (r: seq<string>)
    ensures |r| <= |xs|
    ensures forall i :: 0 <= i < |r| ==> IsGeoTarget(r[i])
    decreases |xs|
  {
    if xs == [] then []
    else
      var rest := Validated(xs[..|xs| - 1]);
      var gt := Strip(xs[|xs| - 1]);
      if IsGeoTarget(gt) then rest + [gt] else rest
  }

  /** An entry whose stripped form passes the check is kept. */
  lemma {:induction false} ValidatedKeeps(xs: seq<string>, i: nat)
    requires i < |xs| && IsGeoTarget(Strip(xs[i]))
    ensures Strip(xs[i]) in Validated(xs)
    decreases |xs|
  {
    if i < |xs| - 1 {
      ValidatedKeeps(xs[..|xs| - 1], i);
    }
  }

  /** Every kept entry is the stripped form of an input entry. */
  lemma {:induction false} ValidatedSource(xs: seq<string>, g: string) returns (i: nat)
    requires g in Validated(xs)
    ensures i < |xs| && Strip(xs[i]) == g
    decreases |xs|
  {
    var init := xs[..|xs| - 1];
    if g in Validated(init) {
      i := ValidatedSource(init, g);
      assert xs[i] == init[i];
    } else {
      var gt := Strip(xs[|xs| - 1]);
      assert g == gt by {
        assert Validated(xs) == if IsGeoTarget(gt) then Validated(init) + [gt] else Validated(init);
      }
      i := |xs| - 1;
    }
  }

  /** Validating one more entry appends its stripped form when that form passes the check. */
  lemma ValidatedSnoc(xs: seq<string>, x: string)
    ensures Validated(xs + [x]) == Validated(xs) + if IsGeoTarget(Strip(x)) then [Strip(x)] else []
  {
    var c := xs + [x];
    assert c[..|c| - 1] == xs;
    assert c[|c| - 1] == x;
  }

  /** The check runs entry by entry in order: the survivors of a concatenation are the survivors of each part, in turn. */
  lemma {:induction false} ValidatedAppend(a: seq<string>, b: seq<string>)
    ensures Validated(a + b) == Validated(a) + Validated(b)
    decreases |b|
  {
    if b == [] {
      assert a + b == a;
    } else {
      var front, last := b[..|b| - 1], b[|b| - 1];
      var tail := if IsGeoTarget(Strip(last)) then [Strip(last)] else [];
      assert b == front + [last];
      assert a + b == (a + front) + [last];
      var left, mid := Validated(a), Validated(front);
      calc {
        Validated(a + b);
        { ValidatedSnoc(a + front, last); }
        Validated(a + front) + tail;
        { ValidatedAppend(a, front); }
        (left + mid) + tail;
        left + (mid + tail);
        { ValidatedSnoc(front, last); }
        left + Validated(b);
      }
    }
  }

  /** One entry survives as its stripped form exactly when that form passes the check. */
  lemma ValidatedOne(x: string)
    ensures Validated([x]) == if IsGeoTarget(Strip(x)) then [Strip(x)] else []
  {
    assert [x][..0] == [];
  }

  /** The validation loop over the de-duplicated entries. */
  method ValidateGeoTargets(xs: seq<string>) returns (validated: seq<string>)
    ensures validated == Validated(xs)
  {
    validated := [];
    for i := 0 to |xs|
      invariant validated == Validated(xs[..i])
    {
      assert xs[..i + 1][..i] == xs[..i];
      var gt := Strip(xs[i]);
      if IsGeoTarget(gt) {
        validated := validated + [gt];
      }
    }
    assert xs[..|xs|] == xs;
  }

  /** `targets[:10]` when there are more than ten. */
  function Capped(targets: seq<string>): (r: seq<string>)
    ensures |r| <= MaxGeoTargets && |r| <= |targets|
    ensures r == targets[..|r|]
    ensures |r| == if |targets| <= MaxGeoTargets then |targets| else MaxGeoTargets
  {
    if |targets| > MaxGeoTargets then targets[..MaxGeoTargets] else targets
  }

  /** A geo target with a one-digit id is rejected by the length check. */
  lemma OneDigitIdRejected(d: char)
    ensures !IsGeoTarget(GeoPrefix + [d])
  {
  }

  /** A text with no blank at either end strips to itself, and so does it with one blank appended. */
  lemma StripTrailingBlank(g: string, w: char)
    requires g != [] && !IsSpace(g[0]) && !IsSpace(g[|g| - 1]) && IsSpace(w)
    ensures Strip(g) == g && Strip(g + [w]) == g
  {
    var t := g + [w];
    assert TrimStart(g) == g;
    assert TrimEnd(g) == g;
    assert TrimStart(t) == t;
    assert t[..|t| - 1] == g;
    assert TrimEnd(t) == TrimEnd(g);
  }

  /**
   * De-duplication runs before stripping, so a geo target and the same
   * target with a trailing blank both reach the request.
   */
  lemma WhitespaceVariantsSurvive(g: string, w: char)
    requires IsGeoTarget(g) && !IsSpace(g[|g| - 1]) && IsSpace(w)
    ensures Validated(Dedupe(DropBlank([Some(g), Some(g + [w])]))) == [g, g]
  {
    var padded := g + [w];
    assert g[0] == g[..|GeoPrefix|][0] == 'g';
    StripTrailingBlank(g, w);
    assert DropBlank([Some(g), Some(padded)]) == [g, padded] by {
      DropBlankTwo(g, padded);
    }
    assert Dedupe([g, padded]) == [g, padded] by {
      DedupeTwo(g, padded);
    }
    ValidatedTwo(g, padded, g);
  }

  lemma DropBlankTwo(a: string, b: string)
    requires !IsBlank(a) && !IsBlank(b)
    ensures DropBlank([Some(a), Some(b)]) == [a, b]
  {
    var geo := [Some(a), Some(b)];
    assert geo[1..] == [Some(b)] && geo[1..][1..] == [];
  }

  lemma DedupeTwo(a: string, b: string)
    requires a != b
    ensures Dedupe([a, b]) == [a, b]
  {
    var xs := [a, b];
    assert xs[..1] == [a] && xs[..1][..0] == [];
  }

  lemma ValidatedTwo(a: string, b: string, g: string)
    requires Strip(a) == g && Strip(b) == g && IsGeoTarget(g)
    ensures Validated([a, b]) == [g, g]
  {
    var xs := [a, b];
    assert xs[..1] == [a] && xs[..1][..0] == [];
    assert Validated(xs[..1]) == [g];
  }

  /*
   * Website URL
   */

  /** What `urlparse` yields that the request uses: the network location and the path. */
  datatype UrlParts = UrlParts(netloc: string, path: string)

  function TrimLeadingSlashes(s: string): (r: string)
    ensures |r| <= |s| && r == s[|s| - |r|..]
    ensures r == [] || r[0] != '/'
    ensures forall i :: 0 <= i < |s| - |r| ==> s[i] == '/'
    decreases |s|
  {
    if s != [] && s[0] == '/' then TrimLeadingSlashes(s[1..]) else s
  }

  function TrimTrailingSlashes(s: string): (r: string)
    ensures |r| <= |s| && r == s[..|r|]
    ensures r == [] || r[|r| - 1] != '/'
    ensures forall i :: |r| <= i < |s| ==> s[i] == '/'
    decreases |s|
  {
    if s != [] && s[|s| - 1] == '/' then TrimTrailingSlashes(s[..|s| - 1]) else s
  }

  /** `s.strip("/")` */
  function StripSlashes(s: string): (r: string)
    ensures |r| <= |s|
    ensures r == [] || (r[0] != '/' && r[|r| - 1] != '/')
    ensures r == [] <==> forall i :: 0 <= i < |s| ==> s[i] == '/'
  {
    var t := TrimLeadingSlashes(s);
    var r := TrimTrailingSlashes(t);
    assert r == [] ==> t == [];
    r
  }

  /** `parsed.netloc or parsed.path.strip("/")` */
  function SiteDomain(parts: UrlParts): (domain: string)
    ensures parts.netloc != [] ==> domain == parts.netloc
    ensures domain == [] ==> parts.netloc == [] && forall i :: 0 <= i < |parts.path| ==> parts.path[i] == '/'
  {
    if parts.netloc != [] then parts.netloc
    else StripSlashes(parts.path)
  }

  /** The site seed: one leading `www.` dropped, then every scheme text removed. */
  function CleanDomain(domain: string): string {
    var bare := if StartsWith(domain, "www.") then domain[4..] else domain;
    Replace(Replace(bare, "https://", ""), "http://", "")
  }

  /** Only one `www.` goes: `www.www.example.com` becomes `www.example.com`. */
  lemma CleanDomainDropsOneWww(rest: string)
    requires !Contains(rest, "https://") && !Contains(rest, "http://")
    ensures CleanDomain("www." + rest) == rest
  {
    assert ("www." + rest)[..4] == "www.";
    assert ("www." + rest)[4..] == rest;
    ReplaceAbsent(rest, "https://", "");
    ReplaceAbsent(rest, "http://", "");
  }

  predicate HasScheme(url: string) {
    StartsWith(url, "http://") || StartsWith(url, "https://")
  }

  /** The URL seed: `https://` prepended unless the URL starts with `http://` or `https://`. */
  function EnsureScheme(url: string): (r: string)
    ensures HasScheme(r)
    ensures HasScheme(url) ==> r == url
    ensures !HasScheme(url) ==> r == "https://" + url
  {
    if HasScheme(url) then url
    else
      var r := "https://" + url;
      assert r[..|"https://"|] == "https://";
      r
  }

  /** The second scheme check in the source therefore never changes the URL. */
  lemma EnsureSchemeIdempotent(url: string)
    ensures EnsureScheme(EnsureScheme(url)) == EnsureScheme(url)
  {
  }

  /*
   * Response metrics
   */

  /** The competition enum; `Unspecified` is its zero value, which is falsy. */
  datatype CompetitionLevel = Unspecified | Unknown | Low | Medium | High

  function CompetitionName(c: CompetitionLevel): string {
    match c
    case Unspecified => "UNSPECIFIED"
    case Unknown => "UNKNOWN"
    case Low => "LOW"
    case Medium => "MEDIUM"
    case High => "HIGH"
  }

  datatype IdeaMetrics = IdeaMetrics(
    avgMonthlySearches: Option<int>,
    competition: CompetitionLevel,
    competitionIndex: Option<int>,
    lowTopOfPageBidMicros: Option<int>,
    highTopOfPageBidMicros: Option<int>,
    monthlySearchVolumes: seq<MonthlyVolume>)

  /** One result of the keyword plan idea service. */
  datatype IdeaResult = IdeaResult(text: string, metrics: IdeaMetrics)

  /** Python truth of an optional integer: present and not zero. */
  predicate Truthy(v: Option<int>) {
    v.Some? && v.value != 0
  }

  /** The keyword dictionary built from one result. */
  function ToIdea(result: IdeaResult): KeywordIdea {
    var m := result.metrics;
    KeywordIdea(
      Some(result.text),
      Some(if Truthy(m.avgMonthlySearches) then m.avgMonthlySearches.value else 0),
      Some(if m.competition == Unspecified then "UNKNOWN" else CompetitionName(m.competition)),
      if Truthy(m.competitionIndex) then m.competitionIndex else None,
      if Truthy(m.lowTopOfPageBidMicros) then m.lowTopOfPageBidMicros else None,
      if Truthy(m.highTopOfPageBidMicros) then m.highTopOfPageBidMicros else None,
      if m.monthlySearchVolumes != [] then Some(m.monthlySearchVolumes) else None)
  }

  /** The shape every extracted idea has: all six fields that always get a value have one, and no field holds a falsy value. */
  predicate Normalised(idea: KeywordIdea) {
    && idea.keyword.Some?
    && idea.avgMonthlySearches.Some?
    && idea.competition.Some? && idea.competition.value != ""
    && (idea.competitionIndex.Some? ==> idea.competitionIndex.value != 0)
    && (idea.lowTopOfPageBidMicros.Some? ==> idea.lowTopOfPageBidMicros.value != 0)
    && (idea.highTopOfPageBidMicros.Some? ==> idea.highTopOfPageBidMicros.value != 0)
    && (idea.monthlyBreakdown.Some? ==> idea.monthlyBreakdown.value != [])
  }

  /**
   * The defaulting rules: the keyword text as sent, a falsy volume as 0, an
   * unspecified competition as "UNKNOWN", a falsy index or bid as absent,
   * and a breakdown only when the service gave one.
   */
  lemma ToIdeaDefaults(result: IdeaResult)
    ensures Normalised(ToIdea(result))
    ensures ToIdea(result).keyword == Some(result.text)
    ensures Volume(ToIdea(result)) == result.metrics.avgMonthlySearches.GetOr(0)
    ensures result.metrics.competition == Unspecified ==> ToIdea(result).competition == Some("UNKNOWN")
    ensures ToIdea(result).competitionIndex.None? <==> !Truthy(result.metrics.competitionIndex)
    ensures ToIdea(result).lowTopOfPageBidMicros.None? <==> !Truthy(result.metrics.lowTopOfPageBidMicros)
    ensures ToIdea(result).highTopOfPageBidMicros.None? <==> !Truthy(result.metrics.highTopOfPageBidMicros)
    ensures ToIdea(result).monthlyBreakdown.Some? <==> result.metrics.monthlySearchVolumes != []
  {
  }

  /** `results[:max_results]` mapped to keyword dictionaries; nothing for a cap of zero or less. */
  function IdeasFrom(response: seq<IdeaResult>, maxResults: int): (ideas: seq<KeywordIdea>)
    ensures |ideas| == if maxResults <= 0 then 0 else if |response| <= maxResults then |response| else maxResults
    ensures forall i :: 0 <= i < |ideas| ==> ideas[i] == ToIdea(response[i])
  {
    var n := if maxResults <= 0 then 0 else if |response| <= maxResults then |response| else maxResults;
    seq(n, i requires 0 <= i < n => ToIdea(response[i]))
  }

  /** The extraction loop with its running count. */
  method ExtractResults(response: seq<IdeaResult>, maxResults: int) returns (results: seq<KeywordIdea>)
    ensures results == IdeasFrom(response, maxResults)
  {
    results := [];
    var count := 0;
    for i := 0 to |response|
      invariant count == |results| == i
      invariant forall k :: 0 <= k < i ==> results[k] == ToIdea(response[k])
      invariant maxResults > 0 ==> count <= maxResults
      invariant maxResults <= 0 ==> i == 0
    {
      if count >= maxResults {
        break;
      }
      results := results + [ToIdea(response[i])];
      count := count + 1;
    }
  }

  /*
   * Error messages
   */

  /** The failure a `GoogleAdsException` carries: a code name when the code is set, a location and details ("" when absent, unreadable or empty). */
  datatype AdsFailure = AdsFailure(code: Option<string>, location: string, details: string)

  /** A `GoogleAdsException`: its failure, if any, and `str(ex)`. */
  datatype AdsException = AdsException(failure: Option<AdsFailure>, text: string)

  /** The heading line of the advice appended to invalid-argument errors; the numbered advice under it is not reproduced. */
  const ArgumentGuidance := "\n\U{26A0}\U{FE0F} INVALID_ARGUMENT Error - Possible causes:\n"

  /** The heading line of the advice appended to permission errors; the numbered advice under it is not reproduced. */
  const PermissionGuidance := "\n\U{26A0}\U{FE0F} PERMISSION_DENIED Error - Possible causes:\n"

  /** The first guidance applies to an invalid argument, or to details that mention an invalid value. */
  predicate NeedsArgumentGuidance(failure: Option<AdsFailure>) {
    failure.Some? &&
    (failure.value.code == Some("INVALID_ARGUMENT")
     || (failure.value.details != "" && Contains(Lower(failure.value.details), "invalid value")))
  }

  predicate NeedsPermissionGuidance(failure: Option<AdsFailure>) {
    !NeedsArgumentGuidance(failure) && failure.Some? && failure.value.code == Some("PERMISSION_DENIED")
  }

  /** The guidance appended to the message head: at most one of the two, the argument advice first. */
  function GuidanceFor(failure: Option<AdsFailure>): (guidance: string)
    ensures NeedsArgumentGuidance(failure) ==> guidance == "\n\n" + ArgumentGuidance
    ensures NeedsPermissionGuidance(failure) ==> guidance == "\n\n" + PermissionGuidance
    ensures failure.None? ==> guidance == ""
    ensures !NeedsArgumentGuidance(failure) && !NeedsPermissionGuidance(failure) ==> guidance == ""
  {
    if NeedsArgumentGuidance(failure) then "\n\n" + ArgumentGuidance
    else if NeedsPermissionGuidance(failure) then "\n\n" + PermissionGuidance
    else ""
  }

  /** The message head: the code, location and details that are present, or the exception text. */
  function Headline(ex: AdsException): (head: string)
    ensures StartsWith(head, ErrorPrefix)
  {
    match ex.failure
    case None => ErrorPrefix + ": " + ex.text
    case Some(f) =>
      var withCode := if f.code.Some? then ErrorPrefix + ": " + f.code.value else ErrorPrefix;
      var withLocation := if f.location != "" then withCode + " at " + f.location else withCode;
      var head := if f.details != "" then withLocation + " - " + f.details else withLocation;
      assert withCode[..|ErrorPrefix|] == ErrorPrefix;
      assert withLocation[..|ErrorPrefix|] == ErrorPrefix;
      assert head[..|ErrorPrefix|] == ErrorPrefix;
      head
  }

  /** The head names the code, and quotes the details and location, whenever they are present. */
  lemma HeadlineMentions(ex: AdsException)
    ensures ex.failure.None? ==> Contains(Headline(ex), ex.text)
    ensures ex.failure.Some? && ex.failure.value.code.Some? ==>
      StartsWith(Headline(ex), ErrorPrefix + ": " + ex.failure.value.code.value)
    ensures ex.failure.Some? && ex.failure.value.details != "" ==>
      EndsWith(Headline(ex), " - " + ex.failure.value.details)
  {
    var head := Headline(ex);
    match ex.failure
    case None =>
      ContainsAt(head, ex.text, |ErrorPrefix + ": "|);
    case Some(f) =>
      var withCode := if f.code.Some? then ErrorPrefix + ": " + f.code.value else ErrorPrefix;
      var withLocation := if f.location != "" then withCode + " at " + f.location else withCode;
      if f.code.Some? {
        assert withLocation[..|withCode|] == withCode;
        assert head[..|withCode|] == withCode;
      }
  }

  /** The handler of a `GoogleAdsException`, building the message piece by piece. */
  method DescribeAdsException(ex: AdsException) returns (message: string)
    ensures message == Headline(ex) + GuidanceFor(ex.failure)
  {
    message := ErrorPrefix;
    var code: Option<string> := None;
    var details: Option<string> := None;
    if ex.failure.Some? {
      var f := ex.failure.value;
      if f.code.Some? {
        code := f.code;
        message := message + ": " + f.code.value;
      }
      if f.location != "" {
        message := message + " at " + f.location;
      }
      if f.details != "" {
        details := Some(f.details);
        message := message + " - " + f.details;
      }
    } else {
      message := message + ": " + ex.text;
    }
    assert message == Headline(ex);
    if code == Some("INVALID_ARGUMENT") || (details.Some? && Contains(Lower(details.value), "invalid value")) {
      message := message + "\n\n" + ArgumentGuidance;
    } else if code == Some("PERMISSION_DENIED") {
      message := message + "\n\n" + PermissionGuidance;
    }
  }

  /*
   * The keyword idea request
   */

  /** The fields of `GenerateKeywordIdeasRequest` the application sets; `siteSeed` is the domain of the site-seed fallback. */
  datatype KeywordRequest = KeywordRequest(
    customerId: string,
    language: string,
    geoTargets: seq<string>,
    includeAdultKeywords: bool,
    urlSeed: string,
    siteSeed: string)

  /** What the service call yields: the results, a `GoogleAdsException`, or any other exception's text. */
  datatype ServiceReply = Results(items: seq<IdeaResult>) | AdsError(ex: AdsException) | OtherError(text: string)

  /** A failure caught by the generic handler: the prefix, then the exception's text. */
  function Rejected(reason: string): (message: string)
    ensures StartsWith(message, ErrorPrefix) && EndsWith(message, reason)
  {
    var message := ErrorPrefix + ": " + reason;
    assert message[..|ErrorPrefix|] == ErrorPrefix;
    assert message[|message| - |reason|..] == reason;
    message
  }

  /**
   * The request the checks and normalisation steps produce, or the text of
   * the `ValueError` that stops them, checked in the order the source checks.
   */
  function RequestFor(customerId: string, websiteUrl: string, geo: seq<Option<string>>, languageId: string,
                      includeAdultKeywords: bool, urlparse: string -> UrlParts): Result<KeywordRequest, string>
  {
    if customerId == "" then Failure("Customer ID is required")
    else if geo == [] then Failure("At least one geo target constant is required")
    else if DropBlank(geo) == [] then Failure("No valid geo target constants found")
    else if Validated(Dedupe(DropBlank(geo))) == [] then Failure("No valid geo target constants found after validation")
    else if SiteDomain(urlparse(websiteUrl)) == [] then Failure("Invalid website URL: " + websiteUrl)
    else Success(KeywordRequest(
      Without(customerId, '-'),
      "languageConstants/" + languageId,
      Capped(Validated(Dedupe(DropBlank(geo)))),
      includeAdultKeywords,
      EnsureScheme(websiteUrl),
      CleanDomain(SiteDomain(urlparse(websiteUrl)))))
  }

  /**
   * A request goes out exactly when there is a customer id, some entry
   * survives the geo filter and the URL yields a domain; the first two geo
   * checks are subsumed by the last one.
   */
  lemma RequestForAccepts(customerId: string, websiteUrl: string, geo: seq<Option<string>>, languageId: string,
                          includeAdultKeywords: bool, urlparse: string -> UrlParts)
    ensures RequestFor(customerId, websiteUrl, geo, languageId, includeAdultKeywords, urlparse).Success? <==>
      customerId != "" && Validated(Dedupe(DropBlank(geo))) != [] && SiteDomain(urlparse(websiteUrl)) != []
  {
    if geo == [] {
      assert DropBlank(geo) == [];
    }
  }

  /**
   * The request sent: the customer id without dashes, one to ten
   * well-formed geo targets in first-occurrence order, and a URL seed with a
   * scheme that is the URL itself when it already had one.
   */
  lemma RequestForShape(customerId: string, websiteUrl: string, geo: seq<Option<string>>, languageId: string,
                        includeAdultKeywords: bool, urlparse: string -> UrlParts, request: KeywordRequest)
    requires RequestFor(customerId, websiteUrl, geo, languageId, includeAdultKeywords, urlparse) == Success(request)
    ensures '-' !in request.customerId
    ensures request.customerId == Without(customerId, '-')
    ensures 1 <= |request.geoTargets| <= MaxGeoTargets
    ensures forall i :: 0 <= i < |request.geoTargets| ==> IsGeoTarget(request.geoTargets[i])
    ensures var kept := Validated(Dedupe(DropBlank(geo)));
      |request.geoTargets| <= |kept| && request.geoTargets == kept[..|request.geoTargets|]
    ensures var kept := Validated(Dedupe(DropBlank(geo)));
      |request.geoTargets| == if |kept| < MaxGeoTargets then |kept| else MaxGeoTargets
    ensures HasScheme(request.urlSeed)
    ensures HasScheme(websiteUrl) ==> request.urlSeed == websiteUrl
  {
    var kept := Validated(Dedupe(DropBlank(geo)));
    assert kept != [] && request.geoTargets == Capped(kept) && request.customerId == Without(customerId, '-') by {
      assert request == KeywordRequest(Without(customerId, '-'), "languageConstants/" + languageId, Capped(kept),
        includeAdultKeywords, EnsureScheme(websiteUrl), CleanDomain(SiteDomain(urlparse(websiteUrl))));
    }
    CappedShape(kept, request.geoTargets);
  }

  /** Capping a non-empty list of well-formed targets keeps one to ten of them, from the front. */
  lemma CappedShape(kept: seq<string>, targets: seq<string>)
    requires kept != [] && targets == Capped(kept)
    requires forall i :: 0 <= i < |kept| ==> IsGeoTarget(kept[i])
    ensures 1 <= |targets| <= MaxGeoTargets
    ensures forall i :: 0 <= i < |targets| ==> IsGeoTarget(targets[i])
    ensures |targets| <= |kept| && targets == kept[..|targets|]
  {
    forall i | 0 <= i < |targets|
      ensures IsGeoTarget(targets[i])
    {
      assert targets[i] == kept[i];
    }
  }

  /** lines 58-144 of the request builder: the checks, the geo filter and the seeds, step by step. */
  method PrepareRequest(customerId: string, websiteUrl: string, geo: seq<Option<string>>, languageId: string,
                        includeAdultKeywords: bool, urlparse: string -> UrlParts)
    returns (request: Result<KeywordRequest, string>)
    ensures request == RequestFor(customerId, websiteUrl, geo, languageId, includeAdultKeywords, urlparse)
  {
    if customerId == "" {
      return Failure("Customer ID is required");
    }
    if geo == [] {
      return Failure("At least one geo target constant is required");
    }
    var present := DropBlank(geo);
    if present == [] {
      return Failure("No valid geo target constants found");
    }
    var distinct := Dedupe(present);
    var validated := ValidateGeoTargets(distinct);
    if validated == [] {
      return Failure("No valid geo target constants found after validation");
    }
    if |validated| > MaxGeoTargets {
      validated := validated[..MaxGeoTargets];
    }
    var customerIdClean := Replace(customerId, "-", "");
    ReplaceDeletesChar(customerId, '-');
    var domain := SiteDomain(urlparse(websiteUrl));
    if domain == "" {
      return Failure("Invalid website URL: " + websiteUrl);
    }
    if StartsWith(domain, "www.") {
      domain := domain[4..];
    }
    domain := Replace(Replace(domain, "https://", ""), "http://", "");
    var url := websiteUrl;
    if !HasScheme(url) {
      url := "https://" + url;
    }
    if !HasScheme(url) {
      url := "https://" + url;
    }
    request := Success(KeywordRequest(customerIdClean, "languageConstants/" + languageId, validated,
                                      includeAdultKeywords, url, domain));
  }

  /**
   * `generate_keyword_ideas`: the request sent, if the checks let it
   * through, and the ideas or the error message. `customerId` is "" for a
   * missing id.
   */
  method GenerateKeywordIdeas(customerId: string, websiteUrl: string, geo: seq<Option<string>>,
                              languageId: string, maxResults: int, includeAdultKeywords: bool,
                              urlparse: string -> UrlParts, service: KeywordRequest -> ServiceReply)
    returns (result: Result<seq<KeywordIdea>, string>, sent: Option<KeywordRequest>)
    ensures result.Failure? ==> StartsWith(result.error, ErrorPrefix)
    ensures var checked := RequestFor(customerId, websiteUrl, geo, languageId, includeAdultKeywords, urlparse);
      && (checked.Failure? ==> sent.None? && result == Failure(Rejected(checked.error)))
      && (checked.Success? ==> sent == Some(checked.value))
    ensures sent.Some? ==> match service(sent.value)
      case Results(items) => result == Success(IdeasFrom(items, maxResults))
      case OtherError(text) => result == Failure(Rejected(text))
      case AdsError(ex) => result.Failure? && result.error == Headline(ex) + GuidanceFor(ex.failure)
  {
    var checked := PrepareRequest(customerId, websiteUrl, geo, languageId, includeAdultKeywords, urlparse);
    if checked.Failure? {
      return Failure(Rejected(checked.error)), None;
    }
    var request := checked.value;
    sent := Some(request);
    match service(request)
    case Results(items) =>
      var ideas := ExtractResults(items, maxResults);
      result := Success(ideas);
    case OtherError(text) =>
      result := Failure(Rejected(text));
    case AdsError(ex) =>
      var message := DescribeAdsException(ex);
      StartsWithAppend(Headline(ex), GuidanceFor(ex.failure));
      result := Failure(message);
  }

  lemma StartsWithAppend(a: string, b: string)
    ensures StartsWith(a + b, a)
  {
    assert (a + b)[..|a|] == a;
  }
}
