/**
 * The setup verification script: which required variables are set, how
 * their values are shown, which packages import, and whether the
 * connection tests run. The environment, the import machinery and the two
 * connection tests are parameters; the printed banners are left out, the
 * per-variable status lines are returned.
 */
module SetupCheck {
  import opened Wrappers
  import opened Text

  /** A required variable with the description the report shows for it. */
  datatype Required = Required(name: string, description: string)

  function RequiredVars(): (r: seq<Required>)
    ensures |r| == 6
  {
    [ Required("OPENAI_API_KEY", "OpenAI API Key"),
      Required("GOOGLE_ADS_DEVELOPER_TOKEN", "Google Ads Developer Token"),
      Required("GOOGLE_ADS_CLIENT_ID", "Google Ads Client ID"),
      Required("GOOGLE_ADS_CLIENT_SECRET", "Google Ads Client Secret"),
      Required("GOOGLE_ADS_REFRESH_TOKEN", "Google Ads Refresh Token"),
      Required("GOOGLE_ADS_CUSTOMER_ID", "Google Ads Customer ID") ]
  }

  /** The packages the script tries to import, with the names it reports. */
  const RequiredPackages: seq<(string, string)> := [
    ("streamlit", "Streamlit"),
    ("google.ads.googleads", "Google Ads API"),
    ("openai", "OpenAI API"),
    ("dotenv", "python-dotenv"),
    ("pandas", "Pandas")]

  /** A variable's value is hidden when its name mentions a token, a secret or a key. */
  predicate IsSensitive(name: string) {
    Contains(name, "TOKEN") || Contains(name, "SECRET") || Contains(name, "KEY")
  }

  /** A long value shows its first eight and last four characters; a short one shows nothing. */
  function Mask(value: string): (r: string)
    ensures |value| > 12 ==> |r| == 15 && r[..8] == value[..8] && r[8..11] == "..." && r[11..] == value[|value| - 4..]
    ensures |value| <= 12 ==> r == "***"
  {
    if |value| > 12 then value[..8] + "..." + value[|value| - 4..] else "***"
  }

  /** The masked form of a long value depends on nothing but its first eight and last four characters. */
  lemma MaskOnlyEnds(v: string, w: string)
    requires |v| > 12 && |w| > 12
    ensures Mask(v) == Mask(w) <==> v[..8] == w[..8] && v[|v| - 4..] == w[|w| - 4..]
  {
    if Mask(v) == Mask(w) {
      assert v[..8] == Mask(v)[..8];
      assert v[|v| - 4..] == Mask(v)[11..];
    }
  }

  /** Every value of twelve characters or fewer masks the same way, so its length is not shown either. */
  lemma MaskShortAlike(v: string, w: string)
    requires |v| <= 12 && |w| <= 12
    ensures Mask(v) == Mask(w)
  {
  }

  /** The text shown for a set variable. */
  function Shown(name: string, value: string): string {
    if IsSensitive(name) then Mask(value) else value
  }

  /** `if value:` on the result of `os.getenv`: present and non-empty. */
  predicate IsSet(value: Option<string>) {
    value.Some? && value.value != ""
  }

  const SetMark := "\U{2713} "
  const UnsetMark := "\U{2717} "

  function StatusLine(v: Required, value: Option<string>): string {
    if IsSet(value) then SetMark + v.description + ": " + Shown(v.name, value.value)
    else UnsetMark + v.description + ": NOT SET"
  }

  /**
   * The environment check: one status line per required variable, in
   * order, and the flag that says whether every one was set.
   */
  method CheckEnvVars(env: string -> Option<string>) returns (allSet: bool, report: seq<string>)
    ensures allSet <==> forall i :: 0 <= i < |RequiredVars()| ==> IsSet(env(RequiredVars()[i].name))
    ensures |report| == |RequiredVars()|
    ensures forall i :: 0 <= i < |report| ==> report[i] == StatusLine(RequiredVars()[i], env(RequiredVars()[i].name))
  {
    allSet, report := CheckVars(RequiredVars(), env);
  }

  /** The loop of the environment check, over any list of variables. */
  method CheckVars(requiredVars: seq<Required>, env: string -> Option<string>) returns (allSet: bool, report: seq<string>)
    ensures allSet <==> forall i :: 0 <= i < |requiredVars| ==> IsSet(env(requiredVars[i].name))
    ensures |report| == |requiredVars|
    ensures forall i :: 0 <= i < |report| ==> report[i] == StatusLine(requiredVars[i], env(requiredVars[i].name))
  {
    allSet := true;
    report := [];
    for i := 0 to |requiredVars|
      invariant allSet <==> forall j :: 0 <= j < i ==> IsSet(env(requiredVars[j].name))
      invariant |report| == i
      invariant forall j :: 0 <= j < i ==> report[j] == StatusLine(requiredVars[j], env(requiredVars[j].name))
    {
      var v := requiredVars[i];
      var value := env(v.name);
      if value.Some? && value.value != "" {
        if IsSensitive(v.name) {
          report := report + [SetMark + v.description + ": " + Mask(value.value)];
        } else {
          report := report + [SetMark + v.description + ": " + value.value];
        }
      } else {
        report := report + [UnsetMark + v.description + ": NOT SET"];
        allSet := false;
      }
    }
  }

  /** The dependency check: true exactly when every required package imports. */
  method CheckDependencies(installed: string -> bool) returns (allInstalled: bool)
    ensures allInstalled <==> forall i :: 0 <= i < |RequiredPackages| ==> installed(RequiredPackages[i].0)
  {
    allInstalled := true;
    for i := 0 to |RequiredPackages|
      invariant allInstalled <==> forall j :: 0 <= j < i ==> installed(RequiredPackages[j].0)
    {
      if !installed(RequiredPackages[i].0) {
        allInstalled := false;
      }
    }
  }

  datatype Verdict = SetupIncomplete | AllChecksPassed | SomeChecksFailed

  /**
   * The script's decision: it stops before any connection test when the
   * environment or the dependencies are incomplete, and otherwise passes
   * only when both connection tests succeed.
   */
  method RunChecks(env: string -> Option<string>, installed: string -> bool,
                   googleAdsConnects: bool, openaiConnects: bool)
    returns (verdict: Verdict, connectionsTested: bool)
    ensures connectionsTested <==>
      (forall i :: 0 <= i < |RequiredVars()| ==> IsSet(env(RequiredVars()[i].name))) &&
      (forall i :: 0 <= i < |RequiredPackages| ==> installed(RequiredPackages[i].0))
    ensures verdict == SetupIncomplete <==> !connectionsTested
    ensures verdict == AllChecksPassed <==> connectionsTested && googleAdsConnects && openaiConnects
  {
    var envOk, _ := CheckEnvVars(env);
    var depsOk := CheckDependencies(installed);
    if !envOk || !depsOk {
      return SetupIncomplete, false;
    }
    connectionsTested := true;
    if googleAdsConnects && openaiConnects {
      verdict := AllChecksPassed;
    } else {
      verdict := SomeChecksFailed;
    }
  }

  /**
   * Of the six required variables only the client id (the third) and the
   * customer id (the sixth) are shown in full.
   */
  lemma OnlyIdsShown(i: nat)
    requires i < |RequiredVars()|
    ensures !IsSensitive(RequiredVars()[i].name) <==> i == 2 || i == 5
  {
    var name := RequiredVars()[i].name;
    if i == 0 {
      SensitiveSuffix("OPENAI_API_", "KEY");
      assert name == "OPENAI_API_" + "KEY";
    } else if i == 1 {
      SensitiveSuffix("GOOGLE_ADS_DEVELOPER_", "TOKEN");
      assert name == "GOOGLE_ADS_DEVELOPER_" + "TOKEN";
    } else if i == 2 {
      assert name == "GOOGLE_ADS_CLIENT_ID";
      ClientIdNotSensitive();
    } else if i == 3 {
      SensitiveSuffix("GOOGLE_ADS_CLIENT_", "SECRET");
      assert name == "GOOGLE_ADS_CLIENT_" + "SECRET";
    } else if i == 4 {
      SensitiveSuffix("GOOGLE_ADS_REFRESH_", "TOKEN");
      assert name == "GOOGLE_ADS_REFRESH_" + "TOKEN";
    } else {
      CustomerIdNotSensitive();
    }
  }

  /** A name that ends in a keyword is sensitive. */
  lemma SensitiveSuffix(front: string, keyword: string)
    requires keyword == "TOKEN" || keyword == "SECRET" || keyword == "KEY"
    ensures IsSensitive(front + keyword)
  {
    var name := front + keyword;
    assert name[|front|..|front| + |keyword|] == keyword;
    ContainsAt(name, keyword, |front|);
  }

  lemma ClientIdNotSensitive()
    ensures !IsSensitive("GOOGLE_ADS_CLIENT_ID")
  {
    var name := "GOOGLE_ADS_CLIENT_ID";
    assert 'K' !in name && 'R' !in name;
    WithoutKR(name);
  }

  /** A name with neither a 'K' nor an 'R' mentions no token, secret or key. */
  lemma WithoutKR(name: string)
    requires 'K' !in name && 'R' !in name
    ensures !IsSensitive(name)
  {
    CharNeeded(name, "TOKEN", 2);
    CharNeeded(name, "SECRET", 3);
    CharNeeded(name, "KEY", 0);
  }

  lemma CustomerIdNotSensitive()
    ensures !IsSensitive("GOOGLE_ADS_CUSTOMER_ID")
  {
    var head, back := "GOOGLE_ADS_CUSTOMER", "ID";
    assert head + ['_'] + back == "GOOGLE_ADS_CUSTOMER_ID";
    assert !IsSensitive(back) by {
      assert 'K' !in back && 'R' !in back;
      WithoutKR(back);
    }
    assert !IsSensitive(head) by {
      CustomerNotSensitive();
    }
    SplitNotSensitive(head, '_', back);
  }

  lemma CustomerNotSensitive()
    ensures !IsSensitive("GOOGLE_ADS_CUSTOMER")
  {
    var front, back := "GOOGLE_ADS_CUSTO", "ER";
    assert front + ['M'] + back == "GOOGLE_ADS_CUSTOMER";
    assert !IsSensitive(front) by {
      assert 'K' !in front && 'R' !in front;
      WithoutKR(front);
    }
    assert !IsSensitive(back) by {
      ShortNotSensitive(back);
    }
    SplitNotSensitive(front, 'M', back);
  }

  /** A name shorter than every keyword mentions none of them. */
  lemma ShortNotSensitive(name: string)
    requires |name| < 3
    ensures !IsSensitive(name)
  {
    ContainsShorter(name, "TOKEN");
    ContainsShorter(name, "SECRET");
    ContainsShorter(name, "KEY");
  }

  /** Joining two names that mention no keyword at an 'M' or a '_' gives a name that mentions none. */
  lemma SplitNotSensitive(front: string, c: char, back: string)
    requires c == 'M' || c == '_'
    requires !IsSensitive(front) && !IsSensitive(back)
    ensures !IsSensitive(front + [c] + back)
  {
    ContainsAcross(front, c, back, "TOKEN");
    ContainsAcross(front, c, back, "SECRET");
    ContainsAcross(front, c, back, "KEY");
  }
}
