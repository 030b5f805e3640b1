/**
  Application settings (`Settings`) and the two helpers over them: database
  URL assembly and the required-settings check.
 */
module AppConfig {
  import opened Wrappers
  import opened Text
  import opened Environment

  datatype Settings = Settings(
    databaseUrl: string,
    databaseHost: string,
    databasePort: int,
    databaseName: string,
    databaseUser: string,
    databasePassword: string,
    openaiApiKey: Option<string>,
    openaiModel: string,
    openaiBaseUrl: string,
    solarApiKey: Option<string>,
    solarModel: string,
    solarBaseUrl: string,
    jwtSecretKey: string,
    secretKey: string)

  const Scheme: string := "postgresql://"

  /** `get_database_url`: built from the separate host/port/name/user/password
      settings; the password segment appears only when the password is non-empty. */
  function GetDatabaseUrl(s: Settings): (url: string)
    ensures StartsWith(url, Scheme)
    ensures var tail := "@" + s.databaseHost + ":" + IntToDecimal(s.databasePort) + "/" + s.databaseName;
      && (|s.databasePassword| > 0 ==> url == Scheme + s.databaseUser + ":" + s.databasePassword + tail)
      && (|s.databasePassword| == 0 ==> url == Scheme + s.databaseUser + tail)
  {
    var tail := "@" + s.databaseHost + ":" + IntToDecimal(s.databasePort) + "/" + s.databaseName;
    if |s.databasePassword| > 0 then Scheme + s.databaseUser + ":" + s.databasePassword + tail
    else Scheme + s.databaseUser + tail
  }

  /** The URL ignores the `DATABASE_URL` setting and every API setting. */
  lemma DatabaseUrlIgnoresDatabaseUrlSetting(s: Settings, t: Settings)
    requires s.databaseHost == t.databaseHost && s.databasePort == t.databasePort
    requires s.databaseName == t.databaseName && s.databaseUser == t.databaseUser
    requires s.databasePassword == t.databasePassword
    ensures GetDatabaseUrl(s) == GetDatabaseUrl(t)
  {
  }

  /** Everything in the URL before the port's digits. */
  function BeforePort(s: Settings): string {
    (if |s.databasePassword| > 0 then Scheme + s.databaseUser + ":" + s.databasePassword else Scheme + s.databaseUser)
      + "@" + s.databaseHost + ":"
  }

  lemma DatabaseUrlLayout(s: Settings)
    ensures GetDatabaseUrl(s) == BeforePort(s) + IntToDecimal(s.databasePort) + "/" + s.databaseName
  {
  }

  /** The port's decimal text sits just before the `/` that precedes the
      database name, so a non-negative port can be read back from the URL. */
  lemma DatabaseUrlCarriesPort(s: Settings)
    ensures var url := GetDatabaseUrl(s);
      var p := IntToDecimal(s.databasePort);
      var end := |url| - |s.databaseName| - 1;
      && 0 <= end - |p| && url[end - |p|..end] == p && url[end] == '/'
      && (s.databasePort >= 0 ==> DecimalToNat(url[end - |p|..end]) == s.databasePort)
  {
    DatabaseUrlLayout(s);
    var url := GetDatabaseUrl(s);
    var p := IntToDecimal(s.databasePort);
    var end := |url| - |s.databaseName| - 1;
    assert url[end - |p|..end] == p;
    if s.databasePort >= 0 {
      DecimalRoundTrip(s.databasePort);
    }
  }

  /** Settings that differ only in their port give different URLs. */
  lemma DatabaseUrlDistinguishesPorts(s: Settings, otherPort: int)
    requires otherPort != s.databasePort
    ensures GetDatabaseUrl(s.(databasePort := otherPort)) != GetDatabaseUrl(s)
  {
    var t := s.(databasePort := otherPort);
    DatabaseUrlLayout(s);
    DatabaseUrlLayout(t);
    var mid := BeforePort(s);
    assert BeforePort(t) == mid;
    var p := IntToDecimal(s.databasePort);
    var q := IntToDecimal(otherPort);
    var tail := "/" + s.databaseName;
    if GetDatabaseUrl(t) == GetDatabaseUrl(s) {
      var url := GetDatabaseUrl(s);
      assert url == mid + p + tail && url == mid + q + tail;
      assert |p| == |q|;
      assert p == url[|mid|..|mid| + |p|];
      assert q == url[|mid|..|mid| + |q|];
      IntToDecimalInjective(s.databasePort, otherPort);
    }
  }

  /** What `validate_settings` decides and reports. */
  datatype SettingsCheck = SettingsCheck(valid: bool, missing: seq<string>, apiKeyWarning: bool)

  /** `validate_settings`: the three required settings must be non-empty;
      having neither API key only produces a warning. */
  function ValidateSettings(s: Settings): (r: SettingsCheck)
    ensures r.valid <==> |s.databaseUrl| > 0 && |s.jwtSecretKey| > 0 && |s.secretKey| > 0
    ensures ("DATABASE_URL" in r.missing <==> |s.databaseUrl| == 0)
      && ("JWT_SECRET_KEY" in r.missing <==> |s.jwtSecretKey| == 0)
      && ("SECRET_KEY" in r.missing <==> |s.secretKey| == 0)
    ensures r.valid <==> |r.missing| == 0
    ensures r.apiKeyWarning <==> r.valid && !Truthy(s.openaiApiKey) && !Truthy(s.solarApiKey)
  {
    var missing :=
      (if |s.databaseUrl| == 0 then ["DATABASE_URL"] else [])
      + (if |s.jwtSecretKey| == 0 then ["JWT_SECRET_KEY"] else [])
      + (if |s.secretKey| == 0 then ["SECRET_KEY"] else []);
    if |missing| > 0 then SettingsCheck(false, missing, false)
    else SettingsCheck(true, [], !Truthy(s.openaiApiKey) && !Truthy(s.solarApiKey))
  }
}
