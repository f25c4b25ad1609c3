/** Deriving the proxy variables of a session from an environment or a command-line URL. */
module ProxyDerivation {
  import opened Wrappers
  import opened CommandLinePrinter
  import opened EnvironmentBlock
  import opened ProxySettings

  // ----- Values -----

  /** Control characters and the two Unicode line separators. */
  predicate IsForbidden(ch: char) {
    var c := ch as int;
    c <= 0x1F || 0x7F <= c <= 0x9F || c == 0x2028 || c == 0x2029
  }

  predicate IsValidValue(value: string) {
    value != "" && forall i :: 0 <= i < |value| ==> !IsForbidden(value[i])
  }

  function StripPrefix(s: string, prefix: string): Option<string> {
    if prefix <= s then Some(s[|prefix|..]) else None
  }

  predicate IsDigit(ch: char) {
    '0' <= ch <= '9'
  }

  function Decimal(s: string): (n: nat)
    requires forall i :: 0 <= i < |s| ==> IsDigit(s[i])
  {
    if s == "" then 0
    else
      assert IsDigit(s[|s| - 1]);
      10 * Decimal(s[..|s| - 1]) + (s[|s| - 1] as int - '0' as int)
  }

  /** A port is a nonzero 16-bit number in decimal, with an optional plus sign. */
  predicate IsPort(port: string) {
    var digits := if "+" <= port && |port| > 1 then port[1..] else port;
    digits != "" && (forall i :: 0 <= i < |digits| ==> IsDigit(digits[i])) && 0 < Decimal(digits) <= 65535
  }

  /** Host and port of an authority, with the host possibly in brackets. */
  function SplitHostPort(authority: string): Option<(string, string)> {
    if "[" <= authority then
      var rest := authority[1..];
      var end := Find(rest, ']');
      if end == |rest| then None
      else
        var tail := rest[end + 1..];
        var port := if ":" <= tail then tail[1..] else "";
        if ':' in port then None else Some((rest[..end], port))
    else
      var colon := Find(authority, ':');
      if colon == |authority| || ':' in authority[colon + 1..] then None
      else Some((authority[..colon], authority[colon + 1..]))
  }

  /** The symbol server's proxy for a proxy URL: its authority, if the URL is nothing but scheme, host and port. */
  function SymbolProxyOf(url: string): Option<string> {
    if HasWhitespace(url) then None
    else
      var rest :=
        if StripPrefix(url, "http://").Some? then StripPrefix(url, "http://") else StripPrefix(url, "https://");
      if rest.None? then None
      else
        var authority := rest.value;
        if '?' in authority || '#' in authority || '/' in authority || authority == "" || '@' in authority then None
        else match SplitHostPort(authority)
          case None => None
          case Some((host, port)) =>
            if host == "" || port == "" || !IsPort(port) then None else Some(authority)
  }

  /** A derived symbol proxy is a valid value: the part of the URL behind its scheme. */
  lemma SymbolProxyIsValid(url: string)
    requires IsValidValue(url) && SymbolProxyOf(url).Some?
    ensures IsValidValue(SymbolProxyOf(url).value)
    ensures url == "http://" + SymbolProxyOf(url).value || url == "https://" + SymbolProxyOf(url).value
  {
    hide SplitHostPort, IsPort, HasWhitespace;
    var authority := SymbolProxyOf(url).value;
    var n := |url| - |authority|;
    assert forall i :: 0 <= i < |authority| ==> authority[i] == url[n + i];
  }

  /** Host and port with a colon between; a host that begins with a bracket ends with one and may hold colons. */
  ghost predicate IsHostAndPort(authority: string) {
    exists host: string, port: string :: host != "" && IsPort(port)
      && ((authority == "[" + host + "]:" + port && ']' !in host)
          || (authority == host + ":" + port && ':' !in host && host[0] != '['))
  }

  lemma PortsHaveNoColon(port: string)
    requires IsPort(port)
    ensures port != "" && ':' !in port
  {
    var digits := if "+" <= port && |port| > 1 then port[1..] else port;
    assert forall i :: 0 <= i < |digits| ==> IsDigit(digits[i]) && digits[i] != ':';
    assert digits != port ==> port == "+" + digits;
  }

  lemma SplitGivesHostAndPort(authority: string)
    requires SplitHostPort(authority).Some?
    requires SplitHostPort(authority).value.0 != "" && IsPort(SplitHostPort(authority).value.1)
    ensures IsHostAndPort(authority)
  {
    hide IsPort;
    var (host, port) := SplitHostPort(authority).value;
    PortsHaveNoColon(port);
    SplitIsTheAuthority(authority, host, port);
    hide SplitHostPort;
  }

  lemma CutAt(s: string, i: nat)
    requires i < |s|
    ensures s == s[..i] + [s[i]] + s[i + 1..]
  {
  }

  /** With a port, the parts found make up the authority. */
  lemma SplitIsTheAuthority(authority: string, host: string, port: string)
    requires SplitHostPort(authority) == Some((host, port)) && port != ""
    ensures if "[" <= authority then authority == "[" + host + "]:" + port && ']' !in host
      else authority == host + ":" + port && ':' !in host
  {
    if "[" <= authority {
      BracketsAroundHost(authority, host, port);
    } else {
      CutAt(authority, Find(authority, ':'));
    }
  }

  lemma BracketsAroundHost(authority: string, host: string, port: string)
    requires "[" <= authority && SplitHostPort(authority) == Some((host, port)) && port != ""
    ensures authority == "[" + host + "]:" + port && ']' !in host
  {
    var rest := authority[1..];
    var end := Find(rest, ']');
    var tail := rest[end + 1..];
    CutAt(rest, end);
    assert rest == host + "]" + tail && ']' !in host;
    assert tail == ":" + port;
    assert authority == "[" + rest;
    hide SplitHostPort, Find;
    Bracketed(host, port);
  }

  lemma Bracketed(host: string, port: string)
    ensures "[" + (host + "]" + (":" + port)) == "[" + host + "]:" + port
  {
    assert "]" + (":" + port) == "]:" + port;
    assert host + "]" + (":" + port) == host + ("]" + (":" + port));
  }

  lemma HostAndPortSplit(authority: string, host: string, port: string)
    requires host != "" && IsPort(port)
    requires (authority == "[" + host + "]:" + port && ']' !in host)
      || (authority == host + ":" + port && ':' !in host && host[0] != '[')
    ensures SplitHostPort(authority) == Some((host, port))
  {
    hide IsPort;
    PortsHaveNoColon(port);
    if "[" <= authority {
      assert authority[0] == '[';
      var rest := host + "]:" + port;
      assert authority[1..] == rest && rest[..|host|] == host;
      FindUnique(rest, ']', |host|);
      assert rest[|host| + 1..] == ":" + port;
    } else {
      assert authority[..|host|] == host;
      FindUnique(authority, ':', |host|);
      assert authority[|host| + 1..] == port;
    }
  }

  /** A text without path, query, fragment or credentials. */
  predicate IsBare(s: string) {
    '?' !in s && '#' !in s && '/' !in s && '@' !in s
  }

  /**
   * A URL has a symbol proxy if and only if it is `http://` or `https://` and a bare host with a port, without
   * whitespace; the symbol proxy is then the host with the port.
   */
  lemma SymbolProxyIsTheAuthority(url: string, authority: string)
    ensures SymbolProxyOf(url) == Some(authority) <==>
      && (url == "http://" + authority || url == "https://" + authority)
      && !HasWhitespace(url) && IsBare(authority) && IsHostAndPort(authority)
  {
    hide HasWhitespace, SplitHostPort, IsPort;
    if SymbolProxyOf(url) == Some(authority) {
      SplitGivesHostAndPort(authority);
    } else if (url == "http://" + authority || url == "https://" + authority) && IsHostAndPort(authority) {
      var host: string, port: string :| host != "" && IsPort(port)
        && ((authority == "[" + host + "]:" + port && ']' !in host)
            || (authority == host + ":" + port && ':' !in host && host[0] != '['));
      HostAndPortSplit(authority, host, port);
      PortsHaveNoColon(port);
      SchemeStripped(url, authority);
    }
  }

  lemma SchemeStripped(url: string, authority: string)
    requires url == "http://" + authority || url == "https://" + authority
    ensures (if StripPrefix(url, "http://").Some? then StripPrefix(url, "http://") else StripPrefix(url, "https://"))
      == Some(authority)
  {
    if url == "https://" + authority {
      assert url[4] == 's' && "http://"[4] == ':';
    }
  }

  // ----- From an environment -----

  function LowerOf(k: ProxyKey): Option<ProxyKey> {
    match k
    case HttpProxy => Some(LowerHttpProxy)
    case HttpsProxy => Some(LowerHttpsProxy)
    case AllProxy => Some(LowerAllProxy)
    case NoProxy => Some(LowerNoProxy)
    case _ => None
  }

  /** The value of a variable: its upper-case spelling first, then its lower-case one. */
  function Chosen(env: map<string, string>, k: ProxyKey): Option<string> {
    if Name(k) in env then Some(env[Name(k)])
    else if LowerOf(k).Some? && Name(LowerOf(k).value) in env then Some(env[Name(LowerOf(k).value)])
    else None
  }

  predicate IsRejected(env: map<string, string>, k: ProxyKey) {
    Chosen(env, k).Some? && !IsValidValue(Chosen(env, k).value)
  }

  /** The first variable, in the order of reading, whose value is rejected. */
  function FirstRejected(env: map<string, string>): Option<ProxyKey> {
    if IsRejected(env, SymbolProxy) then Some(SymbolProxy)
    else if IsRejected(env, HttpProxy) then Some(HttpProxy)
    else if IsRejected(env, HttpsProxy) then Some(HttpsProxy)
    else if IsRejected(env, AllProxy) then Some(AllProxy)
    else if IsRejected(env, NoProxy) then Some(NoProxy)
    else None
  }

  /** The symbol proxy of the first network proxy that has one. */
  function DerivedFrom(env: map<string, string>, keys: seq<ProxyKey>): Option<string> {
    if keys == [] then None
    else if Chosen(env, keys[0]).Some? && SymbolProxyOf(Chosen(env, keys[0]).value).Some?
    then SymbolProxyOf(Chosen(env, keys[0]).value)
    else DerivedFrom(env, keys[1..])
  }

  const NETWORK_KEYS: seq<ProxyKey> := [HttpsProxy, HttpProxy, AllProxy]

  /** What each variable is set to. */
  function Setting(env: map<string, string>, k: ProxyKey): Option<string> {
    if k != SymbolProxy then Chosen(env, Folded(k))
    else if Chosen(env, SymbolProxy).Some? then Chosen(env, SymbolProxy)
    else DerivedFrom(env, NETWORK_KEYS)
  }

  const EVERY_KEY: set<ProxyKey> :=
    {SymbolProxy, HttpProxy, HttpsProxy, AllProxy, NoProxy,
     LowerHttpProxy, LowerHttpsProxy, LowerAllProxy, LowerNoProxy}

  function Settings(env: map<string, string>): map<ProxyKey, string> {
    map k | k in EVERY_KEY && Setting(env, k).Some? :: Setting(env, k).value
  }

  function FromEnvironmentMap(env: map<string, string>): Result<Proxy, ProxyKey> {
    match FirstRejected(env)
    case Some(k) => Err(k)
    case None => Ok(Proxy(if Settings(env) == map[] then NoSource else FromEnvironment, Settings(env)))
  }

  method InsertEnvPair(env: map<string, string>, vars: map<ProxyKey, string>, upper: ProxyKey)
    returns (r: Result<map<ProxyKey, string>, ProxyKey>)
    ensures r.Err? <==> IsRejected(env, upper)
    ensures r.Err? ==> r.error == upper
    ensures r.Ok? ==> r.value == Inserted(env, vars, upper)
  {
    var value := if Name(upper) in env then Some(env[Name(upper)])
      else if LowerOf(upper).Some? && Name(LowerOf(upper).value) in env then Some(env[Name(LowerOf(upper).value)])
      else None;
    if value.None? {
      return Ok(vars);
    }
    if !IsValidValue(value.value) {
      return Err(upper);
    }
    var filled := vars[upper := value.value];
    if LowerOf(upper).Some? {
      filled := filled[LowerOf(upper).value := value.value];
    }
    r := Ok(filled);
  }

  function Inserted(env: map<string, string>, vars: map<ProxyKey, string>, upper: ProxyKey): map<ProxyKey, string> {
    if Chosen(env, upper).None? then vars
    else
      var filled := vars[upper := Chosen(env, upper).value];
      if LowerOf(upper).Some? then filled[LowerOf(upper).value := Chosen(env, upper).value] else filled
  }

  /** The variables after the five pairs have been inserted. */
  function InsertedAll(env: map<string, string>): map<ProxyKey, string> {
    var symbol := Inserted(env, map[], SymbolProxy);
    var http := Inserted(env, symbol, HttpProxy);
    var https := Inserted(env, http, HttpsProxy);
    var all := Inserted(env, https, AllProxy);
    Inserted(env, all, NoProxy)
  }

  method DeriveSymbolProxy(env: map<string, string>, vars: map<ProxyKey, string>) returns (r: map<ProxyKey, string>)
    requires forall k :: k in NETWORK_KEYS ==>
      (k in vars <==> Chosen(env, k).Some?) && (k in vars ==> Some(vars[k]) == Chosen(env, k))
    ensures r == if SymbolProxy in vars || DerivedFrom(env, NETWORK_KEYS).None? then vars
                 else vars[SymbolProxy := DerivedFrom(env, NETWORK_KEYS).value]
  {
    if SymbolProxy in vars {
      return vars;
    }
    for i := 0 to |NETWORK_KEYS|
      invariant DerivedFrom(env, NETWORK_KEYS[i..]) == DerivedFrom(env, NETWORK_KEYS)
    {
      var key := NETWORK_KEYS[i];
      assert key in NETWORK_KEYS && NETWORK_KEYS[i..][0] == key && NETWORK_KEYS[i..][1..] == NETWORK_KEYS[i + 1..];
      if key in vars {
        var symbolProxy := SymbolProxyOf(vars[key]);
        if symbolProxy.Some? {
          return vars[SymbolProxy := symbolProxy.value];
        }
      }
    }
    r := vars;
  }

  method ReadEnvironment(env: map<string, string>) returns (r: Result<Proxy, ProxyKey>)
    ensures r == FromEnvironmentMap(env)
  {
    hide Name, Chosen, SymbolProxyOf, DerivedFrom, Inserted, IsRejected, Settings;
    var vars: map<ProxyKey, string> := map[];
    var inserted := InsertEnvPair(env, vars, SymbolProxy);
    if inserted.Err? { return Err(inserted.error); }
    inserted := InsertEnvPair(env, inserted.value, HttpProxy);
    if inserted.Err? { return Err(inserted.error); }
    inserted := InsertEnvPair(env, inserted.value, HttpsProxy);
    if inserted.Err? { return Err(inserted.error); }
    inserted := InsertEnvPair(env, inserted.value, AllProxy);
    if inserted.Err? { return Err(inserted.error); }
    inserted := InsertEnvPair(env, inserted.value, NoProxy);
    if inserted.Err? { return Err(inserted.error); }
    NetworkKeysInserted(env);
    vars := DeriveSymbolProxy(env, inserted.value);
    DerivedAre(env);
    if vars == map[] {
      return Ok(Proxy(NoSource, map[]));
    }
    r := Ok(Proxy(FromEnvironment, vars));
  }

  /** Before the symbol proxy is derived, every variable has its chosen value under both spellings. */
  lemma InsertedAre(env: map<string, string>, k: ProxyKey)
    ensures k in InsertedAll(env) <==> Chosen(env, Folded(k)).Some?
    ensures k in InsertedAll(env) ==> Some(InsertedAll(env)[k]) == Chosen(env, Folded(k))
  {
    hide Chosen;
  }

  lemma NetworkKeysInserted(env: map<string, string>)
    ensures forall k :: k in NETWORK_KEYS ==>
      && (k in InsertedAll(env) <==> Chosen(env, k).Some?)
      && (k in InsertedAll(env) ==> Some(InsertedAll(env)[k]) == Chosen(env, k))
  {
    hide Chosen, InsertedAll;
    forall k | k in NETWORK_KEYS
      ensures k in InsertedAll(env) <==> Chosen(env, k).Some?
      ensures k in InsertedAll(env) ==> Some(InsertedAll(env)[k]) == Chosen(env, k)
    {
      InsertedAre(env, k);
    }
  }

  /** With the derived symbol proxy, they are all the settings. */
  lemma DerivedAre(env: map<string, string>)
    ensures Settings(env) ==
      if SymbolProxy in InsertedAll(env) || DerivedFrom(env, NETWORK_KEYS).None? then InsertedAll(env)
      else InsertedAll(env)[SymbolProxy := DerivedFrom(env, NETWORK_KEYS).value]
  {
    hide Chosen, InsertedAll, DerivedFrom;
    forall k: ProxyKey
      ensures k in InsertedAll(env) <==> Chosen(env, Folded(k)).Some?
      ensures k in InsertedAll(env) ==> Some(InsertedAll(env)[k]) == Chosen(env, Folded(k))
    {
      InsertedAre(env, k);
    }
  }

  // ----- The order of reading -----

  /** The value of the first of these variables that is set. */
  function FirstSet(env: map<string, string>, names: seq<string>): Option<string> {
    if names == [] then None
    else if names[0] in env then Some(env[names[0]])
    else FirstSet(env, names[1..])
  }

  /** The values the environment gives, in the order in which they are read. */
  function ReadValues(env: map<string, string>): (values: seq<(ProxyKey, Option<string>)>)
    ensures |values| == 5
  {
    [ (SymbolProxy, FirstSet(env, ["_NT_SYMBOL_PROXY"])),
      (HttpProxy, FirstSet(env, ["HTTP_PROXY", "http_proxy"])),
      (HttpsProxy, FirstSet(env, ["HTTPS_PROXY", "https_proxy"])),
      (AllProxy, FirstSet(env, ["ALL_PROXY", "all_proxy"])),
      (NoProxy, FirstSet(env, ["NO_PROXY", "no_proxy"])) ]
  }

  /** The proxies a symbol proxy may be derived from, in order of preference. */
  function Candidates(env: map<string, string>): (urls: seq<Option<string>>)
    ensures |urls| == 3
  {
    [ FirstSet(env, ["HTTPS_PROXY", "https_proxy"]),
      FirstSet(env, ["HTTP_PROXY", "http_proxy"]),
      FirstSet(env, ["ALL_PROXY", "all_proxy"]) ]
  }

  predicate IsUsable(url: Option<string>) {
    url.Some? && SymbolProxyOf(url.value).Some?
  }

  predicate IsInvalid(value: Option<string>) {
    value.Some? && !IsValidValue(value.value)
  }

  predicate IsSetTo(vars: map<ProxyKey, string>, k: ProxyKey, value: Option<string>) {
    (k in vars <==> value.Some?) && (k in vars ==> vars[k] == value.value)
  }

  lemma ChosenIsFirstSet(env: map<string, string>, k: ProxyKey)
    ensures Chosen(env, k) == FirstSet(env, if LowerOf(k).Some? then [Name(k), Name(LowerOf(k).value)] else [Name(k)])
  {
    hide Name;
    if LowerOf(k).Some? {
      FirstOfOne(env, Name(LowerOf(k).value));
      assert [Name(k), Name(LowerOf(k).value)][1..] == [Name(LowerOf(k).value)];
    } else {
      FirstOfOne(env, Name(k));
    }
  }

  lemma FirstOfOne(env: map<string, string>, name: string)
    ensures FirstSet(env, [name]) == if name in env then Some(env[name]) else None
  {
    assert [name][1..] == [];
  }

  lemma ValuesAreChosen(env: map<string, string>)
    ensures forall i :: 0 <= i < 5 ==> ReadValues(env)[i].1 == Chosen(env, ReadValues(env)[i].0)
    ensures Candidates(env) == [Chosen(env, HttpsProxy), Chosen(env, HttpProxy), Chosen(env, AllProxy)]
  {
    hide Chosen, FirstSet;
    ChosenIsFirstSet(env, SymbolProxy);
    ChosenIsFirstSet(env, HttpProxy);
    ChosenIsFirstSet(env, HttpsProxy);
    ChosenIsFirstSet(env, AllProxy);
    ChosenIsFirstSet(env, NoProxy);
  }

  /** The derived symbol proxy is that of the first usable candidate. */
  lemma DerivedInOrder(env: map<string, string>)
    ensures var urls := Candidates(env);
      match DerivedFrom(env, NETWORK_KEYS)
      case None => forall i :: 0 <= i < 3 ==> !IsUsable(urls[i])
      case Some(p) =>
        exists i :: 0 <= i < 3 && IsUsable(urls[i]) && SymbolProxyOf(urls[i].value) == Some(p)
          && forall j :: 0 <= j < i ==> !IsUsable(urls[j])
  {
    ValuesAreChosen(env);
    hide Chosen, FirstSet, SymbolProxyOf, Candidates;
    assert NETWORK_KEYS[1..] == [HttpProxy, AllProxy] && [HttpProxy, AllProxy][1..] == [AllProxy];
    DerivedFromOne(env, AllProxy);
    var urls := Candidates(env);
    assert DerivedFrom(env, [HttpProxy, AllProxy]) ==
      if IsUsable(urls[1]) then SymbolProxyOf(urls[1].value) else DerivedFrom(env, [AllProxy]);
    hide DerivedFrom, NETWORK_KEYS, IsUsable;
    var first := if IsUsable(urls[0]) then 0 else if IsUsable(urls[1]) then 1 else 2;
    assert IsUsable(urls[first]) || forall i :: 0 <= i < 3 ==> !IsUsable(urls[i]);
  }

  lemma DerivedFromOne(env: map<string, string>, k: ProxyKey)
    ensures DerivedFrom(env, [k]) == if IsUsable(Chosen(env, k)) then SymbolProxyOf(Chosen(env, k).value) else None
  {
    hide Chosen, SymbolProxyOf;
    assert [k][1..] == [];
  }

  lemma SettingsAsRead(env: map<string, string>)
    requires FromEnvironmentMap(env).Ok?
    ensures forall k: ProxyKey :: IsSetTo(FromEnvironmentMap(env).value.vars, k, Setting(env, k))
  {
    hide Chosen, DerivedFrom, IsValidValue;
    forall k: ProxyKey
      ensures k in EVERY_KEY
    {
      match k {
        case SymbolProxy => case HttpProxy => case HttpsProxy => case AllProxy => case NoProxy =>
        case LowerHttpProxy => case LowerHttpsProxy => case LowerAllProxy => case LowerNoProxy =>
      }
    }
  }

  lemma RejectedInOrder(env: map<string, string>)
    ensures var values := ReadValues(env);
      match FirstRejected(env)
      case Some(k) =>
        exists i :: 0 <= i < 5 && values[i].0 == k && IsInvalid(values[i].1)
          && forall j :: 0 <= j < i ==> !IsInvalid(values[j].1)
      case None => forall i :: 0 <= i < 5 ==> !IsInvalid(values[i].1)
  {
    ValuesAreChosen(env);
    hide Chosen, FirstSet, IsValidValue;
    var values := ReadValues(env);
    if FirstRejected(env).Some? {
      var k := FirstRejected(env).value;
      var i := if k == SymbolProxy then 0 else if k == HttpProxy then 1 else if k == HttpsProxy then 2
        else if k == AllProxy then 3 else 4;
      assert values[i].0 == k && IsInvalid(values[i].1);
    }
  }

  /**
   * The first invalid value read is the error.  Without one, every variable is set to the value read under both of its
   * spellings, the upper-case one first, and a symbol proxy that is not set comes from the first usable candidate.
   */
  lemma EnvironmentIsReadInOrder(env: map<string, string>)
    ensures var values, urls := ReadValues(env), Candidates(env);
      match FromEnvironmentMap(env)
      case Err(k) =>
        exists i :: 0 <= i < 5 && values[i].0 == k && IsInvalid(values[i].1)
          && forall j :: 0 <= j < i ==> !IsInvalid(values[j].1)
      case Ok(proxy) =>
        && proxy.source == (if proxy.vars == map[] then NoSource else FromEnvironment)
        && (forall i :: 0 <= i < 5 ==> !IsInvalid(values[i].1))
        && (forall i :: 1 <= i < 5 ==>
              IsSetTo(proxy.vars, values[i].0, values[i].1) && LowerOf(values[i].0).Some?
              && IsSetTo(proxy.vars, LowerOf(values[i].0).value, values[i].1))
        && if values[0].1.Some? then IsSetTo(proxy.vars, SymbolProxy, values[0].1)
           else if SymbolProxy in proxy.vars then
             exists i :: 0 <= i < 3 && IsUsable(urls[i])
               && SymbolProxyOf(urls[i].value) == Some(proxy.vars[SymbolProxy])
               && forall j :: 0 <= j < i ==> !IsUsable(urls[j])
           else forall i :: 0 <= i < 3 ==> !IsUsable(urls[i])
  {
    ValuesAreChosen(env);
    RejectedInOrder(env);
    hide Chosen, FirstSet, SymbolProxyOf, FirstRejected, IsUsable, Candidates, IsInvalid;
    if FromEnvironmentMap(env).Ok? {
      SettingsAsRead(env);
      DerivedInOrder(env);
    }
  }

  // ----- Reading the result back -----

  /** The variables as an environment. */
  function AsEnvironment(vars: map<ProxyKey, string>): map<string, string> {
    NamesAllDiffer();
    map k | k in vars :: Name(k) := vars[k]
  }

  lemma NamesAllDiffer()
    ensures forall j, k :: Name(j) == Name(k) ==> j == k
  {
    forall j, k | Name(j) == Name(k)
      ensures j == k
    {
      if j != k { NamesDiffer(j, k); }
    }
  }

  /** The settings of an environment agree between spellings. */
  lemma SettingsAreConsistent(env: map<string, string>)
    requires FromEnvironmentMap(env).Ok?
    ensures IsConsistent(FromEnvironmentMap(env).value)
  {
    hide Chosen, DerivedFrom;
  }

  lemma {:induction false} DerivedIsValid(env: map<string, string>, keys: seq<ProxyKey>)
    requires DerivedFrom(env, keys).Some? && forall k :: k in keys ==> !IsRejected(env, k)
    ensures IsValidValue(DerivedFrom(env, keys).value)
  {
    hide SymbolProxyOf, Chosen;
    if Chosen(env, keys[0]).Some? && SymbolProxyOf(Chosen(env, keys[0]).value).Some? {
      assert keys[0] in keys;
      SymbolProxyIsValid(Chosen(env, keys[0]).value);
    } else {
      DerivedIsValid(env, keys[1..]);
    }
  }

  /** Every setting of an accepted environment is a valid value. */
  lemma SettingsAreValid(env: map<string, string>, k: ProxyKey)
    requires FromEnvironmentMap(env).Ok? && Setting(env, k).Some?
    ensures IsValidValue(Setting(env, k).value)
  {
    hide IsValidValue, DerivedFrom, Chosen, SymbolProxyOf;
    assert !IsRejected(env, Folded(k));
    if k == SymbolProxy && Chosen(env, SymbolProxy).None? {
      DerivedIsValid(env, NETWORK_KEYS);
    }
  }

  lemma LookedUp(vars: map<ProxyKey, string>, k: ProxyKey)
    ensures Name(k) in AsEnvironment(vars) <==> k in vars
    ensures k in vars ==> AsEnvironment(vars)[Name(k)] == vars[k]
  {
    hide Name;
    NamesAllDiffer();
  }

  /** What is chosen from variables that agree between spellings. */
  lemma ChosenFrom(vars: map<ProxyKey, string>, k: ProxyKey)
    requires LowerOf(k).Some? ==> (LowerOf(k).value in vars <==> k in vars)
    ensures Chosen(AsEnvironment(vars), k) == if k in vars then Some(vars[k]) else None
  {
    hide Name, AsEnvironment;
    LookedUp(vars, k);
    if LowerOf(k).Some? { LookedUp(vars, LowerOf(k).value); }
  }

  /** In the variables' own environment, each variable is chosen as it is. */
  lemma ChosenBack(env: map<string, string>, k: ProxyKey)
    requires Folded(k) == k
    ensures Chosen(AsEnvironment(Settings(env)), k) == Setting(env, k)
  {
    hide Chosen, DerivedFrom, AsEnvironment;
    assert k in EVERY_KEY;
    if LowerOf(k).Some? {
      assert LowerOf(k).value in EVERY_KEY && Setting(env, LowerOf(k).value) == Setting(env, k);
    }
    ChosenFrom(Settings(env), k);
  }

  /** Reading its own variables back gives the same proxy: deriving is a fixed point on what it has derived. */
  lemma DerivationIsStable(env: map<string, string>)
    requires FromEnvironmentMap(env).Ok?
    ensures FromEnvironmentMap(AsEnvironment(FromEnvironmentMap(env).value.vars)) == FromEnvironmentMap(env)
  {
    var back := AsEnvironment(Settings(env));
    hide Chosen, IsValidValue, DerivedFrom, AsEnvironment, Settings;
    forall k: ProxyKey | Folded(k) == k
      ensures !IsRejected(back, k) && Chosen(back, k) == Setting(env, k)
    {
      ChosenBack(env, k);
      if Setting(env, k).Some? { SettingsAreValid(env, k); }
    }
    SettingsBack(env, back);
  }

  lemma SettingsBack(env: map<string, string>, back: map<string, string>)
    requires forall k: ProxyKey :: Folded(k) == k ==> Chosen(back, k) == Setting(env, k)
    ensures Settings(back) == Settings(env)
  {
    hide Chosen;
    forall k: ProxyKey
      ensures Setting(back, k) == Setting(env, k)
    {
      assert Chosen(back, Folded(k)) == Setting(env, Folded(k));
      if k == SymbolProxy && Chosen(back, SymbolProxy).None? {
        NothingToDerive(env, back);
      }
    }
  }

  /** If nothing was chosen or derived, nothing is derived from what was set. */
  lemma NothingToDerive(env: map<string, string>, back: map<string, string>)
    requires forall k: ProxyKey :: Folded(k) == k ==> Chosen(back, k) == Setting(env, k)
    requires Setting(env, SymbolProxy).None?
    ensures DerivedFrom(back, NETWORK_KEYS).None?
  {
    hide Chosen, SymbolProxyOf;
    assert forall k :: k in NETWORK_KEYS ==> Chosen(back, k) == Chosen(env, k);
    SameDerivation(env, back, NETWORK_KEYS);
  }

  lemma {:induction false} SameDerivation(a: map<string, string>, b: map<string, string>, keys: seq<ProxyKey>)
    requires forall k :: k in keys ==> Chosen(a, k) == Chosen(b, k)
    ensures DerivedFrom(a, keys) == DerivedFrom(b, keys)
  {
    hide Chosen, SymbolProxyOf;
    if keys != [] {
      assert keys[0] in keys;
      SameDerivation(a, b, keys[1..]);
    }
  }

  // ----- From the command line -----

  /** The variables a URL stands for: itself for HTTP and HTTPS, its authority for symbols. */
  function CliVars(symbolProxy: string, url: string): map<ProxyKey, string> {
    map[SymbolProxy := symbolProxy, HttpProxy := url, HttpsProxy := url, LowerHttpProxy := url, LowerHttpsProxy := url]
  }

  function FromCliUrl(url: string): Option<Proxy> {
    if !IsValidValue(url) then None
    else match SymbolProxyOf(url)
      case None => None
      case Some(symbolProxy) => Some(Proxy(Cli, CliVars(symbolProxy, url)))
  }

  lemma CliProxyIsConsistent(url: string)
    requires FromCliUrl(url).Some?
    ensures IsConsistent(FromCliUrl(url).value)
  {
    hide SymbolProxyOf, IsValidValue;
  }

  /** A proxy the program can have: read from an environment, given as a URL, or disabled. */
  ghost predicate IsObtainable(p: Proxy) {
    || (exists env :: FromEnvironmentMap(env) == Ok(p))
    || (exists url :: FromCliUrl(url) == Some(p))
    || p == Proxy(Disabled, map[])
  }

  /** Every such proxy, applied to any environment, does what its source says. */
  lemma ObtainableProxyApplied(p: Proxy, env: Environment)
    requires IsObtainable(p)
    ensures HasProxy(ApplyAll(env, ProxyEnvChanges(p)), p, env)
  {
    hide FromEnvironmentMap, FromCliUrl, HasProxy;
    if read :| FromEnvironmentMap(read) == Ok(p) {
      SettingsAreConsistent(read);
    } else if url :| FromCliUrl(url) == Some(p) {
      CliProxyIsConsistent(url);
    }
    ProxyApplied(p, env);
  }

  lemma CliSetting(symbolProxy: string, url: string, k: ProxyKey)
    ensures var vars := CliVars(symbolProxy, url);
      Setting(AsEnvironment(vars), k) == if k in vars then Some(vars[k]) else None
  {
    hide SymbolProxyOf, DerivedFrom, Chosen, AsEnvironment;
    ChosenFrom(CliVars(symbolProxy, url), Folded(k));
  }

  lemma EveryKey(k: ProxyKey)
    ensures k in EVERY_KEY
  {
  }

  lemma SettingsFrom(env: map<string, string>, vars: map<ProxyKey, string>)
    requires forall k: ProxyKey :: Setting(env, k) == if k in vars then Some(vars[k]) else None
    ensures Settings(env) == vars
  {
    hide Setting;
    forall k: ProxyKey
      ensures k in EVERY_KEY
    {
      EveryKey(k);
    }
  }

  lemma CliAccepted(symbolProxy: string, url: string)
    requires IsValidValue(symbolProxy) && IsValidValue(url)
    ensures FirstRejected(AsEnvironment(CliVars(symbolProxy, url))).None?
    ensures CliVars(symbolProxy, url) != map[]
  {
    hide Chosen, AsEnvironment, IsValidValue;
    forall k: ProxyKey | Folded(k) == k
      ensures !IsRejected(AsEnvironment(CliVars(symbolProxy, url)), k)
    {
      ChosenFrom(CliVars(symbolProxy, url), k);
    }
    assert SymbolProxy in CliVars(symbolProxy, url);
  }

  /** A command-line proxy's variables, read as an environment, give the same variables. */
  lemma CliProxyIsStable(url: string)
    requires FromCliUrl(url).Some?
    ensures FromEnvironmentMap(AsEnvironment(FromCliUrl(url).value.vars)) ==
      Ok(FromCliUrl(url).value.(source := FromEnvironment))
  {
    hide IsValidValue, SymbolProxyOf, Setting, IsRejected, FirstRejected, CliVars, Settings, AsEnvironment;
    SymbolProxyIsValid(url);
    var symbolProxy := SymbolProxyOf(url).value;
    var vars := CliVars(symbolProxy, url);
    forall k: ProxyKey
      ensures Setting(AsEnvironment(vars), k) == if k in vars then Some(vars[k]) else None
    {
      CliSetting(symbolProxy, url, k);
    }
    SettingsFrom(AsEnvironment(vars), vars);
    CliAccepted(symbolProxy, url);
  }

  /** The variables a command-line URL sets. */
  const CLI_NAMES: seq<string> := ["_NT_SYMBOL_PROXY", "HTTP_PROXY", "HTTPS_PROXY", "http_proxy", "https_proxy"]

  predicate StandsFor(vars: map<ProxyKey, string>, symbolProxy: string, url: string) {
    && (forall k :: k in vars <==> Name(k) in CLI_NAMES)
    && (forall k :: k in vars ==> vars[k] == if k == SymbolProxy then symbolProxy else url)
  }

  /**
   * A command-line URL is accepted if and only if it is a valid value that has a symbol proxy; it then stands, by the
   * command line, for exactly the symbol proxy and itself as HTTP and HTTPS proxy in either spelling.
   */
  lemma CliProxyIsTheUrl(url: string, p: Proxy)
    ensures FromCliUrl(url) == Some(p) <==>
      && IsValidValue(url) && SymbolProxyOf(url).Some? && p.source == Cli
      && StandsFor(p.vars, SymbolProxyOf(url).value, url)
  {
    hide IsValidValue, SymbolProxyOf, StandsFor, CliVars;
    if SymbolProxyOf(url).Some? {
      OnlyCliVarsStandFor(p.vars, SymbolProxyOf(url).value, url);
    }
  }

  lemma OnlyCliVarsStandFor(vars: map<ProxyKey, string>, symbolProxy: string, url: string)
    ensures StandsFor(vars, symbolProxy, url) <==> vars == CliVars(symbolProxy, url)
  {
    var cli := CliVars(symbolProxy, url);
    forall k: ProxyKey
      ensures k in cli <==> Name(k) in CLI_NAMES
      ensures k in cli ==> cli[k] == if k == SymbolProxy then symbolProxy else url
    {
      CliNames(k);
    }
    hide CliVars, Name;
    if StandsFor(vars, symbolProxy, url) {
      assert vars.Keys == cli.Keys;
    }
  }

  lemma CliNames(k: ProxyKey)
    ensures Name(k) in CLI_NAMES <==> k in {SymbolProxy, HttpProxy, HttpsProxy, LowerHttpProxy, LowerHttpsProxy}
  {
  }
}
