/** The proxy variables of a session: where they come from, and what they do to an environment. */
module ProxySettings {
  import opened Wrappers
  import opened CommandLinePrinter
  import opened EnvironmentBlock
  import opened Texts

  datatype ProxyKey = SymbolProxy | HttpProxy | HttpsProxy | AllProxy | NoProxy
    | LowerHttpProxy | LowerHttpsProxy | LowerAllProxy | LowerNoProxy

  function Name(k: ProxyKey): string {
    match k
    case SymbolProxy => "_NT_SYMBOL_PROXY"
    case HttpProxy => "HTTP_PROXY"
    case HttpsProxy => "HTTPS_PROXY"
    case AllProxy => "ALL_PROXY"
    case NoProxy => "NO_PROXY"
    case LowerHttpProxy => "http_proxy"
    case LowerHttpsProxy => "https_proxy"
    case LowerAllProxy => "all_proxy"
    case LowerNoProxy => "no_proxy"
  }

  /** The upper-case variable an environment map stores the variable as. */
  function Folded(k: ProxyKey): ProxyKey {
    match k
    case LowerHttpProxy => HttpProxy
    case LowerHttpsProxy => HttpsProxy
    case LowerAllProxy => AllProxy
    case LowerNoProxy => NoProxy
    case _ => k
  }

  const ALL_KEYS: seq<ProxyKey> :=
    [SymbolProxy, HttpProxy, HttpsProxy, AllProxy, NoProxy,
     LowerHttpProxy, LowerHttpsProxy, LowerAllProxy, LowerNoProxy]

  /** The keys in the byte order of their names, in which a map iterates over them. */
  const SORTED_KEYS: seq<ProxyKey> :=
    [AllProxy, HttpsProxy, HttpProxy, NoProxy, SymbolProxy,
     LowerAllProxy, LowerHttpProxy, LowerHttpsProxy, LowerNoProxy]

  datatype Source = Cli | FromEnvironment | Disabled | NoSource

  datatype Proxy = Proxy(source: Source, vars: map<ProxyKey, string>)

  /** Spellings of one variable agree, and only the first two sources have variables. */
  ghost predicate IsConsistent(p: Proxy) {
    && (forall j, k :: j in p.vars && k in p.vars && Folded(j) == Folded(k) ==> p.vars[j] == p.vars[k])
    && (p.source == Disabled || p.source == NoSource ==> p.vars == map[])
  }

  // ----- The changes a proxy makes -----

  function Select(keys: seq<ProxyKey>, vars: map<ProxyKey, string>, present: bool): (r: seq<ProxyKey>)
    ensures forall i :: 0 <= i < |r| ==> r[i] in keys && (r[i] in vars) == present
    ensures forall k :: k in keys && (k in vars) == present ==> k in r
  {
    if keys == [] then []
    else if (keys[0] in vars) == present then [keys[0]] + Select(keys[1..], vars, present)
    else Select(keys[1..], vars, present)
  }

  function RemovedKeys(p: Proxy): seq<ProxyKey> {
    match p.source
    case NoSource => []
    case Disabled => ALL_KEYS
    case _ => Select(ALL_KEYS, p.vars, false)
  }

  function Removes(keys: seq<ProxyKey>): (changes: seq<EnvChange>)
    ensures |changes| == |keys| && forall i :: 0 <= i < |keys| ==> changes[i] == EnvChange(Name(keys[i]), None)
  {
    seq(|keys|, i requires 0 <= i < |keys| => EnvChange(Name(keys[i]), None))
  }

  function Sets(keys: seq<ProxyKey>, vars: map<ProxyKey, string>): (changes: seq<EnvChange>)
    requires forall i :: 0 <= i < |keys| ==> keys[i] in vars
    ensures |changes| == |keys|
    ensures forall i :: 0 <= i < |keys| ==> changes[i] == EnvChange(Name(keys[i]), Some(vars[keys[i]]))
  {
    seq(|keys|, i requires 0 <= i < |keys| => EnvChange(Name(keys[i]), Some(vars[keys[i]])))
  }

  /** First the removals, then the values. */
  function ProxyEnvChanges(p: Proxy): seq<EnvChange> {
    Removes(RemovedKeys(p)) + Sets(Select(SORTED_KEYS, p.vars, true), p.vars)
  }

  lemma KeysAreListed(k: ProxyKey)
    ensures k in ALL_KEYS && k in SORTED_KEYS
  {
    assert ALL_KEYS[0] == SymbolProxy && ALL_KEYS[1] == HttpProxy && ALL_KEYS[2] == HttpsProxy
        && ALL_KEYS[3] == AllProxy && ALL_KEYS[4] == NoProxy && ALL_KEYS[5] == LowerHttpProxy
        && ALL_KEYS[6] == LowerHttpsProxy && ALL_KEYS[7] == LowerAllProxy && ALL_KEYS[8] == LowerNoProxy;
    assert SORTED_KEYS[0] == AllProxy && SORTED_KEYS[1] == HttpsProxy && SORTED_KEYS[2] == HttpProxy
        && SORTED_KEYS[3] == NoProxy && SORTED_KEYS[4] == SymbolProxy && SORTED_KEYS[5] == LowerAllProxy
        && SORTED_KEYS[6] == LowerHttpProxy && SORTED_KEYS[7] == LowerHttpsProxy && SORTED_KEYS[8] == LowerNoProxy;
  }

  lemma FoldedName(k: ProxyKey)
    ensures Upper(Name(k)) == Name(Folded(k))
  {
  }

  lemma NamesDiffer(j: ProxyKey, k: ProxyKey)
    requires j != k
    ensures Name(j) != Name(k)
  {
    assert |Name(j)| == |Name(k)| ==> Name(j)[0] != Name(k)[0];
  }

  /** The last change of a variable names it, and no later one does. */
  lemma {:induction false} LastChangeIsLast(changes: seq<EnvChange>, name: string)
    ensures var i := LastChange(changes, name);
      && (i >= 0 ==> Upper(changes[i].key) == name)
      && (forall j :: i < j < |changes| ==> Upper(changes[j].key) != name)
    decreases |changes|
  {
    if changes != [] {
      LastChangeIsLast(changes[..|changes| - 1], name);
    }
  }

  predicate IsProxyName(name: string) {
    exists k: ProxyKey :: Name(Folded(k)) == name
  }

  /** Whether the proxy sets a value for the variable, under either spelling. */
  predicate Configures(p: Proxy, k: ProxyKey) {
    exists j :: j in p.vars && Folded(j) == Folded(k)
  }

  /** The value part of an entry. */
  function ValueOf(entry: string): Option<string> {
    if Find(entry, '=') < |entry| then Some(entry[Find(entry, '=') + 1..]) else None
  }

  lemma EntryParts(k: ProxyKey, value: string)
    ensures KeyOf(Entry(Name(k), value)) == Some(Name(Folded(k)))
    ensures ValueOf(Entry(Name(k), value)) == Some(value)
  {
    var entry := Entry(Name(k), value);
    assert '=' !in Name(k);
    assert entry[..|Name(k)|] == Name(k) && entry[|Name(k)|] == '=';
    FindUnique(entry, '=', |Name(k)|);
    assert entry[|Name(k)| + 1..] == value;
    FoldedName(k);
  }

  /** Each change is a removal of a listed key, or sets a configured one; all removals come first. */
  lemma ChangeAt(p: Proxy, i: nat) returns (k: ProxyKey)
    requires i < |ProxyEnvChanges(p)|
    ensures ProxyEnvChanges(p)[i].key == Name(k)
    ensures if i < |RemovedKeys(p)| then ProxyEnvChanges(p)[i].value == None
            else k in p.vars && ProxyEnvChanges(p)[i].value == Some(p.vars[k])
  {
    hide RemovedKeys, Select, Removes, Sets, Name;
    var removed := RemovedKeys(p);
    k := if i < |removed| then removed[i] else Select(SORTED_KEYS, p.vars, true)[i - |removed|];
  }

  /** Every configured key has its value set after the removals. */
  lemma SetSomewhere(p: Proxy, k: ProxyKey) returns (i: nat)
    requires k in p.vars
    ensures |RemovedKeys(p)| <= i < |ProxyEnvChanges(p)| && ProxyEnvChanges(p)[i].key == Name(k)
  {
    hide RemovedKeys, Select, Removes, Sets, Name;
    KeysAreListed(k);
    var kept := Select(SORTED_KEYS, p.vars, true);
    var at :| 0 <= at < |kept| && kept[at] == k;
    i := |RemovedKeys(p)| + at;
  }

  lemma RemovedSomewhere(p: Proxy, k: ProxyKey) returns (i: nat)
    requires p.source != NoSource && k !in p.vars
    ensures i < |ProxyEnvChanges(p)| && ProxyEnvChanges(p)[i].key == Name(k)
  {
    KeysAreListed(k);
    var removed := RemovedKeys(p);
    assert k in removed;
    hide RemovedKeys, Select, Removes, Sets, Name;
    i :| 0 <= i < |removed| && removed[i] == k;
  }

  lemma SameName(j: ProxyKey, k: ProxyKey)
    requires Name(Folded(j)) == Name(Folded(k))
    ensures Folded(j) == Folded(k)
  {
    if Folded(j) != Folded(k) { NamesDiffer(Folded(j), Folded(k)); }
  }

  /** What one variable is after the changes: the configured value, nothing, or what it was. */
  lemma VariableAfter(p: Proxy, env: Environment, k: ProxyKey)
    requires IsConsistent(p)
    ensures var r, name := ApplyAll(env, ProxyEnvChanges(p)), Name(Folded(k));
      if Configures(p, k) then
        name in r && KeyOf(r[name]) == Some(name)
        && forall j :: j in p.vars && Folded(j) == Folded(k) ==> ValueOf(r[name]) == Some(p.vars[j])
      else p.source != NoSource ==> name !in r
  {
    hide ProxyEnvChanges, RemovedKeys, KeyOf, ValueOf, Name, ApplyAll;
    var changes, name := ProxyEnvChanges(p), Name(Folded(k));
    var i := LastChange(changes, name);
    LastChangeIsLast(changes, name);
    LastChangeDecides(env, changes, name);
    if j :| j in p.vars && Folded(j) == Folded(k) {
      var at := SetSomewhere(p, j);
      FoldedName(j);
      assert i >= at;
      var key := ChangeAt(p, i);
      FoldedName(key);
      SameName(key, k);
      EntryParts(key, p.vars[key]);
    } else if p.source != NoSource {
      assert k !in p.vars;
      var at := RemovedSomewhere(p, k);
      FoldedName(k);
      assert i >= at;
      var removed := ChangeAt(p, i);
      FoldedName(removed);
      SameName(removed, k);
    }
  }

  /** Variables that are no proxy variables are untouched. */
  lemma OthersAfter(p: Proxy, env: Environment, name: string)
    requires !IsProxyName(name)
    ensures var r := ApplyAll(env, ProxyEnvChanges(p));
      (name in r <==> name in env) && (name in r ==> r[name] == env[name])
  {
    hide ProxyEnvChanges, RemovedKeys, Name, ApplyAll;
    var changes := ProxyEnvChanges(p);
    var i := LastChange(changes, name);
    LastChangeIsLast(changes, name);
    LastChangeDecides(env, changes, name);
    if i >= 0 {
      var k := ChangeAt(p, i);
      FoldedName(k);
    }
  }

  /**
   * `r` has exactly the configured proxy variables if the proxy comes from the command line or the
   * environment, none if proxies are disabled, and is `env` if there is no proxy; other variables are
   * those of `env`.
   */
  ghost predicate HasProxy(r: Environment, p: Proxy, env: Environment) {
    && (forall name :: !IsProxyName(name) ==> (name in r <==> name in env) && (name in r ==> r[name] == env[name]))
    && (p.source == NoSource ==> r == env)
    && (p.source == Disabled ==> forall k: ProxyKey :: Name(Folded(k)) !in r)
    && (p.source == Cli || p.source == FromEnvironment ==>
          (forall k: ProxyKey :: Name(Folded(k)) in r <==> Configures(p, k))
          && (forall k :: k in p.vars ==> ValueOf(r[Name(Folded(k))]) == Some(p.vars[k])))
  }

  /** Applying a proxy whose spellings agree to any environment does what its source says. */
  lemma ProxyApplied(p: Proxy, env: Environment)
    requires IsConsistent(p)
    ensures HasProxy(ApplyAll(env, ProxyEnvChanges(p)), p, env)
  {
    var r := ApplyAll(env, ProxyEnvChanges(p));
    forall name | !IsProxyName(name)
      ensures (name in r <==> name in env) && (name in r ==> r[name] == env[name])
    {
      OthersAfter(p, env, name);
    }
    forall k: ProxyKey
      ensures p.source == NoSource || (Name(Folded(k)) in r <==> Configures(p, k))
      ensures k in p.vars ==> Name(Folded(k)) in r && ValueOf(r[Name(Folded(k))]) == Some(p.vars[k])
    {
      VariableAfter(p, env, k);
    }
    assert p.source == NoSource ==> ProxyEnvChanges(p) == [];
  }
}
