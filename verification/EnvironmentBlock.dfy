/** Process environments: the case-folded map, changes to it, and the NUL-separated block. */
module EnvironmentBlock {
  import opened Texts
  import opened Wrappers

  const NUL: char := '\0'

  /** An environment maps the upper-case name of a variable to its whole entry `name=value`. */
  type Environment = map<string, string>

  /** The index of the first character equal to `ch`, or the length. */
  function Find(s: string, ch: char): (i: nat)
    ensures i <= |s| && ch !in s[..i] && (i < |s| ==> s[i] == ch)
  {
    if s == "" || s[0] == ch then 0
    else
      var i := Find(s[1..], ch) + 1;
      assert s[..i] == [s[0]] + s[1..][..i - 1];
      i
  }

  /** The key an entry is stored under: what precedes its first `=`, in upper case. */
  function KeyOf(entry: string): Option<string> {
    if Find(entry, '=') < |entry| then Some(Upper(entry[..Find(entry, '=')])) else None
  }

  lemma InPrefix(s: string, j: nat, f: nat)
    requires j < f <= |s|
    ensures s[j] in s[..f]
  {
    assert s[..f][j] == s[j];
  }

  lemma FoundBy(s: string, ch: char, j: nat)
    requires j < |s| && s[j] == ch
    ensures Find(s, ch) <= j
  {
    if j < Find(s, ch) {
      InPrefix(s, j, Find(s, ch));
    }
  }

  lemma FindUnique(s: string, ch: char, i: nat)
    requires i < |s| && s[i] == ch && ch !in s[..i]
    ensures Find(s, ch) == i
  {
    FoundBy(s, ch, i);
    if Find(s, ch) < i {
      InPrefix(s, Find(s, ch), i);
    }
  }

  /** Where the entry at `ptr` ends. */
  lemma FindsEnd(data: string, ptr: nat)
    requires ptr <= |data|
    ensures var end := ptr + Find(data[ptr..], NUL);
      && (end < |data| ==> data[end] == NUL)
      && (forall k :: ptr <= k < end ==> data[k] != NUL)
  {
    var len := Find(data[ptr..], NUL);
    forall k | ptr <= k < ptr + len
      ensures data[k] != NUL
    {
      InPrefix(data[ptr..], k - ptr, len);
    }
  }

  // ----- Changes -----

  datatype EnvChange = EnvChange(key: string, value: Option<string>)

  function Entry(key: string, value: string): string {
    key + "=" + value
  }

  function Apply(env: Environment, change: EnvChange): Environment {
    if change.value.Some? then env[Upper(change.key) := Entry(change.key, change.value.value)]
    else env - {Upper(change.key)}
  }

  function ApplyAll(env: Environment, changes: seq<EnvChange>): Environment
    decreases |changes|
  {
    if changes == [] then env else ApplyAll(Apply(env, changes[0]), changes[1..])
  }

  method ApplyEnvChanges(env: Environment, changes: seq<EnvChange>) returns (r: Environment)
    ensures r == ApplyAll(env, changes)
  {
    r := env;
    for i := 0 to |changes|
      invariant ApplyAll(r, changes[i..]) == ApplyAll(env, changes)
    {
      var change := changes[i];
      assert changes[i..][1..] == changes[i + 1..];
      var lookup := Upper(change.key);
      match change.value
      case Some(value) => r := r[lookup := change.key + "=" + value];
      case None => r := r - {lookup};
    }
  }

  /** The index of the last change of a variable, or -1. */
  function LastChange(changes: seq<EnvChange>, name: string): (i: int)
    ensures -1 <= i < |changes|
  {
    if changes == [] then -1
    else if Upper(changes[|changes| - 1].key) == name then |changes| - 1
    else LastChange(changes[..|changes| - 1], name)
  }

  lemma {:induction false} ApplyAllAppend(env: Environment, a: seq<EnvChange>, b: seq<EnvChange>)
    ensures ApplyAll(env, a + b) == ApplyAll(ApplyAll(env, a), b)
    decreases |a|
  {
    if a == [] {
      assert a + b == b;
    } else {
      assert (a + b)[0] == a[0] && (a + b)[1..] == a[1..] + b;
      ApplyAllAppend(Apply(env, a[0]), a[1..], b);
    }
  }

  /** After the changes, a variable is as its last change says, or as before if none names it. */
  lemma {:induction false} LastChangeDecides(env: Environment, changes: seq<EnvChange>, name: string)
    ensures var i, r := LastChange(changes, name), ApplyAll(env, changes);
      if i < 0 then (name in r <==> name in env) && (name in r ==> r[name] == env[name])
      else if changes[i].value.None? then name !in r
      else name in r && r[name] == Entry(changes[i].key, changes[i].value.value)
    decreases |changes|
  {
    if changes != [] {
      var n := |changes| - 1;
      assert changes == changes[..n] + [changes[n]];
      ApplyAllAppend(env, changes[..n], [changes[n]]);
      assert [changes[n]][1..] == [];
      LastChangeDecides(env, changes[..n], name);
    }
  }

  // ----- The block -----

  /** Every entry is stored under its own key and can be written: it has an `=` and no NUL. */
  predicate IsWritable(env: Environment) {
    forall k :: k in env ==> NUL !in env[k] && KeyOf(env[k]) == Some(k)
  }

  /** The keys of the map in the order it iterates over them. */
  predicate Lists(keys: seq<string>, env: Environment) {
    && (forall i :: 0 <= i < |keys| ==> keys[i] in env)
    && (forall k :: k in env ==> k in keys)
    && (forall i, j :: 0 <= i < j < |keys| ==> Before(keys[i], keys[j]))
  }

  /** The order of strings: the first difference decides, and a proper prefix comes first. */
  predicate Before(a: string, b: string) {
    b != "" && (a == "" || a[0] < b[0] || (a[0] == b[0] && Before(a[1..], b[1..])))
  }

  function Entries(env: Environment, keys: seq<string>): string
    requires forall i :: 0 <= i < |keys| ==> keys[i] in env
  {
    if keys == [] then "" else env[keys[0]] + [NUL] + Entries(env, keys[1..])
  }

  function Block(env: Environment, keys: seq<string>): string
    requires Lists(keys, env)
  {
    Entries(env, keys) + [NUL]
  }

  lemma Regrouped(a: string, entry: string, rest: string)
    ensures a + (entry + [NUL] + rest) == (a + entry + [NUL]) + rest
  {
  }

  lemma EntriesFrom(env: Environment, keys: seq<string>, i: nat)
    requires i < |keys| && forall j :: 0 <= j < |keys| ==> keys[j] in env
    ensures Entries(env, keys[i..]) == env[keys[i]] + [NUL] + Entries(env, keys[i + 1..])
  {
    assert keys[i..][1..] == keys[i + 1..];
  }

  method BuildEnvironmentBlock(env: Environment, keys: seq<string>) returns (data: string)
    requires Lists(keys, env)
    ensures data == Block(env, keys)
  {
    data := "";
    assert keys[0..] == keys && keys[|keys|..] == [] && Entries(env, []) == "";
    hide Entries, Before;
    for i := 0 to |keys|
      invariant data + Entries(env, keys[i..]) == Entries(env, keys)
    {
      EntriesFrom(env, keys, i);
      ghost var before := data;
      data := data + env[keys[i]] + [NUL];
      Regrouped(before, env[keys[i]], Entries(env, keys[i + 1..]));
    }
    data := data + [NUL];
  }

  /** The block ends: some entry position holds NUL.  Foreign memory without such an end is never read. */
  ghost predicate EndsFrom(data: string, ptr: nat) {
    exists p :: EndsAt(data, ptr, p)
  }

  predicate EndsAt(data: string, ptr: nat, p: int) {
    ptr <= p < |data| && data[p] == NUL && (p == ptr || data[p - 1] == NUL)
  }

  function Stored(env: Environment, entry: string): Environment {
    match KeyOf(entry)
    case Some(key) => env[key := entry]
    case None => env
  }

  /** What the entries from `ptr` on add to an environment. */
  ghost function Parsed(data: string, ptr: nat, env: Environment): Environment
    requires EndsFrom(data, ptr)
    decreases |data| - ptr
  {
    if data[ptr] == NUL then env
    else
      var len := Find(data[ptr..], NUL);
      EntryEnds(data, ptr);
      Parsed(data, ptr + len + 1, Stored(env, data[ptr..ptr + len]))
  }

  lemma EntryEnds(data: string, ptr: nat)
    requires EndsFrom(data, ptr) && data[ptr] != NUL
    ensures var len := Find(data[ptr..], NUL);
      ptr + len < |data| && EndsFrom(data, ptr + len + 1)
  {
    var p :| EndsAt(data, ptr, p);
    FoundBy(data[ptr..], NUL, p - 1 - ptr);
    assert EndsAt(data, ptr + Find(data[ptr..], NUL) + 1, p);
  }

  method ParseEnvironmentBlock(data: string) returns (env: Environment)
    requires EndsFrom(data, 0)
    ensures env == Parsed(data, 0, map[])
  {
    env := map[];
    var ptr := 0;
    while data[ptr] != NUL
      invariant 0 <= ptr && EndsFrom(data, ptr)
      invariant Parsed(data, ptr, env) == Parsed(data, 0, map[])
      decreases |data| - ptr
    {
      EntryEnds(data, ptr);
      FindsEnd(data, ptr);
      ghost var end := Find(data[ptr..], NUL);
      var len := 0;
      while data[ptr + len] != NUL
        invariant 0 <= len <= end
        decreases end - len
      {
        len := len + 1;
      }
      var entry := data[ptr..ptr + len];
      var key := KeyOf(entry);
      if key.Some? {
        env := env[key.value := entry];
      }
      ptr := ptr + len + 1;
    }
  }

  // ----- Round trip -----

  lemma StoredIsWritable(env: Environment, entry: string)
    requires IsWritable(env) && NUL !in entry
    ensures IsWritable(Stored(env, entry))
  {
  }

  /** Whatever is parsed is writable. */
  lemma {:induction false} ParsedIsWritable(data: string, ptr: nat, env: Environment)
    requires EndsFrom(data, ptr) && IsWritable(env)
    ensures IsWritable(Parsed(data, ptr, env))
    decreases |data| - ptr
  {
    hide IsWritable, Stored, KeyOf;
    if data[ptr] != NUL {
      var len := Find(data[ptr..], NUL);
      EntryEnds(data, ptr);
      assert data[ptr..ptr + len] == data[ptr..][..len];
      StoredIsWritable(env, data[ptr..ptr + len]);
      ParsedIsWritable(data, ptr + len + 1, Stored(env, data[ptr..ptr + len]));
    }
  }

  lemma BlockEnds(env: Environment, keys: seq<string>)
    requires Lists(keys, env)
    ensures EndsFrom(Block(env, keys), 0)
  {
    var data := Block(env, keys);
    if keys != [] {
      EntriesEndInNul(env, keys);
    }
    assert EndsAt(data, 0, |data| - 1);
  }

  lemma {:induction false} EntriesEndInNul(env: Environment, keys: seq<string>)
    requires keys != [] && forall i :: 0 <= i < |keys| ==> keys[i] in env
    ensures Entries(env, keys) != "" && Entries(env, keys)[|Entries(env, keys)| - 1] == NUL
  {
    if |keys| > 1 {
      EntriesEndInNul(env, keys[1..]);
    }
  }

  /** The part of a writable environment with the given keys. */
  function Restricted(env: Environment, keys: seq<string>): Environment
    requires forall i :: 0 <= i < |keys| ==> keys[i] in env
  {
    map k | k in keys :: env[k]
  }

  /** Reading one entry that has been written. */
  lemma EntryAt(data: string, ptr: nat, entry: string, rest: string)
    requires ptr <= |data| && data[ptr..] == entry + [NUL] + rest && NUL !in entry && entry != ""
    ensures ptr < |data| && data[ptr] != NUL
    ensures Find(data[ptr..], NUL) == |entry| && ptr + |entry| + 1 <= |data|
    ensures data[ptr..ptr + |entry|] == entry && data[ptr + |entry| + 1..] == rest
  {
    var tail := data[ptr..];
    assert data[ptr] == tail[0] == entry[0];
    assert tail[..|entry|] == entry && tail[|entry|] == NUL;
    FindUnique(tail, NUL, |entry|);
    assert data[ptr..ptr + |entry|] == tail[..|entry|];
    assert data[ptr + |entry| + 1..] == tail[|entry| + 1..] == rest;
  }

  lemma RestrictedStep(env: Environment, keys: seq<string>, got: Environment)
    requires keys != [] && forall i :: 0 <= i < |keys| ==> keys[i] in env
    ensures got[keys[0] := env[keys[0]]] + Restricted(env, keys[1..]) == got + Restricted(env, keys)
  {
    assert keys == [keys[0]] + keys[1..];
  }

  lemma EntriesStep(env: Environment, keys: seq<string>)
    requires keys != [] && forall i :: 0 <= i < |keys| ==> keys[i] in env
    ensures Entries(env, keys) + [NUL] == env[keys[0]] + [NUL] + (Entries(env, keys[1..]) + [NUL])
  {
  }

  lemma WritableEntry(env: Environment, key: string)
    requires IsWritable(env) && key in env
    ensures NUL !in env[key] && env[key] != "" && KeyOf(env[key]) == Some(key)
  {
  }

  lemma ParsesNothing(data: string, ptr: nat, env: Environment, got: Environment)
    requires EndsFrom(data, ptr) && ptr <= |data| && data[ptr..] == Entries(env, []) + [NUL]
    ensures Parsed(data, ptr, got) == got + Restricted(env, [])
  {
    assert data[ptr] == data[ptr..][0];
    assert got + Restricted(env, []) == got;
  }

  /** Parsing from the start of the remaining entries adds exactly them. */
  lemma {:induction false} ParsesEntries(data: string, ptr: nat, env: Environment, keys: seq<string>, got: Environment)
    requires IsWritable(env) && forall i :: 0 <= i < |keys| ==> keys[i] in env
    requires EndsFrom(data, ptr) && ptr <= |data| && data[ptr..] == Entries(env, keys) + [NUL]
    ensures Parsed(data, ptr, got) == got + Restricted(env, keys)
    decreases |keys|
  {
    hide KeyOf, Find, IsWritable, Parsed, Entries, Restricted, EndsFrom, Stored;
    if keys == [] {
      ParsesNothing(data, ptr, env, got);
    } else {
      var key, rest := keys[0], keys[1..];
      WritableEntry(env, key);
      EntriesStep(env, keys);
      EntryAt(data, ptr, env[key], Entries(env, rest) + [NUL]);
      ParsedOne(data, ptr, got, env[key]);
      assert forall i :: 0 <= i < |rest| ==> rest[i] == keys[i + 1];
      ParsesEntries(data, ptr + |env[key]| + 1, env, rest, got[key := env[key]]);
      StoredUnder(got, key, env[key]);
      RestrictedStep(env, keys, got);
    }
  }

  lemma StoredUnder(got: Environment, key: string, entry: string)
    requires KeyOf(entry) == Some(key)
    ensures Stored(got, entry) == got[key := entry]
  {
  }

  lemma ParsedOne(data: string, ptr: nat, got: Environment, entry: string)
    requires EndsFrom(data, ptr) && data[ptr] != NUL
    requires Find(data[ptr..], NUL) == |entry| && ptr + |entry| < |data| && data[ptr..ptr + |entry|] == entry
    ensures EndsFrom(data, ptr + |entry| + 1)
    ensures Parsed(data, ptr, got) == Parsed(data, ptr + |entry| + 1, Stored(got, entry))
  {
    EntryEnds(data, ptr);
  }

  lemma NothingIsWritable()
    ensures IsWritable(map[])
  {
  }

  lemma WritableIsParsedBack(env: Environment, keys: seq<string>)
    requires Lists(keys, env) && IsWritable(env) && EndsFrom(Block(env, keys), 0)
    ensures Parsed(Block(env, keys), 0, map[]) == env
  {
    hide Parsed, Entries, KeyOf, EndsFrom, IsWritable;
    var data := Block(env, keys);
    assert data[0..] == Entries(env, keys) + [NUL];
    ParsesEntries(data, 0, env, keys, map[]);
    assert map[] + Restricted(env, keys) == env;
  }

  /** A built block is parsed back to the same environment if and only if the environment is writable. */
  lemma BlockRoundTrip(env: Environment, keys: seq<string>)
    requires Lists(keys, env)
    ensures EndsFrom(Block(env, keys), 0)
    ensures Parsed(Block(env, keys), 0, map[]) == env <==> IsWritable(env)
  {
    hide Parsed, Entries, KeyOf, Block, EndsFrom;
    BlockEnds(env, keys);
    NothingIsWritable();
    ParsedIsWritable(Block(env, keys), 0, map[]);
    if IsWritable(env) {
      WritableIsParsedBack(env, keys);
    }
  }
}
