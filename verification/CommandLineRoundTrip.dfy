/** Which command lines are read back as they were written. */
module CommandLineRoundTrip {
  import opened Wrappers
  import opened CommandLineParser
  import opened CommandLinePrinter
  import opened Texts

  // ----- Quoted arguments -----

  lemma BackslashesAdd(m: nat, n: nat)
    ensures Backslashes(m) + Backslashes(n) == Backslashes(m + n)
  {
  }

  /** Inside quotes, escaped text is read as the text itself, and closes the quotes. */
  lemma {:induction false} ReadEscaped(args: seq<string>, arg: string, s: string, n: nat)
    ensures ReadAll(Parsing(args, arg, true, true, 0), Escaped(s, n))
      == Parsing(args, arg + Backslashes(n) + s, false, true, 0)
    decreases |s|
  {
    var p := Parsing(args, arg, true, true, 0);
    if s == "" {
      ReadRun(p, 2 * n, '"', "");
      assert Backslashes(2 * n) + ['"'] + "" == Escaped(s, n);
    } else if s[0] == '\\' {
      ReadEscaped(args, arg, s[1..], n + 1);
      BackslashesAdd(n, 1);
      assert arg + Backslashes(n + 1) + s[1..] == arg + Backslashes(n) + s;
    } else if s[0] == '"' {
      ReadRun(p, 2 * n + 1, '"', Escaped(s[1..], 0));
      assert Backslashes(2 * n + 1) + ['"'] + Escaped(s[1..], 0) == Escaped(s, n);
      ReadEscaped(args, arg + Backslashes(n) + "\"", s[1..], 0);
      assert arg + Backslashes(n) + "\"" + Backslashes(0) + s[1..] == arg + Backslashes(n) + s;
    } else {
      ReadRun(p, n, s[0], Escaped(s[1..], 0));
      ReadEscaped(args, arg + Backslashes(n) + [s[0]], s[1..], 0);
      assert arg + Backslashes(n) + [s[0]] + Backslashes(0) + s[1..] == arg + Backslashes(n) + s;
      if n == 0 { assert arg + Backslashes(0) == arg; }
    }
  }

  /** Reading a run of backslashes, the character after it, and the rest. */
  lemma ReadRun(p: Parsing, n: nat, ch: char, rest: string)
    ensures ReadAll(p, Backslashes(n) + [ch] + rest) == ReadAll(Read(p.(pending := p.pending + n), ch), rest)
  {
    ReadAppend(p, Backslashes(n) + [ch], rest);
    ReadAppend(p, Backslashes(n), [ch]);
    ReadBackslashes(p, n);
    ReadOne(p.(pending := p.pending + n), ch);
  }

  /** The text of one part of a command line stands for the arguments `words`, wherever it is put. */
  ghost predicate StandsFor(part: string, words: seq<string>) {
    forall args: seq<string> ::
      && Read(ReadAll(Start(args), part), ' ') == Start(args + words)
      && Finish(ReadAll(Start(args), part)) == Ok(args + words)
  }

  lemma QuotedStandsForItself(arg: string)
    ensures StandsFor("\"" + Escaped(arg, 0), [arg])
  {
    forall args: seq<string>
      ensures Read(ReadAll(Start(args), "\"" + Escaped(arg, 0)), ' ') == Start(args + [arg])
           && Finish(ReadAll(Start(args), "\"" + Escaped(arg, 0))) == Ok(args + [arg])
    {
      ReadRun(Start(args), 0, '"', Escaped(arg, 0));
      assert Backslashes(0) + ['"'] + Escaped(arg, 0) == "\"" + Escaped(arg, 0);
      ReadEscaped(args, "", arg, 0);
      assert "" + Backslashes(0) + arg == arg;
    }
  }

  // ----- Unquoted arguments -----

  /** The maximal pieces of `s` without whitespace, when `word` has been read already. */
  function Words(s: string, word: string): seq<string> {
    if s == "" then (if word == "" then [] else [word])
    else if IsWhitespace(s[0]) then (if word == "" then [] else [word]) + Words(s[1..], "")
    else Words(s[1..], word + [s[0]])
  }

  predicate HasQuote(s: string) {
    '"' in s
  }

  /** Outside quotes, text without quotes is read as its words. */
  lemma {:induction false} ReadPlain(p: Parsing, s: string)
    requires !HasQuote(s) && !p.inQuotes && p.inArg == (p.arg != "")
    ensures Read(ReadAll(p, s), ' ') == Start(p.args + Words(s, p.arg + Backslashes(p.pending)))
    ensures Finish(ReadAll(p, s)) == Ok(p.args + Words(s, p.arg + Backslashes(p.pending)))
    decreases |s|
  {
    var word := p.arg + Backslashes(p.pending);
    if s == "" {
      assert p.args + [] == p.args;
      assert p.pending == 0 ==> word == p.arg;
    } else {
      var q := Read(p, s[0]);
      assert s[0] in s;
      assert forall ch :: ch in s[1..] ==> ch in s;
      ReadPlain(q, s[1..]);
      assert p.pending == 0 ==> word == p.arg;
      if s[0] == '\\' {
        BackslashesAdd(p.pending, 1);
        assert p.arg + Backslashes(p.pending + 1) == word + [s[0]];
      } else if IsWhitespace(s[0]) {
        assert q.arg + Backslashes(q.pending) == "";
        if word == "" {
          assert [] + Words(s[1..], "") == Words(s[1..], "");
        } else {
          assert p.args + [word] + Words(s[1..], "") == p.args + ([word] + Words(s[1..], ""));
        }
      } else {
        assert q.arg + Backslashes(q.pending) == word + [s[0]];
      }
    }
  }

  lemma PlainStandsForItsWords(part: string)
    requires !HasQuote(part)
    ensures StandsFor(part, Words(part, ""))
  {
    forall args: seq<string>
      ensures Read(ReadAll(Start(args), part), ' ') == Start(args + Words(part, ""))
           && Finish(ReadAll(Start(args), part)) == Ok(args + Words(part, ""))
    {
      ReadPlain(Start(args), part);
      assert "" + Backslashes(0) == "";
    }
  }

  lemma {:induction false} UnbrokenWord(s: string, word: string)
    requires !HasWhitespace(s)
    ensures Words(s, word) == if word + s == "" then [] else [word + s]
  {
    if s == "" {
      assert word + s == word;
    } else {
      assert IsWhitespace(s[0]) == false;
      assert forall i :: 0 <= i < |s[1..]| ==> s[1..][i] == s[i + 1];
      UnbrokenWord(s[1..], word + [s[0]]);
      assert word + [s[0]] + s[1..] == word + s;
    }
  }

  lemma {:induction false} WordsHaveNoWhitespace(s: string, word: string, i: nat)
    requires !HasWhitespace(word) && i < |Words(s, word)|
    ensures !HasWhitespace(Words(s, word)[i])
  {
    if s != "" {
      if !IsWhitespace(s[0]) {
        WordsHaveNoWhitespace(s[1..], word + [s[0]], i);
      } else if word == "" {
        WordsHaveNoWhitespace(s[1..], "", i);
      } else if i > 0 {
        WordsHaveNoWhitespace(s[1..], "", i - 1);
      }
    }
  }

  // ----- Whole command lines -----

  function Concat(lists: seq<seq<string>>): seq<string> {
    if lists == [] then [] else lists[0] + Concat(lists[1..])
  }

  lemma ReadNothing(p: Parsing)
    ensures ReadAll(p, "") == p
  {
  }

  lemma ReadPart(part: string, words: seq<string>, args: seq<string>)
    requires StandsFor(part, words)
    ensures Read(ReadAll(Start(args), part), ' ') == Start(args + words)
    ensures Finish(ReadAll(Start(args), part)) == Ok(args + words)
  {
  }

  /** A command line is read part by part. */
  lemma {:induction false} ReadJoined(args: seq<string>, parts: seq<string>, lists: seq<seq<string>>)
    requires |lists| == |parts| && forall i :: 0 <= i < |parts| ==> StandsFor(parts[i], lists[i])
    ensures Finish(ReadAll(Start(args), Joined(parts, ' '))) == Ok(args + Concat(lists))
    decreases |parts|
  {
    hide StandsFor, Read, ReadAll;
    if parts == [] {
      assert args + [] == args;
      ReadNothing(Start(args));
    } else {
      assert StandsFor(parts[0], lists[0]);
      ReadPart(parts[0], lists[0], args);
      assert args + Concat(lists) == args + lists[0] + Concat(lists[1..]);
      if |parts| == 1 {
        assert Concat(lists[1..]) == [];
        assert args + lists[0] + [] == args + lists[0];
      } else {
        var rest := Joined(parts[1..], ' ');
        assert Joined(parts, ' ') == parts[0] + ([' '] + rest);
        ReadAppend(Start(args), parts[0], [' '] + rest);
        ReadAppend(ReadAll(Start(args), parts[0]), [' '], rest);
        ReadOne(ReadAll(Start(args), parts[0]), ' ');
        ReadJoined(args + lists[0], parts[1..], lists[1..]);
      }
    }
  }

  function Singles(args: seq<string>): (lists: seq<seq<string>>)
    ensures |lists| == |args| && forall i :: 0 <= i < |args| ==> lists[i] == [args[i]]
  {
    seq(|args|, i requires 0 <= i < |args| => [args[i]])
  }

  lemma {:induction false} ConcatSingles(args: seq<string>)
    ensures Concat(Singles(args)) == args
    decreases |args|
  {
    if args != [] {
      assert Singles(args)[1..] == Singles(args[1..]);
      ConcatSingles(args[1..]);
    }
  }

  lemma LauncherPartStandsForItself(arg: string)
    ensures StandsFor(Printed(arg, LauncherQuotes(arg)), [arg])
  {
    hide StandsFor;
    if arg == "" {
      QuotedStandsForItself(arg);
      assert "\"" + Escaped("", 0) == "\"\"";
    } else if LauncherQuotes(arg) {
      QuotedStandsForItself(arg);
    } else {
      PlainStandsForItsWords(arg);
      UnbrokenWord(arg, "");
      assert "" + arg == arg;
    }
  }

  /** Whatever the arguments, the launcher's command line is split into exactly them. */
  lemma LauncherRoundTrip(args: seq<string>)
    ensures Arguments(Joined(LauncherParts(args), ' ')) == Ok(args)
  {
    forall i | 0 <= i < |args|
      ensures StandsFor(LauncherParts(args)[i], Singles(args)[i])
    {
      LauncherPartStandsForItself(args[i]);
    }
    ReadJoined([], LauncherParts(args), Singles(args));
    ConcatSingles(args);
    assert [] + args == args;
  }

  // ----- The service command line -----

  /** No whitespace, or some character that makes the service installer quote the argument. */
  predicate IsSafe(arg: string) {
    !HasWhitespace(arg) || ServiceQuotes(arg)
  }

  /** What the service installer's text for an argument is read as. */
  function ReadAs(arg: string): seq<string> {
    if IsSafe(arg) then [arg] else Words(arg, "")
  }

  function AllReadAs(args: seq<string>): (lists: seq<seq<string>>)
    ensures |lists| == |args| && forall i :: 0 <= i < |args| ==> lists[i] == ReadAs(args[i])
  {
    seq(|args|, i requires 0 <= i < |args| => ReadAs(args[i]))
  }

  lemma ServicePartStandsFor(arg: string)
    ensures StandsFor(Printed(arg, ServiceQuotes(arg)), ReadAs(arg))
  {
    hide StandsFor;
    if arg == "" {
      QuotedStandsForItself(arg);
      assert "\"" + Escaped("", 0) == "\"\"";
    } else if ServiceQuotes(arg) {
      QuotedStandsForItself(arg);
    } else {
      PlainStandsForItsWords(arg);
      if IsSafe(arg) {
        UnbrokenWord(arg, "");
        assert "" + arg == arg;
      }
    }
  }

  /** Every service command line is read without an error; unsafe arguments fall apart into their words. */
  lemma ServiceLineIsReadAs(args: seq<string>)
    ensures Arguments(Joined(ServiceParts(args), ' ')) == Ok(Concat(AllReadAs(args)))
  {
    forall i | 0 <= i < |args|
      ensures StandsFor(ServiceParts(args)[i], AllReadAs(args)[i])
    {
      ServicePartStandsFor(args[i]);
    }
    ReadJoined([], ServiceParts(args), AllReadAs(args));
    assert [] + Concat(AllReadAs(args)) == Concat(AllReadAs(args));
  }

  lemma ReadAsIsSafe(arg: string, i: nat)
    requires i < |ReadAs(arg)|
    ensures IsSafe(ReadAs(arg)[i])
  {
    if !IsSafe(arg) {
      WordsHaveNoWhitespace(arg, "", i);
    }
  }

  /** Only safe arguments come out of a service command line. */
  lemma {:induction false} OnlySafeComesOut(args: seq<string>, i: nat)
    requires i < |Concat(AllReadAs(args))|
    ensures IsSafe(Concat(AllReadAs(args))[i])
    decreases |args|
  {
    assert args != [];
    assert AllReadAs(args)[1..] == AllReadAs(args[1..]);
    if i < |ReadAs(args[0])| {
      ReadAsIsSafe(args[0], i);
    } else {
      OnlySafeComesOut(args[1..], i - |ReadAs(args[0])|);
    }
  }

  /** The service command line is split into exactly the arguments if and only if all of them are safe. */
  lemma ServiceRoundTrip(args: seq<string>)
    ensures Arguments(Joined(ServiceParts(args), ' ')) == Ok(args) <==> forall i :: 0 <= i < |args| ==> IsSafe(args[i])
  {
    ServiceLineIsReadAs(args);
    if forall i :: 0 <= i < |args| ==> IsSafe(args[i]) {
      assert AllReadAs(args) == Singles(args);
      ConcatSingles(args);
    } else if Concat(AllReadAs(args)) == args {
      forall i | 0 <= i < |args|
        ensures IsSafe(args[i])
      {
        OnlySafeComesOut(args, i);
      }
    }
  }
}
