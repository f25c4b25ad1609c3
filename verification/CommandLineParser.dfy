/** Reading a Windows command line back into its arguments. */
module CommandLineParser {
  import opened Wrappers
  import opened CommandLinePrinter

  datatype SplitError = UnterminatedQuote

  /**
   * The reference parser: one character at a time.  `pending` counts the backslashes just read, whose
   * meaning depends on whether a quote follows them.
   */
  datatype Parsing = Parsing(args: seq<string>, arg: string, inQuotes: bool, inArg: bool, pending: nat)

  /** The pending backslashes turn out to be ordinary characters. */
  function Flush(p: Parsing): Parsing {
    if p.pending == 0 then p
    else p.(arg := p.arg + Backslashes(p.pending), inArg := true, pending := 0)
  }

  function Read(p: Parsing, ch: char): Parsing {
    if ch == '\\' then p.(pending := p.pending + 1)
    else if ch == '"' then
      var half := p.(arg := p.arg + Backslashes(p.pending / 2), inArg := true, pending := 0);
      if p.pending % 2 == 0 then half.(inQuotes := !p.inQuotes) else half.(arg := half.arg + "\"")
    else
      var q := Flush(p);
      if IsWhitespace(ch) && !q.inQuotes then
        if q.inArg then q.(args := q.args + [q.arg], arg := "", inArg := false) else q
      else q.(arg := q.arg + [ch], inArg := true)
  }

  function ReadAll(p: Parsing, s: string): Parsing
    decreases |s|
  {
    if s == "" then p else ReadAll(Read(p, s[0]), s[1..])
  }

  function Finish(p: Parsing): Result<seq<string>, SplitError> {
    var q := Flush(p);
    if q.inQuotes then Err(UnterminatedQuote)
    else if q.inArg then Ok(q.args + [q.arg])
    else Ok(q.args)
  }

  function Start(args: seq<string>): Parsing {
    Parsing(args, "", false, false, 0)
  }

  /** The arguments of a command line. */
  function Arguments(s: string): Result<seq<string>, SplitError> {
    Finish(ReadAll(Start([]), s))
  }

  lemma {:induction false} ReadAppend(p: Parsing, a: string, b: string)
    ensures ReadAll(p, a + b) == ReadAll(ReadAll(p, a), b)
    decreases |a|
  {
    if a == "" {
      assert a + b == b;
    } else {
      assert (a + b)[0] == a[0] && (a + b)[1..] == a[1..] + b;
      ReadAppend(Read(p, a[0]), a[1..], b);
    }
  }

  lemma ReadOne(p: Parsing, ch: char)
    ensures ReadAll(p, [ch]) == Read(p, ch)
  {
    assert [ch][1..] == "";
  }

  /** A run of backslashes only makes more of them pending. */
  lemma {:induction false} ReadBackslashes(p: Parsing, n: nat)
    ensures ReadAll(p, Backslashes(n)) == p.(pending := p.pending + n)
    decreases n
  {
    if n != 0 {
      assert Backslashes(n)[1..] == Backslashes(n - 1);
      ReadBackslashes(Read(p, '\\'), n - 1);
    }
  }

  /** The parser of the program: it takes a whole run of backslashes at once. */
  method SplitCommandLine(chars: string) returns (r: Result<seq<string>, SplitError>)
    ensures r == Arguments(chars)
  {
    var args: seq<string>, arg, inQuotes, inArg := [], "", false, false;
    var index := 0;
    while index < |chars|
      invariant 0 <= index <= |chars|
      invariant Flush(ReadAll(Start([]), chars[..index])) == Parsing(args, arg, inQuotes, inArg, 0)
      invariant index < |chars| && chars[index] == '"' ==> ReadAll(Start([]), chars[..index]).pending == 0
      invariant index < |chars| && chars[index] == '\\' ==> ReadAll(Start([]), chars[..index]).pending == 0
    {
      var ch := chars[index];
      ghost var before := ReadAll(Start([]), chars[..index]);
      assert chars[..index + 1] == chars[..index] + [ch];
      ReadAppend(Start([]), chars[..index], [ch]);
      ReadOne(before, ch);
      if IsWhitespace(ch) && !inQuotes {
        if inArg {
          args := args + [arg];
          arg := "";
          inArg := false;
        }
        index := index + 1;
        continue;
      }
      if ch == '\\' {
        var count := 0;
        ghost var start := index;
        while index < |chars| && chars[index] == '\\'
          invariant start <= index <= |chars| && count == index - start
          invariant forall k :: start <= k < index ==> chars[k] == '\\'
        {
          count := count + 1;
          index := index + 1;
        }
        assert chars[..index] == chars[..start] + Backslashes(count);
        ReadAppend(Start([]), chars[..start], Backslashes(count));
        ReadBackslashes(before, count);
        if index < |chars| && chars[index] == '"' {
          assert chars[..index + 1] == chars[..index] + ['"'];
          ReadAppend(Start([]), chars[..index], ['"']);
          ReadOne(ReadAll(Start([]), chars[..index]), '"');
          arg := arg + Backslashes(count / 2);
          if count % 2 == 0 {
            inQuotes := !inQuotes;
          } else {
            arg := arg + "\"";
          }
          inArg := true;
          index := index + 1;
        } else {
          arg := arg + Backslashes(count);
          inArg := true;
        }
        continue;
      }
      if ch == '"' {
        assert arg + Backslashes(0) == arg;
        inQuotes := !inQuotes;
        inArg := true;
        index := index + 1;
        continue;
      }
      arg := arg + [ch];
      inArg := true;
      index := index + 1;
    }
    assert chars[..index] == chars;
    if inQuotes {
      return Err(UnterminatedQuote);
    }
    if inArg {
      args := args + [arg];
    }
    r := Ok(args);
  }
}
