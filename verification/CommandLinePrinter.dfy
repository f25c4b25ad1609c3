/** Writing an argument list as a Windows command line. */
module CommandLinePrinter {
  import opened Texts

  /** The Unicode White_Space property. */
  predicate IsWhitespace(ch: char) {
    var c := ch as int;
    || 0x9 <= c <= 0xD || c == 0x20 || c == 0x85 || c == 0xA0 || c == 0x1680
    || 0x2000 <= c <= 0x200A || c == 0x2028 || c == 0x2029 || c == 0x202F || c == 0x205F || c == 0x3000
  }

  predicate HasWhitespace(arg: string) {
    exists i :: 0 <= i < |arg| && IsWhitespace(arg[i])
  }

  /** The characters that make the process launcher quote an argument. */
  predicate IsLauncherTrigger(ch: char) {
    IsWhitespace(ch) || ch == '"' || ch == '\t'
  }

  /** The characters that make the service installer quote an argument. */
  predicate IsServiceTrigger(ch: char) {
    ch == ' ' || ch == '\t' || ch == '\n' || ch == '\r' || ch == '"'
  }

  predicate LauncherQuotes(arg: string) {
    exists i :: 0 <= i < |arg| && IsLauncherTrigger(arg[i])
  }

  predicate ServiceQuotes(arg: string) {
    exists i :: 0 <= i < |arg| && IsServiceTrigger(arg[i])
  }

  function Backslashes(n: nat): (s: string)
    ensures |s| == n && forall i :: 0 <= i < n ==> s[i] == '\\'
  {
    seq(n, _ => '\\')
  }

  /** What follows the opening quote, when `n` backslashes precede `s` in the argument. */
  function Escaped(s: string, n: nat): string {
    if s == "" then Backslashes(2 * n) + "\""
    else if s[0] == '\\' then Escaped(s[1..], n + 1)
    else if s[0] == '"' then Backslashes(2 * n + 1) + "\"" + Escaped(s[1..], 0)
    else Backslashes(n) + [s[0]] + Escaped(s[1..], 0)
  }

  /** The printed form of an argument. */
  function Printed(arg: string, quotes: bool): string {
    if arg == "" then "\"\"" else if quotes then "\"" + Escaped(arg, 0) else arg
  }

  /** The loop both printers share: quotes and escapes an argument. */
  method QuoteAndEscape(arg: string) returns (quoted: string)
    ensures quoted == "\"" + Escaped(arg, 0)
  {
    quoted := "\"";
    var backslashes := 0;
    var i := 0;
    while i < |arg|
      invariant 0 <= i <= |arg| && 0 <= backslashes
      invariant quoted + Escaped(arg[i..], backslashes) == "\"" + Escaped(arg, 0)
    {
      var ch := arg[i];
      assert arg[i..][1..] == arg[i + 1..];
      ghost var before, rest := quoted, arg[i + 1..];
      if ch == '\\' {
        backslashes := backslashes + 1;
      } else if ch == '"' {
        quoted := quoted + Backslashes(backslashes * 2 + 1) + "\"";
        assert before + (Backslashes(backslashes * 2 + 1) + "\"" + Escaped(rest, 0)) == quoted + Escaped(rest, 0);
        backslashes := 0;
      } else {
        quoted := quoted + Backslashes(backslashes) + [ch];
        assert before + (Backslashes(backslashes) + [ch] + Escaped(rest, 0)) == quoted + Escaped(rest, 0);
        backslashes := 0;
      }
      i := i + 1;
    }
    assert arg[i..] == "";
    ghost var before := quoted;
    quoted := quoted + Backslashes(backslashes * 2) + "\"";
    assert before + (Backslashes(2 * backslashes) + "\"") == quoted;
  }

  method QuoteForLauncher(arg: string) returns (r: string)
    ensures r == Printed(arg, LauncherQuotes(arg))
  {
    if arg == "" {
      return "\"\"";
    }
    var needsQuotes := LauncherQuotes(arg);
    if !needsQuotes {
      return arg;
    }
    r := QuoteAndEscape(arg);
  }

  method QuoteForService(arg: string) returns (r: string)
    ensures r == Printed(arg, ServiceQuotes(arg))
  {
    if arg == "" {
      return "\"\"";
    }
    if !ServiceQuotes(arg) {
      return arg;
    }
    r := QuoteAndEscape(arg);
  }

  function LauncherParts(args: seq<string>): (parts: seq<string>)
    ensures |parts| == |args|
    ensures forall i :: 0 <= i < |args| ==> parts[i] == Printed(args[i], LauncherQuotes(args[i]))
  {
    seq(|args|, i requires 0 <= i < |args| => Printed(args[i], LauncherQuotes(args[i])))
  }

  function ServiceParts(args: seq<string>): (parts: seq<string>)
    ensures |parts| == |args|
    ensures forall i :: 0 <= i < |args| ==> parts[i] == Printed(args[i], ServiceQuotes(args[i]))
  {
    seq(|args|, i requires 0 <= i < |args| => Printed(args[i], ServiceQuotes(args[i])))
  }

  /** The command line for a program and its arguments, as the process launcher builds it. */
  method LauncherCommandLine(executable: string, args: seq<string>) returns (r: string)
    ensures r == Joined(LauncherParts([executable] + args), ' ')
  {
    var first := QuoteForLauncher(executable);
    var parts := [first];
    for i := 0 to |args|
      invariant |parts| == i + 1
      invariant forall k :: 0 <= k <= i ==> parts[k] == LauncherParts([executable] + args)[k]
    {
      var part := QuoteForLauncher(args[i]);
      parts := parts + [part];
    }
    assert parts == LauncherParts([executable] + args);
    r := Joined(parts, ' ');
  }

  /** The command line for a list of arguments, as the service installer builds it. */
  method ServiceCommandLine(args: seq<string>) returns (r: string)
    ensures r == Joined(ServiceParts(args), ' ')
  {
    var parts := [];
    for i := 0 to |args|
      invariant |parts| == i
      invariant forall k :: 0 <= k < i ==> parts[k] == ServiceParts(args)[k]
    {
      var part := QuoteForService(args[i]);
      parts := parts + [part];
    }
    assert parts == ServiceParts(args);
    r := Joined(parts, ' ');
  }
}
