/**
 The command line of runpipe: two commands separated by "=", arguments that start with "="
 escaped by one more.
 */
module RunpipeCommands {

  datatype Command = Command(cmd: string, args: seq<string>)

  datatype Parse = Commands(first: Command, second: Command) | TooMany | Missing

  function Unescape(arg: string): string {
    if "==" <= arg then arg[1..] else arg
  }

  function Escape(arg: string): string {
    if "=" <= arg then "=" + arg else arg
  }

  /** The first argument that is not empty is the command, all later ones are its arguments. */
  function Extend(c: Command, arg: string): Command {
    if c.cmd == "" then c.(cmd := arg) else c.(args := c.args + [arg])
  }

  function Feed(first: Command, second: Command, separated: bool, argv: seq<string>): Parse
    decreases |argv|
  {
    if argv == [] then
      if second.cmd == "" then Missing else Commands(first, second)
    else if argv[0] == "=" then
      if separated then TooMany else Feed(first, second, true, argv[1..])
    else if !separated then Feed(Extend(first, Unescape(argv[0])), second, false, argv[1..])
    else Feed(first, Extend(second, Unescape(argv[0])), true, argv[1..])
  }

  const NO_COMMAND := Command("", [])

  method ParseCommands(argv: seq<string>) returns (parse: Parse)
    ensures parse == Feed(NO_COMMAND, NO_COMMAND, false, argv)
  {
    var processes := [NO_COMMAND, NO_COMMAND];
    var current := 0;
    var i := 0;
    while i < |argv|
      invariant 0 <= i <= |argv| && 0 <= current < 2 && |processes| == 2
      invariant Feed(NO_COMMAND, NO_COMMAND, false, argv) == Feed(processes[0], processes[1], current == 1, argv[i..])
    {
      var arg := argv[i];
      assert argv[i..][1..] == argv[i + 1..];
      i := i + 1;
      if arg == "=" {
        current := current + 1;
        if current >= 2 {
          return TooMany;
        }
        continue;
      }
      if "==" <= arg {
        arg := arg[1..];
      }
      var process := processes[current];
      if process.cmd == "" {
        process := process.(cmd := arg);
      } else {
        process := process.(args := process.args + [arg]);
      }
      processes := processes[current := process];
    }
    if processes[1].cmd == "" {
      return Missing;
    }
    return Commands(processes[0], processes[1]);
  }

  // ----- what is parsed

  function ExtendAll(c: Command, argv: seq<string>): Command
    decreases |argv|
  {
    if argv == [] then c else ExtendAll(Extend(c, Unescape(argv[0])), argv[1..])
  }

  lemma {:induction false} FeedFirst(first: Command, second: Command, part: seq<string>, rest: seq<string>)
    requires "=" !in part
    ensures Feed(first, second, false, part + rest) == Feed(ExtendAll(first, part), second, false, rest)
    decreases |part|
  {
    if part == [] {
      assert part + rest == rest;
    } else {
      assert (part + rest)[1..] == part[1..] + rest;
      FeedFirst(Extend(first, Unescape(part[0])), second, part[1..], rest);
    }
  }

  lemma {:induction false} FeedSecond(first: Command, second: Command, part: seq<string>, rest: seq<string>)
    requires "=" !in part
    ensures Feed(first, second, true, part + rest) == Feed(first, ExtendAll(second, part), true, rest)
    decreases |part|
  {
    if part == [] {
      assert part + rest == rest;
    } else {
      assert (part + rest)[1..] == part[1..] + rest;
      FeedSecond(first, Extend(second, Unescape(part[0])), part[1..], rest);
    }
  }

  ghost predicate SomeNotEmpty(argv: seq<string>) {
    exists i :: 0 <= i < |argv| && argv[i] != ""
  }

  lemma {:induction false} ExtendAllCommand(c: Command, argv: seq<string>)
    ensures ExtendAll(c, argv).cmd != "" <==> c.cmd != "" || SomeNotEmpty(argv)
    decreases |argv|
  {
    if argv != [] {
      var c' := Extend(c, Unescape(argv[0]));
      ExtendAllCommand(c', argv[1..]);
      assert Unescape(argv[0]) == "" <==> argv[0] == "";
      if SomeNotEmpty(argv[1..]) {
        var i :| 0 <= i < |argv[1..]| && argv[1..][i] != "";
        assert argv[i + 1] != "";
      }
      if SomeNotEmpty(argv) && argv[0] == "" {
        var i :| 0 <= i < |argv| && argv[i] != "";
        assert argv[1..][i - 1] != "";
      }
    }
  }

  /** k is the only separator, and something that is not empty follows it. */
  ghost predicate OnlySeparator(argv: seq<string>, k: nat) {
    && k < |argv| && argv[k] == "=" && "=" !in argv[..k] && "=" !in argv[k + 1..]
    && SomeNotEmpty(argv[k + 1..])
  }

  lemma SeparatorUnique(argv: seq<string>, j: nat, k: nat)
    requires OnlySeparator(argv, j) && k < |argv| && argv[k] == "="
    ensures j == k
  {
    forall x | 0 <= x < j ensures argv[x] in argv[..j] {
      assert argv[..j][x] == argv[x];
    }
    forall x | j < x < |argv| ensures argv[x] in argv[j + 1..] {
      assert argv[j + 1..][x - j - 1] == argv[x];
    }
  }

  /** Two commands are found exactly if there is one separator and something that is not empty follows it. */
  lemma ParsedIff(argv: seq<string>)
    ensures Feed(NO_COMMAND, NO_COMMAND, false, argv).Commands? <==> exists k :: OnlySeparator(argv, k)
  {
    if "=" !in argv {
      assert argv + [] == argv;
      FeedFirst(NO_COMMAND, NO_COMMAND, argv, []);
    } else {
      var k := FirstSeparator(argv);
      SplitParse(argv, k);
      ExtendAllCommand(NO_COMMAND, argv[k + 1..]);
      assert Feed(NO_COMMAND, NO_COMMAND, false, argv).Commands? <==> OnlySeparator(argv, k);
      if j: nat :| OnlySeparator(argv, j) {
        SeparatorUnique(argv, j, k);
      }
    }
  }

  lemma {:induction false} FirstSeparator(argv: seq<string>) returns (k: nat)
    requires "=" in argv
    ensures k < |argv| && argv[k] == "=" && "=" !in argv[..k]
  {
    if argv[0] == "=" {
      k := 0;
    } else {
      assert argv == [argv[0]] + argv[1..];
      var j := FirstSeparator(argv[1..]);
      k := j + 1;
      assert argv[..k] == [argv[0]] + argv[1..][..j];
    }
  }

  lemma SplitParse(argv: seq<string>, k: nat)
    requires k < |argv| && argv[k] == "=" && "=" !in argv[..k]
    ensures Feed(NO_COMMAND, NO_COMMAND, false, argv) ==
            (if "=" in argv[k + 1..] then TooMany
             else Feed(ExtendAll(NO_COMMAND, argv[..k]), ExtendAll(NO_COMMAND, argv[k + 1..]), true, []))
  {
    var first := ExtendAll(NO_COMMAND, argv[..k]);
    assert argv == argv[..k] + argv[k..];
    FeedFirst(NO_COMMAND, NO_COMMAND, argv[..k], argv[k..]);
    var rest := argv[k + 1..];
    assert argv[k..][1..] == rest;
    assert Feed(first, NO_COMMAND, false, argv[k..]) == Feed(first, NO_COMMAND, true, rest);
    if "=" in rest {
      var j := FirstSeparator(rest);
      assert rest == rest[..j] + rest[j..];
      FeedSecond(first, NO_COMMAND, rest[..j], rest[j..]);
    } else {
      assert rest + [] == rest;
      FeedSecond(first, NO_COMMAND, rest, []);
    }
  }

  /**
   A command line that is accepted has a first command exactly if something that is not empty precedes the
   separator.
   */
  lemma FirstCommandPresentIff(argv: seq<string>, k: nat)
    requires OnlySeparator(argv, k)
    ensures var parse := Feed(NO_COMMAND, NO_COMMAND, false, argv);
            parse.Commands? && parse.second.cmd != "" && (parse.first.cmd != "" <==> SomeNotEmpty(argv[..k]))
  {
    SplitParse(argv, k);
    ExtendAllCommand(NO_COMMAND, argv[..k]);
    ExtendAllCommand(NO_COMMAND, argv[k + 1..]);
  }

  /** Only the last command is checked: a command line whose first command is missing is accepted. */
  lemma FirstCommandMayBeMissing()
    ensures Feed(NO_COMMAND, NO_COMMAND, false, ["=", "b"]) == Commands(NO_COMMAND, Command("b", []))
  {
    assert ["=", "b"][1..] == ["b"] && ["b"][1..] == [];
    assert Feed(NO_COMMAND, NO_COMMAND, true, ["b"]) == Feed(NO_COMMAND, Command("b", []), true, []);
  }

  // ----- the round trip

  function EscapeAll(args: seq<string>): seq<string> {
    if args == [] then [] else [Escape(args[0])] + EscapeAll(args[1..])
  }

  function Line(c: Command): seq<string> {
    [Escape(c.cmd)] + EscapeAll(c.args)
  }

  lemma EscapeRead(arg: string)
    ensures Unescape(Escape(arg)) == arg && Escape(arg) != "="
  {
  }

  lemma ExtendEscaped(c: Command, arg: string)
    requires c.cmd != ""
    ensures Extend(c, Unescape(Escape(arg))) == c.(args := c.args + [arg])
  {
    EscapeRead(arg);
  }

  lemma ExtendAllCons(c: Command, arg: string, rest: seq<string>)
    ensures ExtendAll(c, [arg] + rest) == ExtendAll(Extend(c, Unescape(arg)), rest)
  {
    assert ([arg] + rest)[1..] == rest;
  }

  lemma {:induction false} EscapeAllClean(args: seq<string>)
    ensures "=" !in EscapeAll(args)
  {
    if args != [] {
      EscapeRead(args[0]);
      EscapeAllClean(args[1..]);
    }
  }

  lemma {:induction false} EscapeAllRead(c: Command, args: seq<string>)
    requires c.cmd != ""
    ensures ExtendAll(c, EscapeAll(args)) == c.(args := c.args + args)
    decreases |args|
  {
    if args == [] {
      assert c.args + [] == c.args;
    } else {
      ExtendAllCons(c, Escape(args[0]), EscapeAll(args[1..]));
      ExtendEscaped(c, args[0]);
      EscapeAllRead(c.(args := c.args + [args[0]]), args[1..]);
      assert (c.args + [args[0]]) + args[1..] == c.args + args;
    }
  }

  lemma LineRead(c: Command)
    requires c.cmd != ""
    ensures "=" !in Line(c) && ExtendAll(NO_COMMAND, Line(c)) == c
  {
    EscapeAllClean(c.args);
    EscapeAllRead(Command(c.cmd, []), c.args);
    ExtendAllCons(NO_COMMAND, Escape(c.cmd), EscapeAll(c.args));
    EscapeRead(c.cmd);
    assert [] + c.args == c.args;
  }

  /** Any two commands survive being written on the command line, whatever their arguments contain. */
  lemma CommandsRoundTrip(first: Command, second: Command)
    requires first.cmd != "" && second.cmd != ""
    ensures Feed(NO_COMMAND, NO_COMMAND, false, Line(first) + ["="] + Line(second)) == Commands(first, second)
  {
    LineRead(first);
    LineRead(second);
    var argv := Line(first) + ["="] + Line(second);
    var k := |Line(first)|;
    assert argv[..k] == Line(first) && argv[k] == "=" && argv[k + 1..] == Line(second);
    SplitParse(argv, k);
  }
}
