/**
  The command line of the async rewriter tool: options in front, each option
  taking effect as it is read, and the first argument that is not an option
  starting the list of input files, which runs to the end of the line.
*/
module AsyncRewriterArguments {
  import opened Wrappers
  import opened Strings

  const OutputOption := "-output"
  const AssembliesOption := "-assemblies"
  const AlwaysWriteOption := "-alwayswrite"

  /** The separator of the paths inside an option's value. */
  const PathSeparator := ';'

  /** The locals the parsing loop fills; a missing list is null in the tool. */
  datatype Arguments = Arguments(
    output: Option<seq<string>>,
    input: Option<seq<string>>,
    assemblies: Option<seq<string>>,
    alwaysWrite: bool)

  const NoArguments := Arguments(None, None, None, false)

  /** The call the tool ends with: Rewrite(input, assemblies, output, !alwayswrite). */
  datatype RewriteCall = RewriteCall(
    input: Option<seq<string>>,
    assemblies: Option<seq<string>>,
    output: Option<seq<string>>,
    notAlwaysWrite: bool)

  /** Reading the value of an option given as the last argument, past the end of the arguments. */
  datatype ArgumentError = MissingOptionValue(option: string)

  predicate IsOption(arg: string)
  {
    arg == OutputOption || arg == AssembliesOption || arg == AlwaysWriteOption
  }

  /** What the loop does with the arguments still to read, from the locals it has so far. */
  function ParseFrom(args: seq<string>, acc: Arguments): Result<Arguments, ArgumentError>
    decreases |args|
  {
    if args == [] then Ok(acc)
    else if args[0] == OutputOption then
      if |args| < 2 then Err(MissingOptionValue(OutputOption))
      else ParseFrom(args[2..], acc.(output := Some(Split(args[1], PathSeparator))))
    else if args[0] == AssembliesOption then
      if |args| < 2 then Err(MissingOptionValue(AssembliesOption))
      else ParseFrom(args[2..], acc.(assemblies := Some(Split(args[1], PathSeparator))))
    else if args[0] == AlwaysWriteOption then
      ParseFrom(args[1..], acc.(alwaysWrite := true))
    else Ok(acc.(input := Some(args)))
  }

  function Parse(args: seq<string>): Result<Arguments, ArgumentError>
  {
    ParseFrom(args, NoArguments)
  }

  function CallOf(a: Arguments): RewriteCall
  {
    RewriteCall(a.input, a.assemblies, a.output, !a.alwaysWrite)
  }

  /** The tool's argument loop: the call it makes to the rewriter, or the exception that stops it. */
  method RewriteArguments(args: seq<string>) returns (r: Result<RewriteCall, ArgumentError>)
    ensures Parse(args).Ok? ==> r == Ok(CallOf(Parse(args).value))
    ensures Parse(args).Err? ==> r == Err(Parse(args).error)
  {
    var output: Option<seq<string>> := None;
    var input: Option<seq<string>> := None;
    var assemblies: Option<seq<string>> := None;
    var alwaysWrite := false;
    var i := 0;
    while i < |args|
      invariant 0 <= i <= |args|
      invariant input.None?
      invariant ParseFrom(args[i..], Arguments(output, input, assemblies, alwaysWrite)) == Parse(args)
      decreases |args| - i
    {
      var arg := args[i];
      if arg == OutputOption {
        if i + 1 >= |args| {
          return Err(MissingOptionValue(OutputOption));
        }
        i := i + 1;
        output := Some(Split(args[i], PathSeparator));
        assert args[i - 1..][2..] == args[i + 1..];
      } else if arg == AssembliesOption {
        if i + 1 >= |args| {
          return Err(MissingOptionValue(AssembliesOption));
        }
        i := i + 1;
        assemblies := Some(Split(args[i], PathSeparator));
        assert args[i - 1..][2..] == args[i + 1..];
      } else if arg == AlwaysWriteOption {
        alwaysWrite := true;
        assert args[i..][1..] == args[i + 1..];
      } else {
        input := Some(args[i..]);
        break;
      }
      i := i + 1;
    }
    return Ok(RewriteCall(input, assemblies, output, !alwaysWrite));
  }

  // ---------------------------------------------------------------------------
  // The command line as options followed by input files
  // ---------------------------------------------------------------------------

  /** One option as the user writes it. */
  datatype Opt = OutputOpt(value: string) | AssembliesOpt(value: string) | AlwaysWriteOpt

  function OptTokens(o: Opt): seq<string>
  {
    match o
    case OutputOpt(v) => [OutputOption, v]
    case AssembliesOpt(v) => [AssembliesOption, v]
    case AlwaysWriteOpt => [AlwaysWriteOption]
  }

  /** The arguments a list of options is written as. */
  function Tokens(opts: seq<Opt>): seq<string>
  {
    if opts == [] then [] else OptTokens(opts[0]) + Tokens(opts[1..])
  }

  /** The output list of the last -output option, if any. */
  function LastOutput(opts: seq<Opt>): Option<seq<string>>
  {
    if opts == [] then None
    else if opts[|opts| - 1].OutputOpt? then Some(Split(opts[|opts| - 1].value, PathSeparator))
    else LastOutput(opts[..|opts| - 1])
  }

  /** The assembly list of the last -assemblies option, if any. */
  function LastAssemblies(opts: seq<Opt>): Option<seq<string>>
  {
    if opts == [] then None
    else if opts[|opts| - 1].AssembliesOpt? then Some(Split(opts[|opts| - 1].value, PathSeparator))
    else LastAssemblies(opts[..|opts| - 1])
  }

  /** What one option does to the locals. */
  function Step(o: Opt, acc: Arguments): Arguments
  {
    match o
    case OutputOpt(v) => acc.(output := Some(Split(v, PathSeparator)))
    case AssembliesOpt(v) => acc.(assemblies := Some(Split(v, PathSeparator)))
    case AlwaysWriteOpt => acc.(alwaysWrite := true)
  }

  /** What the options say, from the locals before them. */
  function Apply(opts: seq<Opt>, acc: Arguments): Arguments
  {
    if opts == [] then acc else Apply(opts[1..], Step(opts[0], acc))
  }

  lemma {:induction false} ApplySnoc(opts: seq<Opt>, o: Opt, acc: Arguments)
    ensures Apply(opts + [o], acc) == Step(o, Apply(opts, acc))
  {
    if opts == [] {
      assert opts + [o] == [o] && [o][1..] == [];
    } else {
      assert (opts + [o])[1..] == opts[1..] + [o];
      ApplySnoc(opts[1..], o, Step(opts[0], acc));
    }
  }

  /** Options apply in order, so the last one of each kind wins and -alwayswrite anywhere sets the flag. */
  lemma {:induction false} ApplyLastWins(opts: seq<Opt>)
    ensures Apply(opts, NoArguments) ==
      Arguments(LastOutput(opts), None, LastAssemblies(opts), AlwaysWriteOpt in opts)
  {
    if opts != [] {
      var init := opts[..|opts| - 1];
      var o := opts[|opts| - 1];
      assert opts == init + [o];
      ApplySnoc(init, o, NoArguments);
      ApplyLastWins(init);
      assert init == opts[..|opts| - 1];
      assert AlwaysWriteOpt in opts <==> AlwaysWriteOpt in init || o == AlwaysWriteOpt;
    }
  }

  /** Reading options, then whatever follows them. */
  lemma {:induction false} ParseOptions(opts: seq<Opt>, rest: seq<string>, acc: Arguments)
    ensures ParseFrom(Tokens(opts) + rest, acc) == ParseFrom(rest, Apply(opts, acc))
  {
    if opts != [] {
      var o := opts[0];
      assert Tokens(opts) + rest == OptTokens(o) + (Tokens(opts[1..]) + rest);
      var next := Step(o, acc);
      var tail := Tokens(opts[1..]) + rest;
      var args := OptTokens(o) + tail;
      match o {
        case OutputOpt(v) =>
          assert args[0] == OutputOption && args[1] == v && args[2..] == tail;
        case AssembliesOpt(v) =>
          assert args[0] == AssembliesOption && args[0] != OutputOption && args[1] == v && args[2..] == tail;
        case AlwaysWriteOpt =>
          assert args[0] == AlwaysWriteOption && args[0] != OutputOption && args[0] != AssembliesOption;
          assert args[1..] == tail;
      }
      assert ParseFrom(args, acc) == ParseFrom(tail, next);
      ParseOptions(opts[1..], rest, next);
    } else {
      assert Tokens(opts) + rest == rest;
    }
  }

  /**
    Options followed by arguments whose first one is not an option: the last
    -output and -assemblies values, split at ';', win; -alwayswrite anywhere
    sets the flag; and everything from the first non-option on, option-like
    or not, is the input, which stays null when nothing follows the options.
  */
  lemma CommandLine(opts: seq<Opt>, rest: seq<string>)
    requires rest == [] || !IsOption(rest[0])
    ensures Parse(Tokens(opts) + rest) ==
      Ok(Arguments(LastOutput(opts), if rest == [] then None else Some(rest), LastAssemblies(opts), AlwaysWriteOpt in opts))
  {
    ParseOptions(opts, rest, NoArguments);
    ApplyLastWins(opts);
  }

  /** -output or -assemblies as the very last argument has no value to read. */
  lemma TrailingOptionFails(opts: seq<Opt>, option: string)
    requires option == OutputOption || option == AssembliesOption
    ensures Parse(Tokens(opts) + [option]) == Err(MissingOptionValue(option))
  {
    ParseOptions(opts, [option], NoArguments);
  }

  /** What may follow the options: nothing, a non-option and the rest, or a value option missing its value. */
  predicate AfterOptions(rest: seq<string>)
  {
    rest == [] || !IsOption(rest[0]) || rest == [OutputOption] || rest == [AssembliesOption]
  }

  /** The option at the front of a command line that does not end its options there. */
  function FirstOpt(args: seq<string>): (o: Opt)
    requires !AfterOptions(args)
    ensures |OptTokens(o)| <= |args| && args[..|OptTokens(o)|] == OptTokens(o)
  {
    if args[0] == OutputOption then OutputOpt(args[1])
    else if args[0] == AssembliesOption then AssembliesOpt(args[1])
    else AlwaysWriteOpt
  }

  lemma {:induction false} TokensCons(args: seq<string>, o: Opt, opts: seq<Opt>, rest: seq<string>)
    requires |OptTokens(o)| <= |args| && args[..|OptTokens(o)|] == OptTokens(o)
    requires args[|OptTokens(o)|..] == Tokens(opts) + rest
    ensures args == Tokens([o] + opts) + rest
  {
    assert ([o] + opts)[1..] == opts;
    assert Tokens([o] + opts) == OptTokens(o) + Tokens(opts);
    assert args == args[..|OptTokens(o)|] + args[|OptTokens(o)|..];
  }

  /** Every command line is a list of options followed by what may follow them. */
  function SplitCommandLine(args: seq<string>): (r: (seq<Opt>, seq<string>))
    ensures args == Tokens(r.0) + r.1 && AfterOptions(r.1)
    decreases |args|
  {
    if AfterOptions(args) then
      assert Tokens([]) + args == args;
      ([], args)
    else
      var o := FirstOpt(args);
      var (opts, rest) := SplitCommandLine(args[|OptTokens(o)|..]);
      TokensCons(args, o, opts, rest);
      ([o] + opts, rest)
  }

  /**
    Any command line parses as its options say: the error of a trailing value
    option, or the last values, the flag and the input that follows them.
  */
  lemma ParseAnyCommandLine(args: seq<string>)
    ensures var (opts, rest) := SplitCommandLine(args);
      Parse(args) ==
        if rest == [OutputOption] || rest == [AssembliesOption] then Err(MissingOptionValue(rest[0]))
        else Ok(Arguments(LastOutput(opts), if rest == [] then None else Some(rest), LastAssemblies(opts),
                          AlwaysWriteOpt in opts))
  {
    var (opts, rest) := SplitCommandLine(args);
    if rest == [OutputOption] || rest == [AssembliesOption] {
      TrailingOptionFails(opts, rest[0]);
    } else {
      CommandLine(opts, rest);
    }
  }
}
