/** The raw-token stage of `Parser::do_parse`: every program argument is classified by its prefix,
    handed to exactly one validator, and turned into tokens or an error. This module states what
    that stage computes per argument and for a whole argument list; the loop itself is
    `Argparse.Parser.DoParse`. */
module Lexing {
  import opened Wrappers
  import opened Seqs
  import opened ParserValidations

  datatype ArgToken =
    | ShortFlag(flag: char)
    | LongFlag(name: string)
    | NamedArgument(arg: string, value: string)
    | PositionalArgument(value: string)

  /** The error of `do_parse`: the validator's error, tagged with the class of the argument. */
  datatype ParserError =
    | FlagValidationError(cause: ParserValidationError)
    | NamedArgValidationError(cause: ParserValidationError)
    | LongFlagValidationError(cause: ParserValidationError)
    | PositionalArgumentValidationError(cause: ParserValidationError)

  /** `validate_long_flag_format` and `validate_positional_arguments_format` belong to a module
      that is not part of this model; they are carried as arbitrary total functions. */
  datatype ExternalValidators = ExternalValidators(
    longFlag: string -> Result<string, ParserValidationError>,
    positional: string -> Result<string, ParserValidationError>)

  /** The four routes an argument can take. */
  datatype ArgClass = NamedArgClass | LongFlagClass | ShortFlagClass | PositionalClass

  /** The route `do_parse` takes for `arg`, decided by its prefix and whether it contains `=`. */
  function Classify(arg: string): (c: ArgClass)
    ensures c == NamedArgClass <==> StartsWith(arg, "--") && '=' in arg
    ensures c == LongFlagClass <==> StartsWith(arg, "--") && '=' !in arg
    ensures c == ShortFlagClass <==> StartsWith(arg, "-") && !StartsWith(arg, "--")
    ensures c == PositionalClass <==> !StartsWith(arg, "-")
  {
    if StartsWith(arg, "--") then
      assert arg[..1] == arg[..2][..1];
      if '=' in arg then NamedArgClass else LongFlagClass
    else if StartsWith(arg, "-") then ShortFlagClass
    else PositionalClass
  }

  /** The route whose validator produces this error variant. */
  function ErrorClass(e: ParserError): ArgClass
  {
    match e
    case NamedArgValidationError(_) => NamedArgClass
    case LongFlagValidationError(_) => LongFlagClass
    case FlagValidationError(_) => ShortFlagClass
    case PositionalArgumentValidationError(_) => PositionalClass
  }

  /** The route whose validator produces this token variant. */
  function TokenClass(t: ArgToken): ArgClass
  {
    match t
    case NamedArgument(_, _) => NamedArgClass
    case LongFlag(_) => LongFlagClass
    case ShortFlag(_) => ShortFlagClass
    case PositionalArgument(_) => PositionalClass
  }

  /** One `ShortFlag` token per character, in the given order. */
  function ShortFlags(cs: seq<char>): seq<ArgToken>
  {
    if cs == [] then [] else ShortFlags(cs[..|cs| - 1]) + [ShortFlag(cs[|cs| - 1])]
  }

  /** What `do_parse` makes of one argument, with the flag characters of a cluster in written order. */
  function LexArg(v: ExternalValidators, arg: string): Result<seq<ArgToken>, ParserError>
  {
    match Classify(arg)
    case NamedArgClass =>
      (match NamedArgumentsFormat(arg)
       case Ok(kv) => Ok([NamedArgument(kv.0, kv.1)])
       case Err(e) => Err(NamedArgValidationError(e)))
    case LongFlagClass =>
      (match v.longFlag(arg)
       case Ok(name) => Ok([LongFlag(name)])
       case Err(e) => Err(LongFlagValidationError(e)))
    case ShortFlagClass =>
      (match FlagFormat(arg)
       case Ok(cs) => Ok(ShortFlags(cs))
       case Err(e) => Err(FlagValidationError(e)))
    case PositionalClass =>
      (match v.positional(arg)
       case Ok(value) => Ok([PositionalArgument(value)])
       case Err(e) => Err(PositionalArgumentValidationError(e)))
  }

  /** The arguments after the program name, which is discarded. */
  function ProgramArguments(args: seq<string>): (rest: seq<string>)
    ensures |rest| == if args == [] then 0 else |args| - 1
    ensures forall i :: 0 <= i < |rest| ==> rest[i] == args[i + 1]
  {
    if args == [] then [] else args[1..]
  }

  /** The error of the first argument that fails, if any. */
  function FirstFailure(v: ExternalValidators, args: seq<string>): Option<ParserError>
  {
    if args == [] then None
    else match LexArg(v, args[0])
      case Err(e) => Some(e)
      case Ok(_) => FirstFailure(v, args[1..])
  }

  /** `group` is what `do_parse` pushes for `arg`: the tokens of LexArg, up to their order. */
  predicate LexedAs(v: ExternalValidators, arg: string, group: seq<ArgToken>)
  {
    LexArg(v, arg).Ok? && multiset(group) == multiset(LexArg(v, arg).value)
  }

  /** The first |groups| arguments were lexed, in order, into `groups`. */
  predicate AllLexed(v: ExternalValidators, args: seq<string>, groups: seq<seq<ArgToken>>)
  {
    |groups| <= |args| && forall j :: 0 <= j < |groups| ==> LexedAs(v, args[j], groups[j])
  }

  /** All groups, one after the other. */
  function Flatten(groups: seq<seq<ArgToken>>): seq<ArgToken>
  {
    if groups == [] then [] else Flatten(groups[..|groups| - 1]) + groups[|groups| - 1]
  }

  // ---------------------------------------------------------------------------
  // Lemmas
  // ---------------------------------------------------------------------------

  /** Each argument takes exactly one route: a failure carries the error variant of that route,
      every token comes from it, and a cluster yields one token per character after the dash
      while every other argument yields one token. */
  lemma LexArgRoute(v: ExternalValidators, arg: string)
    ensures LexArg(v, arg).Err? ==> ErrorClass(LexArg(v, arg).error) == Classify(arg)
    ensures LexArg(v, arg).Ok? ==>
      forall i :: 0 <= i < |LexArg(v, arg).value| ==> TokenClass(LexArg(v, arg).value[i]) == Classify(arg)
    ensures LexArg(v, arg).Ok? ==>
      |LexArg(v, arg).value| == if Classify(arg) == ShortFlagClass then |arg| - 1 else 1
  {
    if Classify(arg) == ShortFlagClass && FlagFormat(arg).Ok? {
      ShortFlagsAt(FlagFormat(arg).value);
    }
  }

  lemma {:induction false} ShortFlagsAt(cs: seq<char>)
    ensures |ShortFlags(cs)| == |cs|
    ensures forall i :: 0 <= i < |cs| ==> ShortFlags(cs)[i] == ShortFlag(cs[i])
  {
    if cs != [] {
      ShortFlagsAt(cs[..|cs| - 1]);
    }
  }

  lemma ShortFlagsAppend(cs: seq<char>, c: char)
    ensures ShortFlags(cs + [c]) == ShortFlags(cs) + [ShortFlag(c)]
  {
    assert (cs + [c])[..|cs|] == cs;
  }

  /** A token occurs in ShortFlags(cs) as often as its character occurs in cs. */
  lemma {:induction false} ShortFlagsCount(cs: seq<char>, t: ArgToken)
    ensures multiset(ShortFlags(cs))[t] == if t.ShortFlag? then multiset(cs)[t.flag] else 0
  {
    if cs != [] {
      var init := cs[..|cs| - 1];
      ShortFlagsCount(init, t);
      assert cs == init + [cs[|cs| - 1]];
    }
  }

  /** Rearranging the characters rearranges the tokens the same way. */
  lemma ShortFlagsPermutation(a: seq<char>, b: seq<char>)
    requires multiset(a) == multiset(b)
    ensures multiset(ShortFlags(a)) == multiset(ShortFlags(b))
  {
    forall t ensures multiset(ShortFlags(a))[t] == multiset(ShortFlags(b))[t] {
      ShortFlagsCount(a, t);
      ShortFlagsCount(b, t);
    }
  }

  lemma FlattenAppend(groups: seq<seq<ArgToken>>, g: seq<ArgToken>)
    ensures Flatten(groups + [g]) == Flatten(groups) + g
  {
    assert (groups + [g])[..|groups|] == groups;
  }

  /** Lexing the next argument extends the lexed prefix by one group. */
  lemma AllLexedAppend(v: ExternalValidators, args: seq<string>, groups: seq<seq<ArgToken>>, g: seq<ArgToken>)
    requires AllLexed(v, args, groups) && |groups| < |args|
    requires LexedAs(v, args[|groups|], g)
    ensures AllLexed(v, args, groups + [g])
  {
    assert forall j :: 0 <= j < |groups| ==> (groups + [g])[j] == groups[j];
  }

  /** With no failure so far, one more argument fails exactly when it fails by itself. */
  lemma {:induction false} FirstFailureAppend(v: ExternalValidators, args: seq<string>, arg: string)
    requires FirstFailure(v, args).None?
    ensures FirstFailure(v, args + [arg]) ==
      if LexArg(v, arg).Err? then Some(LexArg(v, arg).error) else None
  {
    if args != [] {
      assert (args + [arg])[1..] == args[1..] + [arg];
      FirstFailureAppend(v, args[1..], arg);
    }
  }

  /** No argument fails exactly when every argument is accepted. */
  lemma {:induction false} FirstFailureNone(v: ExternalValidators, args: seq<string>)
    ensures FirstFailure(v, args).None? <==> forall i :: 0 <= i < |args| ==> LexArg(v, args[i]).Ok?
  {
    if args != [] {
      FirstFailureNone(v, args[1..]);
      assert forall i :: 1 <= i < |args| ==> args[i] == args[1..][i - 1];
    }
  }

  /** The first failing argument decides the error: all before it are accepted. */
  lemma {:induction false} FirstFailureAt(v: ExternalValidators, args: seq<string>, k: nat)
    requires k < |args|
    requires forall i :: 0 <= i < k ==> LexArg(v, args[i]).Ok?
    requires LexArg(v, args[k]).Err?
    ensures FirstFailure(v, args) == Some(LexArg(v, args[k]).error)
  {
    if k > 0 {
      assert forall i :: 0 <= i < k - 1 ==> args[1..][i] == args[i + 1];
      FirstFailureAt(v, args[1..], k - 1);
    }
  }

  /** A failure is always one of the arguments' own errors, and its variant names that
      argument's route. */
  lemma {:induction false} FirstFailureWitness(v: ExternalValidators, args: seq<string>)
    requires FirstFailure(v, args).Some?
    ensures exists k :: 0 <= k < |args| && LexArg(v, args[k]) == Err(FirstFailure(v, args).value)
    ensures exists k :: 0 <= k < |args| && ErrorClass(FirstFailure(v, args).value) == Classify(args[k])
  {
    if LexArg(v, args[0]).Err? {
      LexArgRoute(v, args[0]);
      assert LexArg(v, args[0]) == Err(FirstFailure(v, args).value);
    } else {
      FirstFailureWitness(v, args[1..]);
      var k :| 0 <= k < |args[1..]| && LexArg(v, args[1..][k]) == Err(FirstFailure(v, args).value);
      assert args[1..][k] == args[k + 1];
    }
  }
}
