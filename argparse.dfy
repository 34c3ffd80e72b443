/** The argparse crate's `Parser`: a builder that records flag, named-argument and positional
    declarations, a raw-token pass over the program arguments, typed lookups into the parsed
    values, and the help text. */
module Argparse {
  import opened Wrappers
  import opened Seqs
  import opened ParserValidations
  import opened ArgConfig
  import opened Lexing
  import opened HelpFormat

  /** Rust's `i32`. */
  newtype I32 = x: int | -0x8000_0000 <= x < 0x8000_0000

  /** Rust's `f32`, carried as its bit pattern; no floating-point arithmetic is modelled. */
  datatype F32 = F32(bits: bv32)

  datatype ArgValue =
    | Boolean(b: bool)
    | Integer(i: I32)
    | Float(f: F32)
    | String(s: string)

  class Parser {
    var argConfig: ArgConfigs
    var description: string
    var parsedArgs: map<string, ArgValue>

    /** `new_parser`: nothing declared, nothing parsed. */
    constructor (description: string)
      ensures argConfig == EmptyConfigs
      ensures this.description == description
      ensures parsedArgs == map[]
    {
      argConfig := EmptyConfigs;
      this.description := description;
      parsedArgs := map[];
    }

    /** Append one flag declaration; every other list is left as it was. */
    method AddFlag(name: string, shortFlag: char, longFlag: Option<string>, description: string)
      modifies this`argConfig
      ensures argConfig.flags == old(argConfig.flags) + [FlagConfig(name, shortFlag, longFlag, description)]
      ensures argConfig == old(argConfig).(flags := argConfig.flags)
    {
      argConfig := argConfig.(flags := argConfig.flags + [FlagConfig(name, shortFlag, longFlag, description)]);
    }

    /** Append a named-argument declaration to the required or the optional list. */
    method AddNamedArgument(name: string, argument: string, required: bool, description: string, argType: ArgType)
      modifies this`argConfig
      ensures var a := NamedArgumentConfig(name, argument, description, argType);
        if required then
          argConfig == old(argConfig).(requiredNamedArguments := old(argConfig.requiredNamedArguments) + [a])
        else
          argConfig == old(argConfig).(optionalNamedArguments := old(argConfig.optionalNamedArguments) + [a])
    {
      var a := NamedArgumentConfig(name, argument, description, argType);
      if required {
        argConfig := argConfig.(requiredNamedArguments := argConfig.requiredNamedArguments + [a]);
      } else {
        argConfig := argConfig.(optionalNamedArguments := argConfig.optionalNamedArguments + [a]);
      }
    }

    /** Append a positional declaration to the required or the optional list; within each list
        positional arguments keep the order in which they were declared. */
    method AddPositionalArgument(name: string, required: bool, description: string, argType: ArgType)
      modifies this`argConfig
      ensures var p := PositionalArgumentConfig(name, description, argType);
        if required then
          argConfig == old(argConfig).(requiredPositionalArguments := old(argConfig.requiredPositionalArguments) + [p])
        else
          argConfig == old(argConfig).(optionalPositionalArguments := old(argConfig.optionalPositionalArguments) + [p])
    {
      var p := PositionalArgumentConfig(name, description, argType);
      if required {
        argConfig := argConfig.(requiredPositionalArguments := argConfig.requiredPositionalArguments + [p]);
      } else {
        argConfig := argConfig.(optionalPositionalArguments := argConfig.optionalPositionalArguments + [p]);
      }
    }

    function GetBoolArg(name: string): (r: Option<bool>)
      reads this
      ensures r.Some? <==> name in parsedArgs && parsedArgs[name].Boolean?
      ensures r.Some? ==> parsedArgs[name] == Boolean(r.value)
    {
      if name !in parsedArgs then None
      else match parsedArgs[name]
        case Boolean(val) => Some(val)
        case _ => None
    }

    function GetIntegerArg(name: string): (r: Option<I32>)
      reads this
      ensures r.Some? <==> name in parsedArgs && parsedArgs[name].Integer?
      ensures r.Some? ==> parsedArgs[name] == Integer(r.value)
    {
      if name !in parsedArgs then None
      else match parsedArgs[name]
        case Integer(val) => Some(val)
        case _ => None
    }

    function GetFloatArg(name: string): (r: Option<F32>)
      reads this
      ensures r.Some? <==> name in parsedArgs && parsedArgs[name].Float?
      ensures r.Some? ==> parsedArgs[name] == Float(r.value)
    {
      if name !in parsedArgs then None
      else match parsedArgs[name]
        case Float(val) => Some(val)
        case _ => None
    }

    function GetStringArg(name: string): (r: Option<string>)
      reads this
      ensures r.Some? <==> name in parsedArgs && parsedArgs[name].String?
      ensures r.Some? ==> parsedArgs[name] == String(r.value)
    {
      if name !in parsedArgs then None
      else match parsedArgs[name]
        case String(val) => Some(val)
        case _ => None
    }

    /** The raw-token pass: drop the program name, route every later argument to one validator,
        stop at the first error, and otherwise return this parser unchanged. The tokens built on
        the way (`groups`, one group per argument, and `toks`, all of them in order) are discarded
        by the source; they are returned here as ghost results so that their content can be stated. */
    method DoParse(args: seq<string>, v: ExternalValidators)
      returns (r: Result<Parser, ParserError>, ghost groups: seq<seq<ArgToken>>, ghost toks: seq<ArgToken>)
      ensures r.Err? <==> FirstFailure(v, ProgramArguments(args)).Some?
      ensures r.Err? ==> r.error == FirstFailure(v, ProgramArguments(args)).value
      ensures r.Ok? ==> r.value == this
      ensures r.Ok? ==> |groups| == |ProgramArguments(args)|
      ensures r.Ok? ==> forall i :: 0 <= i < |groups| ==> LexedAs(v, ProgramArguments(args)[i], groups[i])
      ensures r.Ok? ==> toks == Flatten(groups)
    {
      toks, groups := [], [];
      var rest := ProgramArguments(args);
      var i := 0;
      while i < |rest|
        invariant 0 <= i <= |rest|
        invariant |groups| == i
        invariant AllLexed(v, rest, groups)
        invariant toks == Flatten(groups)
      {
        var res := TokenizeArgument(rest[i], v);
        match res {
          case Ok(group) =>
            AllLexedAppend(v, rest, groups, group);
            FlattenAppend(groups, group);
            toks := toks + group;
            groups := groups + [group];
          case Err(e) =>
            FirstFailureAt(v, rest, i);
            r := Err(e);
            return;
        }
        i := i + 1;
      }
      FirstFailureNone(v, rest);
      r := Ok(this);
    }

    /** The help text; printing it is left to the caller. */
    method ShowHelp() returns (helpOutput: string)
      ensures helpOutput == HelpText(description, argConfig)
    {
      var c := argConfig;
      helpOutput := HelpHeader(description);
      var usage := BuildUsage(c);
      helpOutput := helpOutput + usage;
      var body := BuildBody(c);
      helpOutput := helpOutput + body;
    }
  }

  // ---------------------------------------------------------------------------
  // The loops of show_help, each growing the help text in place
  // ---------------------------------------------------------------------------

  /** A loop that pushes one formatted piece per item, in declaration order. */
  method PushEach<T>(helpOutput: string, xs: seq<T>, piece: T -> string) returns (out: string)
    ensures out == helpOutput + Join(xs, piece)
  {
    out := helpOutput;
    for i := 0 to |xs|
      invariant out == helpOutput + Join(xs[..i], piece)
    {
      JoinStep(xs, i, piece);
      out := out + piece(xs[i]);
    }
    assert xs[..|xs|] == xs;
  }

  /** Appending the next item's piece extends the rendering by one item. */
  method PushStep<T>(start: string, out: string, xs: seq<T>, i: nat, piece: T -> string, block: string)
    returns (next: string)
    requires i < |xs|
    requires out == start + Join(xs[..i], piece)
    requires block == piece(xs[i])
    ensures next == start + Join(xs[..i + 1], piece)
  {
    JoinStep(xs, i, piece);
    next := out + block;
  }

  /** The usage line: `usage: COMMAND `, the flag group, then the named and positional arguments. */
  method BuildUsage(c: ArgConfigs) returns (usage: string)
    ensures usage == UsageLine(c)
  {
    usage := UsagePrefix;
    usage := PushFlagGroup(usage, c.flags);
    usage := PushEach(usage, c.requiredNamedArguments, RequiredNamedUsage);
    usage := PushEach(usage, c.optionalNamedArguments, OptionalNamedUsage);
    usage := PushEach(usage, c.requiredPositionalArguments, RequiredPositionalUsage);
    usage := PushEach(usage, c.optionalPositionalArguments, OptionalPositionalUsage);
  }

  /** The three sections after the usage line, each under its heading, then the closing blank lines. */
  method BuildBody(c: ArgConfigs) returns (body: string)
    ensures body == HelpBody(c)
  {
    body := FlagsHeading;
    body := PushFlagBlocks(body, c.flags);
    body := body + NamedHeading;
    body := PushEach(body, c.requiredNamedArguments, RequiredNamedHelp);
    body := PushEach(body, c.optionalNamedArguments, OptionalNamedHelp);
    body := body + PositionalHeading;
    body := PushEach(body, c.requiredPositionalArguments, RequiredPositionalHelp);
    body := PushEach(body, c.optionalPositionalArguments, OptionalPositionalHelp);
    body := body + "\n\n";
  }

  /** `[-`, every short-flag character, `] `; nothing at all when no flag is declared. */
  method PushFlagGroup(helpOutput: string, flags: seq<FlagConfig>) returns (out: string)
    ensures out == helpOutput + FlagGroup(flags)
  {
    out := helpOutput;
    if |flags| > 0 {
      out := out + "[-";
    }
    out := PushEach(out, flags, ShortFlagUsage);
    if |flags| > 0 {
      out := out + "] ";
    }
  }

  /** One block per flag, in declaration order. */
  method PushFlagBlocks(helpOutput: string, flags: seq<FlagConfig>) returns (out: string)
    ensures out == helpOutput + Join(flags, FlagHelp)
  {
    out := helpOutput;
    for i := 0 to |flags|
      invariant out == helpOutput + Join(flags[..i], FlagHelp)
    {
      var block := FlagBlock(flags[i]);
      out := PushStep(helpOutput, out, flags, i, FlagHelp, block);
    }
    assert flags[..|flags|] == flags;
  }

  /** One flag's block: its short spelling, its long spelling when it has one, its description. */
  method FlagBlock(flag: FlagConfig) returns (block: string)
    ensures block == FlagHelp(flag)
  {
    block := FlagShortLine(flag);
    if flag.longFlag.Some? {
      block := block + FlagLongLine(flag);
    }
    block := block + DescriptionLine(flag.description);
  }

  /** One iteration of the raw-token pass: the prefix of `arg` picks the validator, and its
      result becomes the tokens for `arg` or the error that ends the pass. */
  method TokenizeArgument(arg: string, v: ExternalValidators) returns (r: Result<seq<ArgToken>, ParserError>)
    ensures r.Err? <==> LexArg(v, arg).Err?
    ensures r.Err? ==> r == LexArg(v, arg)
    ensures r.Ok? ==> LexedAs(v, arg, r.value)
  {
    if StartsWith(arg, "--") {
      // the named-argument route when the argument contains `=`
      if '=' in arg {
        var res := ValidateNamedArgumentsFormat(arg);
        match res {
          case Ok(kv) => r := Ok([NamedArgument(kv.0, kv.1)]);
          case Err(e) => r := Err(NamedArgValidationError(e));
        }
      } else {
        match v.longFlag(arg) {
          case Ok(flagName) => r := Ok([LongFlag(flagName)]);
          case Err(e) => r := Err(LongFlagValidationError(e));
        }
      }
    } else if StartsWith(arg, "-") {
      var res := ValidateFlagFormat(arg);
      match res {
        case Ok(flags) =>
          var toks: seq<ArgToken> := [];
          for k := 0 to |flags|
            invariant toks == ShortFlags(flags[..k])
          {
            assert flags[..k + 1] == flags[..k] + [flags[k]];
            ShortFlagsAppend(flags[..k], flags[k]);
            toks := toks + [ShortFlag(flags[k])];
          }
          assert flags[..|flags|] == flags;
          ShortFlagsPermutation(flags, FlagFormat(arg).value);
          r := Ok(toks);
        case Err(e) => r := Err(FlagValidationError(e));
      }
    } else {
      match v.positional(arg) {
        case Ok(value) => r := Ok([PositionalArgument(value)]);
        case Err(e) => r := Err(PositionalArgumentValidationError(e));
      }
    }
  }

  // ---------------------------------------------------------------------------
  // Lemmas about the lookups
  // ---------------------------------------------------------------------------

  /** A stored value is returned by the getter of its own variant and by no other getter. */
  lemma StoredValueIsReturned(p: Parser, name: string)
    requires name in p.parsedArgs
    ensures match p.parsedArgs[name]
      case Boolean(b) =>
        p.GetBoolArg(name) == Some(b)
        && p.GetIntegerArg(name).None? && p.GetFloatArg(name).None? && p.GetStringArg(name).None?
      case Integer(n) =>
        p.GetIntegerArg(name) == Some(n)
        && p.GetBoolArg(name).None? && p.GetFloatArg(name).None? && p.GetStringArg(name).None?
      case Float(f) =>
        p.GetFloatArg(name) == Some(f)
        && p.GetBoolArg(name).None? && p.GetIntegerArg(name).None? && p.GetStringArg(name).None?
      case String(s) =>
        p.GetStringArg(name) == Some(s)
        && p.GetBoolArg(name).None? && p.GetIntegerArg(name).None? && p.GetFloatArg(name).None?
  {
  }

  /** A name with no parsed value is reported missing by every getter. */
  lemma MissingNameIsNone(p: Parser, name: string)
    requires name !in p.parsedArgs
    ensures p.GetBoolArg(name).None? && p.GetIntegerArg(name).None?
    ensures p.GetFloatArg(name).None? && p.GetStringArg(name).None?
  {
  }

  /** The single-flag scenario of the crate's own test: one `add_flag` on a new parser leaves
      exactly one flag declaration. */
  method AddOneFlag() returns (flagCount: nat)
    ensures flagCount == 1
  {
    var parser := new Parser("My parser");
    parser.AddFlag("myflag", 'c', None, "Count chars");
    flagCount := |parser.argConfig.flags|;
  }
}
