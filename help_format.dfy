/** The text `Parser::show_help` renders from a parser's description and configuration: a
    heading, a usage line, and one block per declared flag, named argument and positional
    argument. */
module HelpFormat {
  import opened Wrappers
  import opened Seqs
  import opened ArgConfig

  /** The pieces for all items, in order (one `push_str` per item). */
  function Join<T>(xs: seq<T>, piece: T -> string): string
  {
    if xs == [] then "" else Join(xs[..|xs| - 1], piece) + piece(xs[|xs| - 1])
  }

  /** The derived `Debug` rendering of an argument type: the variant's name. */
  function ArgTypeDebug(t: ArgType): string
  {
    match t
    case IntegerType => "INTEGER"
    case FloatType => "FLOAT"
    case CharType => "CHAR"
    case StringType => "STRING"
  }

  // Usage-line pieces.

  function ShortFlagUsage(f: FlagConfig): string { [f.shortFlag] }

  function RequiredNamedUsage(a: NamedArgumentConfig): string { "--" + a.argument + "=VALUE " }

  function OptionalNamedUsage(a: NamedArgumentConfig): string { "[--" + a.argument + "=VALUE] " }

  function RequiredPositionalUsage(p: PositionalArgumentConfig): string { p.name + " " }

  function OptionalPositionalUsage(p: PositionalArgumentConfig): string { "[" + p.name + "] " }

  const UsagePrefix := "usage: COMMAND "

  /** `[-` + every short-flag character + `] `, present only when some flag is declared. */
  function FlagGroup(flags: seq<FlagConfig>): string
  {
    if |flags| > 0 then "[-" + Join(flags, ShortFlagUsage) + "] " else ""
  }

  /** The usage line: flags, then required and optional named arguments, then required and
      optional positional arguments, each group in declaration order. */
  function UsageLine(c: ArgConfigs): string
  {
    UsagePrefix
    + FlagGroup(c.flags)
    + Join(c.requiredNamedArguments, RequiredNamedUsage)
    + Join(c.optionalNamedArguments, OptionalNamedUsage)
    + Join(c.requiredPositionalArguments, RequiredPositionalUsage)
    + Join(c.optionalPositionalArguments, OptionalPositionalUsage)
  }

  // Per-item help blocks, one function per formatted line.

  function FlagShortLine(f: FlagConfig): string { "\t\t-" + [f.shortFlag] + "\n" }

  /** The long spelling's line, empty for a flag without one. */
  function FlagLongLine(f: FlagConfig): string
  {
    match f.longFlag
    case Some(l) => "\t\t--" + l + "\n"
    case None => ""
  }

  function DescriptionLine(description: string): string { "\t\t\t" + description + "\n\n" }

  function RequiredNamedLine(a: NamedArgumentConfig): string
  {
    "\t\t--" + a.argument + "=VALUE\t" + ArgTypeDebug(a.argType) + " (REQUIRED)\n"
  }

  function OptionalNamedLine(a: NamedArgumentConfig): string
  {
    "\t\t--" + a.argument + "=VALUE\t" + ArgTypeDebug(a.argType) + "\n"
  }

  function RequiredPositionalLine(p: PositionalArgumentConfig): string
  {
    "\t\t" + p.name + "\t" + ArgTypeDebug(p.argType) + " (REQUIRED)\n"
  }

  function OptionalPositionalLine(p: PositionalArgumentConfig): string
  {
    "\t\t" + p.name + "\t" + ArgTypeDebug(p.argType) + "\n"
  }

  function FlagHelp(f: FlagConfig): string
  {
    FlagShortLine(f) + FlagLongLine(f) + DescriptionLine(f.description)
  }

  function RequiredNamedHelp(a: NamedArgumentConfig): string
  {
    RequiredNamedLine(a) + DescriptionLine(a.description)
  }

  function OptionalNamedHelp(a: NamedArgumentConfig): string
  {
    OptionalNamedLine(a) + DescriptionLine(a.description)
  }

  function RequiredPositionalHelp(p: PositionalArgumentConfig): string
  {
    RequiredPositionalLine(p) + DescriptionLine(p.description)
  }

  function OptionalPositionalHelp(p: PositionalArgumentConfig): string
  {
    OptionalPositionalLine(p) + DescriptionLine(p.description)
  }

  const FlagsHeading := "\n\n\n\tFlags:\n"
  const NamedHeading := "\n\tNamed Arguments:\n"
  const PositionalHeading := "\n\tPositional Arguments:\n"

  /** The description, framed by blank lines. */
  function HelpHeader(description: string): string { "\n" + description + "\n\n" }

  /** Everything after the usage line: the three sections and the closing blank lines. */
  function HelpBody(c: ArgConfigs): string
  {
    FlagsHeading
    + Join(c.flags, FlagHelp)
    + NamedHeading
    + Join(c.requiredNamedArguments, RequiredNamedHelp)
    + Join(c.optionalNamedArguments, OptionalNamedHelp)
    + PositionalHeading
    + Join(c.requiredPositionalArguments, RequiredPositionalHelp)
    + Join(c.optionalPositionalArguments, OptionalPositionalHelp)
    + "\n\n"
  }

  /** The whole help text. */
  function HelpText(description: string, c: ArgConfigs): string
  {
    HelpHeader(description) + UsageLine(c) + HelpBody(c)
  }

  // ---------------------------------------------------------------------------
  // Lemmas
  // ---------------------------------------------------------------------------

  lemma JoinAppend<T>(xs: seq<T>, x: T, piece: T -> string)
    ensures Join(xs + [x], piece) == Join(xs, piece) + piece(x)
  {
    assert (xs + [x])[..|xs|] == xs;
  }

  /** One more loop iteration renders one more item. */
  lemma JoinStep<T>(xs: seq<T>, i: nat, piece: T -> string)
    requires i < |xs|
    ensures Join(xs[..i + 1], piece) == Join(xs[..i], piece) + piece(xs[i])
  {
    assert xs[..i + 1][..i] == xs[..i];
  }

  /** Rendering two lists one after the other renders each in turn. */
  lemma {:induction false} JoinConcat<T>(xs: seq<T>, ys: seq<T>, piece: T -> string)
    ensures Join(xs + ys, piece) == Join(xs, piece) + Join(ys, piece)
  {
    if ys == [] {
      assert xs + ys == xs;
    } else {
      var init := ys[..|ys| - 1];
      var last := ys[|ys| - 1];
      assert xs + ys == (xs + init) + [last];
      JoinAppend(xs + init, last, piece);
      JoinConcat(xs, init, piece);
      JoinAppend(init, last, piece);
    }
  }

  /** The piece of the i-th item comes after the pieces of all items declared before it and before
      those of all items declared after it. */
  lemma {:induction false} JoinAt<T>(xs: seq<T>, i: nat, piece: T -> string)
    requires i < |xs|
    ensures Join(xs, piece) == Join(xs[..i], piece) + piece(xs[i]) + Join(xs[i + 1..], piece)
  {
    var front := xs[..i] + [xs[i]];
    var back := xs[i + 1..];
    assert xs == front + back;
    JoinConcat(front, back, piece);
    JoinAppend(xs[..i], xs[i], piece);
  }

  /** The flag group lists the short-flag characters one by one, in declaration order. */
  lemma {:induction false} ShortFlagCharsInOrder(flags: seq<FlagConfig>)
    ensures |Join(flags, ShortFlagUsage)| == |flags|
    ensures forall i :: 0 <= i < |flags| ==> Join(flags, ShortFlagUsage)[i] == flags[i].shortFlag
  {
    if flags != [] {
      ShortFlagCharsInOrder(flags[..|flags| - 1]);
    }
  }

  /** The flag group is absent exactly when no flag is declared; otherwise it is `[-`, the
      characters, and `] `. */
  lemma FlagGroupShape(flags: seq<FlagConfig>)
    ensures FlagGroup(flags) == "" <==> flags == []
    ensures flags != [] ==>
      |FlagGroup(flags)| == |flags| + 4
      && FlagGroup(flags)[..2] == "[-"
      && FlagGroup(flags)[|flags| + 2..] == "] "
      && forall i :: 0 <= i < |flags| ==> FlagGroup(flags)[i + 2] == flags[i].shortFlag
  {
    ShortFlagCharsInOrder(flags);
  }

  /** Declaring one more required named argument adds its `--arg=VALUE ` piece right after the
      required named arguments declared before it, and changes nothing else in the usage line. */
  lemma UsageAfterRequiredNamed(c: ArgConfigs, a: NamedArgumentConfig)
    ensures UsageLine(c.(requiredNamedArguments := c.requiredNamedArguments + [a])) ==
      UsagePrefix + FlagGroup(c.flags)
      + Join(c.requiredNamedArguments, RequiredNamedUsage) + RequiredNamedUsage(a)
      + Join(c.optionalNamedArguments, OptionalNamedUsage)
      + Join(c.requiredPositionalArguments, RequiredPositionalUsage)
      + Join(c.optionalPositionalArguments, OptionalPositionalUsage)
  {
    var front := UsagePrefix + FlagGroup(c.flags);
    var before := Join(c.requiredNamedArguments, RequiredNamedUsage);
    var piece := RequiredNamedUsage(a);
    var back := Join(c.optionalNamedArguments, OptionalNamedUsage)
      + Join(c.requiredPositionalArguments, RequiredPositionalUsage)
      + Join(c.optionalPositionalArguments, OptionalPositionalUsage);
    JoinAppend(c.requiredNamedArguments, a, RequiredNamedUsage);
    Regroup(front, before, piece, back);
  }

  /** Declaring one more optional positional argument appends `[name] ` at the very end of the
      usage line. */
  lemma UsageAfterOptionalPositional(c: ArgConfigs, p: PositionalArgumentConfig)
    ensures UsageLine(c.(optionalPositionalArguments := c.optionalPositionalArguments + [p])) ==
      UsageLine(c) + "[" + p.name + "] "
  {
    JoinAppend(c.optionalPositionalArguments, p, OptionalPositionalUsage);
  }

  /** The help text opens with the framed description, then the usage line; what follows is
      the body with the three sections. */
  lemma HelpLayout(description: string, c: ArgConfigs)
    ensures StartsWith(HelpText(description, c), HelpHeader(description) + UsageLine(c))
    ensures HelpText(description, c)[|HelpHeader(description) + UsageLine(c)|..] == HelpBody(c)
  {
    ConcatSplits(HelpHeader(description) + UsageLine(c), HelpBody(c));
  }
}
