/** The declared configuration of an argparse parser: what the builder records and what the
    help text is rendered from. */
module ArgConfig {
  import opened Wrappers

  /** The declared type of a named or positional argument. */
  datatype ArgType = IntegerType | FloatType | CharType | StringType

  /** A short flag, with an optional long spelling. */
  datatype FlagConfig = FlagConfig(
    name: string,
    shortFlag: char,
    longFlag: Option<string>,
    description: string)

  /** A `--argument=VALUE` argument; `name` is its result key, `argument` its spelling. */
  datatype NamedArgumentConfig = NamedArgumentConfig(
    name: string,
    argument: string,
    description: string,
    argType: ArgType)

  datatype PositionalArgumentConfig = PositionalArgumentConfig(
    name: string,
    description: string,
    argType: ArgType)

  /** Five declaration lists, each in declaration order. */
  datatype ArgConfigs = ArgConfigs(
    flags: seq<FlagConfig>,
    optionalNamedArguments: seq<NamedArgumentConfig>,
    requiredNamedArguments: seq<NamedArgumentConfig>,
    optionalPositionalArguments: seq<PositionalArgumentConfig>,
    requiredPositionalArguments: seq<PositionalArgumentConfig>)

  /** The configuration of a parser on which nothing has been declared yet. */
  const EmptyConfigs := ArgConfigs([], [], [], [], [])
}
