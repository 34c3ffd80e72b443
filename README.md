# argparse and simpleargs helpers, modelled in Dafny

This project models the command-line argument library `argparse` (directory
`src/rust_projects/argparse`). It also models two helper modules of `simpleargs`
(directory `src/rust/simpleargs`).

An argparse `Parser` is built by declaration calls. Each call appends one flag, one named
argument (`--name=VALUE`) or one positional argument to an ordered list. A named or positional
argument goes to the required list or the optional list.

`do_parse` drops the program name and makes one pass over the remaining arguments. Each
argument's prefix sends it to exactly one validator:

- `--` with an `=` goes to the named-argument validator;
- `--` without `=` goes to the long-flag validator;
- `-` goes to the short-flag cluster validator;
- anything else goes to the positional validator.

The first failure ends the pass with an error tagged by the argument's class. On success the
parser comes back unchanged. The typed getters look a name up in the parsed-value map.
`show_help` renders a help text from the description and the declarations.

The simpleargs helpers spell flag names with their dashes and test an argument's dash prefix.

Modules:

| module | file | models |
|---|---|---|
| `Wrappers` | `wrappers.dfy` | `Option` and `Result` |
| `Seqs` | `seqs.dfy` | `starts_with` on sequences; distinctness |
| `ParserValidations` | `parser_validations.dfy` | `parser_validations.rs`: the error enum and both validators |
| `ArgConfig` | `arg_config.dfy` | the declaration records of `lib.rs` |
| `Lexing` | `lexing.dfy` | tokens, `ParserError`, and what the raw-token pass computes per argument and per argument list |
| `HelpFormat` | `help_format.dfy` | the text `show_help` builds, as functions, with lemmas about its layout |
| `Argparse` | `argparse.dfy` | the `Parser` class: the builder, the getters, `do_parse` and `show_help` as methods |
| `SimpleArgsUtils`, `ArgValidators` | `simpleargs.dfy` | `utils.rs` and `arg_validators.rs` |

Each imperative routine is a method proved against a specification function. The routines are
the validators' loops, the builder's in-place pushes, the `do_parse` loop and the `push_str`
loops of `show_help`. The properties of each specification function are proved as lemmas.

`validate_flag_format` collects a `HashSet` into a `Vec`, so its result is in an unspecified
order. It is specified up to permutation: the same multiset as the characters after the dash,
with no repeats. The specification function `FlagFormat` gives those characters in written order.

The long-flag and positional validators belong to `lexer::validators`, which is not part of this
model. They are passed as two arbitrary total functions bundled in `ExternalValidators`.
`do_parse` keeps no tokens. The model returns them as ghost results so their content can be
stated.

## Model

| member | source | states |
|---|---|---|
| `ParserValidations.FirstEquals` | src/rust_projects/argparse/src/parser_validations.rs:41 | the position found holds `=` and no earlier position does; there is none exactly when the text has no `=` |
| `ParserValidations.SplitOnceEquals` | src/rust_projects/argparse/src/parser_validations.rs:41-49 | no split exactly when there is no `=`; otherwise the text is name + `=` + value and the name has no `=` (split at the first `=`) |
| `ParserValidations.NamedArgumentsFormat` | src/rust_projects/argparse/src/parser_validations.rs:29-62 | under 3 characters gives NamedArgFormatError before any other check; no `=` after the first two characters gives NamedArgFormatError; on success the input is its first two characters + name + `=` + value verbatim (no quote stripping), the name has no `=`, and every name character is alphanumeric; InvalidNamedArgName is returned exactly when the name has a non-alphanumeric character; no other error occurs |
| `ParserValidations.ValidateNamedArgumentsFormat` | src/rust_projects/argparse/src/parser_validations.rs:29-62 | the length check, the split and the early-exit loop over the name's characters compute exactly `NamedArgumentsFormat` |
| `ParserValidations.NamedArgumentsRoundTrip` | src/rust_projects/argparse/src/parser_validations.rs:41-61 | any two leading characters, any alphanumeric name (the empty one too), `=` and any value are accepted and split back into that name and that value |
| `ParserValidations.FlagFormat` | src/rust_projects/argparse/src/parser_validations.rs:65-95 | fewer than 2 characters or no leading `-` gives FlagFormatError; on success the characters are those after the dash |
| `ParserValidations.ValidateFlagFormat` | src/rust_projects/argparse/src/parser_validations.rs:65-95 | succeeds exactly when `FlagFormat` does and on failure returns the same error; on success the result has the same characters as those after the dash, each once, `|flag| - 1` in number, in unspecified order |
| `ParserValidations.SetToSeq` | src/rust_projects/argparse/src/parser_validations.rs:92 | collecting the seen set gives every element exactly once |
| `ParserValidations.FlagFaultNone` | src/rust_projects/argparse/src/parser_validations.rs:79-90 | the scan finds no fault exactly when all characters are alphanumeric, none repeats and none was seen already |
| `ParserValidations.FlagFaultFirst` | src/rust_projects/argparse/src/parser_validations.rs:80-90 | the first faulty position decides the error: InvalidFlag for a non-alphanumeric character, DuplicateFlag for a repeat |
| `ParserValidations.FlagFormatOk` | src/rust_projects/argparse/src/parser_validations.rs:65-95 | a cluster is accepted exactly when it has at least 2 characters, starts with `-`, and the rest are alphanumeric and pairwise distinct |
| `ParserValidations.FlagFormatFirstFault` | src/rust_projects/argparse/src/parser_validations.rs:80-90 | scanning after the dash from left to right, the first bad or repeated character gives InvalidFlag or DuplicateFlag respectively |
| `ParserValidations.DoubleDashIsInvalidFlag` | src/rust_projects/argparse/src/parser_validations.rs:81-83 | `--x` as a cluster is rejected with InvalidFlag |
| `ParserValidations.RepeatedFlagIsDuplicate` | src/rust_projects/argparse/src/parser_validations.rs:85-87 | `-xx` with an alphanumeric `x` is rejected with DuplicateFlag |
| `Lexing.Classify` | src/rust_projects/argparse/src/lib.rs:220-267 | every argument takes exactly one of four routes: `--` with `=`, `--` without `=`, `-` but not `--`, or no leading dash |
| `Lexing.LexArgRoute` | src/rust_projects/argparse/src/lib.rs:220-267 | a failure carries the error variant of the argument's own route; every token comes from that route; a cluster gives one token per character after the dash and any other argument gives one token |
| `Lexing.ProgramArguments` | src/rust_projects/argparse/src/lib.rs:215-216 | the first argument, the program name, is dropped and the rest keep their order |
| `Lexing.ShortFlagsAt` | src/rust_projects/argparse/src/lib.rs:248-251 | one ShortFlag token per flag character, in order |
| `Lexing.ShortFlagsPermutation` | src/rust_projects/argparse/src/lib.rs:248-251 | a permutation of the flag characters gives a permutation of the tokens |
| `Lexing.FirstFailureNone` | src/rust_projects/argparse/src/lib.rs:219-270 | the pass has no failure exactly when every argument is accepted by its validator |
| `Lexing.FirstFailureAt` | src/rust_projects/argparse/src/lib.rs:231-233 | when every argument before position k is accepted and the argument at k fails, the pass fails with that argument's error |
| `Lexing.FirstFailureAppend` | src/rust_projects/argparse/src/lib.rs:219-268 | with no failure so far, one more argument fails the pass exactly when it fails by itself |
| `Lexing.FirstFailureWitness` | src/rust_projects/argparse/src/lib.rs:231-266 | a failure of the pass is some argument's own error, with the variant of that argument's route |
| `Argparse.Parser.constructor` | src/rust_projects/argparse/src/lib.rs:89-101 | five empty declaration lists, the given description, an empty parsed-value map |
| `Argparse.Parser.AddFlag` | src/rust_projects/argparse/src/lib.rs:104-119 | exactly one flag declaration with the given fields is appended to `flags`; every other list is unchanged |
| `Argparse.Parser.AddNamedArgument` | src/rust_projects/argparse/src/lib.rs:121-150 | the declaration is appended to the required list when `required` and to the optional list otherwise; every other list is unchanged |
| `Argparse.Parser.AddPositionalArgument` | src/rust_projects/argparse/src/lib.rs:152-179 | the declaration is appended to the end of the required or the optional positional list, by `required`, keeping declaration order; every other list is unchanged |
| `Argparse.Parser.GetBoolArg` | src/rust_projects/argparse/src/lib.rs:181-186 | `Some(b)` exactly when the map holds `Boolean(b)` under the name; `None` for a missing name or another variant |
| `Argparse.Parser.GetIntegerArg` | src/rust_projects/argparse/src/lib.rs:188-193 | `Some(n)` exactly when the map holds `Integer(n)` under the name, otherwise `None` |
| `Argparse.Parser.GetFloatArg` | src/rust_projects/argparse/src/lib.rs:195-200 | `Some(f)` exactly when the map holds `Float(f)` under the name, otherwise `None` |
| `Argparse.Parser.GetStringArg` | src/rust_projects/argparse/src/lib.rs:202-207 | `Some(s)` exactly when the map holds `String(s)` under the name, otherwise `None` |
| `Argparse.StoredValueIsReturned` | src/rust_projects/argparse/src/lib.rs:181-207 | a stored value is returned by the getter of its own variant and by no other getter |
| `Argparse.MissingNameIsNone` | src/rust_projects/argparse/src/lib.rs:181-207 | a name with no parsed value gives `None` from every getter |
| `Argparse.Parser.DoParse` | src/rust_projects/argparse/src/lib.rs:210-271 | fails exactly when some argument after the program name fails, and then with the first failing argument's error; on success returns this parser, with nothing changed, and one token group per argument that is the route's tokens up to order |
| `Argparse.TokenizeArgument` | src/rust_projects/argparse/src/lib.rs:220-267 | one iteration of the pass: fails exactly when the argument's route fails, with that route's tagged error; otherwise gives the route's tokens up to order (a cluster's characters come in hash-set order) |
| `Argparse.Parser.ShowHelp` | src/rust_projects/argparse/src/lib.rs:277-358 | the text built is exactly `HelpText` of the description and the declarations |
| `Argparse.BuildUsage` | src/rust_projects/argparse/src/lib.rs:280-313 | the usage loops build exactly `UsageLine` |
| `Argparse.BuildBody` | src/rust_projects/argparse/src/lib.rs:315-358 | the section loops build exactly `HelpBody` |
| `Argparse.PushFlagGroup` | src/rust_projects/argparse/src/lib.rs:284-292 | the flag group loop appends exactly `FlagGroup` |
| `Argparse.PushFlagBlocks` | src/rust_projects/argparse/src/lib.rs:317-323 | the flag loop appends one block per flag, in declaration order, with the long line only for a flag that has one |
| `Argparse.FlagBlock` | src/rust_projects/argparse/src/lib.rs:318-322 | one flag's block: the short line, the long line only when the flag has a long spelling, then the description line |
| `Argparse.PushEach` | src/rust_projects/argparse/src/lib.rs:295-312 | a `push_str` loop appends one piece per item, in declaration order |
| `Argparse.AddOneFlag` | src/rust_projects/argparse/src/lib.rs:369-378 | one `add_flag` on a new parser leaves exactly one flag declaration |
| `HelpFormat.FlagGroupShape` | src/rust_projects/argparse/src/lib.rs:284-292 | the flag group is empty exactly when no flag is declared; otherwise it is `[-`, every short-flag character in declaration order, then `] ` |
| `HelpFormat.ShortFlagCharsInOrder` | src/rust_projects/argparse/src/lib.rs:287-289 | the characters in the flag group are the short flags, one each, in declaration order |
| `HelpFormat.JoinAt` | src/rust_projects/argparse/src/lib.rs:295-312 | each item's piece comes after the pieces of all items declared before it and before those of all items declared after it |
| `HelpFormat.UsageAfterRequiredNamed` | src/rust_projects/argparse/src/lib.rs:294-297 | a new required named argument adds its `--arg=VALUE ` piece right after the earlier required named ones; the rest of the usage line is unchanged |
| `HelpFormat.UsageAfterOptionalPositional` | src/rust_projects/argparse/src/lib.rs:309-312 | a new optional positional argument adds `[name] ` at the very end of the usage line |
| `HelpFormat.HelpLayout` | src/rust_projects/argparse/src/lib.rs:278-315 | the help text opens with the framed description and then the usage line, followed by the sections |
| `SimpleArgsUtils.AddDashesToLongFlag` | src/rust/simpleargs/src/utils.rs:1-5 | the result is `--` then the name, two characters longer, and dropping two characters gives the name back |
| `SimpleArgsUtils.AddDashToShortFlag` | src/rust/simpleargs/src/utils.rs:7-11 | the result has length 2, is `-` then the character, and dropping one character gives `[c]` back |
| `SimpleArgsUtils.LongFlagSpellingInjective` | src/rust/simpleargs/src/utils.rs:2-3 | different long names are spelled differently |
| `SimpleArgsUtils.ShortFlagSpellingInjective` | src/rust/simpleargs/src/utils.rs:8-9 | different short characters are spelled differently |
| `ArgValidators.IsFlag` | src/rust/simpleargs/src/arg_validators.rs:1-3 | true exactly when the argument is non-empty and starts with `-` |
| `ArgValidators.IsShortFlag` | src/rust/simpleargs/src/arg_validators.rs:5-7 | the same test as `IsFlag`: true exactly when the argument starts with `-` |
| `ArgValidators.IsLongFlag` | src/rust/simpleargs/src/arg_validators.rs:9-11 | true exactly when the argument has at least two characters and both are `-` |
| `ArgValidators.LongFlagIsFlag` | src/rust/simpleargs/src/arg_validators.rs:1-11 | a long flag is also a flag and a short flag (so `--x` passes both); `IsFlag` and `IsShortFlag` agree; the empty string passes none |
| `ArgValidators.SpellingsAreRecognised` | src/rust/simpleargs/src/arg_validators.rs:1-11 | a spelled long flag passes `IsLongFlag`; a spelled short flag passes `IsFlag` and `IsShortFlag`, and passes `IsLongFlag` only when its character is `-` |

## Left out

- Character counts: lengths are counted in characters, while Rust's `str::len` counts UTF-8 bytes. `NamedArgumentsFormat` therefore agrees with the source only for ASCII input. `ValidateFlagFormat` collects `chars()` first, so it agrees for all input.
- `IsAlnum` is ASCII letters and digits. Rust's `char::is_alphanumeric` also accepts Unicode letters and digits. Unicode tables are not modelled.
- `ValidateFlagFormat`: hash-set iteration order is not modelled. The result is stated as a multiset with no repeats, not as a sequence.
- `parse` reads `std::env::args()`. The process environment is left out; `DoParse` takes the arguments as a sequence.
- `show_help` ends with `print!`. Printing is left out; `ShowHelp` returns the text.
- `validate_long_flag_format` and `validate_positional_arguments_format` are in `lexer::validators`, which is not part of this model. They are parameters of `DoParse`, and any total function may fill them.
- `Display` implementations of both error types: their message texts are not modelled.
- `ArgValue::Float(f32)`: kept as an opaque 32-bit payload. No floating-point behaviour is modelled.
- The builder takes `self` by value and returns it for chaining. The model updates the parser in place. No caller can see another alias, so nothing observable is lost.
- `parsed_args` is never written by `lib.rs`. The getters are modelled on whatever map the parser holds. `DoParse` leaves it unchanged, just as the source does.
- `Argparse.Parser.DoParse`: the token vector is built and then dropped, as in the source. Its content is stated up to order within each argument's group, because a cluster's characters arrive in hash-set order.
- `Argparse.Parser.DoParse`: a broader design for this library has a tokenizer that splits `-fval` and `-f=val`, and a resolver that consumes values, coerces types, handles `--help`, fills defaults and checks required arguments. None of that is in `lib.rs`. The model follows `lib.rs`: a single classifying pass whose only outcome is the first validation error or success.
