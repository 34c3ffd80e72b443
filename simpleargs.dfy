/** simpleargs `utils`: spelling a flag name as a command-line flag. */
module SimpleArgsUtils {

  /** `--` followed by the long flag's name. */
  function AddDashesToLongFlag(longFlag: string): (flag: string)
    ensures |flag| == |longFlag| + 2
    ensures flag[..2] == "--" && flag[2..] == longFlag
  {
    var prefix := "--";
    prefix + longFlag
  }

  /** `-` followed by the short flag's character. */
  function AddDashToShortFlag(shortFlag: char): (flag: string)
    ensures |flag| == 2
    ensures flag[0] == '-' && flag[1..] == [shortFlag]
  {
    var prefix := "-";
    prefix + [shortFlag]
  }

  /** Different long names give different spellings. */
  lemma LongFlagSpellingInjective(a: string, b: string)
    requires AddDashesToLongFlag(a) == AddDashesToLongFlag(b)
    ensures a == b
  {
    assert a == AddDashesToLongFlag(a)[2..];
  }

  /** Different short characters give different spellings. */
  lemma ShortFlagSpellingInjective(a: char, b: char)
    requires AddDashToShortFlag(a) == AddDashToShortFlag(b)
    ensures a == b
  {
    assert [a] == AddDashToShortFlag(a)[1..];
  }
}

/** simpleargs `arg_validators`: prefix tests on a raw argument. */
module ArgValidators {
  import opened Seqs
  import opened SimpleArgsUtils

  /** The argument starts with a dash. */
  function IsFlag(arg: string): (r: bool)
    ensures r <==> |arg| >= 1 && arg[0] == '-'
  {
    StartsWith(arg, "-")
  }

  /** The same test as IsFlag: any leading dash, so `--x` counts as a short flag too. */
  function IsShortFlag(arg: string): (r: bool)
    ensures r <==> |arg| >= 1 && arg[0] == '-'
  {
    StartsWith(arg, "-")
  }

  /** The argument starts with two dashes. */
  function IsLongFlag(arg: string): (r: bool)
    ensures r <==> |arg| >= 2 && arg[0] == '-' && arg[1] == '-'
  {
    StartsWith(arg, "--")
  }

  /** Every long flag is a flag and a short flag (so `--x` passes both tests); the empty string
      is none of them. */
  lemma LongFlagIsFlag(arg: string)
    ensures IsLongFlag(arg) ==> IsFlag(arg) && IsShortFlag(arg)
    ensures IsFlag(arg) == IsShortFlag(arg)
    ensures IsShortFlag("--x") && IsLongFlag("--x")
    ensures !IsFlag("") && !IsShortFlag("") && !IsLongFlag("")
  {
  }

  /** The spellings built by the utils module pass the matching tests: a long spelling is a long
      flag, a short spelling is a short flag but never a long one unless its character is a dash. */
  lemma SpellingsAreRecognised(name: string, c: char)
    ensures IsLongFlag(AddDashesToLongFlag(name))
    ensures IsShortFlag(AddDashToShortFlag(c)) && IsFlag(AddDashToShortFlag(c))
    ensures IsLongFlag(AddDashToShortFlag(c)) <==> c == '-'
  {
    var long := AddDashesToLongFlag(name);
    assert long[0] == long[..2][0] && long[1] == long[..2][1];
    var short := AddDashToShortFlag(c);
    assert short[1] == short[1..][0];
  }
}
