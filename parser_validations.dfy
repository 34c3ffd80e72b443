/** The two stand-alone token-format checkers of the argparse crate:
    `--name=value` named arguments and `-abc` short-flag clusters. */
module ParserValidations {
  import opened Wrappers
  import opened Seqs

  datatype ParserValidationError =
    | FlagFormatError
    | InvalidFlag
    | DuplicateFlag
    | NamedArgFormatError
    | InvalidNamedArgName

  /** The character class accepted inside names and flag clusters (ASCII letters and digits). */
  predicate IsAlnum(c: char)
  {
    ('a' <= c <= 'z') || ('A' <= c <= 'Z') || ('0' <= c <= '9')
  }

  predicate AllAlnum(s: string)
  {
    forall i :: 0 <= i < |s| ==> IsAlnum(s[i])
  }

  // ---------------------------------------------------------------------------
  // Named arguments: `--name=value`
  // ---------------------------------------------------------------------------

  /** Position of the first `=` in `s`, if there is one. */
  function FirstEquals(s: string): (r: Option<nat>)
    ensures r.Some? ==> r.value < |s| && s[r.value] == '=' && '=' !in s[..r.value]
    ensures r.None? <==> '=' !in s
  {
    if s == [] then None
    else if s[0] == '=' then Some(0)
    else match FirstEquals(s[1..])
      case None => None
      case Some(k) =>
        assert s[..k + 1] == [s[0]] + s[1..][..k];
        Some(k + 1)
  }

  /** `str::split_once("=")`: the text before the first `=` and the text after it. */
  function SplitOnceEquals(s: string): (r: Option<(string, string)>)
    ensures r.None? <==> '=' !in s
    ensures r.Some? ==> s == r.value.0 + "=" + r.value.1 && '=' !in r.value.0
  {
    match FirstEquals(s)
    case None => None
    case Some(k) =>
      assert s == s[..k] + "=" + s[k + 1..];
      Some((s[..k], s[k + 1..]))
  }

  /** What `validate_named_arguments_format` returns for `namedArg`. */
  function NamedArgumentsFormat(namedArg: string): (r: Result<(string, string), ParserValidationError>)
    // too short for two leading characters and a name: rejected before any other check
    ensures |namedArg| < 3 ==> r == Err(NamedArgFormatError)
    // no `=` after the first two characters
    ensures |namedArg| >= 3 && '=' !in namedArg[2..] ==> r == Err(NamedArgFormatError)
    // on success the input is the two leading characters, the name, `=` and the value, verbatim
    ensures r.Ok? ==> namedArg == namedArg[..2] + r.value.0 + "=" + r.value.1
    ensures r.Ok? ==> '=' !in r.value.0 && AllAlnum(r.value.0)
    // a name with a character outside the class is the only cause of InvalidNamedArgName
    ensures r == Err(InvalidNamedArgName) <==>
      |namedArg| >= 3 && '=' in namedArg[2..] && !AllAlnum(SplitOnceEquals(namedArg[2..]).value.0)
    ensures r.Err? ==> r.error == NamedArgFormatError || r.error == InvalidNamedArgName
  {
    if |namedArg| < 3 then Err(NamedArgFormatError)
    else match SplitOnceEquals(namedArg[2..])
      case None => Err(NamedArgFormatError)
      case Some((name, value)) =>
        if AllAlnum(name) then Ok((name, value)) else Err(InvalidNamedArgName)
  }

  /** Validate a named argument: length, the split at the first `=`, then the name's characters. */
  method ValidateNamedArgumentsFormat(namedArg: string) returns (r: Result<(string, string), ParserValidationError>)
    ensures r == NamedArgumentsFormat(namedArg)
  {
    if |namedArg| < 3 {
      return Err(NamedArgFormatError);
    }
    var argName: string, argValue: string;
    match SplitOnceEquals(namedArg[2..]) {
      case Some(kv) =>
        argName, argValue := kv.0, kv.1;
      case None =>
        return Err(NamedArgFormatError);
    }
    var i := 0;
    while i < |argName|
      invariant 0 <= i <= |argName|
      invariant forall j :: 0 <= j < i ==> IsAlnum(argName[j])
    {
      if !IsAlnum(argName[i]) {
        return Err(InvalidNamedArgName);
      }
      i := i + 1;
    }
    // the value is returned as written: no quote stripping
    return Ok((argName, argValue));
  }

  /** Any two leading characters, a name from the class, `=`, and an arbitrary value are accepted
      and split back into exactly that name and value. */
  lemma {:induction false} NamedArgumentsRoundTrip(lead: string, name: string, value: string)
    requires |lead| == 2
    requires AllAlnum(name)
    ensures NamedArgumentsFormat(lead + name + "=" + value) == Ok((name, value))
  {
    var s := lead + name + "=" + value;
    var tail := name + "=" + value;
    assert s[2..] == tail;
    assert '=' !in name by {
      assert !IsAlnum('=');
    }
    FirstEqualsAfter(name, value);
    assert tail[..|name|] == name;
    assert tail[|name| + 1..] == value;
  }

  lemma {:induction false} FirstEqualsAfter(name: string, value: string)
    requires '=' !in name
    ensures FirstEquals(name + "=" + value) == Some(|name|)
  {
    if name != [] {
      assert (name + "=" + value)[1..] == name[1..] + "=" + value;
      FirstEqualsAfter(name[1..], value);
    }
  }

  // ---------------------------------------------------------------------------
  // Short-flag clusters: `-abc`
  // ---------------------------------------------------------------------------

  /** The first fault met when scanning `cs` left to right, having already seen `seen`:
      a character outside the class, or one met before. */
  function FlagFault(cs: seq<char>, seen: set<char>): Option<ParserValidationError>
  {
    if cs == [] then None
    else if !IsAlnum(cs[0]) then Some(InvalidFlag)
    else if cs[0] in seen then Some(DuplicateFlag)
    else FlagFault(cs[1..], seen + {cs[0]})
  }

  /** What `validate_flag_format` decides for `flag`; on success the flag characters in the order
      they were written (the source returns them in hash-set order, see ValidateFlagFormat). */
  function FlagFormat(flag: string): (r: Result<seq<char>, ParserValidationError>)
    ensures |flag| < 2 || flag[0] != '-' ==> r == Err(FlagFormatError)
    ensures r.Ok? ==> |flag| >= 2 && r.value == flag[1..]
  {
    if |flag| < 2 || flag[0] != '-' then Err(FlagFormatError)
    else match FlagFault(flag[1..], {})
      case Some(e) => Err(e)
      case None => Ok(flag[1..])
  }

  /** Validate a short-flag cluster and return its distinct flag characters. */
  method ValidateFlagFormat(flag: string) returns (r: Result<seq<char>, ParserValidationError>)
    ensures r.Ok? <==> FlagFormat(flag).Ok?
    ensures r.Err? ==> r == FlagFormat(flag)
    // the same characters as written after the dash, in an unspecified order
    ensures r.Ok? ==> multiset(r.value) == multiset(FlagFormat(flag).value)
    ensures r.Ok? ==> Distinct(r.value)
    // one character per position after the dash
    ensures r.Ok? ==> |r.value| == |flag| - 1
  {
    if |flag| < 2 {
      return Err(FlagFormatError);
    }
    if flag[0] != '-' {
      return Err(FlagFormatError);
    }
    var flagChars := flag[1..];
    var seen: set<char> := {};
    var i := 0;
    while i < |flagChars|
      invariant 0 <= i <= |flagChars|
      invariant FlagFault(flagChars[i..], seen) == FlagFault(flagChars, {})
      invariant multiset(seen) == multiset(flagChars[..i])
    {
      var c := flagChars[i];
      assert flagChars[i..][1..] == flagChars[i + 1..];
      if !IsAlnum(c) {
        return Err(InvalidFlag);
      }
      if c in seen {
        return Err(DuplicateFlag);
      }
      assert flagChars[..i + 1] == flagChars[..i] + [c];
      seen := seen + {c};
      i := i + 1;
    }
    assert flagChars[..i] == flagChars;
    var flags := SetToSeq(seen);
    return Ok(flags);
  }

  /** Collecting a hash set into a vector: every element once, in an order the model leaves open. */
  method SetToSeq(s: set<char>) returns (xs: seq<char>)
    ensures multiset(xs) == multiset(s)
    ensures Distinct(xs)
  {
    xs := [];
    var rest := s;
    while rest != {}
      invariant rest <= s
      invariant multiset(xs) + multiset(rest) == multiset(s)
      invariant Distinct(xs)
      invariant forall i :: 0 <= i < |xs| ==> xs[i] !in rest
      decreases |rest|
    {
      var x :| x in rest;
      xs := xs + [x];
      rest := rest - {x};
    }
  }

  /** The scan finds no fault exactly when every character is in the class, none repeats and
      none was seen before. */
  lemma {:induction false} FlagFaultNone(cs: seq<char>, seen: set<char>)
    ensures FlagFault(cs, seen).None? <==>
      AllAlnum(cs) && Distinct(cs) && forall i :: 0 <= i < |cs| ==> cs[i] !in seen
  {
    if cs != [] {
      FlagFaultNone(cs[1..], seen + {cs[0]});
      if AllAlnum(cs) && Distinct(cs) && forall i :: 0 <= i < |cs| ==> cs[i] !in seen {
        assert AllAlnum(cs[1..]) by {
          forall i | 0 <= i < |cs[1..]| ensures IsAlnum(cs[1..][i]) { assert cs[1..][i] == cs[i + 1]; }
        }
        assert Distinct(cs[1..]) by {
          forall i, j | 0 <= i < j < |cs[1..]| ensures cs[1..][i] != cs[1..][j] {
            assert cs[1..][i] == cs[i + 1] && cs[1..][j] == cs[j + 1];
          }
        }
        forall i | 0 <= i < |cs[1..]| ensures cs[1..][i] !in seen + {cs[0]} {
          assert cs[1..][i] == cs[i + 1];
        }
      }
    }
  }

  /** The first faulty position decides the error: InvalidFlag when its character is outside the
      class, DuplicateFlag when it was met before; everything before it is fine. */
  lemma {:induction false} FlagFaultFirst(cs: seq<char>, seen: set<char>, k: nat)
    requires k < |cs|
    requires forall j :: 0 <= j < k ==> IsAlnum(cs[j]) && cs[j] !in seen && cs[j] !in cs[..j]
    requires !IsAlnum(cs[k]) || cs[k] in seen || cs[k] in cs[..k]
    ensures FlagFault(cs, seen) == Some(if IsAlnum(cs[k]) then DuplicateFlag else InvalidFlag)
  {
    if k > 0 {
      var rest := cs[1..];
      var seen' := seen + {cs[0]};
      forall j | 0 <= j < k - 1
        ensures IsAlnum(rest[j]) && rest[j] !in seen' && rest[j] !in rest[..j]
      {
        assert rest[j] == cs[j + 1];
        assert cs[..j + 1] == [cs[0]] + rest[..j];
      }
      assert cs[..k] == [cs[0]] + rest[..k - 1];
      assert rest[k - 1] == cs[k];
      FlagFaultFirst(rest, seen', k - 1);
    }
  }

  /** The full acceptance condition of `validate_flag_format`. */
  lemma FlagFormatOk(flag: string)
    ensures FlagFormat(flag).Ok? <==>
      |flag| >= 2 && flag[0] == '-' && AllAlnum(flag[1..]) && Distinct(flag[1..])
  {
    if |flag| >= 2 {
      FlagFaultNone(flag[1..], {});
    }
  }

  /** Scanning `flag[1..]`, the first character outside the class or met before decides the error. */
  lemma FlagFormatFirstFault(flag: string, k: nat)
    requires |flag| >= 2 && flag[0] == '-'
    requires k < |flag| - 1
    requires forall j :: 1 <= j <= k ==> IsAlnum(flag[j]) && flag[j] !in flag[1..j]
    requires !IsAlnum(flag[k + 1]) || flag[k + 1] in flag[1..k + 1]
    ensures FlagFormat(flag) == Err(if IsAlnum(flag[k + 1]) then DuplicateFlag else InvalidFlag)
  {
    var cs := flag[1..];
    forall j | 0 <= j < k ensures IsAlnum(cs[j]) && cs[j] !in {} && cs[j] !in cs[..j] {
      assert cs[j] == flag[j + 1];
      assert cs[..j] == flag[1..j + 1];
    }
    assert cs[..k] == flag[1..k + 1];
    FlagFaultFirst(cs, {}, k);
  }

  /** A second dash is a character outside the class, so `--x` is an invalid flag cluster. */
  lemma DoubleDashIsInvalidFlag(x: char)
    ensures FlagFormat(['-', '-', x]) == Err(InvalidFlag)
  {
  }

  /** A repeated letter makes the cluster a duplicate. */
  lemma RepeatedFlagIsDuplicate(x: char)
    requires IsAlnum(x)
    ensures FlagFormat(['-', x, x]) == Err(DuplicateFlag)
  {
    var flag := ['-', x, x];
    assert flag[1..2] == [x];
    FlagFormatFirstFault(flag, 1);
  }
}
