/**
  The command line before argparse: finding the command behind the global options, the
  path specifications behind the `--` separator, and options that may not be repeated.
*/
module CommandLine {

  import opened Wrappers

  predicate IsBoolName(name: string) {
    name in {"--all", "--dry-run", "--partial", "--force", "--json", "--jsonl", "--verbose"}
  }

  predicate IsValueName(name: string) {
    name in {
      "--identity", "--remote-identity", "--root", "--target", "--member", "--no-target", "--no-member",
      "--member-path", "--no-member-path", "--sync", "--remote", "--jobs", "--max-per-host", "--progress-interval",
      "--ssh-timeout"
    }
  }

  predicate IsSingletonName(name: string) {
    name in {
      "--identity", "--root", "--all", "--dry-run", "--partial", "--force", "--sync", "--remote", "--jobs",
      "--max-per-host", "--progress-interval", "--json", "--jsonl", "--verbose", "--ssh-timeout"
    }
  }

  // ----- Tokens -----

  /** `token.partition("=")[0]`. */
  function OptionName(token: string): (name: string)
    ensures '=' !in name && name <= token
    ensures '=' !in token ==> name == token
  {
    if token == "" || token[0] == '=' then "" else [token[0]] + OptionName(token[1..])
  }

  predicate EndsScan(token: string) {
    token == "--" || token == "-V" || token == "--version"
  }

  predicate IsValueOption(token: string) {
    "--" <= token && IsValueName(OptionName(token))
  }

  predicate IsBoolOption(token: string) {
    "--" <= token && IsBoolName(OptionName(token)) && !IsValueOption(token)
  }

  /** How many tokens a global option takes. */
  function Width(token: string): (width: nat)
    ensures width >= 1
  {
    if IsValueOption(token) && '=' !in token then 2 else 1
  }

  predicate IsGlobalOption(token: string) {
    !EndsScan(token) && (IsValueOption(token) || IsBoolOption(token))
  }

  /** A token the scan stops at and takes for the command. */
  predicate IsCommand(token: string) {
    !EndsScan(token) && !IsGlobalOption(token)
  }

  // ----- The command -----

  function CommandIndex(raw: seq<string>, index: nat): Option<nat>
    decreases |raw| - index
  {
    if index >= |raw| || EndsScan(raw[index]) then None
    else if IsGlobalOption(raw[index]) then CommandIndex(raw, index + Width(raw[index]))
    else Some(index)
  }

  /** The source's scan. */
  method TopLevelCommandIndex(raw: seq<string>) returns (r: Option<nat>)
    ensures r == CommandIndex(raw, 0)
  {
    hide IsValueName, IsBoolName, OptionName;
    var index := 0;
    while index < |raw|
      invariant CommandIndex(raw, 0) == CommandIndex(raw, index)
      decreases |raw| - index
    {
      var token := raw[index];
      if token == "--" {
        return None;
      }
      if token == "-V" || token == "--version" {
        return None;
      }
      if "--" <= token {
        var option := OptionName(token);
        var hasInlineValue := '=' in token;
        if IsValueName(option) {
          index := index + if hasInlineValue then 1 else 2;
          continue;
        }
        if IsBoolName(option) {
          index := index + 1;
          continue;
        }
      }
      return Some(index);
    }
    return None;
  }

  /** `raw.index(token, start)`, or the length when the token is absent. */
  function IndexFrom(raw: seq<string>, token: string, start: nat): (k: nat)
    requires start <= |raw|
    ensures start <= k <= |raw|
    ensures k < |raw| ==> raw[k] == token
    ensures forall i :: start <= i < k ==> raw[i] != token
    decreases |raw| - start
  {
    if start == |raw| || raw[start] == token then start else IndexFrom(raw, token, start + 1)
  }

  function Pathspecs(raw: seq<string>, command: string): seq<string> {
    match CommandIndex(raw, 0)
    case None => []
    case Some(index) =>
      if index >= |raw| || raw[index] != command then []
      else
        var separator := IndexFrom(raw, "--", index + 1);
        if separator == |raw| then [] else raw[separator + 1..]
  }

  lemma {:induction false} IndexInRange(raw: seq<string>, index: nat)
    ensures CommandIndex(raw, index).Some? ==>
              var k := CommandIndex(raw, index).value; index <= k < |raw| && IsCommand(raw[k])
    decreases |raw| - index
  {
    hide IsValueOption, IsBoolOption, EndsScan, Width;
    if index < |raw| && IsGlobalOption(raw[index]) {
      IndexInRange(raw, index + Width(raw[index]));
    }
  }

  // ----- Rendered options -----

  /** A global option as a user may write it. */
  datatype GlobalOption =
    | Flag(name: string)
    | Inline(name: string, value: string)
    | Separate(name: string, value: string)

  predicate WellFormed(option: GlobalOption) {
    match option
    case Flag(name) => IsBoolName(name)
    case Inline(name, _) => IsValueName(name) || IsBoolName(name)
    case Separate(name, _) => IsValueName(name)
  }

  function Render(option: GlobalOption): seq<string> {
    match option
    case Flag(name) => [name]
    case Inline(name, value) => [name + "=" + value]
    case Separate(name, value) => [name, value]
  }

  function RenderAll(options: seq<GlobalOption>): seq<string> {
    if |options| == 0 then [] else Render(options[0]) + RenderAll(options[1..])
  }

  lemma NamesArePlain(name: string)
    requires IsValueName(name) || IsBoolName(name)
    ensures '=' !in name && "--" <= name && !EndsScan(name) && |name| > 2
    ensures !(IsValueName(name) && IsBoolName(name))
  {
  }

  lemma {:induction false} NameBeforeEquals(name: string, value: string)
    requires '=' !in name
    ensures OptionName(name + "=" + value) == name
  {
    if name != "" {
      assert (name + "=" + value)[1..] == name[1..] + "=" + value;
      NameBeforeEquals(name[1..], value);
    }
  }

  lemma {:induction false} EqualsAfterName(token: string)
    requires '=' in token
    ensures |OptionName(token)| < |token| && token == OptionName(token) + "=" + token[|OptionName(token)| + 1..]
  {
    if token[0] != '=' {
      EqualsAfterName(token[1..]);
    }
  }

  lemma EqualsEndsNoScan(token: string)
    requires '=' in token
    ensures !EndsScan(token)
  {
  }

  lemma InlineIsOneOption(name: string, value: string)
    requires IsValueName(name) || IsBoolName(name)
    ensures IsGlobalOption(name + "=" + value) && Width(name + "=" + value) == 1
  {
    hide IsValueName, IsBoolName, EndsScan, OptionName;
    NamesArePlain(name);
    NameBeforeEquals(name, value);
    var token := name + "=" + value;
    assert token[|name|] == '=';
    EqualsEndsNoScan(token);
    assert token[..2] == name[..2];
  }

  /** A rendered option is one global option, as wide as it was rendered. */
  lemma RenderedIsOneOption(option: GlobalOption)
    requires WellFormed(option)
    ensures IsGlobalOption(Render(option)[0]) && Width(Render(option)[0]) == |Render(option)|
  {
    hide IsValueName, IsBoolName, EndsScan, OptionName;
    NamesArePlain(option.name);
    if option.Inline? {
      InlineIsOneOption(option.name, option.value);
    }
  }

  /** A global option token, with the value that follows it, is some rendered option. */
  lemma OneOptionIsRendered(raw: seq<string>, index: nat) returns (option: GlobalOption)
    requires index < |raw| && IsGlobalOption(raw[index]) && index + Width(raw[index]) <= |raw|
    ensures WellFormed(option) && Render(option) == raw[index..index + Width(raw[index])]
  {
    hide IsValueName, IsBoolName, EndsScan;
    var token := raw[index];
    if '=' in token {
      EqualsAfterName(token);
      option := Inline(OptionName(token), token[|OptionName(token)| + 1..]);
    } else if IsValueOption(token) {
      option := Separate(token, raw[index + 1]);
    } else {
      option := Flag(token);
    }
  }

  predicate AllWellFormed(options: seq<GlobalOption>) {
    forall option <- options :: WellFormed(option)
  }

  lemma {:induction false} OptionsAreSkipped(raw: seq<string>, index: nat, options: seq<GlobalOption>)
    requires AllWellFormed(options)
    requires index + |RenderAll(options)| <= |raw| && raw[index..index + |RenderAll(options)|] == RenderAll(options)
    ensures CommandIndex(raw, index) == CommandIndex(raw, index + |RenderAll(options)|)
    decreases |options|
  {
    hide IsGlobalOption, Width, WellFormed, Render, EndsScan;
    if |options| > 0 {
      var first, rest := Render(options[0]), RenderAll(options[1..]);
      RenderedIsOneOption(options[0]);
      assert options[0] in options;
      var slice := raw[index..index + |RenderAll(options)|];
      assert slice == first + rest;
      assert raw[index] == slice[0] == first[0];
      assert raw[index + |first|..index + |first| + |rest|] == slice[|first|..] == rest;
      OptionIsNoEnd(raw[index]);
      OptionsAreSkipped(raw, index + |first|, options[1..]);
    }
  }

  lemma OptionIsNoEnd(token: string)
    requires IsGlobalOption(token)
    ensures !EndsScan(token)
  {
  }

  /** Whatever options with whatever values come first, the scan lands exactly on the command behind them. */
  lemma ScanLandsOnCommand(options: seq<GlobalOption>, command: string, rest: seq<string>)
    requires AllWellFormed(options) && IsCommand(command)
    ensures CommandIndex(RenderAll(options) + [command] + rest, 0) == Some(|RenderAll(options)|)
  {
    hide IsGlobalOption, EndsScan, AllWellFormed, RenderAll;
    var raw := RenderAll(options) + [command] + rest;
    assert raw[0..|RenderAll(options)|] == RenderAll(options);
    OptionsAreSkipped(raw, 0, options);
    assert raw[|RenderAll(options)|] == command;
  }

  lemma {:induction false} ScannedAreOptions(raw: seq<string>, index: nat) returns (options: seq<GlobalOption>)
    requires CommandIndex(raw, index).Some?
    ensures AllWellFormed(options)
    ensures index <= CommandIndex(raw, index).value < |raw|
    ensures RenderAll(options) == raw[index..CommandIndex(raw, index).value]
    decreases |raw| - index
  {
    hide IsGlobalOption, Width, WellFormed, Render, EndsScan;
    IndexInRange(raw, index);
    if IsGlobalOption(raw[index]) {
      var next := index + Width(raw[index]);
      IndexInRange(raw, next);
      var option := OneOptionIsRendered(raw, index);
      var others := ScannedAreOptions(raw, next);
      options := [option] + others;
      assert options[1..] == others;
    } else {
      options := [];
    }
  }

  ghost predicate CommandAt(raw: seq<string>, k: nat) {
    && k < |raw| && IsCommand(raw[k])
    && exists options: seq<GlobalOption> :: AllWellFormed(options) && RenderAll(options) == raw[..k]
  }

  /** The scan finds a command just where one stands behind nothing but global options. */
  lemma ScanFindsTheCommand(raw: seq<string>, k: nat)
    ensures CommandIndex(raw, 0) == Some(k) <==> CommandAt(raw, k)
  {
    hide IsCommand, AllWellFormed, RenderAll;
    if CommandIndex(raw, 0) == Some(k) {
      IndexInRange(raw, 0);
      var options := ScannedAreOptions(raw, 0);
      assert raw[0..k] == raw[..k];
    } else if CommandAt(raw, k) {
      var options: seq<GlobalOption> :| AllWellFormed(options) && RenderAll(options) == raw[..k];
      assert raw == raw[..k] + [raw[k]] + raw[k + 1..];
      ScanLandsOnCommand(options, raw[k], raw[k + 1..]);
    }
  }

  /** A token is taken for the command unless it ends the scan or starts some way of writing a global option. */
  lemma CommandsAreTheOtherTokens(token: string)
    ensures IsCommand(token) <==>
            && token !in {"--", "-V", "--version"}
            && forall option :: WellFormed(option) ==> Render(option)[0] != token
  {
    hide IsValueName, IsBoolName;
    if IsGlobalOption(token) {
      var raw := [token, ""];
      var option := OneOptionIsRendered(raw, 0);
      assert Render(option)[0] == token;
    }
    if option :| WellFormed(option) && Render(option)[0] == token {
      RenderedIsOneOption(option);
    }
  }

  /** A separator or a request for the version behind the global options ends the scan with no command. */
  lemma ScanEndsWithoutCommand(options: seq<GlobalOption>, end: string, rest: seq<string>)
    requires AllWellFormed(options) && end in {"--", "-V", "--version"}
    ensures CommandIndex(RenderAll(options) + [end] + rest, 0).None?
    ensures CommandIndex(RenderAll(options), 0).None?
  {
    hide IsGlobalOption, AllWellFormed, RenderAll;
    var raw := RenderAll(options) + [end] + rest;
    assert raw[0..|RenderAll(options)|] == RenderAll(options);
    OptionsAreSkipped(raw, 0, options);
    assert raw[|RenderAll(options)|] == end;
    assert RenderAll(options)[0..|RenderAll(options)|] == RenderAll(options);
    OptionsAreSkipped(RenderAll(options), 0, options);
  }

  // ----- Path specifications -----

  /** The path specifications are exactly what follows the first `--` after the command. */
  lemma PathspecsFollowTheSeparator(options: seq<GlobalOption>, command: string, before: seq<string>,
                                    after: seq<string>)
    requires AllWellFormed(options) && IsCommand(command) && "--" !in before
    ensures Pathspecs(RenderAll(options) + [command] + before + ["--"] + after, command) == after
    ensures Pathspecs(RenderAll(options) + [command] + before, command) == []
  {
    hide AllWellFormed, RenderAll, IsCommand, CommandIndex;
    var k := |RenderAll(options)|;
    var raw := RenderAll(options) + [command] + before + ["--"] + after;
    assert raw == RenderAll(options) + [command] + (before + ["--"] + after);
    ScanLandsOnCommand(options, command, before + ["--"] + after);
    ScanLandsOnCommand(options, command, before);
    assert raw[k] == command && (RenderAll(options) + [command] + before)[k] == command;
    assert forall i :: k + 1 <= i < k + 1 + |before| ==> raw[i] == before[i - k - 1];
    assert raw[k + 1 + |before|] == "--";
    assert raw[k + 2 + |before|..] == after;
  }

  /** Under any other command there are none. */
  lemma OnlyTheCommandsOwnPathspecs(raw: seq<string>, k: nat, command: string)
    requires CommandAt(raw, k) && raw[k] != command
    ensures Pathspecs(raw, command) == []
  {
    hide IsCommand, RenderAll, AllWellFormed;
    ScanFindsTheCommand(raw, k);
  }

  predicate TakesPathspecs(command: Option<string>) {
    command == Some("diff") || command == Some("log")
  }

  /** The parsed arguments that the normalization changes. */
  class Arguments {
    var command: Option<string>
    var operands: seq<string>
    var pathspecs: seq<string>

    constructor (command: Option<string>, operands: seq<string>)
      ensures this.command == command && this.operands == operands && pathspecs == []
    {
      this.command, this.operands, pathspecs := command, operands, [];
    }

    /** Path specifications are moved out of the operands, where argparse has put them last. */
    method NormalizePathspecs(raw: seq<string>)
      modifies this`operands, this`pathspecs
      ensures !TakesPathspecs(command) ==> operands == old(operands) && pathspecs == old(pathspecs)
      ensures TakesPathspecs(command) ==>
                && pathspecs == Pathspecs(raw, command.value)
                && operands == WithoutSuffix(old(operands), pathspecs)
    {
      hide Pathspecs;
      if command != Some("diff") && command != Some("log") {
        return;
      }
      pathspecs := Pathspecs(raw, command.value);
      if pathspecs == [] {
        return;
      }
      if |pathspecs| <= |operands| && operands[|operands| - |pathspecs|..] == pathspecs {
        operands := operands[..|operands| - |pathspecs|];
      }
    }
  }

  function WithoutSuffix(operands: seq<string>, suffix: seq<string>): seq<string> {
    if |suffix| <= |operands| && operands[|operands| - |suffix|..] == suffix then operands[..|operands| - |suffix|]
    else operands
  }

  /** What argparse appended comes off again, and nothing else does. */
  lemma SuffixComesOff(operands: seq<string>, suffix: seq<string>)
    ensures WithoutSuffix(operands + suffix, suffix) == operands
    ensures WithoutSuffix(operands, suffix) == operands || WithoutSuffix(operands, suffix) + suffix == operands
  {
    assert (operands + suffix)[|operands|..] == suffix && (operands + suffix)[..|operands|] == operands;
  }

  // ----- Options that may be given once -----

  /** The tokens in which a `log` command's options are looked for. */
  function ScannedTokens(raw: seq<string>): seq<string> {
    match CommandIndex(raw, 0)
    case None => []
    case Some(index) =>
      if index >= |raw| || raw[index] != "log" then [] else raw[..IndexFrom(raw, "--", index + 1)]
  }

  predicate Repeats(tokens: seq<string>, i: nat, j: nat) {
    i < j < |tokens| && OptionName(tokens[i]) == OptionName(tokens[j]) && IsSingletonName(OptionName(tokens[j]))
  }

  /** The second of the two tokens is the first that repeats an option. */
  ghost predicate FirstRepeat(tokens: seq<string>, i: nat, j: nat) {
    Repeats(tokens, i, j) && forall k: nat, l: nat :: Repeats(tokens, k, l) ==> j <= l
  }

  /** The source's loop over the tokens with a set of the options seen; the result is the option it rejects. */
  method FirstRepeatedOption(tokens: seq<string>) returns (r: Option<string>)
    ensures r.None? <==> forall i: nat, j: nat :: !Repeats(tokens, i, j)
    ensures r.Some? ==> exists i: nat, j: nat :: FirstRepeat(tokens, i, j) && r == Some(OptionName(tokens[j]))
  {
    hide IsSingletonName, OptionName;
    var seen: set<string> := {};
    for j := 0 to |tokens|
      invariant forall name :: name in seen <==>
                  IsSingletonName(name) && exists i :: 0 <= i < j && OptionName(tokens[i]) == name
      invariant forall k: nat, l: nat :: Repeats(tokens, k, l) ==> j <= l
    {
      var option := OptionName(tokens[j]);
      if IsSingletonName(option) {
        if option in seen {
          var i :| 0 <= i < j && OptionName(tokens[i]) == option;
          assert FirstRepeat(tokens, i, j);
          return Some(option);
        }
        seen := seen + {option};
      }
    }
    return None;
  }

  /** Two ways of writing one option that may be given once repeat it, whatever their values. */
  lemma AnySpellingRepeats(tokens: seq<string>, i: nat, j: nat, first: GlobalOption, second: GlobalOption)
    requires i < j < |tokens| && WellFormed(first) && WellFormed(second)
    requires tokens[i] == Render(first)[0] && tokens[j] == Render(second)[0]
    ensures Repeats(tokens, i, j) <==> first.name == second.name && IsSingletonName(first.name)
  {
    hide IsSingletonName, IsValueName, IsBoolName;
    NameIsRead(first);
    NameIsRead(second);
  }

  lemma NameIsRead(option: GlobalOption)
    requires WellFormed(option)
    ensures OptionName(Render(option)[0]) == option.name
  {
    hide IsValueName, IsBoolName;
    NamesArePlain(option.name);
    if option.Inline? {
      NameBeforeEquals(option.name, option.value);
    }
  }

  /** A `log` command's options are looked for before its separator, among the global ones too, and no other's are. */
  lemma OptionsAreLookedForBeforeTheSeparator(options: seq<GlobalOption>, command: string, before: seq<string>,
                                              after: seq<string>)
    requires AllWellFormed(options) && IsCommand(command) && "--" !in before
    ensures
      var upTo := RenderAll(options) + [command] + before;
      && ScannedTokens(upTo + ["--"] + after) == (if command == "log" then upTo else [])
      && ScannedTokens(upTo) == (if command == "log" then upTo else [])
  {
    hide AllWellFormed, RenderAll, IsCommand, CommandIndex;
    var k := |RenderAll(options)|;
    var upTo := RenderAll(options) + [command] + before;
    var raw := upTo + ["--"] + after;
    assert raw == RenderAll(options) + [command] + (before + ["--"] + after);
    ScanLandsOnCommand(options, command, before + ["--"] + after);
    ScanLandsOnCommand(options, command, before);
    assert raw[k] == command && upTo[k] == command;
    assert forall i :: k + 1 <= i < |upTo| ==> raw[i] == before[i - k - 1] && upTo[i] == before[i - k - 1];
    assert raw[|upTo|] == "--";
    assert raw[..|upTo|] == upTo;
  }

  lemma NothingRepeats()
    ensures forall i: nat, j: nat :: !Repeats([], i, j)
  {
  }

  /** A `log` command is rejected just when an option that may be given once is repeated before its separator. */
  method RejectRepeatedSingletons(raw: seq<string>) returns (r: Option<string>)
    ensures r.None? <==> forall i: nat, j: nat :: !Repeats(ScannedTokens(raw), i, j)
    ensures r.Some? ==>
              exists i: nat, j: nat :: FirstRepeat(ScannedTokens(raw), i, j) &&
                r == Some(OptionName(ScannedTokens(raw)[j]))
  {
    hide Repeats, CommandIndex;
    var index := TopLevelCommandIndex(raw);
    if index.None? || index.value >= |raw| || raw[index.value] != "log" {
      assert ScannedTokens(raw) == [];
      NothingRepeats();
      return None;
    }
    var end := IndexFrom(raw, "--", index.value + 1);
    assert ScannedTokens(raw) == raw[..end];
    r := FirstRepeatedOption(raw[..end]);
  }
}
