/** `validateFlags`: the checks run on the parsed command line before a
    conversion, in three groups, each reported as one error. */
module Validation {
  import opened Wrappers
  import opened JsString
  import opened JsValue

  const Prefix: string := "svg-term: "
  const InstallText: string := "asciinema must be installed when --command is specified."
  const InstallHint: string := " See instructions at: https://asciinema.org/docs/installation"
  /** The two lines of the installation error, joined by a newline. */
  const InstallMessage: string := Prefix + (InstallText + "\n" + InstallHint)
  const NumberInfix: string := " expected to be number, received \""
  const StringInfix: string := " expected to be string, received \""
  const AtPrefix: string := "--at flag disallows --"

  const NumericNames: seq<string> := ["height", "width"]
  const StringNames: seq<string> := ["cast", "out", "profile"]
  const TimelineNames: seq<string> := ["at", "from", "to"]

  /** The parsed command line: its flags (a name is present exactly when it
      is a key) and its help text. */
  datatype Cli = Cli(flags: map<string, Value>, help: string)

  /** An `SvgTermError`: its message and what its `help()` returns. */
  datatype SvgTermError = SvgTermError(message: string, help: string)

  /** `flags[name]`: `undefined` when the flag is absent. */
  function Flag(flags: map<string, Value>, name: string): Value {
    if name in flags then flags[name] else Undefined
  }

  /** `cliError(cli)(message)`: an error whose `help()` gives the command
      line's help text. */
  function CliError(cli: Cli, message: string): (e: SvgTermError)
    ensures e.message == message && e.help == cli.help
  {
    SvgTermError(message, cli.help)
  }

  /** `ensure`: the messages of the checks that fail, in the order of `names`. */
  function Ensure(names: seq<string>, check: string -> Option<string>): (r: seq<string>)
    ensures |r| <= |names|
    ensures r == [] <==> forall i :: 0 <= i < |names| ==> check(names[i]).None?
    ensures forall m :: m in r ==> exists i :: 0 <= i < |names| && check(names[i]) == Some(m)
  {
    if names == [] then []
    else
      var rest := Ensure(names[1..], check);
      assert forall i :: 1 <= i < |names| ==> names[1..][i - 1] == names[i];
      match check(names[0])
      case Some(m) => [m] + rest
      case None => rest
  }

  /** `ensure` over a list of one name: its message when its check fails. */
  lemma EnsureOne(name: string, check: string -> Option<string>)
    ensures Ensure([name], check) == if check(name).Some? then [check(name).value] else []
  {
    assert [name][1..] == [];
  }

  /** `ensure` over two lists in a row reports the failures of the first list,
      then those of the second: every failing name's message, in name order. */
  lemma {:induction false} EnsureAppend(a: seq<string>, b: seq<string>, check: string -> Option<string>)
    ensures Ensure(a + b, check) == Ensure(a, check) + Ensure(b, check)
    decreases |a|
  {
    if a == [] {
      assert a + b == b;
    } else {
      assert (a + b)[1..] == a[1..] + b;
      assert (a + b)[0] == a[0];
      EnsureAppend(a[1..], b, check);
    }
  }

  /** The message of a failing group: the prefix, then its messages one per line. */
  function GroupMessage(messages: seq<string>): string
    requires |messages| >= 1
  {
    Prefix + Join(messages, '\n')
  }

  /** `"<name> expected to be number, received "<val>""`. */
  function NumberMessage(name: string, v: Value): string {
    name + NumberInfix + ToString(v) + "\""
  }

  /** The numeric check: a present flag must `parseInt` to a number. */
  function NumericCheck(flags: map<string, Value>, name: string): Option<string> {
    if name !in flags then None
    else if ParseIntValue(flags[name]).None? then Some(NumberMessage(name, flags[name]))
    else None
  }

  /** The string check: a present flag must be a string; `cast` may also be a number. */
  function StringCheck(flags: map<string, Value>, name: string): Option<string> {
    if name !in flags then None
    else if name == "cast" && flags[name].Num? then None
    else if flags[name].Str? then None
    else Some(name + StringInfix + ToString(flags[name]) + "\"")
  }

  /** The timeline check: a present flag must be a number or `parseInt` to
      one, and `from`/`to` are refused next to an `at` that parses. */
  function TimelineCheck(flags: map<string, Value>, name: string): Option<string> {
    if name !in flags then None
    else
      var val := flags[name];
      var v := if val.Num? then Some(val.n) else ParseIntValue(val);
      if v.None? then Some(NumberMessage(name, val))
      else if name != "at" && ParseIntValue(Flag(flags, "at")).Some? then Some(AtPrefix + name)
      else None
  }

  function NumericErrors(flags: map<string, Value>): seq<string> {
    Ensure(NumericNames, name => NumericCheck(flags, name))
  }

  function StringErrors(flags: map<string, Value>): seq<string> {
    Ensure(StringNames, name => StringCheck(flags, name))
  }

  function TimelineErrors(flags: map<string, Value>): seq<string> {
    Ensure(TimelineNames, name => TimelineCheck(flags, name))
  }

  /** `validateFlags`; `installed` is the answer of the `asciinema` probe,
      which the source only awaits when `command` is present. */
  function ValidateFlags(cli: Cli, installed: bool): (r: Option<SvgTermError>)
    ensures r.Some? ==> r.value.help == cli.help
    ensures r.Some? ==> |Prefix| <= |r.value.message| && r.value.message[..|Prefix|] == Prefix
  {
    var flags := cli.flags;
    if "command" in flags && !installed then
      Some(CliError(cli, InstallMessage))
    else if NumericErrors(flags) != [] then
      Some(CliError(cli, GroupMessage(NumericErrors(flags))))
    else if StringErrors(flags) != [] then
      Some(CliError(cli, GroupMessage(StringErrors(flags))))
    else if TimelineErrors(flags) != [] then
      Some(CliError(cli, GroupMessage(TimelineErrors(flags))))
    else None
  }

  /** A present numeric flag passes exactly when it is a number or a string
      with a leading digit; `undefined`, `null` and booleans fail. */
  lemma NumericCheckMeaning(flags: map<string, Value>, name: string)
    requires name in flags
    ensures NumericCheck(flags, name).None? <==>
      flags[name].Num? || (flags[name].Str? && HasLeadingDigit(flags[name].s))
    ensures NumericCheck(flags, name).Some? ==> NumericCheck(flags, name).value == NumberMessage(name, flags[name])
  {
    ParseIntValueMeaning(flags[name]);
  }

  /** A present timeline flag passes exactly when it reads as a number and,
      unless it is `at` itself, `at` does not read as one. */
  lemma TimelineCheckMeaning(flags: map<string, Value>, name: string)
    requires name in flags
    ensures var val := flags[name];
      TimelineCheck(flags, name).None? <==>
        (val.Num? || (val.Str? && HasLeadingDigit(val.s)))
        && (name == "at" || ParseIntValue(Flag(flags, "at")).None?)
  {
    ParseIntValueMeaning(flags[name]);
  }

  /** `from` or `to` next to an `at` that parses is refused with the
      `--at flag disallows` message, when the flag itself parses. */
  lemma AtDisallows(flags: map<string, Value>, name: string)
    requires name == "from" || name == "to"
    requires name in flags && ParseIntValue(flags[name]).Some?
    requires "at" in flags && ParseIntValue(flags["at"]).Some?
    ensures TimelineCheck(flags, name) == Some(AtPrefix + name)
  {
    ParseIntValueMeaning(flags["at"]);
    ParseIntValueMeaning(flags[name]);
  }

  /** Flags that are absent are never reported. */
  lemma AbsentFlagsPass(flags: map<string, Value>, name: string)
    requires name !in flags
    ensures NumericCheck(flags, name).None? && StringCheck(flags, name).None? && TimelineCheck(flags, name).None?
  {
  }

  /** The asciinema check comes before every other: with `command` present
      and asciinema missing, the installation error is returned whatever
      else the flags hold. */
  lemma InstallCheckFirst(cli: Cli)
    requires "command" in cli.flags
    ensures ValidateFlags(cli, false) == Some(SvgTermError(InstallMessage, cli.help))
  {
  }

  /** `validateFlags` returns null exactly when no check fails. */
  lemma ValidNoFailure(cli: Cli, installed: bool)
    ensures ValidateFlags(cli, installed).None? <==>
      && !("command" in cli.flags && !installed)
      && (forall i :: 0 <= i < |NumericNames| ==> NumericCheck(cli.flags, NumericNames[i]).None?)
      && (forall i :: 0 <= i < |StringNames| ==> StringCheck(cli.flags, StringNames[i]).None?)
      && (forall i :: 0 <= i < |TimelineNames| ==> TimelineCheck(cli.flags, TimelineNames[i]).None?)
  {
    GroupsPass(cli.flags);
  }

  /** Each group reports nothing exactly when each of its checks passes. */
  lemma GroupsPass(flags: map<string, Value>)
    ensures NumericErrors(flags) == [] <==> forall i :: 0 <= i < |NumericNames| ==> NumericCheck(flags, NumericNames[i]).None?
    ensures StringErrors(flags) == [] <==> forall i :: 0 <= i < |StringNames| ==> StringCheck(flags, StringNames[i]).None?
    ensures TimelineErrors(flags) == [] <==> forall i :: 0 <= i < |TimelineNames| ==> TimelineCheck(flags, TimelineNames[i]).None?
  {
    var numeric := name => NumericCheck(flags, name);
    assert forall i :: 0 <= i < |NumericNames| ==> numeric(NumericNames[i]) == NumericCheck(flags, NumericNames[i]);
    var strings := name => StringCheck(flags, name);
    assert forall i :: 0 <= i < |StringNames| ==> strings(StringNames[i]) == StringCheck(flags, StringNames[i]);
    var timeline := name => TimelineCheck(flags, name);
    assert forall i :: 0 <= i < |TimelineNames| ==> timeline(TimelineNames[i]) == TimelineCheck(flags, TimelineNames[i]);
  }

  /** The groups are checked in order: a failing numeric flag is reported
      even when string and timeline flags fail too, and a later group is
      reported only when the earlier ones pass.  Each report lists its
      group's messages in name order, one per line. */
  lemma GroupsInOrder(cli: Cli, installed: bool)
    requires !("command" in cli.flags && !installed)
    ensures var flags := cli.flags;
      var r := ValidateFlags(cli, installed);
      && (NumericErrors(flags) != [] ==> r == Some(SvgTermError(GroupMessage(NumericErrors(flags)), cli.help)))
      && (NumericErrors(flags) == [] && StringErrors(flags) != [] ==>
            r == Some(SvgTermError(GroupMessage(StringErrors(flags)), cli.help)))
      && (NumericErrors(flags) == [] && StringErrors(flags) == [] && TimelineErrors(flags) != [] ==>
            r == Some(SvgTermError(GroupMessage(TimelineErrors(flags)), cli.help)))
  {
  }

  /** One malformed numeric flag: the whole error is that flag's message
      after the prefix. */
  lemma OneMalformedHeight(cli: Cli)
    requires !("command" in cli.flags)
    requires "height" in cli.flags && cli.flags["height"] == Bool(true)
    requires "width" !in cli.flags
    ensures ValidateFlags(cli, false) == Some(SvgTermError(Prefix + NumberMessage("height", Bool(true)), cli.help))
  {
    NumericCheckMeaning(cli.flags, "height");
    var errs := NumericErrors(cli.flags);
    assert NumericNames[1..] == ["width"];
    assert errs == [NumberMessage("height", Bool(true))];
  }
}
