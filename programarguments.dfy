/**
  ProgramArguments (slngen/ProgramArguments.cs): the command-line parser.
  A line is split into arguments (quote aware), switches carrying "=value" or
  ":value" are split into name and value, and every argument is matched
  against the declared argument infos, filling a name -> value dictionary.
  Every exception the parser throws is an `ArgError` here; the ones that
  ProcessAllArguments catches become the usage exception.
*/
module ProgramArgs {
  import opened Wrappers
  import opened Text

  /** The argument types the program declares: bool, bool[], string, string[]. */
  datatype ArgType = Bool | BoolArray | String | StringArray

  datatype ArgInfo = ArgInfo(
    name: string,
    shortForms: seq<string>,
    argType: ArgType,
    hasDefault: bool,
    isPositional: bool)

  /** A stored value: a bool, a string, or the ArrayList an array argument accumulates. */
  datatype Value = BoolValue(b: bool) | StringValue(s: string) | ListValue(items: seq<Value>)

  datatype ArgError =
    | ReservedCharacterInArgument(reserved: char, name: string)
    | UnknownArgument(arg: string)
    | CannotSetArgumentMultipleTimes(arg: string)
    | MissingSwitchValue(arg: string)
    | NoMatchingPositionalArgument(arg: string)
    | RequiredArgumentNotSet(name: string)
    | ArgumentContainsUnmatchedQuote(prefix: string)
      /** `arg[0]` on an empty argument (an IndexOutOfRangeException). */
    | EmptyArgument
      /** The bool converter rejecting a positional argument's text (a FormatException). */
    | ConversionFailed(arg: string)
      /** A stored value cast to bool or ArrayList when it is neither (an InvalidCastException). */
    | InvalidCast(name: string)
      /** File.ReadAllLines failing on an '@' argument file. */
    | ArgumentFileUnreadable(path: string)
      /** '@' files nested deeper than ArgumentFileDepth. */
    | ArgumentFileTooDeep(path: string)

  const ReservedArgNameCharacters: seq<char> := ['-', '+', ':', '=', '/']

  /** The one standard argument: help, short forms "?" and "h", a bool without default. */
  const HelpInfo: ArgInfo := ArgInfo("help", ["?", "h"], Bool, false, false)

  /** How deep '@' argument files may include each other. */
  const ArgumentFileDepth: nat := 16

  /** GetInfos: the declared infos, then the standard ones. */
  function AllInfos(infos: seq<ArgInfo>): seq<ArgInfo> {
    infos + [HelpInfo]
  }

  /** `value is IEnumerable`: strings and ArrayLists are, bools are not. */
  predicate IsEnumerable(v: Value) {
    !v.BoolValue?
  }

  predicate IsArrayType(t: ArgType) {
    t == BoolArray || t == StringArray
  }

  predicate IsBoolType(t: ArgType) {
    t == Bool || t == BoolArray
  }

  // ---------------------------------------------------------------------
  // Reserved characters in argument names
  // ---------------------------------------------------------------------

  /** The first of `chars` that occurs in name. */
  function ReservedIn(name: string, chars: seq<char>): (r: Option<char>)
    ensures r.Some? ==> r.value in chars && r.value in name
    ensures r.None? ==> forall c :: c in chars ==> c !in name
  {
    if chars == [] then None
    else if chars[0] in name then Some(chars[0])
    else ReservedIn(name, chars[1..])
  }

  /** The error the constructor throws: the first info, then the first reserved character, that clash. */
  function FirstReserved(infos: seq<ArgInfo>): (r: Option<ArgError>)
    ensures r.Some? ==> r.value.ReservedCharacterInArgument?
  {
    if infos == [] then None
    else match ReservedIn(infos[0].name, ReservedArgNameCharacters)
      case Some(c) => Some(ReservedCharacterInArgument(c, infos[0].name))
      case None => FirstReserved(infos[1..])
  }

  /** The constructor rejects the infos exactly when some name contains a reserved character. */
  lemma {:induction false} FirstReservedExactly(infos: seq<ArgInfo>)
    ensures FirstReserved(infos).None? <==>
      forall k, c :: 0 <= k < |infos| && c in ReservedArgNameCharacters ==> c !in infos[k].name
    ensures FirstReserved(infos).Some? ==>
      exists k :: 0 <= k < |infos| && FirstReserved(infos).value.name == infos[k].name
        && FirstReserved(infos).value.reserved in infos[k].name
  {
    if infos != [] {
      FirstReservedExactly(infos[1..]);
      if ReservedIn(infos[0].name, ReservedArgNameCharacters).None? {
        forall k, c | 0 <= k < |infos| && c in ReservedArgNameCharacters && FirstReserved(infos).None?
          ensures c !in infos[k].name
        {
          if k > 0 {
            assert infos[k] == infos[1..][k - 1];
          }
        }
        if FirstReserved(infos).Some? {
          var k :| 0 <= k < |infos[1..]| && FirstReserved(infos).value.name == infos[1..][k].name
            && FirstReserved(infos).value.reserved in infos[1..][k].name;
          assert infos[1..][k] == infos[k + 1];
        }
      }
    }
  }

  /** The constructor's nested check over the infos and the reserved characters. */
  method CheckReservedNames(infos: seq<ArgInfo>) returns (r: Option<ArgError>)
    ensures r == FirstReserved(infos)
  {
    var k := 0;
    while k < |infos|
      invariant 0 <= k <= |infos|
      invariant FirstReserved(infos[k..]) == FirstReserved(infos)
    {
      var j := 0;
      while j < |ReservedArgNameCharacters|
        invariant 0 <= j <= |ReservedArgNameCharacters|
        invariant ReservedIn(infos[k].name, ReservedArgNameCharacters[j..])
          == ReservedIn(infos[k].name, ReservedArgNameCharacters)
      {
        if ReservedArgNameCharacters[j] in infos[k].name {
          return Some(ReservedCharacterInArgument(ReservedArgNameCharacters[j], infos[k].name));
        }
        assert ReservedArgNameCharacters[j..][1..] == ReservedArgNameCharacters[j + 1..];
        j := j + 1;
      }
      assert infos[k..][1..] == infos[k + 1..];
      k := k + 1;
    }
    return None;
  }

  // ---------------------------------------------------------------------
  // Switch detection
  // ---------------------------------------------------------------------

  /** IsSwitch: a leading '-' or '/' that is not doubled ("--x" and "//x" escape a positional). */
  predicate IsSwitch(arg: string) {
    (StartsWith(arg, "-") && !StartsWith(arg, "--")) || (StartsWith(arg, "/") && !StartsWith(arg, "//"))
  }

  /** A switch is decided by its first two characters alone. */
  lemma SwitchByFirstTwo(arg: string)
    ensures IsSwitch(arg) <==>
      |arg| >= 1 && (arg[0] == '-' || arg[0] == '/') && (|arg| == 1 || arg[1] != arg[0])
  {
    if |arg| >= 2 {
      assert arg[..2] == [arg[0], arg[1]];
    }
    if |arg| >= 1 {
      assert arg[..1] == [arg[0]];
    }
  }

  // ---------------------------------------------------------------------
  // IndexOfCloseQuote
  // ---------------------------------------------------------------------

  /**
    The close-quote scan from position i: the first '"' that is last or not
    followed by another '"'; a doubled quote is skipped as a pair.
  */
  function CloseQuoteFrom(s: string, i: nat): (r: int)
    decreases |s| - i
    ensures r == -1 || (i <= r < |s| && s[r] == '"' && (r == |s| - 1 || s[r + 1] != '"'))
  {
    if i >= |s| then -1
    else if s[i] != '"' then CloseQuoteFrom(s, i + 1)
    else if i == |s| - 1 || s[i + 1] != '"' then i
    else CloseQuoteFrom(s, i + 2)
  }

  method IndexOfCloseQuote(s: string, openQuoteIndex: nat) returns (r: int)
    ensures r == CloseQuoteFrom(s, openQuoteIndex + 1)
  {
    var i := openQuoteIndex + 1;
    while i < |s|
      invariant openQuoteIndex + 1 <= i
      invariant CloseQuoteFrom(s, i) == CloseQuoteFrom(s, openQuoteIndex + 1)
      decreases |s| - i
    {
      if s[i] != '"' {
        i := i + 1;
      } else if i == |s| - 1 {
        return i;
      } else if s[i + 1] != '"' {
        return i;
      } else {
        // an escaped quote: step over both characters
        i := i + 2;
      }
    }
    return -1;
  }

  /** The text with every '"' doubled, the way a quote is escaped inside quotes. */
  function Doubled(t: string): (r: string)
    ensures |r| >= |t|
  {
    if t == [] then [] else (if t[0] == '"' then "\"\"" else [t[0]]) + Doubled(t[1..])
  }

  /**
    The scan skips every doubled quote of an escaped text and stops at the
    quote right after it, unless that quote is itself doubled.
  */
  lemma {:induction false} CloseQuoteAfterDoubled(s: string, i: nat, t: string)
    requires i + |Doubled(t)| < |s| && s[i..i + |Doubled(t)|] == Doubled(t)
    requires s[i + |Doubled(t)|] == '"'
    requires i + |Doubled(t)| + 1 == |s| || s[i + |Doubled(t)| + 1] != '"'
    ensures CloseQuoteFrom(s, i) == i + |Doubled(t)|
    decreases |t|
  {
    if t != [] {
      var head := if t[0] == '"' then "\"\"" else [t[0]];
      var d := Doubled(t[1..]);
      assert Doubled(t) == head + d;
      SliceSplit(s, i, head, d);
      if t[0] == '"' {
        assert s[i] == head[0] && s[i + 1] == head[1];
        assert CloseQuoteFrom(s, i) == CloseQuoteFrom(s, i + 2);
      } else {
        assert s[i] == head[0];
        assert CloseQuoteFrom(s, i) == CloseQuoteFrom(s, i + 1);
      }
      CloseQuoteAfterDoubled(s, i + |head|, t[1..]);
    } else {
      assert Doubled(t) == [];
    }
  }

  /** A slice of s that spells a + b spells a and then b. */
  lemma SliceSplit(s: string, i: nat, a: string, b: string)
    requires i + |a| + |b| <= |s| && s[i..i + |a| + |b|] == a + b
    ensures forall k :: 0 <= k < |a| ==> s[i + k] == a[k]
    ensures s[i + |a|..i + |a| + |b|] == b
  {
    forall k | 0 <= k < |a|
      ensures s[i + k] == a[k]
    {
      assert s[i..i + |a| + |b|][k] == (a + b)[k];
    }
  }

  /** Without a quote after position i there is no close quote. */
  lemma {:induction false} NoCloseQuote(s: string, i: nat)
    requires forall j :: i <= j < |s| ==> s[j] != '"'
    ensures CloseQuoteFrom(s, i) == -1
    decreases |s| - i
  {
    if i < |s| {
      NoCloseQuote(s, i + 1);
    }
  }

  // ---------------------------------------------------------------------
  // SplitArguments
  // ---------------------------------------------------------------------

  predicate IsBlank(c: char) {
    c == ' ' || c == '\t'
  }

  /** The arguments already yielded, followed by the outcome of the rest. */
  function Then(done: seq<string>, r: Result<seq<string>, ArgError>): Result<seq<string>, ArgError> {
    match r
    case Ok(xs) => Ok(done + xs)
    case Err(e) => Err(e)
  }

  /**
    SplitArguments from position i with `current` collected so far: blanks
    end a non-empty argument; a quoted text is appended to the current prefix
    and ends the argument, and the character after the close quote is
    skipped; an unmatched quote throws.
  */
  function ArgsFrom(line: string, i: nat, current: string): Result<seq<string>, ArgError>
    decreases |line| - i
  {
    if i >= |line| then Ok(if current != "" then [current] else [])
    else if IsBlank(line[i]) then
      if current != "" then Then([current], ArgsFrom(line, i + 1, ""))
      else ArgsFrom(line, i + 1, "")
    else if line[i] == '"' then
      var close := CloseQuoteFrom(line, i + 1);
      if close == -1 then Err(ArgumentContainsUnmatchedQuote(current))
      else Then([current + line[i + 1..close]], ArgsFrom(line, close + 2, ""))
    else ArgsFrom(line, i + 1, current + [line[i]])
  }

  function SplitArgumentsOf(line: string): Result<seq<string>, ArgError> {
    ArgsFrom(line, 0, "")
  }

  lemma ThenThen(a: seq<string>, b: seq<string>, r: Result<seq<string>, ArgError>)
    ensures Then(a, Then(b, r)) == Then(a + b, r)
  {
    if r.Ok? {
      assert a + (b + r.value) == (a + b) + r.value;
    }
  }

  lemma NothingDone(r: Result<seq<string>, ArgError>)
    ensures Then([], r) == r
  {
    if r.Ok? {
      assert [] + r.value == r.value;
    }
  }

  method SplitArguments(line: string) returns (r: Result<seq<string>, ArgError>)
    ensures r == SplitArgumentsOf(line)
  {
    var args: seq<string> := [];
    var current: string := "";
    var i := 0;
    NothingDone(SplitArgumentsOf(line));
    while i < |line|
      invariant Then(args, ArgsFrom(line, i, current)) == SplitArgumentsOf(line)
      decreases |line| - i
    {
      var c := line[i];
      if IsBlank(c) {
        if current != "" {
          ThenThen(args, [current], ArgsFrom(line, i + 1, ""));
          args := args + [current];
          current := "";
        }
      } else if c == '"' {
        var close := IndexOfCloseQuote(line, i);
        if close == -1 {
          return Err(ArgumentContainsUnmatchedQuote(current));
        }
        ThenThen(args, [current + line[i + 1..close]], ArgsFrom(line, close + 2, ""));
        args := args + [current + line[i + 1..close]];
        current := "";
        i := close + 1;
      } else {
        current := current + [c];
      }
      i := i + 1;
    }
    assert ArgsFrom(line, i, current) == Ok(if current != "" then [current] else []);
    if current != "" {
      args := args + [current];
    } else {
      assert args + [] == args;
    }
    return Ok(args);
  }

  /**
    Without quotes the arguments are exactly the blank-separated words of the
    line: blanks never produce an empty argument and a trailing word is kept.
  */
  lemma {:induction false} PlainLineIsWords(line: string, i: nat, current: string)
    requires forall j :: i <= j < |line| ==> line[j] != '"'
    requires forall j :: 0 <= j < |current| ==> !IsBlank(current[j])
    requires i <= |line|
    ensures ArgsFrom(line, i, current) == Ok(RemoveEmpty(SplitWhere(current + line[i..], IsBlank)))
    decreases |line| - i
  {
    if i == |line| {
      assert current + line[i..] == current;
      WordAlone(current);
    } else if IsBlank(line[i]) {
      PlainLineIsWords(line, i + 1, "");
      assert current + line[i..] == current + [line[i]] + line[i + 1..];
      assert "" + line[i + 1..] == line[i + 1..];
      WordThenBlank(current, line[i], line[i + 1..]);
      NothingDone(ArgsFrom(line, i + 1, ""));
    } else {
      PlainLineIsWords(line, i + 1, current + [line[i]]);
      assert (current + [line[i]]) + line[i + 1..] == current + line[i..];
    }
  }

  /** A text without blanks is one word, or none when empty. */
  lemma WordAlone(current: string)
    requires forall j :: 0 <= j < |current| ==> !IsBlank(current[j])
    ensures RemoveEmpty(SplitWhere(current, IsBlank)) == (if current == "" then [] else [current])
  {
    SplitNoSeparator(current, IsBlank);
    assert [current][1..] == [];
    assert RemoveEmpty([current]) == (if current == "" then [] else [current]) + RemoveEmpty([]);
  }

  /** A blank ends the word before it. */
  lemma WordThenBlank(current: string, b: char, rest: string)
    requires forall j :: 0 <= j < |current| ==> !IsBlank(current[j])
    requires IsBlank(b)
    ensures RemoveEmpty(SplitWhere(current + [b] + rest, IsBlank))
      == (if current == "" then [] else [current]) + RemoveEmpty(SplitWhere(rest, IsBlank))
  {
    SplitAround(current, b, rest, IsBlank);
    WordAlone(current);
    RemoveEmptyAppend(SplitWhere(current, IsBlank), SplitWhere(rest, IsBlank));
  }

  /**
    A quoted text (its quotes written doubled) is appended to the prefix
    collected so far and ends that argument, doubled quotes kept as written;
    the character after the close quote is skipped.
  */
  lemma QuotedTextEndsArgument(p: string, t: string, rest: string, current: string)
    requires rest == [] || rest[0] != '"'
    ensures var line := p + "\"" + Doubled(t) + "\"" + rest;
      ArgsFrom(line, |p|, current) == Then([current + Doubled(t)], ArgsFrom(line, |p| + |Doubled(t)| + 3, ""))
  {
    var line := p + "\"" + Doubled(t) + "\"" + rest;
    var n := |Doubled(t)|;
    assert line[|p|] == '"';
    assert line[|p| + 1..|p| + 1 + n] == Doubled(t);
    assert line[|p| + 1 + n] == '"';
    if |p| + n + 2 < |line| {
      assert line[|p| + n + 2] == rest[0];
    }
    CloseQuoteAfterDoubled(line, |p| + 1, t);
  }

  /** A quote with no quote after it throws, reporting the prefix collected so far. */
  lemma UnmatchedQuoteThrows(line: string, i: nat, current: string)
    requires i < |line| && line[i] == '"'
    requires forall j :: i < j < |line| ==> line[j] != '"'
    ensures ArgsFrom(line, i, current) == Err(ArgumentContainsUnmatchedQuote(current))
  {
    NoCloseQuote(line, i + 1);
  }

  // ---------------------------------------------------------------------
  // SplitArgumentNames
  // ---------------------------------------------------------------------

  predicate IsNameSeparator(c: char) {
    c == '=' || c == ':'
  }

  /** One argument's contribution: a switch is split at its first '=' or ':'. */
  function NameAndValue(arg: string): (r: seq<string>)
    ensures 1 <= |r| <= 2
  {
    if IsSwitch(arg) then
      var sep := IndexWhere(arg, IsNameSeparator);
      if sep == -1 then [arg]
      else [TrimEnd(arg[..sep])] + (if sep + 1 != |arg| then [TrimStart(arg[sep + 1..])] else [])
    else [arg]
  }

  function SplitArgumentNames(args: seq<string>): seq<string> {
    if args == [] then [] else NameAndValue(args[0]) + SplitArgumentNames(args[1..])
  }

  /** The first separator of name + [sep] + rest is the one after name. */
  lemma {:induction false} SeparatorAfterName(name: string, sep: char, rest: string)
    requires forall j :: 0 <= j < |name| ==> !IsNameSeparator(name[j])
    requires IsNameSeparator(sep)
    ensures IndexWhere(name + [sep] + rest, IsNameSeparator) == |name|
  {
    if name == [] {
      assert (name + [sep] + rest)[0] == sep;
    } else {
      SeparatorAfterName(name[1..], sep, rest);
      assert (name + [sep] + rest)[1..] == name[1..] + [sep] + rest;
    }
  }

  /** Appending to a switch keeps it a switch, unless a lone '-' or '/' becomes doubled. */
  lemma SwitchExtended(name: string, rest: string)
    requires IsSwitch(name)
    requires |name| >= 2 || rest == [] || rest[0] != name[0]
    ensures IsSwitch(name + rest)
  {
    SwitchByFirstTwo(name);
    SwitchByFirstTwo(name + rest);
    assert (name + rest)[0] == name[0];
    if |name| >= 2 {
      assert (name + rest)[1] == name[1];
    } else if rest != [] {
      assert (name + rest)[1] == rest[0];
    }
  }

  /** Writing name, separator and value and splitting again gives name and value back. */
  lemma SwitchValueRoundTrip(name: string, sep: char, value: string)
    requires IsSwitch(name)
    requires forall j :: 0 <= j < |name| ==> !IsNameSeparator(name[j])
    requires !IsWhiteSpace(name[|name| - 1])
    requires IsNameSeparator(sep)
    requires value != "" && !IsWhiteSpace(value[0])
    ensures NameAndValue(name + [sep] + value) == [name, value]
  {
    var arg := name + [sep] + value;
    SwitchExtended(name, [sep] + value);
    assert name + ([sep] + value) == arg;
    SeparatorAfterName(name, sep, value);
    SplitAtSeparator(arg, |name|);
    assert arg[..|name|] == name;
    assert arg[|name| + 1..] == value;
    assert TrimEnd(name) == name;
    assert TrimStart(value) == value;
  }

  /** A switch whose first separator is at p, with text after it, splits there. */
  lemma SplitAtSeparator(arg: string, p: nat)
    requires IsSwitch(arg)
    requires IndexWhere(arg, IsNameSeparator) == p && p + 1 < |arg|
    ensures NameAndValue(arg) == [TrimEnd(arg[..p]), TrimStart(arg[p + 1..])]
  {
  }

  /** A switch ending in its separator yields the name alone. */
  lemma SeparatorLastDropsValue(name: string, sep: char)
    requires IsSwitch(name)
    requires forall j :: 0 <= j < |name| ==> !IsNameSeparator(name[j])
    requires !IsWhiteSpace(name[|name| - 1])
    requires IsNameSeparator(sep)
    ensures NameAndValue(name + [sep]) == [name]
  {
    var arg := name + [sep];
    SwitchExtended(name, [sep]);
    SeparatorAfterName(name, sep, []);
    assert name + [sep] + [] == arg;
    assert arg[..|name|] == name;
  }

  /** Positional arguments pass through unchanged and in order. */
  lemma {:induction false} PositionalsPassThrough(args: seq<string>)
    requires forall k :: 0 <= k < |args| ==> !IsSwitch(args[k])
    ensures SplitArgumentNames(args) == args
  {
    if args != [] {
      PositionalsPassThrough(args[1..]);
      assert [args[0]] + args[1..] == args;
    }
  }

  // ---------------------------------------------------------------------
  // ProcessSingleArgument
  // ---------------------------------------------------------------------

  /** Whether a switch key names the info, ignoring case, by name or a short form. */
  predicate Matches(info: ArgInfo, key: string) {
    EqualsIgnoreCase(info.name, key) || exists sf :: sf in info.shortForms && EqualsIgnoreCase(sf, key)
  }

  /** The first non-positional info that the key names. */
  function FindSwitch(infos: seq<ArgInfo>, key: string): (r: Option<ArgInfo>)
    ensures r.Some? ==> r.value in infos && !r.value.isPositional && Matches(r.value, key)
    ensures r.None? ==> forall info :: info in infos && !info.isPositional ==> !Matches(info, key)
  {
    if infos == [] then None
    else if !infos[0].isPositional && Matches(infos[0], key) then Some(infos[0])
    else FindSwitch(infos[1..], key)
  }

  /** The first positional info that is unset or holds an enumerable value. */
  function FindPositional(infos: seq<ArgInfo>, values: map<string, Value>): (r: Option<ArgInfo>)
    ensures r.Some? ==> (r.value in infos && r.value.isPositional
      && (r.value.name !in values || IsEnumerable(values[r.value.name])))
    ensures r.None? ==> forall info :: info in infos && info.isPositional ==>
      info.name in values && !IsEnumerable(values[info.name])
  {
    if infos == [] then None
    else if infos[0].isPositional && (infos[0].name !in values || IsEnumerable(values[infos[0].name])) then
      Some(infos[0])
    else FindPositional(infos[1..], values)
  }

  /** Boolean.Parse: "true" or "false" ignoring case and surrounding white space. */
  function ParseBool(s: string): (r: Option<bool>)
    ensures r == Some(true) <==> EqualsIgnoreCase(Trim(s), "true")
    ensures r == Some(false) <==> EqualsIgnoreCase(Trim(s), "false")
  {
    if EqualsIgnoreCase(Trim(s), "true") then Some(true)
    else if EqualsIgnoreCase(Trim(s), "false") then Some(false)
    else None
  }

  /** The type converter applied to a positional argument's text. */
  function ConvertText(text: string, t: ArgType): Option<Value> {
    if IsBoolType(t) then
      match ParseBool(text)
      case Some(b) => Some(BoolValue(b))
      case None => None
    else Some(StringValue(text))
  }

  /** The key and the explicit +/- of a lower-cased switch. */
  function SwitchParts(larg: string): (string, Option<bool>)
    requires larg != ""
  {
    var body := larg[1..];
    if EndsWith(body, "+") || EndsWith(body, "-") then (body[..|body| - 1], Some(EndsWith(body, "+")))
    else (body, None)
  }

  /** The result of one argument: the new dictionary, whether the next argument was used, and the name set. */
  datatype Step = Step(values: map<string, Value>, nextArgUsed: bool, name: string)

  /** Storing a converted value: an array argument appends to its list, anything else is overwritten. */
  function Store(values: map<string, Value>, info: ArgInfo, v: Value, used: bool): (r: Result<Step, ArgError>)
    ensures r.Ok? ==> (r.value.name == info.name && r.value.nextArgUsed == used
      && info.name in r.value.values && r.value.values == values[info.name := r.value.values[info.name]])
    ensures r.Ok? && !IsArrayType(info.argType) ==> r.value.values[info.name] == v
    ensures r.Ok? && IsArrayType(info.argType) ==> (r.value.values[info.name].ListValue?
      && r.value.values[info.name].items
        == (if info.name in values && values[info.name].ListValue? then values[info.name].items else []) + [v])
  {
    if IsArrayType(info.argType) then
      if info.name !in values then Ok(Step(values[info.name := ListValue([v])], used, info.name))
      else match values[info.name]
        case ListValue(items) => Ok(Step(values[info.name := ListValue(items + [v])], used, info.name))
        case _ => Err(InvalidCast(info.name))
    else Ok(Step(values[info.name := v], used, info.name))
  }

  /** ProcessSingleArgument on an argument that is not an '@' file. */
  function SingleArgument(infos: seq<ArgInfo>, values: map<string, Value>, arg: string, nextArg: Option<string>)
    : (r: Result<Step, ArgError>)
    requires arg != "" && arg[0] != '@'
    ensures r.Ok? ==> (r.value.name in r.value.values
      && r.value.values == values[r.value.name := r.value.values[r.value.name]])
    ensures r.Ok? && r.value.nextArgUsed ==> nextArg.Some?
  {
    var larg := Lower(arg);
    if IsSwitch(larg) then
      var (key, explicit) := SwitchParts(larg);
      match FindSwitch(AllInfos(infos), key)
      case None => Err(UnknownArgument(arg))
      case Some(info) =>
        if info.name in values && !IsEnumerable(values[info.name]) then Err(CannotSetArgumentMultipleTimes(arg))
        else if !IsBoolType(info.argType) then
          if nextArg.None? then Err(MissingSwitchValue(arg))
          else Store(values, info, StringValue(nextArg.value), true)
        else Store(values, info, BoolValue(explicit.GetOr(true)), false)
    else
      match FindPositional(AllInfos(infos), values)
      case None => Err(NoMatchingPositionalArgument(arg))
      case Some(info) =>
        match ConvertText(arg, info.argType)
        case None => Err(ConversionFailed(arg))
        case Some(v) => Store(values, info, v, false)
  }

  /** A bool switch cannot be given twice: the second occurrence throws. */
  lemma FlagTwiceThrows(infos: seq<ArgInfo>, values: map<string, Value>, arg: string,
                        next1: Option<string>, next2: Option<string>)
    requires arg != "" && arg[0] != '@' && IsSwitch(Lower(arg))
    requires SingleArgument(infos, values, arg, next1).Ok?
    requires var s := SingleArgument(infos, values, arg, next1).value; s.values[s.name].BoolValue?
    ensures SingleArgument(infos, SingleArgument(infos, values, arg, next1).value.values, arg, next2)
      == Err(CannotSetArgumentMultipleTimes(arg))
  {
  }

  /** A string switch given twice keeps the second value, and both consume the next argument. */
  lemma StringSwitchOverwrites(infos: seq<ArgInfo>, values: map<string, Value>, arg: string, a: string, b: string)
    requires arg != "" && arg[0] != '@' && IsSwitch(Lower(arg))
    requires SingleArgument(infos, values, arg, Some(a)).Ok?
    requires var s := SingleArgument(infos, values, arg, Some(a)).value; s.values[s.name].StringValue?
    ensures var s := SingleArgument(infos, values, arg, Some(a)).value;
      s.nextArgUsed && s.values[s.name] == StringValue(a)
      && SingleArgument(infos, s.values, arg, Some(b)) == Ok(Step(s.values[s.name := StringValue(b)], true, s.name))
  {
  }

  /** An array switch given twice keeps both values, in order. */
  lemma ArraySwitchAccumulates(infos: seq<ArgInfo>, values: map<string, Value>, arg: string,
                               next1: Option<string>, next2: Option<string>)
    requires arg != "" && arg[0] != '@' && IsSwitch(Lower(arg))
    requires SingleArgument(infos, values, arg, next1).Ok?
    requires var s := SingleArgument(infos, values, arg, next1).value; s.values[s.name].ListValue?
    requires next1.Some? <==> next2.Some?
    ensures var s := SingleArgument(infos, values, arg, next1).value;
      var t := SingleArgument(infos, s.values, arg, next2);
      t.Ok? && t.value.name == s.name && t.value.values[s.name].ListValue?
      && |t.value.values[s.name].items| == |s.values[s.name].items| + 1
      && t.value.values[s.name].items[..|s.values[s.name].items|] == s.values[s.name].items
  {
  }

  // ---------------------------------------------------------------------
  // ProcessArguments, ProcessArgumentFile and ProcessAllArguments
  // ---------------------------------------------------------------------

  /** The dictionary after a run, and the exception that stopped it, if any. */
  datatype Outcome = Outcome(values: map<string, Value>, error: Option<ArgError>)

  /** One argument's effect: the dictionary, whether the next argument was used, and the exception. */
  datatype ArgOutcome = ArgOutcome(values: map<string, Value>, nextArgUsed: bool, error: Option<ArgError>)

  /** The argument after position i, or null. */
  function NextArg(args: seq<string>, i: nat): Option<string>
    requires i < |args|
  {
    if i + 1 == |args| then None else Some(args[i + 1])
  }

  /** Everything before a '#' on an argument-file line. */
  function StripComment(line: string): (r: string)
    ensures !HasChar(r, '#')
    ensures |r| <= |line| && r == line[..|r|]
    ensures HasChar(line, '#') || r == line
    ensures HasChar(line, '#') ==> |r| < |line| && line[|r|] == '#'
  {
    var p := IndexWhere(line, CharIs('#'));
    if p == -1 then line else line[..p]
  }

  /** ProcessSingleArgument: an empty argument, an '@' file, or one argument matched against the infos. */
  function ArgStep(infos: seq<ArgInfo>, files: map<string, seq<string>>, values: map<string, Value>,
                   arg: string, nextArg: Option<string>, fuel: nat): (r: ArgOutcome)
    decreases fuel, 1
    ensures r.nextArgUsed ==> nextArg.Some? && r.error.None?
  {
    if arg == "" then ArgOutcome(values, false, Some(EmptyArgument))
    else if arg[0] == '@' then
      if fuel == 0 then ArgOutcome(values, false, Some(ArgumentFileTooDeep(arg[1..])))
      else
        var o := RunFile(infos, files, values, arg[1..], fuel - 1);
        ArgOutcome(o.values, false, o.error)
    else
      match SingleArgument(infos, values, arg, nextArg)
      case Err(e) => ArgOutcome(values, false, Some(e))
      case Ok(step) => ArgOutcome(step.values, step.nextArgUsed, None)
  }

  /** ProcessArguments' loop from position i: step over the next argument too when it was used. */
  function RunArgs(infos: seq<ArgInfo>, files: map<string, seq<string>>, values: map<string, Value>,
                   args: seq<string>, i: nat, fuel: nat): Outcome
    decreases fuel, 2, |args| - i
  {
    if i >= |args| then Outcome(values, None)
    else
      var s := ArgStep(infos, files, values, args[i], NextArg(args, i), fuel);
      if s.error.Some? then Outcome(s.values, s.error)
      else RunArgs(infos, files, s.values, args, i + (if s.nextArgUsed then 2 else 1), fuel)
  }

  /** ProcessArgumentFile's loop from line k: each line split and processed in turn. */
  function RunLines(infos: seq<ArgInfo>, files: map<string, seq<string>>, values: map<string, Value>,
                    lines: seq<string>, k: nat, fuel: nat): Outcome
    decreases fuel, 3, |lines| - k
  {
    if k >= |lines| then Outcome(values, None)
    else match SplitArgumentsOf(StripComment(lines[k]))
      case Err(e) => Outcome(values, Some(e))
      case Ok(lineArgs) =>
        var o := RunArgs(infos, files, values, SplitArgumentNames(lineArgs), 0, fuel);
        if o.error.Some? then o else RunLines(infos, files, o.values, lines, k + 1, fuel)
  }

  /** ProcessArgumentFile: the lines of the file, or the read failure. */
  function RunFile(infos: seq<ArgInfo>, files: map<string, seq<string>>, values: map<string, Value>,
                   path: string, fuel: nat): Outcome
    decreases fuel, 4
  {
    if path !in files then Outcome(values, Some(ArgumentFileUnreadable(path)))
    else RunLines(infos, files, values, files[path], 0, fuel)
  }

  /** The first declared info without a default that has no value. */
  function FirstMissingRequired(infos: seq<ArgInfo>, values: map<string, Value>): (r: Option<string>)
    ensures r.Some? ==> r.value !in values
  {
    if infos == [] then None
    else if !infos[0].hasDefault && infos[0].name !in values then Some(infos[0].name)
    else FirstMissingRequired(infos[1..], values)
  }

  /** No required argument is missing exactly when every info has a default or a value. */
  lemma {:induction false} NoneMissingExactly(infos: seq<ArgInfo>, values: map<string, Value>)
    ensures FirstMissingRequired(infos, values).None? <==>
      forall k :: 0 <= k < |infos| ==> infos[k].hasDefault || infos[k].name in values
  {
    if infos != [] {
      NoneMissingExactly(infos[1..], values);
      assert forall k :: 1 <= k < |infos| ==> infos[k] == infos[1..][k - 1];
    }
  }

  /** What ProcessAllArguments ends with: the dictionary, the usage exception, and whether help was asked for. */
  datatype Parse = Parse(values: map<string, Value>, error: Option<ArgError>, help: bool)

  function Parsed(infos: seq<ArgInfo>, files: map<string, seq<string>>, values: map<string, Value>,
                  args: seq<string>): Parse
  {
    var o := RunArgs(infos, files, values, SplitArgumentNames(args), 0, ArgumentFileDepth);
    if o.error.Some? then Parse(o.values, o.error, false)
    else match FirstMissingRequired(infos, o.values)
      case Some(name) => Parse(o.values, Some(RequiredArgumentNotSet(name)), false)
      case None =>
        if "help" !in o.values then Parse(o.values, None, false)
        else match o.values["help"]
          case BoolValue(b) => Parse(o.values, None, b)
          case _ => Parse(o.values, Some(InvalidCast("help")), false)
  }

  /** A run that ends without a usage exception has set every argument that has no default. */
  lemma ParsedHasRequired(infos: seq<ArgInfo>, files: map<string, seq<string>>, values: map<string, Value>,
                          args: seq<string>)
    ensures var p := Parsed(infos, files, values, args);
      p.error.None? ==> forall k :: 0 <= k < |infos| ==> infos[k].hasDefault || infos[k].name in p.values
  {
    var o := RunArgs(infos, files, values, SplitArgumentNames(args), 0, ArgumentFileDepth);
    NoneMissingExactly(infos, o.values);
  }

  /** ExitCode: -1 only when usage is to be shown because of an exception. */
  function ExitCodeOf(shouldShowUsageAndExit: bool, usageException: Option<ArgError>): (r: int)
    ensures r == 0 || r == -1
    ensures r == -1 <==> shouldShowUsageAndExit && usageException.Some?
  {
    if !shouldShowUsageAndExit || usageException.None? then 0 else -1
  }

  class ProgramArguments {
    var values: map<string, Value>
    const infos: seq<ArgInfo>
    /** The argument files an '@' argument may name, as their lines. */
    const argFiles: map<string, seq<string>>
    var usageException: Option<ArgError>
    var shouldShowUsageAndExit: bool

    constructor Init(infos: seq<ArgInfo>, argFiles: map<string, seq<string>>)
      ensures this.infos == infos && this.argFiles == argFiles
      ensures values == map[] && usageException.None? && !shouldShowUsageAndExit
    {
      this.infos := infos;
      this.argFiles := argFiles;
      values := map[];
      usageException := None;
      shouldShowUsageAndExit := false;
    }

    function ExitCode(): int
      reads this
    {
      ExitCodeOf(shouldShowUsageAndExit, usageException)
    }

    /** The UsageException setter also asks for usage to be shown. */
    method SetUsageException(e: ArgError)
      modifies this
      ensures usageException == Some(e) && shouldShowUsageAndExit
      ensures values == old(values)
    {
      usageException := Some(e);
      shouldShowUsageAndExit := true;
    }

    method ProcessAllArguments(args: seq<string>)
      modifies this
      ensures var p := Parsed(infos, argFiles, old(values), args);
        values == p.values
        && usageException == (if p.error.Some? then p.error else old(usageException))
        && shouldShowUsageAndExit == (old(shouldShowUsageAndExit) || p.error.Some? || p.help)
    {
      var error := ProcessArguments(args, ArgumentFileDepth);
      if error.None? {
        var missing := FindMissingRequired(infos, values);
        if missing.Some? {
          error := Some(RequiredArgumentNotSet(missing.value));
        } else if "help" in values {
          match values["help"]
          case BoolValue(b) =>
            if b {
              shouldShowUsageAndExit := true;
            }
          case _ =>
            error := Some(InvalidCast("help"));
        }
      }
      if error.Some? {
        SetUsageException(error.value);
      }
    }

    method ProcessArguments(args: seq<string>, fuel: nat) returns (error: Option<ArgError>)
      modifies this
      decreases fuel, 2
      ensures Outcome(values, error) == RunArgs(infos, argFiles, old(values), SplitArgumentNames(args), 0, fuel)
      ensures unchanged(this`usageException, this`shouldShowUsageAndExit)
    {
      var split := SplitArgumentNames(args);
      var i := 0;
      while i != |split|
        invariant 0 <= i <= |split|
        invariant RunArgs(infos, argFiles, values, split, i, fuel)
          == RunArgs(infos, argFiles, old(values), split, 0, fuel)
        invariant unchanged(this`usageException, this`shouldShowUsageAndExit)
        decreases |split| - i
      {
        var nextArgUsed;
        nextArgUsed, error := ProcessSingleArgument(split[i], NextArg(split, i), fuel);
        if error.Some? {
          return;
        }
        if nextArgUsed {
          i := i + 1;
        }
        i := i + 1;
      }
      return None;
    }

    method ProcessArgumentFile(argFilePath: string, fuel: nat) returns (error: Option<ArgError>)
      modifies this
      decreases fuel, 4
      ensures Outcome(values, error) == RunFile(infos, argFiles, old(values), argFilePath, fuel)
      ensures unchanged(this`usageException, this`shouldShowUsageAndExit)
    {
      if argFilePath !in argFiles {
        return Some(ArgumentFileUnreadable(argFilePath));
      }
      var lines := argFiles[argFilePath];
      var k := 0;
      while k < |lines|
        invariant 0 <= k <= |lines|
        invariant RunLines(infos, argFiles, values, lines, k, fuel)
          == RunFile(infos, argFiles, old(values), argFilePath, fuel)
        invariant unchanged(this`usageException, this`shouldShowUsageAndExit)
      {
        var argLine := StripComment(lines[k]);
        var lineArgs := SplitArguments(argLine);
        if lineArgs.Err? {
          return Some(lineArgs.error);
        }
        error := ProcessArguments(lineArgs.value, fuel);
        if error.Some? {
          return;
        }
        k := k + 1;
      }
      return None;
    }

    method ProcessSingleArgument(arg: string, nextArg: Option<string>, fuel: nat)
      returns (nextArgUsed: bool, error: Option<ArgError>)
      modifies this
      decreases fuel, 1
      ensures ArgOutcome(values, nextArgUsed, error) == ArgStep(infos, argFiles, old(values), arg, nextArg, fuel)
      ensures unchanged(this`usageException, this`shouldShowUsageAndExit)
    {
      nextArgUsed := false;
      if arg == "" {
        return false, Some(EmptyArgument);
      }
      if arg[0] == '@' {
        if fuel == 0 {
          return false, Some(ArgumentFileTooDeep(arg[1..]));
        }
        error := ProcessArgumentFile(arg[1..], fuel - 1);
        return;
      }
      match SingleArgument(infos, values, arg, nextArg)
      case Err(e) =>
        error := Some(e);
      case Ok(step) =>
        values := step.values;
        nextArgUsed := step.nextArgUsed;
        error := None;
    }
  }

  /** The required-argument check of ProcessAllArguments. */
  method FindMissingRequired(infos: seq<ArgInfo>, values: map<string, Value>) returns (r: Option<string>)
    ensures r == FirstMissingRequired(infos, values)
  {
    var k := 0;
    while k < |infos|
      invariant 0 <= k <= |infos|
      invariant FirstMissingRequired(infos[k..], values) == FirstMissingRequired(infos, values)
    {
      if !infos[k].hasDefault && infos[k].name !in values {
        return Some(infos[k].name);
      }
      assert infos[k..][1..] == infos[k + 1..];
      k := k + 1;
    }
    return None;
  }

  /**
    The constructor: infos naming a reserved character are rejected with an
    ArgumentException; otherwise every argument is processed and the
    exceptions of processing become the usage exception.
  */
  method New(args: seq<string>, infos: seq<ArgInfo>, argFiles: map<string, seq<string>>)
    returns (r: Result<ProgramArguments, ArgError>)
    ensures FirstReserved(infos).Some? ==> r == Err(FirstReserved(infos).value)
    ensures FirstReserved(infos).None? ==> r.Ok? && fresh(r.value)
    ensures r.Ok? ==> var p := Parsed(infos, argFiles, map[], args);
      r.value.infos == infos && r.value.values == p.values && r.value.usageException == p.error
      && r.value.shouldShowUsageAndExit == (p.error.Some? || p.help)
      && r.value.ExitCode() == (if p.error.Some? then -1 else 0)
  {
    var reserved := CheckReservedNames(infos);
    if reserved.Some? {
      return Err(reserved.value);
    }
    var pa := new ProgramArguments.Init(infos, argFiles);
    pa.ProcessAllArguments(args);
    return Ok(pa);
  }

  /**
    The command-line constructor: the line is split first (an unmatched
    quote throws before anything else) and the program name is dropped.
  */
  method FromCommandLine(cmdLine: string, infos: seq<ArgInfo>, argFiles: map<string, seq<string>>)
    returns (r: Result<ProgramArguments, ArgError>)
    ensures SplitArgumentsOf(cmdLine).Err? ==> r == Err(SplitArgumentsOf(cmdLine).error)
    ensures SplitArgumentsOf(cmdLine).Ok? && FirstReserved(infos).Some? ==> r == Err(FirstReserved(infos).value)
    ensures r.Ok? ==> (SplitArgumentsOf(cmdLine).Ok?
      && var args := SplitArgumentsOf(cmdLine).value;
         r.value.values == Parsed(infos, argFiles, map[], if args == [] then [] else args[1..]).values)
  {
    var split := SplitArguments(cmdLine);
    if split.Err? {
      return Err(split.error);
    }
    var args := if split.value == [] then [] else split.value[1..];
    r := New(args, infos, argFiles);
  }
}
