/** Bash completion scripts for a command-line program: a root function
    `_<root>` completing the first word, one `_<root>_<name>` function per
    sub-command completing its options, and the `complete` line binding them. */
module Autocomplete {
  import opened PyValues
  import opened PyStrings

  /** The `command` record: a sub-command and the options it accepts. */
  datatype Command = Command(name: string, arguments: PySeq<string>)

  /** The options every root command accepts. */
  const HelpFlags: seq<string> := ["-h", "--help", "-v", "--version"]

  const StringifyTypeMessage := "Expected list of arguments, got string instead"
  const CommandsTypeMessage := "Expected list of commands, got string instead"

  // ---------------------------------------------------------------------------
  // _stringify_list

  /** No word contains a space. */
  predicate NoSpaces(words: seq<string>) {
    forall i :: 0 <= i < |words| ==> ' ' !in words[i]
  }

  lemma NoSpacesConcat(xs: seq<string>, ys: seq<string>)
    requires NoSpaces(xs) && NoSpaces(ys)
    ensures NoSpaces(xs + ys)
  {
    forall i | |xs| <= i < |xs + ys| ensures ' ' !in (xs + ys)[i] {
      assert (xs + ys)[i] == ys[i - |xs|];
    }
  }

  /** The word list handed to `compgen`: a space before every word. */
  function Spaced(words: seq<string>): string {
    if words == [] then "" else " " + words[0] + Spaced(words[1..])
  }

  lemma {:induction false} SpacedAppend(words: seq<string>, w: string)
    ensures Spaced(words + [w]) == Spaced(words) + " " + w
    decreases |words|
  {
    if words != [] {
      assert (words + [w])[1..] == words[1..] + [w];
      SpacedAppend(words[1..], w);
    }
  }

  /** The word list of two lists put together is the two word lists put together. */
  lemma {:induction false} SpacedConcat(xs: seq<string>, ys: seq<string>)
    ensures Spaced(xs + ys) == Spaced(xs) + Spaced(ys)
    decreases |xs|
  {
    if xs == [] {
      assert xs + ys == ys;
    } else {
      assert (xs + ys)[1..] == xs[1..] + ys;
      SpacedConcat(xs[1..], ys);
    }
  }

  /** The word list is the words joined by spaces after an empty first word. */
  lemma {:induction false} SpacedIsJoin(words: seq<string>)
    ensures Spaced(words) == Join([""] + words, ' ')
    decreases |words|
  {
    if words != [] {
      var w := words[0];
      var rest := words[1..];
      assert Join([""] + words, ' ') == " " + Join(words, ' ') by {
        assert ([""] + words)[1..] == words;
      }
      SpacedIsJoin(rest);
      if rest != [] {
        assert Spaced(rest) == " " + Join(rest, ' ') by {
          assert ([""] + rest)[1..] == rest;
        }
        assert Join(words, ' ') == w + " " + Join(rest, ' ');
        assert " " + w + (" " + Join(rest, ' ')) == " " + (w + " " + Join(rest, ' '));
      }
    }
  }

  /** Splitting the word list on spaces gives back the words (after the empty
      word before the leading space), provided no word contains a space. */
  lemma SpacedWords(words: seq<string>)
    requires NoSpaces(words)
    ensures Split(Spaced(words), ' ') == [""] + words
  {
    SpacedIsJoin(words);
    SplitJoin([""] + words, ' ');
  }

  /** `_stringify_list(arguments)`. */
  function Stringify(arguments: PySeq<string>): (r: Result<string>)
    ensures r.Err? <==> arguments.PyStr?
  {
    if arguments.PyStr? then Err(ValueError(StringifyTypeMessage))
    else Ok(Spaced(arguments.items))
  }

  /** A tuple is stringified like the list with the same items. */
  lemma StringifyTuple(items: seq<string>)
    ensures Stringify(PyTuple(items)) == Stringify(PyList(items))
  {
  }

  /** When no argument contains a space, splitting the stringified list on
      spaces gives back the arguments after one empty word: every argument
      appears, in order, with exactly one space before it. */
  lemma StringifyWords(arguments: PySeq<string>)
    requires !arguments.PyStr? && NoSpaces(arguments.items)
    ensures Stringify(arguments).Ok?
    ensures Split(Stringify(arguments).value, ' ') == [""] + arguments.items
  {
    SpacedWords(arguments.items);
  }

  /** `_stringify_list`, accumulating the string in a loop. */
  method StringifyList(arguments: PySeq<string>) returns (r: Result<string>)
    ensures r == Stringify(arguments)
  {
    if arguments.PyStr? {
      return Err(ValueError(StringifyTypeMessage));
    }
    var words := arguments.items;
    var stringified := "";
    for i := 0 to |words|
      invariant stringified == Spaced(words[..i])
    {
      SpacedAppend(words[..i], words[i]);
      assert words[..i + 1] == words[..i] + [words[i]];
      stringified := stringified + " " + words[i];
    }
    assert words[..|words|] == words;
    return Ok(stringified);
  }

  // ---------------------------------------------------------------------------
  // _generate_root_autocomplete

  /** The root function up to its `case` arms; `words` is what `compgen -fW` offers. */
  function RootHead(root: string, words: string): string {
    "_" + root + RootOpen + words + RootClose
  }

  /** The root function's text between its name and the first word list. */
  const RootOpen := "()\n    {\n        local cur\n        cur=\"${COMP_WORDS[COMP_CWORD]}\"\n\n        if [ $COMP_CWORD -eq 1 ]; then\n            COMPREPLY=( $( compgen -fW '"
  /** The root function's text from the word list to the first `case` arm. */
  const RootClose := "' -- $cur) )\n        else\n            case ${COMP_WORDS[1]} in\n    "

  /** The `case` arm dispatching sub-command `sub` to `_<root>_<sub>`. */
  function Arm(root: string, sub: string): string {
    "\n                " + sub + ")\n                _" + root + "_" + sub + "\n            ;;\n        "
  }

  const RootTail := "\n            esac\n\n        fi\n    }\n    "

  /** One arm per sub-command, in order. */
  function CaseArms(root: string, subs: seq<string>): string {
    if subs == [] then "" else Arm(root, subs[0]) + CaseArms(root, subs[1..])
  }

  lemma {:induction false} CaseArmsAppend(root: string, subs: seq<string>, sub: string)
    ensures CaseArms(root, subs + [sub]) == CaseArms(root, subs) + Arm(root, sub)
    decreases |subs|
  {
    var last := Arm(root, sub);
    if subs == [] {
      assert CaseArms(root, [sub]) == last + CaseArms(root, []);
      assert [] + [sub] == [sub];
      assert last + "" == last;
      assert "" + last == last;
    } else {
      var first := Arm(root, subs[0]);
      var t := subs + [sub];
      assert t[0] == subs[0] && t[1..] == subs[1..] + [sub];
      CaseArmsAppend(root, subs[1..], sub);
      var rest := CaseArms(root, subs[1..]);
      assert CaseArms(root, t) == first + (rest + last);
      assert first + (rest + last) == (first + rest) + last;
    }
  }

  /** The arm of the `k`-th sub-command sits between the arms of those before
      it and those after it. */
  lemma {:induction false} CaseArmsAt(root: string, subs: seq<string>, k: nat)
    requires k < |subs|
    ensures CaseArms(root, subs) == CaseArms(root, subs[..k]) + Arm(root, subs[k]) + CaseArms(root, subs[k + 1..])
    decreases k
  {
    var first := Arm(root, subs[0]);
    var tail := subs[1..];
    if k == 0 {
      assert CaseArms(root, subs[..0]) == "";
      assert "" + first == first;
    } else {
      CaseArmsAt(root, tail, k - 1);
      var before := CaseArms(root, tail[..k - 1]);
      var mid := Arm(root, subs[k]);
      var after := CaseArms(root, subs[k + 1..]);
      assert tail[k - 1] == subs[k] && tail[k - 1 + 1..] == subs[k + 1..];
      assert CaseArms(root, subs[..k]) == first + before by {
        assert subs[..k][0] == subs[0] && subs[..k][1..] == tail[..k - 1];
      }
      RegroupFirst(first, before, mid, after);
    }
  }

  lemma RegroupFirst(a: string, b: string, c: string, d: string)
    ensures a + (b + c + d) == a + b + c + d
  {
    assert a + (b + c + d) == a + ((b + c) + d) == (a + (b + c)) + d == ((a + b) + c) + d;
  }

  /** The words `compgen -fW` offers at the first position: the options, a
      space, then the sub-commands. */
  function TopWords(subs: seq<string>, arguments: seq<string>): string {
    Spaced(arguments) + " " + Spaced(subs)
  }

  /** What `_generate_root_autocomplete(root, subs, arguments)` returns. */
  function RootScript(root: string, subs: seq<string>, arguments: seq<string>): string {
    RootHead(root, TopWords(subs, arguments)) + CaseArms(root, subs) + RootTail
  }

  /** `_generate_root_autocomplete`: the header with both word lists, one
      arm per sub-command appended in a loop, then the tail. */
  method GenerateRootAutocomplete(root: string, commands: seq<string>, arguments: seq<string>)
    returns (text: string)
    ensures text == RootScript(root, commands, arguments)
  {
    var argumentWords := StringifyList(PyList(arguments));
    var commandWords := StringifyList(PyList(commands));
    text := RootHead(root, argumentWords.value + " " + commandWords.value);
    text := AppendArms(text, root, commands);
    text := text + RootTail;
  }

  lemma CaseArmsStep(root: string, subs: seq<string>, i: nat)
    requires i < |subs|
    ensures CaseArms(root, subs[..i + 1]) == CaseArms(root, subs[..i]) + Arm(root, subs[i])
  {
    CaseArmsAppend(root, subs[..i], subs[i]);
    assert subs[..i + 1] == subs[..i] + [subs[i]];
  }

  /** The loop of `_generate_root_autocomplete` appending the `case` arms. */
  method AppendArms(head: string, root: string, commands: seq<string>) returns (text: string)
    ensures text == head + CaseArms(root, commands)
  {
    text := head;
    assert head + CaseArms(root, commands[..0]) == head + "" == head;
    for i := 0 to |commands|
      invariant text == head + CaseArms(root, commands[..i])
    {
      ghost var done := CaseArms(root, commands[..i]);
      var arm := Arm(root, commands[i]);
      text := text + arm;
      assert text == head + (done + arm);
      CaseArmsStep(root, commands, i);
    }
    assert commands[..|commands|] == commands;
  }

  // ---------------------------------------------------------------------------
  // _generate_command_autocomplete

  /** The completion function of one sub-command offering `words`. */
  function CommandText(root: string, name: string, words: string): string {
    "_" + root + "_" + name + CommandOpen + words + CommandClose
  }

  /** A sub-command function's text between its name and its word list. */
  const CommandOpen := "()\n    {\n        local cur\n        cur=\"${COMP_WORDS[COMP_CWORD]}\"\n\n        if [ $COMP_CWORD -ge 2 ]; then\n            COMPREPLY=( $( compgen -W '"
  /** A sub-command function's text after its word list. */
  const CommandClose := "' -- $cur) )\n        fi\n    }\n    "

  /** `_generate_command_autocomplete(root, name, arguments)`: an empty
      argument collection offers the single word list `" "`. */
  function CommandScript(root: string, name: string, arguments: PySeq<string>): (r: Result<string>)
    ensures r.Err? <==> arguments.PyStr? && arguments.text != []
  {
    if Truthy(arguments) then
      match Stringify(arguments)
      case Err(e) => Err(e)
      case Ok(words) => Ok(CommandText(root, name, words))
    else Ok(CommandText(root, name, " "))
  }

  // ---------------------------------------------------------------------------
  // generate_bash_autocomplete

  function Names(commands: seq<Command>): (r: seq<string>)
    ensures |r| == |commands|
    ensures forall i :: 0 <= i < |commands| ==> r[i] == commands[i].name
  {
    seq(|commands|, i requires 0 <= i < |commands| => commands[i].name)
  }

  /** Every command's options, command by command, in order. */
  function AllArguments(commands: seq<Command>): seq<string> {
    if commands == [] then [] else Iterate(commands[0].arguments) + AllArguments(commands[1..])
  }

  lemma {:induction false} AllArgumentsAppend(commands: seq<Command>, c: Command)
    ensures AllArguments(commands + [c]) == AllArguments(commands) + Iterate(c.arguments)
    decreases |commands|
  {
    if commands != [] {
      assert (commands + [c])[1..] == commands[1..] + [c];
      AllArgumentsAppend(commands[1..], c);
    }
  }

  /** The sub-command functions' results, one per command in order. */
  function Scripts(root: string, commands: seq<Command>): (r: seq<Result<string>>)
    ensures |r| == |commands|
    ensures forall i :: 0 <= i < |commands| ==> r[i] == CommandScript(root, commands[i].name, commands[i].arguments)
  {
    seq(|commands|, i requires 0 <= i < |commands| => CommandScript(root, commands[i].name, commands[i].arguments))
  }

  /** The final line binding `_<root>` to completions of `<root>`. */
  function Trailer(root: string): string {
    "\ncomplete -o bashdefault -o default -o filenames -F _" + root + " " + root + "\n"
  }

  /** What `generate_bash_autocomplete(root, commands)` returns or raises. */
  function GenerateBash(root: string, commands: PySeq<Command>): Result<string> {
    if !commands.PyList? then Err(ValueError(CommandsTypeMessage))
    else
      var cs := commands.items;
      match ConcatAll(Scripts(root, cs))
      case Err(e) => Err(e)
      case Ok(body) =>
        Ok(RootScript(root, [root] + Names(cs), HelpFlags + AllArguments(cs)) + body + Trailer(root))
  }

  /** The first loop of `generate_bash_autocomplete`: the root, then every
      command's name. */
  method CollectSubCommands(root: string, cs: seq<Command>) returns (subCommands: seq<string>)
    ensures subCommands == [root] + Names(cs)
  {
    subCommands := [root];
    for i := 0 to |cs|
      invariant subCommands == [root] + Names(cs[..i])
    {
      assert Names(cs[..i + 1]) == Names(cs[..i]) + [cs[i].name];
      subCommands := subCommands + [cs[i].name];
    }
    assert cs[..|cs|] == cs;
  }

  lemma AllArgumentsStep(cs: seq<Command>, i: nat)
    requires i < |cs|
    ensures AllArguments(cs[..i + 1]) == AllArguments(cs[..i]) + Iterate(cs[i].arguments)
  {
    AllArgumentsAppend(cs[..i], cs[i]);
    assert cs[..i + 1] == cs[..i] + [cs[i]];
  }

  /** The nested loop of `generate_bash_autocomplete`: the help options, then
      every argument of every command. */
  method CollectArguments(cs: seq<Command>) returns (arguments: seq<string>)
    ensures arguments == HelpFlags + AllArguments(cs)
  {
    arguments := HelpFlags;
    ghost var help := arguments;
    assert help + AllArguments(cs[..0]) == help + [] == help;
    for i := 0 to |cs|
      invariant arguments == help + AllArguments(cs[..i])
    {
      var options := Iterate(cs[i].arguments);
      ghost var done := AllArguments(cs[..i]);
      arguments := AppendOptions(arguments, options);
      assert arguments == help + (done + options);
      AllArgumentsStep(cs, i);
    }
    assert cs[..|cs|] == cs;
  }

  /** The inner loop of `generate_bash_autocomplete`: appends one command's
      options in order. */
  method AppendOptions(arguments: seq<string>, options: seq<string>) returns (r: seq<string>)
    ensures r == arguments + options
  {
    r := arguments;
    assert arguments + options[..0] == arguments + [] == arguments;
    for j := 0 to |options|
      invariant r == arguments + options[..j]
    {
      assert options[..j + 1] == options[..j] + [options[j]];
      ghost var done := options[..j];
      r := r + [options[j]];
      assert r == arguments + (done + [options[j]]);
    }
    assert options[..|options|] == options;
  }

  /** The last loop of `generate_bash_autocomplete`: one function per command,
      appended in order; the first that raises ends the call. */
  method CommandFunctions(root: string, cs: seq<Command>) returns (r: Result<string>)
    ensures r == ConcatAll(Scripts(root, cs))
  {
    var text := "";
    ghost var parts := Scripts(root, cs);
    for i := 0 to |cs|
      invariant ConcatAll(parts[..i]) == Ok(text)
    {
      var part := CommandScript(root, cs[i].name, cs[i].arguments);
      ConcatAllStep(parts, i, text);
      if part.Err? {
        return Err(part.error);
      }
      text := text + part.value;
    }
    assert parts[..|cs|] == parts;
    return Ok(text);
  }

  /** `generate_bash_autocomplete(root, commands)`. */
  method GenerateBashAutocomplete(root: string, commands: PySeq<Command>) returns (r: Result<string>)
    ensures r == GenerateBash(root, commands)
  {
    if !commands.PyList? {
      return Err(ValueError(CommandsTypeMessage));
    }
    var cs := commands.items;
    var subCommands := CollectSubCommands(root, cs);
    var arguments := CollectArguments(cs);
    var text := GenerateRootAutocomplete(root, subCommands, arguments);
    var functions := CommandFunctions(root, cs);
    if functions.Err? {
      return Err(functions.error);
    }
    text := text + functions.value;
    text := text + Trailer(root);
    return Ok(text);
  }

  // ---------------------------------------------------------------------------
  // Properties of the generated script

  /** The script fails exactly when `commands` is not a list, or when some
      command's arguments are a non-empty string. */
  lemma GenerateBashFails(root: string, commands: PySeq<Command>)
    ensures GenerateBash(root, commands).Err? <==>
              !commands.PyList?
              || exists i :: 0 <= i < |commands.items| && commands.items[i].arguments.PyStr?
                             && commands.items[i].arguments.text != []
  {
    if commands.PyList? {
      var cs := commands.items;
      ConcatAllFails(Scripts(root, cs));
    }
  }

  /** A generated script starts with the root function's header and ends with
      the `complete` line for the root command. */
  lemma GenerateBashFrame(root: string, commands: PySeq<Command>)
    requires GenerateBash(root, commands).Ok?
    ensures var text := GenerateBash(root, commands).value;
            && "_" + root + RootOpen <= text
            && |Trailer(root)| <= |text|
            && text[|text| - |Trailer(root)|..] == Trailer(root)
  {
    var cs := commands.items;
    var subs := [root] + Names(cs);
    ScriptFrame(root, TopWords(subs, HelpFlags + AllArguments(cs)), CaseArms(root, subs),
                ConcatAll(Scripts(root, cs)).value);
  }

  lemma ScriptFrame(root: string, words: string, arms: string, body: string)
    ensures var text := RootHead(root, words) + arms + RootTail + body + Trailer(root);
            && "_" + root + RootOpen <= text
            && |Trailer(root)| <= |text|
            && text[|text| - |Trailer(root)|..] == Trailer(root)
  {
    FrameParts("_" + root + RootOpen, words, RootClose, arms, RootTail, body, Trailer(root));
  }

  /** A text made of seven parts starts with the first and ends with the last. */
  lemma FrameParts(start: string, words: string, close: string, arms: string, tail: string,
                   body: string, trailer: string)
    ensures var text := start + words + close + arms + tail + body + trailer;
            && start <= text
            && |trailer| <= |text|
            && text[|text| - |trailer|..] == trailer
  {
    var t1 := start + words;
    var t2 := t1 + close;
    var t3 := t2 + arms;
    var t4 := t3 + tail;
    var t5 := t4 + body;
    PrefixAppend(start, words);
    PrefixAppend(t1, close);
    PrefixAppend(t2, arms);
    PrefixAppend(t3, tail);
    PrefixAppend(t4, body);
    PrefixAppend(t5, trailer);
    assert (t5 + trailer)[|t5|..] == trailer;
  }

  lemma PrefixAppend(a: string, b: string)
    ensures a <= a + b
  {
  }

  /** Split on spaces, the words `compgen -fW` offers at the first position are
      the leading options (`HelpFlags` in the script), every command's options
      in command order, an empty word, the root and the command names in order
      (provided no word contains a space). */
  lemma TopWordsSplit(root: string, flags: seq<string>, commands: seq<Command>)
    requires ' ' !in root && NoSpaces(flags) && NoSpaces(Names(commands)) && NoSpaces(AllArguments(commands))
    ensures Split(TopWords([root] + Names(commands), flags + AllArguments(commands)), ' ')
            == [""] + (flags + AllArguments(commands)) + [""] + ([root] + Names(commands))
  {
    var options := flags + AllArguments(commands);
    var subs := [root] + Names(commands);
    assert NoSpaces(options) by {
      NoSpacesConcat(flags, AllArguments(commands));
    }
    assert NoSpaces(subs) by {
      assert NoSpaces([root]) by { assert [root][0] == root; }
      NoSpacesConcat([root], Names(commands));
    }
    TopWordsSplitGeneral(subs, options);
  }

  /** The two word lists joined by one space split back into both lists with
      an empty word before each. */
  lemma TopWordsSplitGeneral(subs: seq<string>, options: seq<string>)
    requires NoSpaces(subs) && NoSpaces(options)
    ensures Split(TopWords(subs, options), ' ') == [""] + options + [""] + subs
  {
    var words := options + [""] + subs;
    assert TopWords(subs, options) == Spaced(words) by {
      SpacedConcat(options, [""] + subs);
      assert options + ([""] + subs) == words;
      assert Spaced([""] + subs) == " " + "" + Spaced(subs);
    }
    assert NoSpaces(words) by {
      NoSpacesConcat(options, [""]);
      NoSpacesConcat(options + [""], subs);
    }
    SpacedWords(words);
  }

  /** A command whose arguments are empty (an empty list, tuple or string)
      offers the single word list `" "`. */
  lemma CommandScriptEmpty(root: string, name: string, arguments: PySeq<string>)
    requires Iterate(arguments) == []
    ensures CommandScript(root, name, arguments) == Ok(CommandText(root, name, " "))
  {
  }

  /** A command with a non-empty list or tuple of arguments offers exactly
      those arguments, each after one space. */
  lemma CommandScriptWords(root: string, name: string, arguments: PySeq<string>)
    requires !arguments.PyStr? && arguments.items != []
    ensures CommandScript(root, name, arguments) == Ok(CommandText(root, name, Spaced(arguments.items)))
  {
  }

  /** In a generated script, the function of the `k`-th command follows the
      functions of the commands before it and precedes those after it. */
  lemma CommandFunctionAt(root: string, commands: seq<Command>, k: nat)
    requires k < |commands| && GenerateBash(root, PyList(commands)).Ok?
    ensures var parts := Scripts(root, commands);
            && parts[k] == CommandScript(root, commands[k].name, commands[k].arguments)
            && ConcatAll(parts[..k]).Ok? && parts[k].Ok? && ConcatAll(parts[k + 1..]).Ok?
            && ConcatAll(parts).value
               == ConcatAll(parts[..k]).value + parts[k].value + ConcatAll(parts[k + 1..]).value
  {
    ConcatAllAt(Scripts(root, commands), k);
  }

  /** The project's own examples for `_stringify_list`: a list and the equal
      tuple give the space-prefixed words, an empty list gives the empty
      string, a string raises `ValueError`. */
  lemma StringifySample()
    ensures Stringify(PyList(["-a", "--api", "-o", "--offline"])) == Ok(" -a --api -o --offline")
    ensures Stringify(PyTuple(["-a", "--api", "-o", "--offline"])) == Ok(" -a --api -o --offline")
    ensures Stringify(PyList([])) == Ok("")
    ensures Stringify(PyStr(" -a --api -o --offline")) == Err(ValueError(StringifyTypeMessage))
  {
    SpacedFour("-a", "--api", "-o", "--offline");
    assert " " + "-a" + " " + "--api" + " " + "-o" + " " + "--offline" == " -a --api -o --offline" by {
      assert " " + "-a" == " -a";
      assert " -a" + " " == " -a ";
      assert " -a " + "--api" == " -a --api";
      assert " -a --api" + " " == " -a --api ";
      assert " -a --api " + "-o" == " -a --api -o";
      assert " -a --api -o" + " " == " -a --api -o ";
      assert " -a --api -o " + "--offline" == " -a --api -o --offline";
    }
  }

  lemma SpacedFour(a: string, b: string, c: string, d: string)
    ensures Spaced([a, b, c, d]) == " " + a + " " + b + " " + c + " " + d
  {
    SpacedCons(d, []);
    assert [d] + [] == [d];
    SpacedCons(c, [d]);
    assert [c] + [d] == [c, d];
    SpacedCons(b, [c, d]);
    assert [b] + [c, d] == [b, c, d];
    SpacedCons(a, [b, c, d]);
    assert [a] + [b, c, d] == [a, b, c, d];
    assert " " + a + (" " + b + (" " + c + (" " + d + ""))) == " " + a + " " + b + " " + c + " " + d;
  }

  lemma SpacedCons(w: string, rest: seq<string>)
    ensures Spaced([w] + rest) == " " + w + Spaced(rest)
  {
    assert ([w] + rest)[1..] == rest;
  }

  /** The commands of the project's own example: `docs`, `register` (no
      options) and `config`. */
  const SampleCommands: seq<Command> := [
    Command("docs", PyList(["-a", "--api", "-o", "--offline"])),
    Command("register", PyList([])),
    Command("config", PyList(["-e", "--export", "-i", "--import"]))
  ]

  /** For root `ahd` and the sample commands, the script offers the help
      options and the three commands' options, then the root and the three
      names, at the first position; it has an arm for each of these and one
      function per command, `register`'s offering `" "`. */
  lemma SampleScript()
    ensures GenerateBash("ahd", PyList(SampleCommands)) == Ok(
              RootScript("ahd", ["ahd", "docs", "register", "config"],
                         ["-h", "--help", "-v", "--version", "-a", "--api", "-o", "--offline",
                          "-e", "--export", "-i", "--import"])
              + (CommandText("ahd", "docs", Spaced(["-a", "--api", "-o", "--offline"]))
                 + (CommandText("ahd", "register", " ")
                    + (CommandText("ahd", "config", Spaced(["-e", "--export", "-i", "--import"])) + "")))
              + Trailer("ahd"))
  {
    var cs := SampleCommands;
    SampleLists();
    SampleFunctions();
    assert GenerateBash("ahd", PyList(cs))
           == Ok(RootScript("ahd", ["ahd"] + Names(cs), HelpFlags + AllArguments(cs))
                 + ConcatAll(Scripts("ahd", cs)).value + Trailer("ahd"));
  }

  lemma SampleLists()
    ensures ["ahd"] + Names(SampleCommands) == ["ahd", "docs", "register", "config"]
    ensures HelpFlags + AllArguments(SampleCommands)
            == ["-h", "--help", "-v", "--version", "-a", "--api", "-o", "--offline",
                "-e", "--export", "-i", "--import"]
  {
    var cs := SampleCommands;
    assert Names(cs) == ["docs", "register", "config"];
    assert AllArguments(cs) == ["-a", "--api", "-o", "--offline", "-e", "--export", "-i", "--import"] by {
      assert cs[1..][1..][1..] == [];
      assert AllArguments(cs[1..][1..]) == ["-e", "--export", "-i", "--import"];
    }
  }

  lemma SampleFunctions()
    ensures ConcatAll(Scripts("ahd", SampleCommands))
            == Ok(CommandText("ahd", "docs", Spaced(["-a", "--api", "-o", "--offline"]))
                  + (CommandText("ahd", "register", " ")
                     + (CommandText("ahd", "config", Spaced(["-e", "--export", "-i", "--import"])) + "")))
  {
    var cs := SampleCommands;
    var parts := Scripts("ahd", cs);
    CommandScriptWords("ahd", "docs", cs[0].arguments);
    CommandScriptEmpty("ahd", "register", cs[1].arguments);
    CommandScriptWords("ahd", "config", cs[2].arguments);
    var docs := CommandText("ahd", "docs", Spaced(["-a", "--api", "-o", "--offline"]));
    var register := CommandText("ahd", "register", " ");
    var config := CommandText("ahd", "config", Spaced(["-e", "--export", "-i", "--import"]));
    assert parts[0] == Ok(docs) && parts[1] == Ok(register) && parts[2] == Ok(config);
    assert parts[1..][1..][1..] == [];
    assert ConcatAll(parts[1..][1..]) == Ok(config + "");
    assert ConcatAll(parts[1..]) == Ok(register + (config + ""));
  }
}
