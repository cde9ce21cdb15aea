# sdu helpers in Dafny

This project models three parts of the `sdu` utility package and proves properties of the model:

- **Path lists** (`sdu/paths.py`), in module `Paths`.
  - `preprocess_paths` normalises a list of directory paths into unix style. It trims each entry and makes any entry that starts with `.` and is longer than one character (`./x`, `..`, `.config`) absolute. It writes the home directory as `~` and turns backslashes into slashes. Drive-letter profile paths `X:/Users/<name>/...` become `~/...`.
  - `postprocess_paths` turns such paths back into paths of the running system. It expands `.` and `~`, globs wildcard entries and keeps only directories.
  - `process_paths` type-checks its argument and chains the two.
  - Module `ProfileRegex` models the one regular expression involved: `([A-Z]:/Users/.*)` with `re.IGNORECASE | re.MULTILINE`, searched with `re.finditer`.
- **Bash completion scripts** (`sdu/autocomplete.py`), in module `Autocomplete`.
  - `generate_bash_autocomplete` builds a completion script from a root command and a list of `command(name, arguments)` records.
  - The script has a root function listing every option and sub-command, one `case` arm per sub-command, one function per command, and a `complete` line.
- **`dict_to_defaultdict`** (`sdu/type_conversions.py`), in module `TypeConversions`.
  - It copies a dictionary into a `defaultdict` and converts nested `dict` values, one level deep.
  - It overwrites those nested values in the caller's dictionary.

Python's own behaviour that the code relies on is modelled in two support modules:

- `PyStrings`: `str.strip`, `str.replace` (including an empty pattern), `str.split` and `str.join`, and the `in` test on substrings.
- `PyValues`: lists, tuples and strings as arguments; the exceptions; and concatenating results of calls that may raise.

The running system is a parameter. `Paths.Env` holds:

- whether `os.name == "nt"`;
- the `HOME` and `USERPROFILE` variables;
- `os.path.abspath`, `os.path.isdir` and `glob.glob` as functions.

Each imperative operation has two parts:

- a method with the source's loops;
- a function that states its result.

The method's postcondition ties the two together. The lemmas state the properties of the function.

Where the code and its documented intent differ, the model follows the code:

- The docstring of `preprocess_paths` documents no exception. The code does raise `ValueError` when a drive-letter match equals no entry, for example when it starts inside an entry, because `list.index` then finds nothing (Paths.PreprocessUnlistedMatch, Paths.PreprocessMidEntry).
- Strict mode of `postprocess_paths` is meant to fail for a missing directory. The code fails for an existing one (see Findings).
- `include_files` is accepted but never read, so it has no effect in the model either.

## Model

| member | source | states |
|---|---|---|
| Autocomplete.Stringify | sdu/autocomplete.py:106-107 | `_stringify_list` raises `ValueError` exactly when its argument is a string rather than a list or tuple |
| Autocomplete.StringifyList | sdu/autocomplete.py:96-116 | the loop returns, for a list or tuple, a space followed by each item in order, and raises `ValueError` for a string |
| Autocomplete.StringifyTuple | sdu/autocomplete.py:106-112 | a tuple is stringified exactly like the list of its items |
| Autocomplete.StringifyWords | sdu/autocomplete.py:109-112 | for items without spaces, splitting the result on spaces gives an empty first word followed by exactly the items |
| Autocomplete.SpacedConcat | sdu/autocomplete.py:109-112 | the word list of two lists put together is the two word lists put together |
| Autocomplete.SpacedIsJoin | sdu/autocomplete.py:109-112 | the word list equals `" ".join([""] + items)` |
| Autocomplete.StringifySample | tests/autocomplete_test.py:4-26 | `["-a","--api","-o","--offline"]` and the equal tuple give `" -a --api -o --offline"`, `[]` gives `""`, a string raises `ValueError` |
| Autocomplete.GenerateRootAutocomplete | sdu/autocomplete.py:37-70 | the root function is its head (the options, a space and the sub-commands as word lists), one arm per sub-command, and the closing lines |
| Autocomplete.AppendArms | sdu/autocomplete.py:53-58 | the loop appends one `case` arm per sub-command, in order |
| Autocomplete.CaseArmsAt | sdu/autocomplete.py:53-58 | the arm of the `k`-th sub-command stands between the arms of those before it and those after it |
| Autocomplete.CaseArmsAppend | sdu/autocomplete.py:53-58 | one more sub-command adds exactly its arm at the end |
| Autocomplete.TopWordsSplit | sdu/autocomplete.py:48 | when no name or option holds a space, the first-position word list splits back into the leading options (`-h --help -v --version` in the script), every command's options in command order, an empty word, then the root and the command names |
| Autocomplete.CommandScript | sdu/autocomplete.py:72-93 | a command's function raises exactly when its arguments are a non-empty string |
| Autocomplete.CommandScriptEmpty | sdu/autocomplete.py:76-79 | a command without arguments offers the word list `" "` |
| Autocomplete.CommandScriptWords | sdu/autocomplete.py:76-77 | a command with a non-empty list or tuple of arguments offers their word list |
| Autocomplete.CollectSubCommands | sdu/autocomplete.py:148-150 | the sub-commands are the root followed by every command's name, in order |
| Autocomplete.CollectArguments | sdu/autocomplete.py:152-155 | the options are `-h --help -v --version` followed by every command's arguments, command by command |
| Autocomplete.AppendOptions | sdu/autocomplete.py:154-155 | the inner loop appends one command's arguments, in order, after those collected so far |
| Autocomplete.AllArgumentsAppend | sdu/autocomplete.py:153-155 | one more command adds exactly its arguments at the end |
| Autocomplete.CommandFunctions | sdu/autocomplete.py:159-160 | the loop appends one function per command in order, and raises with the first command that raises |
| Autocomplete.GenerateBashAutocomplete | sdu/autocomplete.py:119-167 | the script is the root function, the command functions and the `complete` line; a non-list raises `ValueError` |
| Autocomplete.GenerateBashFails | sdu/autocomplete.py:145-146 | generation raises exactly when `commands` is not a list or some command's arguments are a non-empty string |
| Autocomplete.GenerateBashFrame | sdu/autocomplete.py:157-163 | the script starts with the root function's header `_<root>()` and ends with `\ncomplete -o bashdefault -o default -o filenames -F _<root> <root>\n` |
| Autocomplete.CommandFunctionAt | sdu/autocomplete.py:159-160 | the `k`-th command's function stands between the functions of the commands before it and after it |
| Autocomplete.SampleScript | tests/autocomplete_test.py:28-99 | for root `ahd` and the test's three commands, the script is the root function over the test's exact word lists and sub-commands, then the `docs`, `register` (offering `" "`) and `config` functions, then the `complete` line |
| ProfileRegex.FindAllShape | sdu/paths.py:116-119 | every match starts with a letter, `:/`, `Users` in any case and `/`, and holds no newline |
| ProfileRegex.FindAllJoin | sdu/paths.py:116-119 | searching the entries joined by newlines finds each entry's matches, entry by entry: no match spans two entries |
| ProfileRegex.FindAllProfile | sdu/paths.py:116-119 | an entry that starts with the drive-letter prefix is matched as a whole |
| ProfileRegex.MatchesFromLine | sdu/paths.py:116-119 | the matches of a line followed by a newline and more text are the line's matches and then those of the rest |
| Paths.NormalizeEntry | sdu/paths.py:100-111 | the loop body gives the normalised form of one entry |
| Paths.NormalizeEntries | sdu/paths.py:97-114 | the first loop replaces each entry by its normalised form: trimmed, `.x` made absolute, `HOME` written `~` off Windows, `\` turned into `/` |
| Paths.PreprocessPaths | sdu/paths.py:63-128 | the result of the normalisation followed by the rewrite of every regex match through `list.index`, or the `ValueError` that `list.index` raises |
| Paths.IndexOf | sdu/paths.py:121 | `list.index` gives the first position holding the item |
| Paths.IndexOfFirst | sdu/paths.py:121 | a position before which the item does not occur is the one `list.index` gives |
| Paths.PreprocessShape | sdu/paths.py:97-124 | a successful result has one entry per input entry, and none holds a backslash |
| Paths.PreprocessError | sdu/paths.py:119-121 | the only error is the `ValueError` of `list.index` |
| Paths.PreprocessProfiles | sdu/paths.py:116-124 | when every match is a whole entry, exactly the drive-letter entries are rewritten and all others stay as normalised |
| Paths.RewriteProfile | sdu/paths.py:121-124 | `X:/Users/<name>/<rest>` (letter and `Users` in any case) becomes `~/<rest>` |
| Paths.RewriteProfileName | sdu/paths.py:121-124 | `X:/Users/<name>` becomes `~` |
| Paths.RewriteStartsWithTilde | sdu/paths.py:122-124 | every rewritten match starts with `~` |
| Paths.PreprocessUnlistedMatch | sdu/paths.py:116-121 | in any list, a match of the joined entries that equals no normalised entry makes `preprocess_paths` raise the `ValueError` of `list.index` |
| Paths.PreprocessMidEntry | sdu/paths.py:116-121 | a one-entry list whose match starts inside the entry raises the `ValueError` of `list.index` for that match |
| Paths.PreprocessDot | sdu/paths.py:87 | a bare `.` comes back unchanged |
| Paths.NormalizeRelative | sdu/paths.py:103-104 | an entry starting with `.` and longer than one character becomes its absolute path |
| Paths.NormalizeHome | sdu/paths.py:106-108 | off Windows, a leading `HOME` is written `~` |
| Paths.NormalizeTilde | sdu/paths.py:106-108 | an entry starting with `~` skips the `HOME` step |
| Paths.LocalizeEntry | sdu/paths.py:179-193 | the head of the loop trims the entry, turns `/` into `\` on Windows, makes a lone `.` absolute, and expands `~` |
| Paths.DirsOnlyMembers | sdu/paths.py:196-200 | the glob matches kept are exactly those that are directories |
| Paths.DirsOnlyStep | sdu/paths.py:198-200 | each glob match is kept after those before it exactly when it is a directory, so the kept matches stay in glob order |
| Paths.AppendDirs | sdu/paths.py:196-199 | the inner loop appends the glob matches that are directories |
| Paths.IncludeEntry | sdu/paths.py:196-207 | one localised entry appends its glob matches that are directories, or itself when it is a directory; in strict mode a plain entry that is a directory raises `NotADirectoryError` |
| Paths.IncludeDirs | sdu/paths.py:196-207 | everything one entry appends is a directory |
| Paths.PostprocessPaths | sdu/paths.py:130-210 | each entry contributes, in input order, its globbed directories or itself if it is a directory; strict mode raises at the first plain entry that is a directory; `include_files` plays no part |
| Paths.PostprocessDirs | sdu/paths.py:178-207 | everything returned is a directory |
| Paths.PostprocessSilent | sdu/paths.py:201-207 | in silent mode nothing raises |
| Paths.PostprocessStrictFails | sdu/paths.py:201-205 | as written, strict mode raises exactly when some plain entry is an existing directory |
| Paths.StrictRaisesForExisting | sdu/paths.py:203-205 | as written, strict mode raises "Directory was not found on system" for an existing directory |
| Paths.StrictDropsMissing | sdu/paths.py:203-207 | as written, strict mode returns nothing, without raising, for a missing directory |
| Paths.IntendedStrictFails | sdu/paths.py:145-146 | corrected, strict mode raises exactly when some plain entry is not an existing directory |
| Paths.IntendedSilentAgrees | sdu/paths.py:201-207 | in silent mode the corrected and the written function agree |
| Paths.IntendedStrictAgrees | sdu/paths.py:201-207 | corrected, a strict call that does not raise returns what a silent call returns |
| Paths.LocalizeDot | sdu/paths.py:182-187 | a bare `.` becomes `os.path.abspath(".")` |
| Paths.LocalizeDotted | sdu/paths.py:182-186 | off Windows, an entry `./x` comes out as trimmed: the `os.curdir` rebuild changes nothing |
| Paths.LocalizeNoTilde | sdu/paths.py:189-193 | no `~` is left once it is expanded to a home directory without `~` |
| Paths.LocalizeWindows | sdu/paths.py:180-181 | on Windows no `/` is left when neither `USERPROFILE` nor the current directory holds one |
| Paths.ProcessPaths | sdu/paths.py:212-248 | a string raises `ValueError`; a list or tuple is preprocessed and then postprocessed in silent mode |
| Paths.ProcessFails | sdu/paths.py:243-247 | `process_paths` raises exactly for a string or a failing preprocessing, never `NotADirectoryError` |
| Paths.ProcessDirs | sdu/paths.py:243-248 | everything `process_paths` returns is a directory |
| TypeConversions.DictToDefaultDict | sdu/type_conversions.py:34-82 | the result is a `defaultdict` with the given factory holding the converted pairs in input order, and the input dictionary now holds the same converted pairs |
| TypeConversions.ConvertInPlace | sdu/type_conversions.py:73-79 | a `dict` value is replaced in the input by a `defaultdict` copy; other values stay |
| TypeConversions.CopyDict | sdu/type_conversions.py:75-77 | the inner loop copies every pair in order |
| TypeConversions.AssignGet | sdu/type_conversions.py:77-80 | key assignment keeps the keys distinct and makes the key map to the value |
| TypeConversions.LookupConverted | sdu/type_conversions.py:72-80 | the result holds exactly the input's keys; a `dict` value becomes a `defaultdict` with the same pairs, inner values untouched; any other value is unchanged |
| TypeConversions.MissingKeyDefault | sdu/type_conversions.py:34 | a missing key looked up in the result yields the factory's value and is stored |
| TypeConversions.InnerMissingKeyDefault | sdu/type_conversions.py:75 | a missing key looked up in a converted inner dictionary yields the same factory's value |
| TypeConversions.ConvertedIdempotent | sdu/type_conversions.py:73 | converting the converted pairs again changes nothing |
| TypeConversions.SampleConverted | tests/type_conversion_test.py:16-41 | the test's user dictionary converts to `Name`, then `Phone` as a `defaultdict` with the same factory holding the phone's pairs, then `Age` |
| TypeConversions.SampleConversion | tests/type_conversion_test.py:24-42 | as a mapping, the converted user dictionary equals the `defaultdict` the test builds by assigning `Name`, `Age` and then `Phone` |

## Left out

- I/O and logging: every `logging` call is left out. `add_to_path` is not part of this model, because it writes the registry and `~/.bashrc` and runs shell commands.
- `os.getenv` returning `None` is not modelled: `HOME` and `USERPROFILE` are plain strings. `os.path.abspath`, `os.path.isdir` and `glob.glob` are uninterpreted functions of `Paths.Env`.
- ProfileRegex.FindAll: case folding covers the ASCII letters only. Python's Unicode folding (for example `ſ` matching `s`) is not modelled.
- Autocomplete.SampleScript: it states the expected script through the template constants and the word lists, not as the test's single literal. Equating strings of several hundred characters is beyond the solver's budget.
- Paths.PreprocessProfiles: it covers lists in which every match is a whole entry. Other lists are covered by Paths.PreprocessUnlistedMatch (a match that equals no entry raises), Paths.PreprocessMidEntry and the general contract of Paths.PreprocessPaths.
- TypeConversions.DictToDefaultDict: inner dictionaries are values. Aliasing between the input and the returned `defaultdict` is not modelled; their sharing shows only as the same converted pairs in both. A default factory is represented by the value it returns. Keys are strings.
- `type(x) == list or tuple`: arguments are modelled as a list, a tuple or a string, the cases the code and its tests distinguish. Other argument types are left out.

## Findings

| source | as written | input that shows it | evidently intended | confidence | as-written member | corrected member |
|---|---|---|---|---|---|---|
| sdu/paths.py:201-205 | with `silent=False`, `NotADirectoryError("Directory was not found on system: …")` is raised when `os.path.isdir(directory)` is true | `postprocess_paths(["/tmp"], silent=False)` on a system where `/tmp` exists raises; with a missing directory it returns `[]` | raise when the plain entry is not a directory, as the message and the `silent` parameter's description say | high (not executed) | Paths.StrictRaisesForExisting, Paths.StrictDropsMissing, Paths.PostprocessStrictFails | Paths.PostprocessIntended, Paths.IntendedStrictFails, Paths.IntendedStrictAgrees |
