# hail-framework/console — a verified model of its core

This project models the core of the PHP console library hail-framework/console in Dafny and proves properties of that model.

- **Option scanner.** `OptionParser::parse` preprocesses `argv`. A `--` ends option processing. A known `--name=value` token is split into two tokens. The scanner then walks the tokens after the program name:
  - a flag cluster `-abc` is spliced into `-a -b -c`;
  - every option met is looked up in the option collection and consumes its value by kind (flag, incremental, required, multiple, optional);
  - every other token becomes a positional argument;
  - defaults are filled in at the end.
- **Option results and tokens.** `OptionResult` records the options met, with camelCase-to-kebab-case lookup, and the arguments. `Option\Argument` classifies raw tokens.
- **Command tree.** Commands register subcommands and aliases. They resolve a token to a command, list the visible commands and compute the name trace and signature. They declare positional arguments from spec strings `name[+|?][=type]` and keep extension hooks. `executeWrapper` checks, validates and converts the given values before `execute` runs.
- **Dispatch.** `Application::run` initialises the application and parses the options after the script name. It then descends the command tree one token at a time, each command parsing its own options. Finally it drives the prepare, execute and finish stages in a fixed order. The log level comes from the debug, verbose and quiet options or from the configuration.
- **Text helpers.** The logger's threshold and indent, and its per-message decision. The indented text `Buffer`. A table cell's overflow handling and padding. The shell-completion quoting helper `Util::qq`.

## How the model is organised

One module per source file, plus `Base` (optional values, results carrying the exceptions, PHP values and array keys) and `Strings` (the PHP string functions used: `str_repeat`, `explode`, `implode`, `addcslashes`, `addslashes`, `strtolower`).

- Code that changes objects becomes classes: `OptionParser`, `OptionResult`, `Option\Argument`, `Argument`, `Command`, `Application`, `Logger`, `Buffer` and `CellAttribute`. Their fields are updated by methods with `modifies` clauses.
- The parser's `for` loop, the dispatch `while` loop, `executeWrapper`'s validation loop and the buffer's line loops are `while`/`for` loops. Each is proved against a specification function: `ScanFrom`, `Descend`, `Bind`, `LinesText`. The properties the source promises are then proved about those functions.
- `OptionParser::parse` returns a fresh result that holds exactly what `ParseSpec` describes.
- `Application::run` makes the calls that `Expected` lists, in that order.
- Exceptions are `Failure(...)` values tagged with the class the source throws. Two PHP `TypeError`s that declared types raise in the source (a null `$next` in `consumeOptionToken`, a null guess from `guessCommand`) are modelled by the `...AsWritten` members of "## Findings"; the main paths (`Parse`, `Run`, `NewArgument`, `AddArgument`) use the corrected definitions.
- A `string` is a `seq<char>` in which one character stands for one byte of the PHP string.
- Collaborators whose code is not part of this model become parameters, each with only the behaviour the core relies on:
  - the continuous option parser is the `Scanner`, and `ScannerOk` states what is assumed of it;
  - the corrector is a function returning an optional guess;
  - `ValueType::test` and `parse` become `TypeTest`;
  - the option collection's `add` is a function parameter;
  - an extension's `isAvailable` result is a field of `Extension`.

## Model

| member | source | states |
|---|---|---|
| Base.Reverse | src/CommandTrait.php:381 | `array_reverse`: same length, element k is element n-1-k of the input |
| Base.NormalizeKey | src/CommandTrait.php:521-535 | the key PHP uses for `$array[$k]`: an integer key is kept, and a string key is kept unless it is converted to an integer; which strings are converted is `Strings.NormalizeDecimalKey` and `Strings.IntegerKeyIsDecimal` |
| Base.IntegerKeyOf | src/CommandTrait.php:521-535 | a string converted to an integer key always lies in PHP's 64-bit range |
| Base.NormalizeKeyIdempotent | src/CommandTrait.php:521-535 | normalising a key twice gives the same key as once |
| Base.NumericNameIsIntegerKey | src/CommandTrait.php:521-535 | "12" and "-7" become integer keys; "012" and "-0" stay strings |
| Strings.Repeat | src/Buffer.php:82-85 | `str_repeat` output has length \|s\| times n |
| Strings.RepeatChar | src/Component/Table/CellAttribute.php:107-119 | repeating one character n times gives n copies of that character only |
| Strings.RepeatAdd | src/Buffer.php:82-85 | repeating m+n times is repeating m times followed by repeating n times |
| Strings.IndexOf | src/Option/Argument.php:77-80 | the index found holds the character and no earlier index does; None means the character is absent |
| Strings.Split | src/Buffer.php:193 | `explode` on one character always gives at least one piece |
| Strings.JoinSplit | src/Buffer.php:227-230 | `implode` with the delimiter undoes `explode` on it |
| Strings.SplitPieces | src/Buffer.php:227-230 | `explode` gives one more piece than there are delimiters, and no piece contains the delimiter |
| Strings.CountCharAppend | src/Buffer.php:191-199 | the character count of a concatenation is the sum of the two counts |
| Strings.Escape | src/Buffer.php:156-161 | `addcslashes($s, q)` grows by exactly one character per occurrence of q |
| Strings.UnescapeEscape | src/Buffer.php:156-173 | dropping the character before each q restores the escaped string (for q other than the backslash) |
| Strings.EscapeQuotesPreceded | src/Buffer.php:156-173 | in an escaped string every q has a backslash just before it |
| Strings.EscapeHead | src/Buffer.php:156-173 | an escaped string never starts with q |
| Strings.Quote | src/Buffer.php:156-173 | the quoted string starts and ends with q, its inside is the escaped string, and its length is \|s\|+2 plus the count of q |
| Strings.QuoteRoundTrip | src/Buffer.php:156-173 | unquoting undoes quoting |
| Strings.QuoteInnerEscaped | src/Buffer.php:156-173 | between the outer quotes every q is escaped |
| Strings.Octal3 | src/Buffer.php:145 | `%03o`: three octal digits whose value is the byte |
| Strings.CCode | src/Buffer.php:145 | what follows the backslash for a listed character: printable, one to three characters, and the character itself exactly when it is printable |
| Strings.EscapeChar | src/Buffer.php:145 | an unlisted character is copied as it is |
| Strings.EscapeAll | src/Buffer.php:145 | `addcslashes` with a character list never shortens the string |
| Strings.EscapeAllUnlisted | src/Buffer.php:145 | a string with no listed character is written unchanged |
| Strings.EscapeAllAppend | src/Buffer.php:145 | escaping works character by character: the escape of a concatenation is the concatenation of the escapes |
| Strings.EscapeAllPrintsListed | src/Buffer.php:145 | no listed unprintable character survives: every listed character left in the output is printable |
| Strings.EscapeAllTab | src/Buffer.php:145 | a listed tab is written as backslash and `t` |
| Strings.UnescapeListedEscapeAll | src/Buffer.php:145 | for a list of printable characters, reading each backslash-and-listed-character pair as that character gives back the string |
| Strings.EscapeIsEscapeAll | src/Buffer.php:156-173 | escaping one printable quote is `addcslashes` with that quote as the whole list |
| Strings.AddSlashes | src/Buffer.php:143 | `addslashes` never shortens the string and leaves no NUL in it |
| Strings.StripSlashesAddSlashes | src/Buffer.php:143 | `stripslashes` undoes `addslashes`: each backslash is dropped, `\0` read back as NUL |
| Strings.AddSlashesQuotesPreceded | src/Buffer.php:143 | every single or double quote in the output of `addslashes` has a backslash just before it |
| Strings.Lower | src/Option/OptionResult.php:62 | `strtolower` keeps the length, leaves no capital, and keeps every non-capital |
| Strings.NatToString | src/CommandTrait.php:596 | the decimal form of an integer is canonical digits |
| Strings.NatToStringValue | src/CommandTrait.php:596 | reading the decimal form back gives the number |
| Strings.CanonicalDigitsRoundTrip | src/CommandTrait.php:521-535 | canonical digits are the decimal form of the number they spell |
| Strings.NormalizeDecimalKey | src/CommandTrait.php:521-535 | the decimal form of any integer in PHP's 64-bit range (with a minus sign when negative) becomes that integer key |
| Strings.IntegerKeyIsDecimal | src/CommandTrait.php:521-535 | conversely, a string that becomes an integer key is exactly that integer's decimal form |
| Strings.NameRun | src/Option/Argument.php:68-75 | the longest prefix of `[a-zA-Z0-9-]` characters: all inside qualify, the next one does not |
| Strings.LeadingRun | src/Option/Argument.php:68-75 | the run of leading dashes is maximal |
| Strings.NameRunStops | src/Option/Argument.php:68-75 | the name run of a name followed by a non-name character is the name |
| OptionToken.IsOptionIffDash | src/Option/Argument.php:23-59 | a token is an option exactly when it starts with `-`, and a long option is never a short one |
| OptionToken.OptionName | src/Option/Argument.php:68-75 | a name found is non-empty, made of name characters, and comes from a token starting with `-` |
| OptionToken.OptionNameOfValueToken | src/Option/Argument.php:68-75 | `--name=value` and `-name` both give `name` |
| OptionToken.OptionNameDashesOnly | src/Option/Argument.php:68-75 | regex backtracking: `-` has no name, `--` and `---` are named `-`, and a token without a dash has no name |
| OptionToken.SplitAsOption | src/Option/Argument.php:77-80 | `explode('=', $arg, 2)`: one part exactly when there is no `=`, otherwise the first part has no `=` |
| OptionToken.SplitAsOptionRejoins | src/Option/Argument.php:77-80 | rejoining the parts with `=` restores the token |
| OptionToken.ValueStart | src/Option/Argument.php:82-94 | the first `=` that is followed by a character other than a newline |
| OptionToken.LineRun | src/Option/Argument.php:87-94 | the run of characters before the first newline |
| OptionToken.GetOptionValue | src/Option/Argument.php:82-94 | a value exists exactly when `containsOptionValue` holds, and it is never empty |
| OptionToken.ClusterIsShortOption | src/Option/Argument.php:101-104 | a flag cluster is a short option, not a long one |
| OptionToken.ExtraFlags | src/Option/Argument.php:106-115 | one `-c` token for each character from the third on, in order |
| OptionToken.FirstTwo | src/Option/Argument.php:113 | `substr($arg, 0, 2)` is the prefix of length min(2, \|arg\|) |
| OptionToken.ExtractRestores | src/Option/Argument.php:106-115 | the two kept characters followed by the tails of the extracted flags give back the cluster |
| OptionToken.ExtractStep | src/Option/Argument.php:106-115 | one more cluster character adds exactly one flag |
| OptionToken.TailsAppend | src/Option/Argument.php:106-115 | the tails of a token list with one more token end with that token's tail |
| OptionToken.ExtraFlagsAreShort | src/Option/Argument.php:106-115 | every extracted token is an option and never a cluster; it is a short option unless the character was a dash |
| OptionToken.NoDashNeverAnOption | src/Option/Argument.php:41-47 | a token without a leading dash is never one of the collection's options |
| OptionToken.Argument.constructor | src/Option/Argument.php:18-21 | the token object holds the given string |
| OptionToken.Argument.ExtractExtraFlagOptions | src/Option/Argument.php:106-115 | returns the extra flags and cuts the token to its first two characters |
| OptionToken.Argument.ToString | src/Option/Argument.php:117-120 | `__toString` gives the token's current text |
| OptionSpecs.OptionCollection.constructor | src/Option/OptionParser.php:23-26 | a fresh collection: every spec's value is null |
| OptionSpecs.OptionCollection.SetValue | src/Option/OptionParser.php:53-65 | only the given spec's value changes, to the given value |
| OptionSpecs.OptionCollection.PushValue | src/Option/OptionParser.php:90-95 | only the given spec's value changes, by the spec's push |
| OptionSpecs.OptionCollection.IncreaseValue | src/Option/OptionParser.php:47-52 | only the given spec's value changes, by the spec's increase |
| OptionResults.Hyphenate | src/Option/OptionResult.php:58-63 | the kebab-case form has no capitals |
| OptionResults.KebabKey | src/Option/OptionResult.php:58-63 | a key with no camelCase boundary is kept as it is; otherwise the retried key has no capitals |
| OptionResults.NoCapitalNoBoundary | src/Option/OptionResult.php:60-61 | a key without capitals has nothing for `preg_split` to split |
| OptionResults.KebabKeyIdempotent | src/Option/OptionResult.php:58-67 | converting the retried key again gives the same key |
| OptionResults.KebabKeyBaseDir | src/Option/OptionResult.php:58-59 | `baseDir` is retried as `base-dir` |
| OptionResults.OptionResult.constructor | src/Option/OptionResult.php:22-24 | a new result records no option and no argument |
| OptionResults.OptionResult.Count | src/Option/OptionResult.php:31-34 | counts the recorded options; arguments do not count |
| OptionResults.OptionResult.Merge | src/Option/OptionResult.php:36-40 | the other result's options win over same-named ones; its arguments come after this result's |
| OptionResults.OptionResult.Has | src/Option/OptionResult.php:42-109 | true exactly for a recorded key, with no kebab-case fallback |
| OptionResults.OptionResult.Get | src/Option/OptionResult.php:47-114 | the exact key first, then its kebab-case form, else null |
| OptionResults.OptionResult.Set | src/Option/OptionResult.php:72-104 | records the value under the key and leaves the arguments alone |
| OptionResults.OptionResult.AddArgument | src/Option/OptionResult.php:89-94 | appends the argument and leaves the options alone |
| OptionResults.OptionResult.GetArguments | src/Option/OptionResult.php:96-99 | the arguments as strings, in insertion order |
| OptionResults.OptionResult.OffsetUnset | src/Option/OptionResult.php:116-119 | always raises RuntimeException "Options can not unset" |
| OptionResults.OptionResult.ToArray | src/Option/OptionResult.php:121-129 | one entry per recorded option, holding what `get` answers for it |
| OptionResults.SetThenGet | src/Option/OptionResult.php:52-87 | after `set($k, v)`, `has($k)` holds and `get($k)` gives v, whatever was there before |
| OptionResults.HasIsExact | src/Option/OptionResult.php:52-80 | `has('baseDir')` is false where `get('baseDir')` finds `base-dir` |
| OptionParsing.SplitToken | src/Option/OptionParser.php:119-125 | a token is split in two exactly when it names a known option and carries a value; otherwise it is kept |
| OptionParsing.SplitTokenRejoins | src/Option/OptionParser.php:119-125 | the split parts rejoined with `=` give the token |
| OptionParsing.Preprocess | src/Option/OptionParser.php:103-129 | the `--` flag is set exactly when `--` occurs in argv |
| OptionParsing.SplitAll | src/Option/OptionParser.php:119-125 | splitting never loses tokens |
| OptionParsing.NoDashes | src/Option/OptionParser.php:109-117 | the tokens after `--`, with no `--` among them |
| OptionParsing.PreprocessNoDash | src/Option/OptionParser.php:103-129 | without `--`, preprocessing only splits tokens and has no extra tokens |
| OptionParsing.PreprocessAfterDash | src/Option/OptionParser.php:109-117 | after the first `--` nothing reaches the new argv; every later non-`--` token goes to the dropped extra list |
| OptionParsing.SplitAllIdentity | src/Option/OptionParser.php:119-125 | without a known option carrying a value, argv is left as it is |
| OptionParsing.Consume | src/Option/OptionParser.php:43-85 | the result touches only the option's own value and takes at most one following token |
| OptionParsing.ConsumeFacts | src/Option/OptionParser.php:43-85 | flags are set to true and incremental options increased, neither taking a token; required, multiple and optional options take an acceptable next token (set, pushed, set); a missing or unacceptable value fails exactly for a required option, with "Option '<name>' requires a value." |
| OptionParsing.ConsumeAsWritten | src/Option/OptionParser.php:43-189 | as declared, a null `$next` raises TypeError before the body runs |
| OptionParsing.LastFlagFailsAsWritten | src/Option/OptionParser.php:43-189 | a flag in last position fails as declared, while the guarded body would set it |
| OptionParsing.WeightAppend | src/Option/OptionParser.php:160-191 | the loop's measure adds over concatenation |
| OptionParsing.WeightExtraFlags | src/Option/OptionParser.php:171-176 | the extracted flags weigh one each |
| OptionParsing.Expanded | src/Option/OptionParser.php:171-176 | after splicing the token at the position is never a cluster; without a cluster nothing changes |
| OptionParsing.WeightShrinks | src/Option/OptionParser.php:160-191 | the loop ends: the tokens left after an option and its value weigh less, cluster splicing included |
| OptionParsing.OptionStepAt | src/Option/OptionParser.php:178-190 | an option step uses at most one following token, keeps the arguments, and leaves the values unchanged when it stops |
| OptionParsing.ScanFrom | src/Option/OptionParser.php:160-191 | the scan keeps a value for every spec, whether it completes or stops |
| OptionParsing.FillDefaults | src/Option/OptionParser.php:131-140 | filling defaults keeps a value for every spec and leaves the arguments alone |
| OptionParsing.ParseIgnoresAfterDash | src/Option/OptionParser.php:103-129 | nothing after the first `--` is parsed: the parse of `before -- after` is the parse of `before` |
| OptionParsing.ParseSpecScan | src/Option/OptionParser.php:146-196 | with a program name that is not an option, parse is the scan from position 1 followed by the defaults, or the scan's error |
| OptionParsing.ProgramNameRefused | src/Option/OptionParser.php:155-158 | a program name that looks like an option raises LogicException before anything is scanned |
| OptionParsing.PrefixFirst | src/Option/OptionParser.php:103-129 | the first token of argv is the first of the new argv when it is neither `--` nor split |
| OptionParsing.ScanKeepsSnapshot | src/Option/OptionParser.php:160-191 | the value recorded for every option met is its spec's value at the end of the scan |
| OptionParsing.StepKeepsSnapshot | src/Option/OptionParser.php:189-190 | one option step records the option with the value its spec then has |
| OptionParsing.FillKeepsSnapshot | src/Option/OptionParser.php:131-140 | filling defaults keeps recorded values equal to the specs' values |
| OptionParsing.ParseSnapshot | src/Option/OptionParser.php:146-196 | after a successful parse every recorded option holds its spec's current value |
| OptionParsing.FillDefaultsComplete | src/Option/OptionParser.php:131-140 | afterwards a spec is null only when it has no default; each spec filled in is recorded; non-null values and existing records are kept |
| OptionParsing.ScanArgumentsAreValues | src/Option/OptionParser.php:164-167 | no option token ever becomes an argument |
| OptionParsing.ScanWithoutOptions | src/Option/OptionParser.php:164-167 | tokens that are not options all become arguments, in order, and nothing is recorded |
| OptionParsing.ClusterIsSeparateFlags | src/Option/OptionParser.php:171-176 | the cluster `-abc` scans exactly like `-a -b -c` |
| OptionParsing.UnknownOptionStops | src/Option/OptionParser.php:183-186 | an option the collection cannot resolve stops the parse with "Invalid option: " and the token as spliced |
| OptionParsing.UnknownClusterMessage | src/Option/OptionParser.php:171-186 | an unknown flag in `-abc` is reported as `-a`, not as the cluster |
| OptionParsing.RequiredLastStops | src/Option/OptionParser.php:59-186 | a required option at the end stops with "Option '<name>' requires a value." and keeps the values |
| OptionParsing.ScanNonOptionStep | src/Option/OptionParser.php:164-167 | a non-option token is appended to the arguments and the scan goes on at the next token |
| OptionParsing.ScanOptionAt | src/Option/OptionParser.php:168-190 | at an option the scan does what one option step says on the spliced tokens, on a smaller measure |
| OptionParsing.SplicedScan | src/Option/OptionParser.php:168-190 | the same, stated for the position in the spliced argv |
| OptionParsing.OptionParser.constructor | src/Option/OptionParser.php:23-26 | the parser holds the given collection |
| OptionParsing.OptionParser.SetSpecs | src/Option/OptionParser.php:28-31 | the parser uses the new collection |
| OptionParsing.OptionParser.PreprocessingArguments | src/Option/OptionParser.php:103-129 | returns exactly the new argv and the extra tokens that `Preprocess` describes |
| OptionParsing.OptionParser.PushOptionValue | src/Option/OptionParser.php:90-95 | pushes the next token onto the spec's value unless it names an option; otherwise nothing changes |
| OptionParsing.OptionParser.ConsumeOptionToken | src/Option/OptionParser.php:43-85 | fails exactly when `Consume` does, with its error; otherwise it returns the tokens used and leaves the values `Consume` gives |
| OptionParsing.OptionParser.FillDefaultValues | src/Option/OptionParser.php:131-140 | the values and the records become those of `FillDefaults` over the collection's order |
| OptionParsing.OptionParser.ScanStep | src/Option/OptionParser.php:162-190 | one pass of the loop keeps the rest of the scan equal to the whole scan's outcome and shrinks the measure, or reports the scan's error |
| OptionParsing.OptionParser.OptionStep | src/Option/OptionParser.php:168-190 | the option branch of one pass, with the same guarantee |
| OptionParsing.OptionParser.SpliceCluster | src/Option/OptionParser.php:171-176 | the argv tail from the position becomes the spliced tokens, the token object shortened at the position |
| OptionParsing.OptionParser.ConsumeAt | src/Option/OptionParser.php:178-190 | the lookup, consumption and recording match one option step: the same stop, error and state |
| OptionParsing.OptionParser.ScanLoop | src/Option/OptionParser.php:160-191 | the loop ends with exactly the values, records and arguments of the scan, or with its error |
| OptionParsing.OptionParser.Parse | src/Option/OptionParser.php:146-196 | succeeds exactly when `ParseSpec` completes; a fresh result then holds its records and arguments and the specs hold its values; on failure the error and values are those of `ParseSpec`; an option in last position is consumed as the guarded body intends, where the source raises TypeError (Findings row 1) |
| CommandArgument.NameStart | src/Argument.php:63-71 | the first name character of the spec, with none before it |
| CommandArgument.FirstAlternative | src/Argument.php:63-71 | PCRE's choice: the first listed type that prefixes the rest |
| CommandArgument.LongestAlternative | src/Argument.php:63-71 | the longest listed type that prefixes the rest |
| CommandArgument.NormaliseType | src/Argument.php:91-110 | `bool` becomes `boolean`, every other type is kept |
| CommandArgument.ParseSpecWithName | src/Argument.php:61-94 | a spec starting with its name is read as that name and what follows |
| CommandArgument.ParseSpecFacts | src/Argument.php:61-94 | a spec without a name character raises "Incorrect spec string"; otherwise the name is non-empty, `+` and `?` exclude each other, and a type is a listed one never spelt `bool` |
| CommandArgument.ParseSpecRefused | src/Argument.php:61-94 | the refusal half: the spec is refused, with "Incorrect spec string", exactly when it has no name character |
| CommandArgument.ParseSpecShape | src/Argument.php:61-94 | the acceptance half: a non-empty name, not both `+` and `?`, a listed type never spelt `bool` |
| CommandArgument.NormalisedListed | src/Argument.php:91-93 | a normalised listed type is listed and is not `bool` |
| CommandArgument.ParseSpecName | src/Argument.php:63-81 | the name is the first maximal run of name characters |
| CommandArgument.NameStartIs | src/Argument.php:63-71 | the name starts at the first name character |
| CommandArgument.ParseSpecRoundTrip | src/Argument.php:61-94 | `name`, `name+` and `name?`, each optionally followed by `=type`, declare exactly that: `+` multiple, `?` optional |
| CommandArgument.LongestIsSelf | src/Argument.php:63-71 | the longest match of a listed type is that type |
| CommandArgument.FirstAlternativeDate | src/Argument.php:63-71 | as written, every type starting with `date` is read as `date` |
| CommandArgument.FirstAlternativeIp | src/Argument.php:63-71 | as written, every type starting with `ip` is read as `ip` |
| CommandArgument.Differs | src/Argument.php:63-71 | a listed type that differs at some position does not match |
| CommandArgument.DeclaredTyped | src/Argument.php:83-93 | `=t` after the name declares no attribute and the type the alternative rule finds |
| CommandArgument.TypedAsWritten | src/Argument.php:63-93 | as written, `name=t` declares the first listed type that prefixes t |
| CommandArgument.TypedAsIntended | src/Argument.php:63-93 | with the longest match, `name=t` declares t |
| CommandArgument.DatetimeReadAsDate | src/Argument.php:63-71 | `name=datetime` declares `date` as written and `datetime` as intended |
| CommandArgument.IpVersionReadAsIp | src/Argument.php:63-71 | `name=ipv6` and `name=ipv4` declare `ip` as written and the version as intended |
| CommandArgument.FirstAlternativeSkips | src/Argument.php:63-71 | alternatives listed before that do not match are skipped |
| CommandArgument.Argument.constructor | src/Argument.php:46-53 | the argument holds the declaration and nothing else |
| CommandArgument.Argument.Name | src/Argument.php:96-99 | the declared name |
| CommandArgument.Argument.Isa | src/Argument.php:101-110 | sets the type, with `bool` stored as `boolean`, and the type option |
| CommandArgument.Argument.Desc | src/Argument.php:112-117 | sets the description |
| CommandArgument.Argument.IsRequired | src/Argument.php:119-122 | required exactly when not optional |
| CommandArgument.Argument.IsOptional | src/Argument.php:124-127 | the optional flag |
| CommandArgument.Argument.Optional | src/Argument.php:129-134 | the argument is afterwards optional and not required |
| CommandArgument.Argument.Multiple | src/Argument.php:136-141 | sets the multiple flag without touching optionality |
| CommandArgument.Argument.ValidValues | src/Argument.php:143-148 | sets the valid values |
| CommandArgument.Argument.Validator | src/Argument.php:150-155 | sets the validator |
| CommandArgument.Argument.Suggestions | src/Argument.php:164-169 | sets the suggestions |
| CommandArgument.Argument.Glob | src/Argument.php:175-180 | sets the glob |
| CommandArgument.Argument.GetSuggestions | src/Argument.php:183-186 | the suggestions, or the empty list when none were given |
| CommandArgument.Argument.GetValidValues | src/Argument.php:189-192 | the valid values, or the empty list when none were given |
| CommandArgument.Argument.Validated | src/Argument.php:199-229 | both directions: a failing type test refuses; an accepted value is the converted one (the given one without a type), among the valid values when any exist and passed by the validator; and a value the type test lets through that is among the valid values and passed by the validator is accepted |
| CommandArgument.Argument.Validate | src/Argument.php:199-229 | true exactly when the value is accepted, and only then is the (converted) value stored |
| CommandArgument.Argument.SetValue | src/Argument.php:231-236 | stores the validated value and ignores a refusal |
| CommandArgument.Argument.GetValue | src/Argument.php:238-241 | the stored value |
| CommandArgument.NewArgument | src/Argument.php:46-94 | a bad spec raises the parse error; otherwise a fresh argument holds the declared name, flags and type, a null value, and the description when it is non-empty; the type is the longest listed match, where the source takes the first (Findings row 2) |
| CommandArgument.NotAValidValue | src/Argument.php:213-217 | a value outside the valid values is refused whatever the validator says |
| Commands.HookEvents | src/CommandTrait.php:496-621 | one hook call per extension, in registration order |
| Commands.HookEventsAppend | src/Command.php:70-79 | a newly added extension's hook runs after all earlier ones |
| Commands.VisibleNamesMembers | src/CommandTrait.php:351-368 | a name is visible exactly when it is registered and does not start with `_` |
| Commands.VisibleNamesAppend | src/CommandTrait.php:351-363 | filtering keeps the registration order |
| Commands.Lookup | src/CommandTrait.php:394-405 | nothing is found exactly when the token is neither a name nor an alias; an alias wins over a name |
| Commands.AliasMap | src/CommandTrait.php:304-306 | every alias of the command, and only those, point at it |
| Commands.ConnectLookup | src/CommandTrait.php:298-405 | after connecting, the command is found under its aliases and its name, an earlier alias still wins over its name, and no other token's lookup changes |
| Commands.ReverseUp | src/CommandTrait.php:370-382 | reversing the names collected walking up gives the names from the root down |
| Commands.ReverseAppend | src/CommandTrait.php:381 | reversing a concatenation reverses the order of the parts |
| Commands.ChildTrace | src/CommandTrait.php:370-382 | a child's trace is its parent's trace plus its own name, the application's name dropped |
| Commands.TraceUnderApplication | src/CommandTrait.php:370-382 | directly below the application the trace is the command's own name |
| Commands.Command.constructor | src/Command.php:31-43 | a new command keeps its parent, has an empty option result and nothing registered |
| Commands.Command.Application | src/Application.php:45-51 | the root is named `Hail-Console`, holds the configuration and has an empty option result |
| Commands.Command.Lineage | src/Command.php:50-61 | the node and all its ancestors, none deeper than the node |
| Commands.Command.ApplicationOf | src/CommandTrait.php:176-187 | the application found walking up is an application node |
| Commands.Command.GetApplication | src/Command.php:50-61 | the application above, or null; the application answers itself, a set memo is answered, and a memo is set only with the right answer |
| Commands.Command.HasCommands | src/CommandTrait.php:336-339 | true exactly when some command is registered |
| Commands.Command.HasCommand | src/CommandTrait.php:341-344 | true exactly when the token is a name or an alias |
| Commands.Command.GetCommand | src/CommandTrait.php:394-405 | the command `Lookup` finds, or CommandNotFoundException for the token |
| Commands.Command.ConnectCommand | src/CommandTrait.php:298-307 | registers under the name (a new name goes last in the list) and under every alias; the registry stays consistent |
| Commands.AddAliases | src/CommandTrait.php:304-306 | the alias loop: the table afterwards is the old one with every alias of the command pointing at it |
| Commands.Command.GetCommandList | src/CommandTrait.php:346-349 | exactly the registered names |
| Commands.Command.GetVisibleCommands | src/CommandTrait.php:351-363 | the visible names in order, and the table of exactly the visible commands |
| Commands.Command.GetVisibleCommandList | src/CommandTrait.php:365-368 | the visible names: exactly those registered that do not start with `_` |
| Commands.Command.GetCommandNameTraceArray | src/CommandTrait.php:370-382 | the names from the root down to this command, the application left out, ending with its own name |
| Commands.Command.GetSignature | src/CommandTrait.php:384-387 | the trace joined with dots |
| Commands.Command.AddArgument | src/CommandTrait.php:513-524 | fails exactly for a bad spec, changing nothing; otherwise appends a fresh argument and indexes it by its name as a PHP key; the type is read as `NewArgument` reads it (Findings row 2) |
| Commands.Command.FindArgument | src/CommandTrait.php:531-536 | by name first, then by position (string and integer keys normalised alike), else null |
| Commands.Command.GetArgument | src/CommandTrait.php:543-551 | the found argument's value, or null |
| Commands.Command.GetOption | src/CommandTrait.php:453-456 | the option recorded under exactly that key, else null |
| Commands.Command.SetOptions | src/CommandTrait.php:473-476 | installs the option result |
| Commands.Command.AddOption | src/CommandTrait.php:446-451 | the collection becomes what `add` makes of it |
| Commands.Command.Prepare | src/CommandTrait.php:496-501 | every extension's prepare, in registration order |
| Commands.Command.Finish | src/CommandTrait.php:506-511 | every extension's finish, in registration order |
| Commands.Command.RunHooks | src/CommandTrait.php:496-511 | one call of the stage's hook per extension, in order |
| Commands.Command.AddExtension | src/Command.php:70-79 | an unavailable extension raises ExtensionException; without an application binding fails on null; otherwise it is bound to the application's configuration and appended |
| Commands.Command.AddExtensionArg | src/Command.php:88-101 | a class name that is not an extension class, or an object that is not an extension, raises; otherwise it behaves like `addExtension` |
| Commands.Command.Bind | src/CommandTrait.php:593-609 | the binding stops at a required argument without a value, or at a refused value; on success the length is kept and earlier positions are unchanged |
| Commands.Command.ExecuteWrapper | src/CommandTrait.php:590-624 | its events and exception are those of `WrapperOutcome` |
| Commands.Command.WrapperOutcomeCases | src/CommandTrait.php:590-624 | a missing required value raises RequireValueException naming the position and argument; a refused value is logged and nothing runs; too few values raise CommandArgumentNotEnoughException; otherwise the extensions' execute hooks run before the command's execute, with the converted values |
| Commands.Command.ValuesOf | src/CommandTrait.php:593-609 | what every declared argument stores |
| Commands.Command.BindArguments | src/CommandTrait.php:593-609 | the loop's outcome is `Bind`'s; every accepted value is stored in its argument, and the others keep theirs |
| Commands.Command.BindStep | src/CommandTrait.php:594-608 | one position of the loop keeps those facts |
| Commands.ValuesIn | src/CommandTrait.php:593-609 | the stored values of a list of arguments |
| Commands.BindAllBound | src/CommandTrait.php:593-609 | when binding succeeds, every required argument had a value, every value given was converted by validation, and the other positions pass as given |
| Commands.BindSucceeds | src/CommandTrait.php:593-609 | conversely, binding succeeds when every required argument has a value and every value given is accepted |
| Dispatch.Config | src/Application.php:330-337 | `config[key] ?? default`: the stored value unless absent or null |
| Dispatch.OptionIn | src/CommandTrait.php:453-456 | the recorded option, or null |
| Dispatch.LevelChoice | src/Application.php:256-271 | a level chosen is always a known log level |
| Dispatch.OptionsOverrideConfig | src/Application.php:256-271 | any of the debug, verbose or quiet options decides the level whatever the configuration |
| Dispatch.LevelPriority | src/Application.php:256-271 | debug beats verbose beats quiet; without them the configuration decides as if no option were given |
| Dispatch.Pick | src/Application.php:189-197 | a registered token is kept; otherwise the corrector's guess unless no-interact, else CommandNotFoundException for the token |
| Dispatch.PickAsWritten | src/CommandTrait.php:407-413 | whenever the choice as written succeeds, it agrees with `Pick` |
| Dispatch.UnplacedTokenAsWritten | src/CommandTrait.php:407-413 | an unknown token the corrector cannot place raises TypeError as written and CommandNotFoundException as intended |
| Dispatch.LeafStep | src/Application.php:212-222 | at a command without subcommands a failed parse ends the loop, options read are merged, and when none are read the token where the parse stopped becomes an argument |
| Dispatch.LeafKeepsStack | src/Application.php:212-222 | at a leaf the stack never changes and at most one argument is added per token |
| Dispatch.DescentIsPath | src/Application.php:185-223 | the stack is a path down the tree: each command registered under the one before it, the first under the application |
| Dispatch.PushedPath | src/Application.php:199-211 | pushing a child of the current command and growing a path below it gives a path below the current command |
| Dispatch.ChildInTree | src/Application.php:199-211 | a command resolved under a tree command is in the tree, with that parent |
| Dispatch.InTree | src/Application.php:232-233 | a tree command's arguments are distinct and belong to the tree |
| Dispatch.ArgsOf | src/Application.php:232-241 | collects every argument declared by a tree command |
| Dispatch.PrepareSteps | src/Application.php:225-229 | one prepare per stacked command, in descent order |
| Dispatch.FinishSteps | src/Application.php:234-238 | one finish per command given, in the order given |
| Dispatch.LifecycleOrder | src/Application.php:178-249 | application prepare first, then stacked prepares in order, the leaf's wrapper, the leaf's finish, the others deepest first, the leaf again, the application last |
| Dispatch.PreparesFirst | src/Application.php:178-233 | the first half of that order: the application's prepare, the stacked prepares in descent order, then the leaf's wrapper |
| Dispatch.FinishesLast | src/Application.php:232-247 | the second half: the leaf's finish, the others deepest first, the leaf again, the application last |
| Dispatch.LeafFinishesTwice | src/Application.php:234-246 | after a wrapper that did not raise, the leaf finishes at exactly two positions and every other stacked command at exactly one |
| Dispatch.FinishPositions | src/Application.php:232-247 | in a call list laid out that way, each command's finish positions are exactly those |
| Dispatch.NoCommandNoFinish | src/Application.php:239-244 | without a command, the application's wrapper is the only call after prepare, and nothing finishes |
| Dispatch.Strs | src/Application.php:220-233 | the token arguments as string values, in order |
| Dispatch.Registered | src/Application.php:71-86 | after connecting, every command's name is registered, and every entry is an old one or a connected command |
| Dispatch.Aliased | src/Application.php:71-86 | after connecting, every alias entry is an old one or a connected command |
| Dispatch.Application.constructor | src/Application.php:45-51 | an empty option result, the logger at its default level and the configuration |
| Dispatch.Application.Init | src/Application.php:71-97 | connects the given commands in order, then adds the eight global option specs |
| Dispatch.Application.ConnectChild | src/Application.php:73-85 | one `addCommand` of `init`: the command is registered under its name and aliases |
| Dispatch.Application.AddGlobalOptions | src/Application.php:88-96 | the eight global option specs in source order |
| Dispatch.Application.Prepare | src/Application.php:256-271 | the logger gets the level `LevelChoice` picks, and is left alone without one |
| Dispatch.Application.Finish | src/Application.php:273-284 | the usage report is written exactly when the profile option is set |
| Dispatch.Application.Run | src/Application.php:153-250 | an empty argv raises TypeError before anything happens; otherwise the program name is set, init registers the commands and options, and the calls and outcome are exactly `Expected`, which resolves an unknown token with `Pick` and parses with `Consume`, the corrected halves of Findings rows 1 and 3 |
| Dispatch.Application.Dispatch | src/Application.php:164-249 | the calls and outcome after init are exactly `Expected` |
| Dispatch.Application.PrepareAndDescend | src/Application.php:174-223 | the log level is set as `LevelChoice` says and the loop's result is `Descend`'s |
| Dispatch.Application.Conclude | src/Application.php:225-249 | the calls after the loop are `Lifecycle`'s, and run answers true unless the wrapper raised |
| Dispatch.Application.WrapAndFinish | src/Application.php:232-249 | the wrapper of the leaf or the application, and the finishes unless it raised |
| Dispatch.Application.WrapLeaf | src/Application.php:232-247 | the leaf's wrapper and, unless it raised, the finish calls |
| Dispatch.Application.PrepareAll | src/Application.php:178-229 | the application's prepare, then every stacked command's in order |
| Dispatch.Application.FinishAll | src/Application.php:234-247 | the leaf, the rest of the stack innermost first, the leaf again, the application |
| Dispatch.Application.DescendTokens | src/Application.php:185-223 | the loop's outcome is exactly `Descend` from where the first parse stopped; the leaf's options are the last command's |
| Dispatch.Application.Step | src/Application.php:186-222 | one turn keeps the rest of the descent equal to the loop's outcome and strictly advances, or stops with its error |
| Dispatch.Application.StepInto | src/Application.php:189-211 | at a command with subcommands: the named command parses its own options and is pushed, or the loop fails with the error |
| Dispatch.Application.StepAtLeaf | src/Application.php:212-222 | at a leaf: options read are merged, or the token where the parse stopped becomes an argument |
| Dispatch.Application.MergeStep | src/Application.php:213-217 | the leaf's options gain the newly read ones |
| Dispatch.Application.EnterStep | src/Application.php:204-211 | the named command gets the fresh option result of its own parse |
| Logging.LevelNumber | src/Logger.php:93-100 | the level's number exactly for the eight PSR-3 names, between 1 and 8 |
| Logging.Logger.constructor | src/Logger.php:51-55 | threshold notice (3), no indent, two-space indent character |
| Logging.Logger.SetLevel | src/Logger.php:80-91 | a known name sets its number, null silences (9), any other name changes nothing |
| Logging.Logger.GetLevel | src/Logger.php:93-97 | the current threshold |
| Logging.Logger.Indent | src/Logger.php:113-118 | adds the given amount to the indent |
| Logging.Logger.UnIndent | src/Logger.php:120-125 | subtracts, but never below zero |
| Logging.Logger.ResetIndent | src/Logger.php:127-132 | the indent becomes zero |
| Logging.Logger.Log | src/Logger.php:143-169 | silent exactly below the threshold; the notice level at the default threshold is dimmed; the message is written as given; a negative indent makes `str_repeat` raise |
| Logging.ShownLevel | src/Logger.php:145-147 | an unknown level is filtered as debug |
| Logging.SilencedWritesNothing | src/Logger.php:82-152 | once silenced the logger writes nothing |
| Logging.LogStyle | src/Logger.php:149-168 | a message at or above the threshold is written, with the indent, in its level's style |
| Logging.UnknownIsDebug | src/Logger.php:145-147 | unknown level names behave as debug |
| Logging.LogIndentLength | src/Logger.php:160-162 | the written indent is the indent character repeated once per level |
| TextBuffer.LinesText | src/Buffer.php:125-132 | no lines give no text |
| TextBuffer.LinesTextNewlines | src/Buffer.php:112-132 | with newline-free lines and prefix, the text holds one newline per line |
| TextBuffer.BlockLineCount | src/Buffer.php:191-199 | a block with k newlines is written as k+1 newline-terminated lines |
| TextBuffer.Buffer.constructor | src/Buffer.php:7-18 | the given content, level 0, two-space indent, empty and fresh cache |
| TextBuffer.Buffer.MakeIndent | src/Buffer.php:82-85 | the indent string for a level, or the `str_repeat` error for a negative level |
| TextBuffer.Buffer.LinePrefix | src/Buffer.php:101-114 | a zero level uses the cache, any other a fresh indent |
| TextBuffer.Buffer.UpdateIndentCache | src/Buffer.php:75-80 | the cache becomes fresh, or the error is reported with the cache kept |
| TextBuffer.Buffer.Indent | src/Buffer.php:20-26 | one level deeper, with the cache refreshed |
| TextBuffer.Buffer.SetIndent | src/Buffer.php:33-41 | sets the level, refreshing the cache only when it changes |
| TextBuffer.Buffer.GetIndent | src/Buffer.php:48-51 | the level |
| TextBuffer.Buffer.SetIndentChar | src/Buffer.php:53-58 | changes the character only; the cache keeps the old one |
| TextBuffer.Buffer.GetIndentChar | src/Buffer.php:60-63 | the indent character |
| TextBuffer.Buffer.UnIndent | src/Buffer.php:65-73 | one level up, never below zero |
| TextBuffer.Buffer.Append | src/Buffer.php:92-97 | appends the text and changes nothing else |
| TextBuffer.Buffer.AppendIndent | src/Buffer.php:99-104 | appends the line prefix, or fails for a negative level leaving the content |
| TextBuffer.Buffer.AppendLine | src/Buffer.php:112-117 | appends prefix, line and newline |
| TextBuffer.Buffer.AppendLines | src/Buffer.php:125-132 | appends `LinesText` of the lines; with a bad prefix nothing is appended and it fails exactly for a non-empty list |
| TextBuffer.Buffer.AppendEscape | src/Buffer.php:140-149 | appends `addslashes` of the line without a list and `addcslashes` with one; what those write is stated by `Strings.AddSlashes`, `Strings.StripSlashesAddSlashes`, `Strings.EscapeAllPrintsListed` and `Strings.UnescapeListedEscapeAll` |
| TextBuffer.Buffer.AppendQuote | src/Buffer.php:156-161 | appends the double-quoted, escaped string |
| TextBuffer.Buffer.AppendSingleQuote | src/Buffer.php:168-173 | appends the single-quoted, escaped string |
| TextBuffer.Buffer.NewLine | src/Buffer.php:178-183 | appends a newline |
| TextBuffer.Buffer.AppendBlock | src/Buffer.php:191-199 | appends one prefixed line per `explode` piece |
| TextBuffer.Buffer.AppendBuffer | src/Buffer.php:207-220 | without a level, the other content as it is; with one, the level is set for good and every line of the other buffer (taken before appending) gets the indent |
| TextBuffer.Buffer.Lines | src/Buffer.php:227-230 | one more line than newlines, none containing a newline, and joining them gives the content back |
| TextBuffer.Buffer.ToString | src/Buffer.php:235-238 | the content |
| Table.StrPadShape | src/Component/Table/CellAttribute.php:109-117 | the padded cell is as wide as asked (or as the cell), keeps the text whole, and is spaces around it |
| Table.LeftPadding | src/Component/Table/CellAttribute.php:109-117 | right padding puts nothing before the text, and neither does a cell at least as wide |
| Table.Prefix | src/Component/Table/CellAttribute.php:93-97 | `mb_substr($s, 0, n)` is a prefix of length n, or that many characters fewer for a negative n |
| Table.MaxLength | src/Component/Table/CellAttribute.php:85 | no line is longer, and some line is that long |
| Table.CellAttribute.constructor | src/Component/Table/CellAttribute.php:21-29 | left alignment, wrap overflow, no formatter and no colours |
| Table.CellAttribute.SetAlignment | src/Component/Table/CellAttribute.php:31-36 | sets the alignment only |
| Table.CellAttribute.SetTextOverflow | src/Component/Table/CellAttribute.php:38-43 | sets the overflow handling only |
| Table.CellAttribute.SetFormatter | src/Component/Table/CellAttribute.php:23-55 | sets the formatter only |
| Table.CellAttribute.SetBackgroundColor | src/Component/Table/CellAttribute.php:57-60 | sets the background only |
| Table.CellAttribute.SetForegroundColor | src/Component/Table/CellAttribute.php:62-65 | sets the foreground only |
| Table.CellAttribute.GetForegroundColor | src/Component/Table/CellAttribute.php:67-70 | the foreground |
| Table.CellAttribute.GetBackgroundColor | src/Component/Table/CellAttribute.php:72-75 | the background |
| Table.CellAttribute.Format | src/Component/Table/CellAttribute.php:48-55 | the formatter's result, or the cell without one |
| Table.CellAttribute.HandleTextOverflow | src/Component/Table/CellAttribute.php:81-102 | under WRAP the text goes to `wordwrap` exactly when a line is too long; ELLIPSIS and CLIP cut an overlong first line to one line; otherwise the `explode` lines |
| Table.CellAttribute.PadFor | src/Component/Table/CellAttribute.php:109-117 | right alignment only for the integer 1, centre only for 3, left otherwise |
| Table.CellAttribute.RenderCell | src/Component/Table/CellAttribute.php:104-129 | padding, the aligned cell and padding again; decorated exactly when a colour is set; a negative padding raises |
| Table.EllipsisWidth | src/Component/Table/CellAttribute.php:91-94 | an overlong first line becomes exactly the width, ending in `..` after its own first width-2 characters |
| Table.ClipWidth | src/Component/Table/CellAttribute.php:95-98 | an overlong first line is cut to exactly the width and the other lines are dropped |
| Table.RenderedLayout | src/Component/Table/CellAttribute.php:104-119 | the rendered text's width is twice the padding plus the padded width, with the cell text at its aligned position |
| Completion.Qq | src/Completion/Util.php:7-10 | starts and ends with `"`, escapes its inner quotes, and grows by two plus one per quote |
| Completion.QqRoundTrip | src/Completion/Util.php:7-10 | unquoting `qq` gives the string back |
| Completion.QqInnerQuotesEscaped | src/Completion/Util.php:7-10 | every inner `"` has a backslash just before it |
| Completion.ArrayQq | src/Completion/Util.php:12-15 | `qq` of each element, order and length kept |
| Completion.ArrayQqRoundTrip | src/Completion/Util.php:12-15 | every element of the result unquotes to the element it came from |

## Left out

- Formatting and output: `Formatter`, `wordwrap`, `print_r` of array messages, `write`/`writeln`/`newline`, the logger's stream and `logException`. Writing is I/O; the model stops at the decision of what is written (`LogOutput`, `Overflow.NeedsWordwrap`, `Rendered.Decorated`).
- `addcslashes` character ranges (`a..z`): `EscapeAll` takes the list as a set of single characters.
- `array_merge` renumbers integer keys. `OptionResult::merge` is modelled on string option ids only, since ids are never integers.
- PHP integer keys for command names: the command tables are keyed by strings, so a command literally named like a decimal integer is not modelled.
- The continuous option parser (`ContinuousOptionParser`, not part of this model). It is a parameter, and `ScannerOk` states what `run` assumes of it.
- `OptionCollection` and `Option` are specified only through what the parser uses.
- The corrector and `ValueType` are parameters.
- Reflection: `execute`'s number of required parameters is the constant `requiredCount`. The arguments `getArguments` derives from `execute`'s parameters when none were declared are not modelled.
- `addCommand`, `createCommand`, the command loader, `addCommandGroup`/`aggregate`, `setParent`/`getParent` and `name()`'s class-name translation: commands are created outside the model, already with their name, aliases and parent. `Init` takes them as a list.
- `getAllCommandPrototype` and `getCommandPrototype` build help text, which is out of scope.
- The internals of extensions (`bind` beyond reading the configuration, and the hooks' own effects): only the calls to them are recorded.
- `runWithTry` and `ExceptionPrinter` (exception printing), `Application::execute` (delegation to the help command), `brief`, `help` and `usage`.
- `config(null)`, which returns the whole map.
- The profile report's memory and timing figures are floating point and read the clock. `Dispatch.Application.Finish` only decides whether the report is written.
- `Logger::setStream`, `__destruct` and `format`: streams and regular-expression formatting.
- The table component beyond `CellAttribute`, the IO layer, `Prompter`, `ProgressBar` and the console-info probes: these are outside the modelled core.
- `Dispatch.Application.Run` models the `false === prepare()` checks as never true: both `prepare` methods return `void`.
- OptionParsing.OptionParser.Parse, Dispatch.Application.Run, CommandArgument.NewArgument and Commands.Command.AddArgument follow the corrected definitions of "## Findings", not the source as written: `Parse(["app", "-v"])` with a flag `-v` succeeds where the source raises TypeError, `name=datetime` declares `datetime` where the source declares `date`, and an unknown token with no guess raises CommandNotFoundException where the source raises TypeError. The source's behaviour is modelled only by `ConsumeAsWritten`, `ParseSpecAsWritten` and `PickAsWritten`.
- OptionSpecs.OptionCollection.SetValue: `Option::setValue` is not part of this model; it is modelled as plain storage of the value, so whatever conversion or validation it does is not modelled, and `ConsumeFacts`' "a flag is set to true" rests on that. `pushValue` and `increaseValue` are parameters of the specs.
- OptionResults.OptionResult: PHP stores references to the `Option` objects and reads their values at `get`/`toArray` time; the model stores the values themselves. `OptionParsing.ParseSnapshot` proves that after a parse every stored value equals its option's current value, which is what a read would give until an option changes again.
- OptionParsing.OptionStepAt: a token with no option name (`-` alone) is looked up as `get(null)`; the collection is taken to find no option for it, so the parse stops with InvalidOptionException.
- Dispatch.ScannerOk: termination of the dispatch loop is assumed of the continuous parser: a parse that read options has moved on, and one that read none has stopped before the end, so that the `advance()` after it has a token to take. The argument kept is the token at the position where that parse stopped.
- Table.StrPad, Table.Prefix, Table.MaxLength and Table.CellAttribute.RenderCell count one unit per character for both `mb_strlen`/`mb_substr` (characters) and `str_pad` (bytes); for a cell with multi-byte UTF-8 text the source pads by bytes, which the model does not reproduce.
- Strings.EscapeAll: the round trip (`UnescapeListedEscapeAll`) is proved for lists of printable characters only; with control characters in the list the C escapes can be ambiguous (a listed `n` and a listed newline are both written as backslash and `n`).
- Strings.Escape: stands for `addcslashes` with one printable quote character, which is how the source calls it; `EscapeIsEscapeAll` ties it to the general `EscapeAll`.

## Findings

| source | as written | input that shows it | evidently intended | confidence | as-written member | corrected member |
|---|---|---|---|---|---|---|
| src/Option/OptionParser.php:43-189 | `consumeOptionToken` declares `Argument $next`, but `parse` passes `$next = null` for the last token | argv `["app", "-v"]` with `v` a flag: TypeError "Argument #3 ($next) must be of type Argument, null given" | `?Argument $next`: the body's own `$next &&` guard handles a missing value, so the flag is set | not executed | OptionParsing.LastFlagFailsAsWritten | OptionParsing.Consume |
| src/Argument.php:63-71 | the type alternation `bool\|boolean\|…\|date\|datetime\|…\|ip\|ipv6\|ipv4` without an anchor lets PCRE take the first alternative that matches | spec `at=datetime` declares the type `date`; `addr=ipv6` declares `ip` | each listed type recognised in full | not executed | CommandArgument.DatetimeReadAsDate | CommandArgument.TypedAsIntended |
| src/CommandTrait.php:407-413 | `guessCommand` is declared `: string` but returns what `Corrector::correct` gives, which is null when nothing is close | an unknown token with no close match and no-interact unset: TypeError instead of CommandNotFoundException | return type `?string`, so the `!== null` test in `Application::run` (lines 192-196) reaches the CommandNotFoundException branch | not executed | Dispatch.UnplacedTokenAsWritten | Dispatch.Pick |
