# Portfolio terminals, modelled in Dafny

This project models the stateful parts of a personal portfolio site (React) and proves what they promise.

- **The command table** `terminalCommands`. It maps each command name to `{ description, output }`. The `Definition` datatype gives every entry a description string and a sequence of output lines, so that holds by typing.
- **The two interactive terminals of the About pages.** Each session keeps a log of `{ type, text }` entries and an input buffer. Submitting the buffer does these steps in order:
  1. trims the line, and does nothing if the line is blank;
  2. lower-cases it;
  3. handles `clear` specially;
  4. otherwise appends a prompt echo, then either the command's output lines or a "Command not found" entry.

  The two pages differ in their prompt, their seed log, what `clear` leaves behind, and the kind of entry an unknown command gets. The second page also guards against a missing table.
- **The home page's typewriter.** A timer calls the step `type`. Each call reveals one more character of the current script line, or a whole empty line at once, and stops the timer at the end of the script.
- **The home page's fallbacks.** These derive the typewriter's script, the window labels and the glitch headline from the translations.

Modules:

| file | module | what it holds |
|---|---|---|
| `js_strings.dfy` | `JsStrings` | `trim`, `toLowerCase`, `filter(Boolean)` and `join`, and their laws |
| `options.dfy` | `Options` | `Option`, for values that may be missing |
| `terminal_commands.dfy` | `TerminalCommands` | the command table and its properties |
| `transcript.dfy` | `Transcript` | the log entry shape and `output.map(line => text entry)` |
| `about_terminal.dfy` | `AboutTerminal` | the first About page's terminal, as a class |
| `about2_terminal.dfy` | `About2Terminal` | the second About page's terminal, as a class |
| `terminal_typer.dfy` | `TerminalTyper` | the typewriter step, as a class with a pure specification |
| `home_page.dfy` | `HomePage` | the script and label fallbacks and the glitch headline |

## How each part is modelled

- **The terminals** are classes with the fields `entries` and `command`. `RunCommand` follows `runCommand`, early returns included. `HandleSubmit` runs the buffer and then empties it.
  - Each method's `ensures` ties the new log to `Execute`, a pure function of the old log and the input.
  - The terminals' properties are lemmas about `Execute`.
  - React's state updaters are applied at the call, in call order.
- **The command table** is a function of `now`. `now` is the text `new Date().toString()` produces when the module is loaded. It is the only part of the table that is not a constant.
- **The typewriter** is a class. Its fields are the effect closure's `currentLineIndex`, `currentCharIndex` and `currentText`, plus `displayedLines`. `Step` pushes to or overwrites `displayedLines` in place, like `type` does.
  - `Valid()` ties the fields to a cursor and to `Shown`. `Shown` is what the screen must hold at that cursor.
  - `Next` and `Iterate` say where one step, and `n` steps, move the cursor.
- **`trim`** removes exactly the ECMAScript white space and line terminators (sections 12.2 and 12.3 of ECMA-262).
- **`toLowerCase`** maps `A`–`Z` to `a`–`z` and leaves every other character alone.

## Model

| member | source | states |
|---|---|---|
| JsStrings.Trim | src/pages/About.jsx:112 | `raw.trim()`: the result has no white space at either end |
| JsStrings.TrimStartFacts | src/pages/About.jsx:112 | the leading-white-space pass of `trim()` removes only white space, and only a prefix, and stops at a non-space character |
| JsStrings.TrimEndFacts | src/pages/About.jsx:112 | the trailing-white-space pass of `trim()` removes only white space, and only a suffix, and stops at a non-space character |
| JsStrings.TrimSplit | src/pages/About.jsx:112 | every string is white space, then its trimmed form, then white space: `trim` removes only white space |
| JsStrings.TrimPadding | src/pages/About.jsx:112 | adding white space around a string does not change its trimmed form |
| JsStrings.TrimEmptyIff | src/pages/About.jsx:113 | the trimmed form is empty exactly when the input is all white space (the `!value` early return) |
| JsStrings.TrimIdempotent | src/pages/About.jsx:112 | trimming twice is trimming once |
| JsStrings.ToLower | src/pages/About.jsx:114 | `value.toLowerCase()`: same length, character by character, with no upper-case letter left |
| JsStrings.ToLowerIdempotent | src/pages/About.jsx:114 | lower-casing twice is lower-casing once |
| JsStrings.LowerTrimmedIsTrimmed | src/pages/About.jsx:112-116 | if the lower-case form is trimmed, so is the string itself; this is why a `clear` typed in any case passes `trim` intact |
| JsStrings.FilterNonEmpty | src/pages/Home2.jsx:36-37 | `filter(Boolean)` keeps exactly the non-empty parts; a single part is kept when it is non-empty and dropped when empty |
| JsStrings.FilterConcat | src/pages/Home2.jsx:36-37 | filtering a concatenation is the concatenation of the filtered pieces; with the one-part case this fixes the order and the repetitions of the parts kept |
| JsStrings.Join | src/pages/Home2.jsx:38 | `join(sep)`: the total length is the parts' lengths plus one separator between each pair of neighbours, and the first part comes first; a single part is joined to itself |
| JsStrings.JoinConcat | src/pages/Home2.jsx:38 | joining two non-empty runs of parts puts exactly one separator where they meet; with the one-part case this places every part and every separator |
| TerminalCommands.Lookup | src/pages/About.jsx:122 | `terminalCommands[normalized]` finds an entry exactly when the name is a key, and returns that key's entry |
| TerminalCommands.Commands | src/data/terminal-commands.js:3-153 | the table has exactly the nineteen keys of the object literal |
| TerminalCommands.KeysNormalised | src/data/terminal-commands.js:5-152 | every key is non-empty and is its own trimmed, lower-cased form, so a normalised lookup reaches every entry |
| TerminalCommands.NameIsNormal | src/data/terminal-commands.js:5-152 | the same fact, for one key at a time |
| TerminalCommands.ClearIsSilent | src/data/terminal-commands.js:23-26 | `clear` is a key, and its output is empty |
| TerminalCommands.HelpListing | src/data/terminal-commands.js:5-17 | `help` prints nine lines, the first being `Available commands:` |
| TerminalCommands.QuestionMarkIsIndependent | src/data/terminal-commands.js:19-22 | `?` has its own single line and does not share `help`'s output |
| TerminalCommands.DateIsFixedAtLoad | src/data/terminal-commands.js:113-116 | `date` prints exactly one line, the date text captured when the table was built |
| Transcript.TextEntries | src/pages/About.jsx:129 | `output.map(line => ({ type: 'text', text: line }))`: one `text` entry per line, in order |
| Transcript.TextsOfTextEntries | src/pages/About.jsx:129 | reading the texts back from those entries gives the lines unchanged |
| AboutTerminal.InitialEntries | src/pages/About.jsx:92-95 | the seed log: a banner entry, then one `text` entry |
| AboutTerminal.Echo | src/pages/About.jsx:121 | the echo is a `command` entry whose text is the prompt `visitor@younes.dev:~$ ` followed by the input, which can be read back from it |
| AboutTerminal.Execute | src/pages/About.jsx:111-131 | `runCommand` on a log: blank input leaves it, `clear` in any case gives the seed, anything else keeps the old log as a prefix and appends the echo of the trimmed input first |
| AboutTerminal.Terminal.constructor | src/pages/About.jsx:92-97 | the log starts as the two-entry seed and the buffer starts empty |
| AboutTerminal.Terminal.Change | src/pages/About.jsx:159 | typing sets the buffer |
| AboutTerminal.Terminal.RunCommand | src/pages/About.jsx:111-131 | the new log is `Execute` of the old log and the input |
| AboutTerminal.Terminal.HandleSubmit | src/pages/About.jsx:133-137 | the buffer is run, and the buffer is then empty whatever the outcome |
| AboutTerminal.BlankIsIgnored | src/pages/About.jsx:112-113 | an all-white-space input leaves the log unchanged |
| AboutTerminal.ClearResets | src/pages/About.jsx:114-118 | `clear` in any case and with any padding resets the log to the two-entry seed, whatever the log held |
| AboutTerminal.KnownCommand | src/pages/About.jsx:121-130 | a registered command appends one entry plus one per output line: the old log is kept as a prefix, the echo is the prompt plus the trimmed input in its own case, then one `text` entry per output line in order |
| AboutTerminal.UnknownCommand | src/pages/About.jsx:121-126 | an unknown command appends exactly the echo and `Command not found: ` + the trimmed input as a `text` entry |
| AboutTerminal.AppendOnly | src/pages/About.jsx:124-130 | apart from `clear`, the old log is a prefix of the new one |
| AboutTerminal.ResponseIgnoresLog | src/pages/About.jsx:124-130 | apart from `clear`, what is appended does not depend on the log it is appended to |
| AboutTerminal.RepeatAppendsTwice | src/pages/About.jsx:124-130 | submitting a command twice appends the same block twice; nothing is merged |
| AboutTerminal.PaddingIsIgnored | src/pages/About.jsx:112 | white space around the input does not change the resulting log |
| AboutTerminal.CaseIsIgnored | src/pages/About.jsx:112-122 | for a registered command, inputs with the same trimmed, lower-cased form grow the log by the same amount and append the same entries after the echo |
| AboutTerminal.RegisteredRuns | src/pages/About.jsx:121-130 | a registered command's log is the old log, the echo and the output entries |
| AboutTerminal.NormalNameRuns | src/pages/About.jsx:112-130 | typing a key that is already in normal form runs that key's entry |
| AboutTerminal.EveryCommandReachable | src/pages/About.jsx:112-130 | against the site's own table, typing any command name other than `clear` appends its echo and its own output |
| About2Terminal.InitialEntries | src/pages/About2.jsx:200-204 | the seed log: a banner entry, then two `text` entries |
| About2Terminal.Cleared | src/pages/About2.jsx:223 | what `clear` leaves: one `text` entry, which is not the seed |
| About2Terminal.Echo | src/pages/About2.jsx:227 | the echo is a `command` entry whose text is the prompt `guest@portfolio:~$ ` followed by the input, which can be read back from it |
| About2Terminal.NotFound | src/pages/About2.jsx:236 | the unknown-command entry is an `error` entry whose text holds the input, in its own case, right after `Command not found: ` |
| About2Terminal.SafeLookup | src/pages/About2.jsx:230 | `terminalCommands ? terminalCommands[normalized] : null`: an entry is found only when the table exists and holds the name |
| About2Terminal.Response | src/pages/About2.jsx:232-237 | `responseEntries`: for a found entry, `text` entries whose texts are exactly its output lines; otherwise the single not-found entry |
| About2Terminal.Execute | src/pages/About2.jsx:217-240 | `runCommand` on a log: blank input leaves it, `clear` in any case gives `Cleared`, anything else keeps the old log as a prefix and appends the echo of the trimmed input first |
| About2Terminal.Terminal.constructor | src/pages/About2.jsx:200-206 | the log starts as the three-entry seed and the buffer starts empty |
| About2Terminal.Terminal.Change | src/pages/About2.jsx:279 | typing sets the buffer |
| About2Terminal.Terminal.RunCommand | src/pages/About2.jsx:217-240 | the new log is `Execute` of the old log and the input |
| About2Terminal.Terminal.HandleSubmit | src/pages/About2.jsx:242-246 | the buffer is run, and the buffer is then empty whatever the outcome |
| About2Terminal.BlankIsIgnored | src/pages/About2.jsx:218-219 | an all-white-space input leaves the log unchanged |
| About2Terminal.ClearLeavesNotice | src/pages/About2.jsx:220-225 | `clear` in any case and with any padding replaces the log with the single entry `Console cleared.`, which is not the seed |
| About2Terminal.KnownCommand | src/pages/About2.jsx:227-239 | a registered command appends the echo `guest@portfolio:~$ ` + trimmed input, then one `text` entry per output line, in order, keeping the old log as a prefix |
| About2Terminal.UnknownCommand | src/pages/About2.jsx:227-239 | an unknown command, or any command when the table is missing, appends the echo and one `error` entry `Command not found: <input>. Try "help".` |
| About2Terminal.MissingRegistryIsUnknown | src/pages/About2.jsx:230 | a missing table behaves exactly like an empty one |
| About2Terminal.AppendOnly | src/pages/About2.jsx:239 | apart from `clear`, the old log is a prefix of the new one, and what is appended does not depend on the log |
| About2Terminal.PaddingIsIgnored | src/pages/About2.jsx:218 | white space around the input does not change the resulting log |
| About2Terminal.CaseIsIgnored | src/pages/About2.jsx:218-234 | for a registered command, inputs with the same trimmed, lower-cased form grow the log by the same amount and append the same entries after the echo |
| TerminalTyper.Width | src/pages/Home2.jsx:215-237 | a line takes one step per character, and one step when it is empty |
| TerminalTyper.TotalSteps | src/pages/Home2.jsx:206-242 | Σ max(1, text length): at least one step per line |
| TerminalTyper.Next | src/pages/Home2.jsx:206-242 | one step keeps the cursor in range, leaves a finished cursor where it is, and otherwise brings the end exactly one step closer |
| TerminalTyper.Iterate | src/pages/Home2.jsx:206-244 | any number of steps keeps the cursor in range |
| TerminalTyper.Shown | src/pages/Home2.jsx:225-233 | what is displayed at a cursor: `lineIndex` lines at a line boundary and `lineIndex + 1` mid-line; finished lines are shown exactly, and a half-typed line keeps its colour and shows a proper prefix of its text, as long as the column |
| TerminalTyper.DoneIsFixed | src/pages/Home2.jsx:207-210 | once the line index reaches the script's length, a step changes nothing and the whole script is displayed |
| TerminalTyper.EmptyLineInOneStep | src/pages/Home2.jsx:215-221 | an empty line is emitted whole in one step, with its other fields kept, and the cursor moves to the next line |
| TerminalTyper.OneCharacterPerStep | src/pages/Home2.jsx:223-241 | on a non-empty line each step reveals exactly one more character; after the last one the line is shown whole and the cursor moves to the start of the next line |
| TerminalTyper.IterateRemaining | src/pages/Home2.jsx:206-242 | after `n` steps the number of steps still to come has dropped by `n`, down to zero |
| TerminalTyper.NothingRemainingIsDone | src/pages/Home2.jsx:207 | no steps left means the cursor is past the last line |
| TerminalTyper.CompletesAfterTotalSteps | src/pages/Home2.jsx:206-242 | from the start, after Σ max(1, text length) steps or more, the displayed lines are the script itself, texts and colours alike |
| TerminalTyper.Typer.constructor | src/pages/Home2.jsx:198-203 | the cursor starts at the first character, with no partial text and nothing displayed |
| TerminalTyper.Typer.Valid | src/pages/Home2.jsx:198-242 | the closure's state agrees with its cursor: as many displayed lines as finished lines plus one mid-line, the partial text is a prefix of the current line as long as the column, and it is what the half-typed displayed line shows |
| TerminalTyper.Typer.Step | src/pages/Home2.jsx:206-242 | one call of `type` moves the cursor as `Next` says and keeps `Valid()`: the partial text is a prefix of the current line and the displayed lines are `Shown`; the timer is stopped once the end is reached |
| TerminalTyper.Typer.Run | src/pages/Home2.jsx:244 | `ticks` calls of `type` move the cursor as `Iterate` says |
| TerminalTyper.Animate | src/pages/Home2.jsx:197-246 | a fresh typer driven for `ticks` steps shows `Shown` at the iterated cursor, and shows the whole script once `ticks` covers it |
| HomePage.DefaultTerminalScript | src/pages/Home2.jsx:11-23 | the default script has eleven lines |
| HomePage.TerminalScript | src/pages/Home2.jsx:28-31 | the translated script is used only when it is an array with at least one line, otherwise the eleven-line default; the result is never empty |
| HomePage.Or | src/pages/Home2.jsx:32-35 | the `||` fallback: the value when it is present and non-empty, the fallback otherwise |
| HomePage.WindowTitle | src/pages/Home2.jsx:32 | never empty; the translation whenever it is present and non-empty |
| HomePage.PortLabel | src/pages/Home2.jsx:33 | never empty; the translation whenever it is present and non-empty |
| HomePage.StatusLabel | src/pages/Home2.jsx:34 | never empty; the translation whenever it is present and non-empty |
| HomePage.GlitchFallback | src/pages/Home2.jsx:35 | never empty; the translation whenever it is present and non-empty |
| HomePage.GlitchText | src/pages/Home2.jsx:36-39 | the headline is the fallback, or else non-empty with no white space at either end; it is never empty when the fallback is not |
| HomePage.LabelsNeverEmpty | src/pages/Home2.jsx:32-39 | the window title, port label, status label and headline are never empty, whatever the translations |
| HomePage.JoinTwo | src/pages/Home2.jsx:36-38 | two parts filtered and joined have one space between them when both are present, and are just the present part otherwise |
| HomePage.GlitchBothParts | src/pages/Home2.jsx:36-39 | two trimmed, non-empty parts give `prefix highlight` |
| HomePage.GlitchOnePart | src/pages/Home2.jsx:36-39 | a missing part drops out, leaving no stray space |
| HomePage.GlitchBlankParts | src/pages/Home2.jsx:36-39 | parts that are missing or only white space give the fallback |
| HomePage.DefaultScriptShape | src/pages/Home2.jsx:11-23 | the default script has eleven lines, and exactly the fourth and eighth are empty |

## Left out

- Inherited keys of the command table are not modelled. In JavaScript, `terminalCommands[normalized]` also finds keys inherited from `Object.prototype`. `constructor` and `__proto__` are lower case and give truthy values without an `output`, so the first page would throw on `lookup.output.map`. The second page would throw the same way. The model looks up the table's own keys only.
- `toLowerCase` and `trim` work on UTF-16 code units in JavaScript. The model works on Unicode scalar values.
- Full Unicode case mapping is not modelled. `toLowerCase` also maps some non-ASCII letters to ASCII ones: U+212A KELVIN SIGN becomes `k` and U+0130 becomes `i` followed by U+0307. So `s` + U+212A + `ills` finds the `skills` entry in JavaScript, while the model reports it as not found. No such letter lower-cases into `clear`, so the two agree on which inputs clear the log.
- The clock is not modelled. The `date` entry is the parameter `now` of `TerminalCommands.Commands`.
- React's scheduling is left out:
  - State updaters are applied when they are called. If React deferred the typewriter's updater until after `type` returned, the updater would read closure variables that had already moved on.
  - StrictMode's double invocation is left out.
  - So is the effect restarting, without clearing `displayedLines`, when `lines` changes.
- The timer's 20 ms interval and `clearInterval` are left out. `Typer.Step` is one tick, `Typer.Run` is a number of ticks, and `stopped` records that the timer would have been cleared.
- Rendering is left out: JSX, styles, animations, auto-scroll, focus handling, the comparison sliders and the mobile modal.
- Translations are inputs. `t()` results are `Option` values, or strings for the headline parts. `HomePage.GlitchText` takes a missing part as the empty string, which `filter(Boolean)` drops just as it drops `undefined`.
- `TerminalTyper.Typer.Step` counts and indexes a line's text by Unicode scalar values. JavaScript's `line.text[currentCharIndex]` and `line.text.length` count UTF-16 code units. A script line holding a character outside the Basic Multilingual Plane (an emoji, say) takes one step more per such character in the page than `TerminalTyper.TotalSteps` counts, and one of those steps shows a lone high surrogate, which the model never displays.
- `TerminalTyper.Typer.Step`: the partial-line check `newLines[currentLineIndex]` is modelled as "that index is inside the list". Every displayed entry is an object, so the two agree.
- `TerminalCommands` proves the `help`, `?`, `clear` and `date` facts one entry at a time, not as quantified statements over every entry. The literal texts make quantified statements too costly to prove.
