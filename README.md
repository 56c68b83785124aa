# CodeEdit core model in Dafny

This project models parts of the CodeEdit macOS editor and proves
properties of them.

The main part is the client-side semantic-token store of the Language Server
Protocol 3.17 client, `LSPSemanticTokenStorage`.
- It holds the last integer array a language server sent: five integers per
  token.
- It applies a `SemanticTokensDelta` by splicing the edits into a working
  copy, from the highest `start` down.
- It reports the group-aligned ranges that each edit invalidates.
- It reads the result back as tokens, in groups of five.

Around the store the project models the small value types that the editor's
settings, its language-server registry and its terminal are built from:
- the terminal key map: key raw values, key codes, modifier flags, the key
  match id, the key match order and labels;
- the package managers and package executable types of the language-server
  registry, and how an installation method is described;
- registry entries: display names, descriptions, package-source prefixes and
  which `bin` entry names the server;
- the two language-server configuration types;
- shells and how a shell command is set up;
- the command palette's command registry;
- the navigator preferences and how they decode;
- run tasks.

## Layout

| file | module | what it holds |
|---|---|---|
| `wrappers.dfy` | `Wrappers` | `Option` and `Result` |
| `text.dfy` | `Text` | `split`, `joined`, ASCII case mapping, prefix and substring tests, code-point string order |
| `sorting.dfy` | `Sorting` | the stable descending sort behind `sorted(by: { key($0) > key($1) })` |
| `token_delta.dfy` | `TokenDelta` | specification functions of the token array, edits and invalidated ranges |
| `token_storage.dfy` | `TokenStorage` | the store as a class, with its loops as methods proved against `TokenDelta` |
| `terminal_key.dfy` | `TerminalKey` | `Key`: raw values, labels, Carbon key codes |
| `terminal_key_map.dfy` | `TerminalKeyMap` | `Modifiers` and `KeyMatch`: id, order, label |
| `package_manager.dfy` | `PackageManager` | `PackageManagerType` |
| `package_executable.dfy` | `PackageExecutable` | `PackageExecutableType` |
| `installation_method.dfy` | `Installation` | `InstallationMethod` |
| `registry_item.dfy` | `Registry` | `RegistryItem` |
| `language_server_binary.dfy` | `LanguageServerBinary` | the struct `LanguageServerConfiguration` and its `ExecType` |
| `language_server_settings.dfy` | `LanguageServerSettings` | the enum `LanguageServerConfiguration` |
| `shell.dfy` | `Shells` | `Shell` |
| `shell_configuration.dfy` | `ShellConfig` | `ShellConfiguration` and `executeCommandWithShell` |
| `command_manager.dfy` | `Commands` | `CommandManager` and `Command` |
| `navigation_preferences.dfy` | `Navigation` | `NavigationPreferences` |
| `run_task.dfy` | `RunTasks` | `RunTask` |

## How the store is modelled

- `LSPSemanticTokenStorage` is a class whose one field, `state`, is
  reassigned by `SetData` and `ApplyDelta`.
- The delta loop, the invalidated-range walk and the stride-5 decode are
  methods with loop invariants. Each is proved equal to a specification
  function of module `TokenDelta`. What the source promises is then proved
  about those functions:
  - the length change;
  - which ranges are reported;
  - that the integers below every edit keep their place;
  - that applying edits from the highest `start` down lets every edit use
    the indices of the array the server sent;
  - that a store of `n` integers holds `n / 5` tokens.
- Where Swift would trap, the model has a precondition:
  - an index out of range in `replaceSubrange` or `insert`;
  - a read past the end in `invalidatedRanges` or in the decode loop.
- `applyDelta` starts with `assert(state != nil)`. That assertion stops only
  debug builds. The model follows the release behaviour: on an empty store it
  returns no ranges and changes nothing.
- Edits are ordered with a stable insertion sort. Swift's `sorted(by:)` is
  stable, so edits with the same `start` keep the order the server sent.
- What the store keeps and reports:
  - Tokens are read positionally: each token holds the five integers of its
    group as they are, without resolving them to absolute lines and
    characters.
  - Invalidated ranges are the raw first three integers of each group.
  - A delta on an empty store returns no ranges.
  - Malformed deltas (out-of-range edits, a length that is not a multiple of
    5) trap, so the model excludes them by precondition.
  - Result ids are never compared: a delta is applied whatever id it names.

## Model

| member | source | states |
|---|---|---|
| `TokenDelta.AlignDown` | CodeEdit/Features/LSP/Editor/SemanticTokenStorage/LSPSemanticTokenStorage.swift:121 | the walk starts at a multiple of 5, at most 4 below `startIdx` |
| `TokenDelta.WalkShape` | CodeEdit/Features/LSP/Editor/SemanticTokenStorage/LSPSemanticTokenStorage.swift:120-132 | the walk yields one range per visited offset, the `i`-th read from the triple at `k + 5 * i` |
| `TokenDelta.WalkInBoundsClosedForm` | CodeEdit/Features/LSP/Editor/SemanticTokenStorage/LSPSemanticTokenStorage.swift:122-130 | the walk's reads stay in range exactly when the last visited offset plus 2 is inside the array |
| `TokenDelta.InvalidatedAt` | CodeEdit/Features/LSP/Editor/SemanticTokenStorage/LSPSemanticTokenStorage.swift:119-133 | every reported range is the first three integers of a group whose aligned offset lies in `[AlignDown(startIdx), startIdx + length)` |
| `TokenDelta.InvalidatedCovers` | CodeEdit/Features/LSP/Editor/SemanticTokenStorage/LSPSemanticTokenStorage.swift:119-133 | conversely, every aligned group offset in that span is reported, at position `(k - AlignDown(startIdx)) / 5` |
| `TokenDelta.InvalidatedEmptySpan` | CodeEdit/Features/LSP/Editor/SemanticTokenStorage/LSPSemanticTokenStorage.swift:121-122 | a zero length reports nothing at an aligned start, and the group holding the start otherwise |
| `TokenDelta.Splice` | CodeEdit/Features/LSP/Editor/SemanticTokenStorage/LSPSemanticTokenStorage.swift:84-88 | an edit changes the length by what it inserts minus what it deletes |
| `TokenDelta.SpliceElements` | CodeEdit/Features/LSP/Editor/SemanticTokenStorage/LSPSemanticTokenStorage.swift:84-88 | integers before `start` stay, the edit's data follows, and the rest shifts by the change in length |
| `TokenDelta.ApplyEditsLength` | CodeEdit/Features/LSP/Editor/SemanticTokenStorage/LSPSemanticTokenStorage.swift:78-99 | a batch changes the length by the sum of inserted minus deleted counts |
| `TokenDelta.ApplyEditsKeepsPrefix` | CodeEdit/Features/LSP/Editor/SemanticTokenStorage/LSPSemanticTokenStorage.swift:78-99 | integers below every edit's `start` are untouched by the batch |
| `TokenDelta.ApplyEditsInterleaves` | CodeEdit/Features/LSP/Editor/SemanticTokenStorage/LSPSemanticTokenStorage.swift:77-88 | for any number of non-overlapping edits in descending order, the batch equals the server's original slices interleaved with each edit's data at its original indices, with everything past the edits kept |
| `TokenDelta.DescendingSplicesUseOriginalIndices` | CodeEdit/Features/LSP/Editor/SemanticTokenStorage/LSPSemanticTokenStorage.swift:77-88 | after the higher edit, the lower edit still finds its span at its original indices, and both splices land where the server placed them |
| `TokenDelta.GroupsShape` | CodeEdit/Features/LSP/Editor/SemanticTokenStorage/LSPSemanticTokenStorage.swift:102-111 | reading an array of `n` integers yields `n / 5` tokens, the `i`-th from integers `5 * i` to `5 * i + 4` |
| `TokenStorage.DeltaStateShape` | CodeEdit/Features/LSP/Editor/SemanticTokenStorage/LSPSemanticTokenStorage.swift:101-112 | the state after a delta has the edits' net growth, `tokenData.count / 5` tokens read positionally, and the delta's result id |
| `TokenStorage.DeleteFirstGroupExample` | CodeEdit/Features/LSP/Editor/SemanticTokenStorage/LSPSemanticTokenStorage.swift:72-115 | deleting the first of two groups leaves the second as the only token and reports the deleted group's range |
| `TokenStorage.EditOrderExample` | CodeEdit/Features/LSP/Editor/SemanticTokenStorage/LSPSemanticTokenStorage.swift:77-78 | edits sent in ascending order are applied from the highest `start` down |
| `TokenStorage.LSPSemanticTokenStorage.constructor` | CodeEdit/Features/LSP/Editor/SemanticTokenStorage/LSPSemanticTokenStorage.swift:27-39 | a new store has no state, so `hasTokens` is false and `lastResultId` is nil |
| `TokenStorage.LSPSemanticTokenStorage.GetTokensFor` | CodeEdit/Features/LSP/Editor/SemanticTokenStorage/LSPSemanticTokenStorage.swift:43-56 | the range query returns no tokens, whatever the state |
| `TokenStorage.LSPSemanticTokenStorage.SetData` | CodeEdit/Features/LSP/Editor/SemanticTokenStorage/LSPSemanticTokenStorage.swift:58-61 | the store then holds the payload's result id, integers and decoded tokens, and `hasTokens` is true |
| `TokenStorage.LSPSemanticTokenStorage.ApplyDelta` | CodeEdit/Features/LSP/Editor/SemanticTokenStorage/LSPSemanticTokenStorage.swift:72-115 | on an empty store it returns no ranges and changes nothing; otherwise the new state is the sorted edits applied to the stored integers, read back in groups of five, with the delta's result id, and the result is every edit's invalidated ranges in that order |
| `TokenStorage.LSPSemanticTokenStorage.FindLowerBound` | CodeEdit/Features/LSP/Editor/SemanticTokenStorage/LSPSemanticTokenStorage.swift:139-158 | the search always answers nil |
| `TokenStorage.InvalidatedRanges` | CodeEdit/Features/LSP/Editor/SemanticTokenStorage/LSPSemanticTokenStorage.swift:119-133 | the loop returns exactly the group-aligned walk, one range per visited offset |
| `TokenStorage.ApplySortedEdits` | CodeEdit/Features/LSP/Editor/SemanticTokenStorage/LSPSemanticTokenStorage.swift:78-99 | the edit loop leaves the batch's array and the concatenation of every edit's ranges |
| `TokenStorage.ApplyEdit` | CodeEdit/Features/LSP/Editor/SemanticTokenStorage/LSPSemanticTokenStorage.swift:79-98 | one pass splices the edit in, whether through `replaceSubrange` or `insert`, and reports the deleted span's ranges, then the inserted span's |
| `TokenStorage.DecodeGroups` | CodeEdit/Features/LSP/Editor/SemanticTokenStorage/LSPSemanticTokenStorage.swift:102-111 | the stride loop builds exactly one token per group of five |
| `Sorting.SortDescCorrect` | CodeEdit/Features/LSP/Editor/SemanticTokenStorage/LSPSemanticTokenStorage.swift:78 | the edits are ordered by descending `start` and are a permutation of those sent |
| `Sorting.SortDescStable` | CodeEdit/Features/LSP/Editor/SemanticTokenStorage/LSPSemanticTokenStorage.swift:78 | edits with equal `start` keep their relative order |
| `Text.SplitPieces` | CodeEdit/Features/LSP/Registry/Model/PackageExecutableType.swift:30 | `split` returns only non-empty pieces free of the separator |
| `Text.SplitJoin` | CodeEdit/Features/LSP/Registry/Model/PackageExecutableType.swift:30-32 | splitting pieces joined by the separator gives back the pieces |
| `Text.LexLessTotal` | CodeEdit/Features/LSP/Registry/Model/RegistryItem.swift:80 | string `<` orders any two distinct strings |
| `Text.LexLessTransitive` | CodeEdit/Features/LSP/Registry/Model/RegistryItem.swift:80 | string `<` is transitive |
| `TerminalKey.RawValue` | CodeEdit/Features/Settings/Pages/TerminalSettings/Models/TerminalSettings+KeyMap.swift:52-86 | a key's raw value is its position in declaration order |
| `TerminalKey.RawValueRoundTrip` | CodeEdit/Features/Settings/Pages/TerminalSettings/Models/TerminalSettings+KeyMap.swift:52-86 | `Key(rawValue:)` inverts `rawValue` and succeeds exactly for 0 to 33 |
| `TerminalKey.LabelRoundTrip` | CodeEdit/Features/Settings/Pages/TerminalSettings/Models/TerminalSettings+Key.swift:13-84 | every key's label reads back as that key |
| `TerminalKey.LabelInjective` | CodeEdit/Features/Settings/Pages/TerminalSettings/Models/TerminalSettings+Key.swift:13-84 | no two keys share a label |
| `TerminalKey.LabelHead` | CodeEdit/Features/Settings/Pages/TerminalSettings/Models/TerminalSettings+Key.swift:13-84 | every label has two or more characters and does not start with a space or a modifier symbol |
| `TerminalKey.KeyCodeRoundTrip` | CodeEdit/Features/Settings/Pages/TerminalSettings/Models/TerminalSettings+Key.swift:87-160 | `init?(keyCode:)` inverts the key-code table and gives nil exactly for codes no key has |
| `TerminalKey.DeleteKeysExample` | CodeEdit/Features/Settings/Pages/TerminalSettings/Models/TerminalSettings+Key.swift:145-158 | Delete and Forward Delete have their own codes; code 0 is no key |
| `TerminalKeyMap.RawValue` | CodeEdit/Features/Settings/Pages/TerminalSettings/Models/TerminalSettings+KeyMap.swift:91-96 | the three flags use bits 0 to 2, so the raw value is below 8 |
| `TerminalKeyMap.ModifiersRawRoundTrip` | CodeEdit/Features/Settings/Pages/TerminalSettings/Models/TerminalSettings+KeyMap.swift:91-96 | flags and raw values below 8 correspond one to one |
| `TerminalKeyMap.ModifiersLessIsStrictTotalOrder` | CodeEdit/Features/Settings/Pages/TerminalSettings/Models/TerminalSettings+KeyMap.swift:113-115 | `Modifiers.<` is a strict total order |
| `TerminalKeyMap.IdRoundTrip` | CodeEdit/Features/Settings/Pages/TerminalSettings/Models/TerminalSettings+KeyMap.swift:23-32 | `init?(id:)` recovers the key match from its id |
| `TerminalKeyMap.FromIdInverse` | CodeEdit/Features/Settings/Pages/TerminalSettings/Models/TerminalSettings+KeyMap.swift:26-32 | `init?(id:)` succeeds exactly for ids 0 to 543, and drops bit 3 of the id |
| `TerminalKeyMap.IdInjective` | CodeEdit/Features/Settings/Pages/TerminalSettings/Models/TerminalSettings+KeyMap.swift:23 | distinct key matches have distinct ids |
| `TerminalKeyMap.LessIsIdOrder` | CodeEdit/Features/Settings/Pages/TerminalSettings/Models/TerminalSettings+KeyMap.swift:34-40 | `KeyMatch.<` orders exactly as the ids do |
| `TerminalKeyMap.LessIsStrictTotalOrder` | CodeEdit/Features/Settings/Pages/TerminalSettings/Models/TerminalSettings+KeyMap.swift:34-40 | `KeyMatch.<` is a strict total order |
| `TerminalKeyMap.SymbolsOfAll` | CodeEdit/Features/Settings/Pages/TerminalSettings/Models/TerminalSettings+KeyMap.swift:98-111 | the symbols of the present flags come in the order ctrl, option, shift |
| `TerminalKeyMap.LabelIsPrefixed` | CodeEdit/Features/Settings/Pages/TerminalSettings/Models/TerminalSettings+KeyMap.swift:42-49 | a label is each present flag's symbol followed by a space, then the key's label |
| `TerminalKeyMap.LabelRoundTrip` | CodeEdit/Features/Settings/Pages/TerminalSettings/Models/TerminalSettings+KeyMap.swift:42-49 | a key match's label reads back as that key match |
| `TerminalKeyMap.LabelInjective` | CodeEdit/Features/Settings/Pages/TerminalSettings/Models/TerminalSettings+KeyMap.swift:42-49 | no two key matches share a label |
| `TerminalKeyMap.LabelExample` | CodeEdit/Features/Settings/Pages/TerminalSettings/Models/TerminalSettings+KeyMap.swift:23-49 | control-shift-F5 is labelled "⌃ ⇧ F5" and has id 69 |
| `PackageManager.UserDescriptionRoundTrip` | CodeEdit/Features/LSP/Registry/Model/PackageManagerType.swift:33-56 | every description reads back as its package manager |
| `PackageManager.UserDescriptionInjective` | CodeEdit/Features/LSP/Registry/Model/PackageManagerType.swift:33-56 | no two package managers share a description |
| `PackageManager.PackageManagerSupport` | CodeEdit/Features/LSP/Registry/Model/PackageManagerType.swift:58-74 | Nuget, Opam, Gem and Composer have no installer; GitHub and source builds share one; every other manager has its own |
| `PackageExecutable.IdentifierRoundTrip` | CodeEdit/Features/LSP/Registry/Model/PackageExecutableType.swift:33-50 | each type has exactly one identifier, and Pip's is "pypi" |
| `PackageExecutable.ParseRoundTrip` | CodeEdit/Features/LSP/Registry/Model/PackageExecutableType.swift:29-51 | an identifier, ":" and colon-joined pieces parse back to that type and those pieces |
| `PackageExecutable.ParseUnknownIdentifier` | CodeEdit/Features/LSP/Registry/Model/PackageExecutableType.swift:48-49 | an unknown first component gives nil |
| `PackageExecutable.ParseNoComponent` | CodeEdit/Features/LSP/Registry/Model/PackageExecutableType.swift:30-31 | a string with no non-empty component gives nil |
| `PackageExecutable.ParseNormalises` | CodeEdit/Features/LSP/Registry/Model/PackageExecutableType.swift:29-51 | re-parsing what `parse` returns gives the same answer |
| `PackageExecutable.ParseRejoins` | CodeEdit/Features/LSP/Registry/Model/PackageExecutableType.swift:32 | an identifier followed by two pieces parses to that type with the pieces rejoined by ":" (so "npm:a:b" gives npm and "a:b") |
| `PackageExecutable.ParseDropsEmpty` | CodeEdit/Features/LSP/Registry/Model/PackageExecutableType.swift:30-32 | a doubled colon after the identifier parses exactly as a single one: the empty component is dropped |
| `PackageExecutable.ParsePypi` | CodeEdit/Features/LSP/Registry/Model/PackageExecutableType.swift:40-41 | "pypi:" followed by a piece is Pip with that piece, and "pip:" followed by it is nil |
| `PackageExecutable.ResolverIsEcosystemInstaller` | CodeEdit/Features/LSP/Registry/Model/PackageExecutableType.swift:53-68 | a type has a resolver exactly when its ecosystem's package manager has an installer, and it is that installer; Node, Gem and Composer have none |
| `Installation.AccessorsReadSource` | CodeEdit/Features/LSP/Registry/Model/InstallationMethod.swift:21-63 | the source is absent exactly for `.unknown`, and the other accessors read its fields |
| `Installation.InstallerDescriptionCases` | CodeEdit/Features/LSP/Registry/Model/InstallationMethod.swift:65-73 | "Unknown" exactly for `.unknown`; "(Unsupported) " is prefixed exactly when the manager has no installer |
| `Installation.PackageDescriptionCases` | CodeEdit/Features/LSP/Registry/Model/InstallationMethod.swift:75-81 | nil exactly for `.unknown`; otherwise the name, with "@" and the version when there is one |
| `Registry.CapitalizedFrom` | CodeEdit/Features/LSP/Registry/Model/RegistryItem.swift:31 | upper case at the start and after any character that is not a letter (space, digit, punctuation), lower case elsewhere, same length |
| `Registry.SanitizeWordKeepsMarks` | CodeEdit/Features/LSP/Registry/Model/RegistryItem.swift:25-32 | sanitising a word keeps its length and adds or removes no space, "-" or "_" |
| `Registry.SanitizeWordCases` | CodeEdit/Features/LSP/Registry/Model/RegistryItem.swift:26-31 | "ls", "lsp", "ci" and "cli" in any case become upper case; other words are lower-cased, then upper-cased at the start and after every non-letter, and lower-cased after every letter |
| `Registry.NameWordsArePieces` | CodeEdit/Features/LSP/Registry/Model/RegistryItem.swift:22-24 | every word of a name is non-empty and holds no space, "-" or "_" |
| `Registry.SanitizedNameWords` | CodeEdit/Features/LSP/Registry/Model/RegistryItem.swift:21-34 | the sanitised name splits back into exactly the sanitised words, so it has no stray spaces and no "-" or "_" |
| `Registry.SanitizeWordExamples` | CodeEdit/Features/LSP/Registry/Model/RegistryItem.swift:25-32 | "lua" becomes "Lua", "Ls" becomes the abbreviation "LS", and "m68k" becomes "M68K" |
| `Registry.NameWordsOfPair` | CodeEdit/Features/LSP/Registry/Model/RegistryItem.swift:22-24 | two words joined by a space, "-" or "_" are read back as exactly those two words |
| `Registry.SanitizedNameOfPair` | CodeEdit/Features/LSP/Registry/Model/RegistryItem.swift:21-34 | such a two-word name is shown as the two sanitised words with one space between them (so "lua_Ls" is shown as "Lua LS") |
| `Registry.SanitizedDescriptionProps` | CodeEdit/Features/LSP/Registry/Model/RegistryItem.swift:36-38 | no newline remains, the length is kept and every other character stays in place |
| `Registry.PrefixesExclusive` | CodeEdit/Features/LSP/Registry/Model/RegistryItem.swift:54-65 | no source id carries two of the six prefixes |
| `Registry.InstallParserByPrefix` | CodeEdit/Features/LSP/Registry/Model/RegistryItem.swift:52-69 | a parser is chosen exactly when the id carries its prefix, so the order of the tests does not matter |
| `Registry.InstallMethodByPrefix` | CodeEdit/Features/LSP/Registry/Model/RegistryItem.swift:52-69 | the install method is the chosen parser's answer, and nil when no prefix matches |
| `Registry.FirstServerKey` | CodeEdit/Features/LSP/Registry/Model/RegistryItem.swift:81-86 | `first(where:)` finds the first key that contains a filter string, or reports that none does |
| `Registry.SortedKeysProps` | CodeEdit/Features/LSP/Registry/Model/RegistryItem.swift:80 | the sorted keys are exactly the map's keys, in strictly ascending order |
| `Registry.BinExprStringPicksLeastServerKey` | CodeEdit/Features/LSP/Registry/Model/RegistryItem.swift:71-88 | with two or more entries, the result is the value of the least key that contains a filter string, and nil when no key does |
| `Registry.BinExprStringSmall` | CodeEdit/Features/LSP/Registry/Model/RegistryItem.swift:72-76 | an empty map gives nil; a single entry gives its value whatever its key |
| `LanguageServerBinary.ExecTypeCases` | CodeEdit/Features/LSP/LanguageServer/LanguageServerConfiguration.swift:19-35 | an executable runs itself with no arguments of its own; a shell command is handed to "/bin/zsh" as its one argument |
| `LanguageServerBinary.ProcessParametersShape` | CodeEdit/Features/LSP/LanguageServer/LanguageServerConfiguration.swift:50-57 | the exec type's arguments come first and the configured ones after them; path, environment and directory are copied |
| `LanguageServerSettings.AccessorCases` | CodeEdit/Features/LSP/LanguageServerConfiguration.swift:14-39 | `execPath` is never nil; a registry command has no arguments and an empty environment; an absent environment reads as empty |
| `LanguageServerSettings.AccessorsRebuildExec` | CodeEdit/Features/LSP/LanguageServerConfiguration.swift:32-39 | the accessors rebuild an executable that has an environment; absent and empty environments read the same |
| `Shells.AllCasesAndRawValues` | CodeEdit/Features/TerminalEmulator/Model/Shell.swift:11-14 | `allCases` lists each of the three shells once, and raw values read back |
| `Shells.DefaultPathCases` | CodeEdit/Features/TerminalEmulator/Model/Shell.swift:16-25 | bash and zsh live at "/bin/" plus their name; fish has no default |
| `Shells.AutoDetectCases` | CodeEdit/Features/TerminalEmulator/Model/Shell.swift:30-35 | the user's shell when there is a user, and zsh's path otherwise |
| `ShellConfig.IsShIffDefaultPath` | CodeEdit/Features/TerminalEmulator/Model/ShellConfiguration.swift:15-22 | the sh-compatible profiles are exactly those with a default path |
| `ShellConfig.ExecutablePathCases` | CodeEdit/Features/TerminalEmulator/Model/ShellConfiguration.swift:59-62 | an explicit path wins, the profile's default is next, and there is none exactly for fish without a path |
| `ShellConfig.LoginArguments` | CodeEdit/Features/TerminalEmulator/Model/ShellConfiguration.swift:68 | three arguments, the command last |
| `ShellConfig.ExecuteCommandWithShell` | CodeEdit/Features/TerminalEmulator/Model/ShellConfiguration.swift:49-75 | the environment is always set; `noPath` is thrown exactly when no path resolves, leaving the rest unset; otherwise path, login arguments and one pipe for both outputs are set |
| `ShellConfig.FishWithoutPathExample` | CodeEdit/Features/TerminalEmulator/Model/ShellConfiguration.swift:59-61 | fish without an explicit path throws `noPath` |
| `Commands.CommandIdentity` | CodeEdit/Features/Keybindings/CommandManager.swift:51-61 | equality is an equivalence on ids alone, hashing agrees with it, and `<` relates nothing |
| `Commands.WithCommandFacts` | CodeEdit/Features/Keybindings/CommandManager.swift:34-37 | adding stores under `id` a command whose own id is `name`, keeps every other entry, and grows the map only for a new key |
| `Commands.CommandManager.constructor` | CodeEdit/Features/Keybindings/CommandManager.swift:28-30 | a new manager holds no commands |
| `Commands.CommandManager.AddCommand` | CodeEdit/Features/Keybindings/CommandManager.swift:34-37 | the map afterwards is the old one with the entry under `id` replaced |
| `Commands.CommandManager.Commands` | CodeEdit/Features/Keybindings/CommandManager.swift:39-41 | as many commands as stored entries, exactly the stored values, each read from its own distinct key |
| `Commands.CommandManager.ExecuteCommand` | CodeEdit/Features/Keybindings/CommandManager.swift:43-45 | the stored handler runs; nothing runs for an unknown key or a command without a handler |
| `Commands.AddThenExecuteExample` | CodeEdit/Features/Keybindings/CommandManager.swift:34-45 | a command added under a key runs by that key and is listed with its name as its id |
| `Navigation.Default` | CodeEditModules/Modules/AppPreferences/src/Model/Navigation/NavigationPreferences.swift:15-21 | hidden files are not shown, and ".git" and ".DS_Store" are hidden |
| `Navigation.DecodeCases` | CodeEditModules/Modules/AppPreferences/src/Model/Navigation/NavigationPreferences.swift:24-34 | decoding fails exactly for a value of the wrong type; a missing key takes its default and a present one is taken as decoded |
| `Navigation.DecodeRoundTrip` | CodeEditModules/Modules/AppPreferences/src/Model/Navigation/NavigationPreferences.swift:12-42 | an empty object decodes to the defaults, and decoding what was encoded gives it back |
| `RunTasks.InsertAt` | CodeEdit/Features/Run/Model/RunTask.swift:42-43 | inserting keeps the text before the index, then the inserted text, then the rest |
| `RunTasks.BuildExecutionString` | CodeEdit/Features/Run/Model/RunTask.swift:36-47 | the raw task comes back unchanged, after visiting every insert once from the highest position down |
| `RunTasks.SlashedProps` | CodeEdit/Features/Run/Model/RunTask.swift:73-77 | the appended part starts with "/", ends with the extension, adds at most one character, and a second pass leaves it alone |
| `RunTasks.ResolvePathExtension` | CodeEdit/Features/Run/Model/RunTask.swift:70-79 | the path is unchanged without a decodable extension; otherwise the extension is appended behind exactly one "/" of its own or added |
| `RunTasks.SlashedExamples` | CodeEdit/Features/Run/Model/RunTask.swift:73-77 | "/src" and "src" both extend "/work" to "/work/src"; an empty extension adds "/" |

## Left out

- Printing in `setData` is left out. `data.decode()` belongs to the protocol library, so `SetData` takes its result as a parameter.
- `TokenStorage.LSPSemanticTokenStorage.GetTokensFor` and `FindLowerBound`: their search loops are commented out in the source, and the model states what is left: no tokens, and nil.
- `TokenStorage.LSPSemanticTokenStorage.ApplyDelta`: the debug-only `assert` is not modelled. `start` and `deleteCount` are unsigned 64-bit, and `start + deleteCount` traps on overflow rather than wrapping; such a sum exceeds the array's length, which `EditStepOk` already excludes, so unbounded naturals lose nothing.
- Concurrency and actor isolation of the store are left out.
- `TerminalKeyMap.FromRawValue`: `Modifiers` with bits other than the three flags (reachable only by decoding) are not modelled; ids are therefore computed as `rawValue * 16 + modifiers`.
- The default terminal key map is a data table of escape strings and is left out.
- The Carbon key codes are introduced as named constants with the values of the HIToolbox header.
- `Registry.CapitalizedFrom`: locale-aware `capitalized`, `lowercased()` and `uppercased()` are modelled for ASCII letters only. A non-ASCII letter counts as a word break, and Foundation's special cases for apostrophes inside words are not modelled.
- `Registry.SortedKeysProps`: Swift's `String` `<` (on Unicode canonical equivalents) is modelled as code-point order.
- The six `PackageSourceParser` functions are not part of this model; `Registry.InstallMethod` takes them as a parameter.
- `RegistryItem.runCommand`, `toDictionary`, `homepageURL` and `homepagePretty` (URL parsing and JSON encoding) are left out.
- `PackageSource` is not part of this model beyond the three fields the installation accessors read.
- Installer and executable-resolver objects are named, not built: the install path they receive is not modelled.
- `LanguageServerBinary.ProcessParametersShape`: `initializationOptions` (free-form JSON) and URL values (kept as path strings) are not modelled.
- `ShellConfig.ExecuteCommandWithShell`: `process.run()` and the error it can throw are not modelled, and the executable URL is kept as its path.
- `Shells.AutoDetectCases`: the current-user lookup is an operating-system call, taken as the input `currentUserShell`.
- `CommandManager.shared` (the singleton) and SwiftUI publishing are left out; handlers are identified by numbers and running one means returning it.
- `Navigation.DecodeCases`: the decoder is modelled as the two keys it reads, each missing, present or of the wrong type; other decoding errors are not modelled.
- `RunTasks.BuildExecutionString`: string positions are counted in characters, not grapheme clusters, and the workspace argument is unused in the source and left out.
- `RunTask.resolveInsertedVariable` reads the workspace folder, the home directory, the application bundle and the settings location, and is left out.
- `RunTasks.ResolvePathExtension`: UTF-8 decoding of the stored bytes is a parameter, `utf8`.
