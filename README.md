# Stylus editor defaults: completion helper, variable comments, jump-to-line, key maps

This project models the logic of `edit/codemirror-default.js`, the file in which the
Stylus extension configures CodeMirror for its style editor, and proves properties of it.
It covers:

- **The CSS completion helper** (`CssHint`, lines 241-324). The helper picks one of six
  outcomes:
  - defer to CodeMirror's own CSS hint inside comments and strings;
  - complete `!important`;
  - offer nothing after `#`;
  - list the `--custom-properties` found in the document;
  - append `": "` to the property names the fallback offers;
  - list the usercss variables that start with the typed text.
- **The regular expressions the helper uses** (`Patterns`, lines 235-238 and 280-290).
  Each is written as the function its sticky or global match computes: `RX_IMPORTANT`,
  `RX_VAR_KEYWORD` through `testAt`, `RX_END_OF_VAR`, `RX_CONSUME_PROP` and the
  generated `RX_CSS_VAR`. The search cursor walks the lines with the last of these.
- **The comment tokenizer hook `tokenizeUsoVariables`** (`UsoVariables`, lines 332-353).
  It marks `/*[[name]]*/` comments as valid or invalid usercss variables.
- **The `jumpToLine` answer parser and the `isBlank` extension** (`EditorCommands`,
  lines 208-213 and 151-161).
- **The default key bindings and the Windows hotkey remap** (`KeyMaps`, lines 44-105).
  - The bindings are added only when `extraKeys` does not already name their command.
  - On Windows, the `Ctrl-N/T/W` hotkeys are moved to free `Alt` combinations.
- **Support modules.**
  - `Chars`: the character classes and the `String` methods used.
  - `Sorting`: `Array.prototype.sort`'s default code-unit order, used on the
    custom-property list.
  - `Wrappers`: an `Option` type.

Where the code keeps state, the model does too:

- `KeyMaps.KeyMapRegistry` holds the keymaps as a class whose methods update them in place.
- `CssHint.HintObject` is the fallback's result object that lines 308-310 rewrite.
- `UsoVariables.TokenizeUsoVariables` overwrites the token array.
- The loops become methods with invariants:
  - the search cursor's `while` in `CssHint.CollectCustomProperties`;
  - `eachLine` in `EditorCommands.IsBlank`;
  - the nested `forEach`es of the remap in `KeyMaps.RemapTables` and the registry's
    methods.

Each method is proved against a function that specifies it. The properties are proved
about those functions.

Everything the helper asks CodeMirror or the page for is an input (`CssHint.Request`):

- the line's `styles`;
- `getStyleAtPos`;
- the document lines;
- the global `editor`;
- the fallback helper's result;
- the tokenizer state.

The same goes for `navigator.appVersion`, as the `windows` flag, and for the base
comment hook's token.

Two places where the code does not do what a reader of it would expect:

- A reader expects the helper to return a completion, or the fallback's result, for
  every request. Lines 310 and 316 can throw instead (see Findings). The as-written
  behaviour is modelled by `Patterns.ConsumePropAsWritten` and `CssHint.VarsAsWritten`,
  and the Findings lemmas exhibit the inputs that throw. `CssHint.Complete` and
  `CssHint.Helper` implement the corrected behaviour of the two Findings rows: no
  variables where line 316 throws, and an unchanged end where line 310 throws.
- A reader expects the `!important` branch to complete only a prefix of `important`.
  The code offers `important` whenever the character after `!` is `i`, a non-word
  character or the line end, whatever word follows. After `!inx` it offers `important`
  over an empty range (`Patterns.ImportantLength` is 0 then). The model follows the code
  here.

## Model

| member | source | states |
|---|---|---|
| Chars.TrimEmpty | edit/codemirror-default.js:155 | `line.text.trim()` is empty exactly when every character of the line is JavaScript white space |
| Sorting.BeforeTrichotomy | edit/codemirror-default.js:297 | the default sort order is total on distinct strings: exactly one comes first |
| Sorting.BeforeTransitive | edit/codemirror-default.js:297 | the default sort order is transitive |
| Sorting.Sort | edit/codemirror-default.js:297 | `.sort()` on a list without duplicates yields a strictly ascending list of the same length with exactly the same members |
| Sorting.SortedUnique | edit/codemirror-default.js:297 | two strictly ascending lists with the same members are equal, so the sorted result depends only on the set |
| Sorting.SortIgnoresOrder | edit/codemirror-default.js:297 | the sorted list does not depend on the order in which the names were found |
| Patterns.ImportantLength | edit/codemirror-default.js:235 | the `RX_IMPORTANT` match is at most the 9 letters of `important` and stays within the line |
| Patterns.ImportantMatchUpTo | edit/codemirror-default.js:235 | the backtracking match is a case-insensitive prefix of `important` followed by a word end, and no longer prefix up to the bound is one |
| Patterns.ImportantExec | edit/codemirror-default.js:257 | a match stays within the line, is a prefix of `important` and ends at a word end; at a word end the match never fails |
| Patterns.ImportantExecIsLength | edit/codemirror-default.js:235 | after a `!`, the sticky `RX_IMPORTANT` match with its backtracking always succeeds, and its length is the `\w` run at the cursor when that run is a non-empty prefix of `important` (any case), otherwise 0 |
| Patterns.VarKeywordAt | edit/codemirror-default.js:355-359 | a match of the sticky `RX_VAR_KEYWORD` at `p` needs `var(` to fit in the line, after a non-name character at `p` when `p` is not 0 |
| Patterns.VarKeywordBefore | edit/codemirror-default.js:278 | `testAt(RX_VAR_KEYWORD, max(0, prev - 4), text)` holds exactly when `var(` ends at the `(`, case-insensitively, at line start or after a non-name character; the clamp at 0 adds two further matches for short prefixes |
| Patterns.EndOfVar | edit/codemirror-default.js:294-295 | `RX_END_OF_VAR` from `p` finds the first white space, `,` or `)` at or after `p`, or the line end; it fails only when `p` is beyond the line |
| Patterns.ConsumePropAsWritten | edit/codemirror-default.js:309-310 | the match as written stays within the line, is the empty match at the line end, and fails beyond it |
| Patterns.ConsumePropFailsMidLine | edit/codemirror-default.js:309-310 | on `a { colo }` from offset 8, `RX_CONSUME_PROP` as written does not match |
| Patterns.ConsumeProp | edit/codemirror-default.js:309-310 | the corrected consume agrees with the as-written match wherever that exists, is 0 where it fails, and stays within the line |
| Patterns.ConsumePropEndsAfterColon | edit/codemirror-default.js:238 | a non-empty consume covers only name characters, blanks and the colon, and ends just after the colon or one blank after it |
| Patterns.CssVarPattern | edit/codemirror-default.js:280-285 | the generated pattern always starts with `--`, uses the typed text when that starts with `--`, and demands a name-start character exactly when the typed text has at most 2 characters |
| Patterns.GroupAt | edit/codemirror-default.js:281-284 | the capture group is the literal prefix followed by the longest run of name characters, with a name-start character first when the pattern demands one; conversely, the group matches whenever the prefix is there (followed by a name-start character when demanded) |
| Patterns.MatchAt | edit/codemirror-default.js:281-285 | a match at `s` captures a group starting at `s` or `s + 1` that spans at least the prefix |
| Patterns.MatchAtOccurs | edit/codemirror-default.js:281-285 | every match captures a name at line start or after a delimiter |
| Patterns.MatchAtOccurrence | edit/codemirror-default.js:281-285 | conversely, every name after a delimiter is matched starting at that delimiter (or at line start) |
| Patterns.HitEndsBeforeDelimiter | edit/codemirror-default.js:281-285 | a captured name never runs over a later delimiter that is not a name character |
| Patterns.FindFrom | edit/codemirror-default.js:286-288 | the search from a position returns a match at or after it |
| Patterns.FindFromLeftmost | edit/codemirror-default.js:286-288 | the search returns the leftmost match: no match before any other match position |
| Patterns.AddName | edit/codemirror-default.js:289 | `Set.add` keeps the earlier names in order and appends the name unless it is already there |
| Patterns.ScanFrom | edit/codemirror-default.js:286-290 | the scan only appends to the names already found, never reordering them |
| Patterns.DocumentNames | edit/codemirror-default.js:286-290 | the collected list holds each name once |
| Patterns.ScanStep | edit/codemirror-default.js:288-289 | one `findNext` either adds the captured name and resumes after it, or moves to the next line |
| Patterns.ScanKeeps | edit/codemirror-default.js:287-289 | a name once added to the set stays |
| Patterns.ScanNoDuplicates | edit/codemirror-default.js:287-289 | the `Set` never holds a name twice |
| Patterns.ScanSound | edit/codemirror-default.js:286-289 | every collected name occurs in the document as a match of the pattern |
| Patterns.ScanComplete | edit/codemirror-default.js:286-289 | every occurrence at or after the cursor that the search cannot step over is collected |
| Patterns.DocumentNamesExact | edit/codemirror-default.js:286-290 | the collected list has no duplicates, holds only occurring names, and holds every occurrence at line start or after a non-name delimiter |
| Patterns.OccurrenceShape | edit/codemirror-default.js:281-284 | every occurring name starts with the pattern's prefix, continues with name characters, and has a name-start character after `--` when the pattern demands one |
| UsoVariables.StyleVars | edit/codemirror-default.js:344 | the declared variables exist exactly when `editor` is defined, has `usercssData` and that has `vars` |
| UsoVariables.IsMarked | edit/codemirror-default.js:340-343 | a marked token has `[[` two characters after its start and `]]` three characters before its end, all within the line |
| UsoVariables.MarkedName | edit/codemirror-default.js:345 | the name is what lies between `[[` and `]]`, and empty when the two overlap |
| UsoVariables.LookupName | edit/codemirror-default.js:346 | one trailing `-rgb` is stripped before the lookup; other names are looked up as they are |
| UsoVariables.ClassifiedToken | edit/codemirror-default.js:332-353 | only a `comment` token between `[[` and `]]` changes, and only its style; it becomes the valid-variable style exactly when the name is declared, the invalid one otherwise |
| UsoVariables.TokenizeUsoVariables | edit/codemirror-default.js:332-353 | the hook returns the same token array, rewritten in place to the classified token |
| UsoVariables.RgbSuffixOneWay | edit/codemirror-default.js:346 | `x-rgb` is valid against a declared `x`, but `x` is not valid against a declared `x-rgb` |
| UsoVariables.MarkedStylesAreUsoVariables | edit/codemirror-default.js:233-234 | the two variable styles do not start with `comment` or `string` and contain `uso-variable`, so the helper routes them to the variable branch |
| UsoVariables.MyVarMarked | edit/codemirror-default.js:338-345 | `/*[[my-var]]*/` is marked and names `my-var` |
| UsoVariables.MyVarExamples | edit/codemirror-default.js:340-350 | `/*[[my-var]]*/` is valid against `my-var`, invalid against `my-var-rgb`, and invalid with no editor |
| UsoVariables.MyVarRgbExamples | edit/codemirror-default.js:340-350 | `/*[[my-var-rgb]]*/` is valid against `my-var` and invalid against `my-var-rgb` |
| CssHint.Classify | edit/codemirror-default.js:245-323 | the request goes to the fallback exactly without `styles` or in a comment or string; each other outcome is taken only when its test holds, the variable branch only with an editor and a `uso-variable` style |
| CssHint.Complete | edit/codemirror-default.js:241-324 | the helper returns nothing only when the fallback gave nothing, returns the fallback's result unchanged in comments and strings, and its own completions stay on the cursor's line |
| CssHint.ImportantHint | edit/codemirror-default.js:252-258 | the `!important` completion ends where the `RX_IMPORTANT` match ends |
| CssHint.VarFrom | edit/codemirror-default.js:291-293 | the replaced range starts at the cursor after `var(`, and at the `--` otherwise |
| CssHint.CustomPropertyHint | edit/codemirror-default.js:276-300 | the custom-property completion is sorted, holds exactly the names the search collects, and replaces up to the next white space, `,` or `)` |
| CssHint.WithColons | edit/codemirror-default.js:307-310 | every fallback candidate gets `": "` appended, in order, and the end moves forward past the consumed rest of the property but not beyond the line |
| CssHint.FilterPrefix | edit/codemirror-default.js:317-318 | the filtered keys are exactly the declared names starting with the typed text, in the order of `vars` (`Object.keys` order) |
| CssHint.HintObject.constructor | edit/codemirror-default.js:305 | the result object holds the fallback's result |
| CssHint.HintObject.AppendColons | edit/codemirror-default.js:308-310 | rewriting the result object in place leaves it equal to the colon-appended hint |
| CssHint.CollectCustomProperties | edit/codemirror-default.js:286-290 | the search-cursor loop collects exactly the names the scan specification defines |
| CssHint.Helper | edit/codemirror-default.js:241-324 | the helper returns the specified completion for every request; it modifies the fallback's object only in the property-name branch, and there returns that object as rewritten in place |
| CssHint.NameBranches | edit/codemirror-default.js:276-323 | the three name branches return the specified completion; only the property-name branch touches the fallback's object, and it returns that object as rewritten in place |
| CssHint.CustomPropertyBranch | edit/codemirror-default.js:279-300 | the custom-property branch returns the specified completion |
| CssHint.EarlyExits | edit/codemirror-default.js:245-249 | without `styles`, and in comments and strings, the helper returns the fallback's result |
| CssHint.ImportantCompletion | edit/codemirror-default.js:252-258 | the `!important` branch is taken exactly when its guard holds, and then offers `important` from the cursor to the end of the match |
| CssHint.HexColorCompletion | edit/codemirror-default.js:264-267 | past the `!important` test, the helper offers nothing exactly when the cursor's span starts with `#` |
| CssHint.NameBranchOrder | edit/codemirror-default.js:276-323 | past the `!important` and `#` tests, the custom-property branch is taken exactly after `--` or `var(`; otherwise the property-name branch exactly without an editor or a `uso-variable` style, and the variable branch exactly in the remaining case |
| CssHint.ShortLeftPart | edit/codemirror-default.js:276-283 | when the typed text does not start with `--` it is `(` or shorter than 3 characters, so the pattern demands a name-start character |
| CssHint.CustomPropertyCompletion | edit/codemirror-default.js:276-300 | the custom-property list is sorted and has no duplicates; each entry occurs in the document and has the typed prefix and the name shape; every separated occurrence is offered; the range ends at the end of the `var()` argument |
| CssHint.PostColonCompletion | edit/codemirror-default.js:303-312 | in the property-name branch the result is the fallback's, with colons appended exactly when the parser state is `block` or `maybeprop` |
| CssHint.UserVariableCompletion | edit/codemirror-default.js:315-323 | the variable branch offers exactly the declared names starting with the typed text, in the order of `vars` (`Object.keys` order), over the comment without its `/*[[` and `]]*/` |
| CssHint.MarkedCommentReachesUsoBranch | edit/codemirror-default.js:303 | a comment the hook marks is never sent to the fallback and, past the earlier tests, takes the variable branch |
| CssHint.OfferedVariablesAreValid | edit/codemirror-default.js:316-318 | every variable the helper offers (without `-rgb`) is one the hook then marks valid |
| CssHint.VarsAsWritten | edit/codemirror-default.js:316 | the lookup as written throws exactly when the style has no `usercssData` |
| CssHint.StyleVarsCorrectsLookup | edit/codemirror-default.js:316 | the corrected lookup agrees with the written one wherever that does not throw, and gives no variables where it throws |
| CssHint.UnmarkedStyleClassified | edit/codemirror-default.js:241-278 | the request for `/*[[x]]*/` in a style without `usercssData` reaches the variable branch with typed text `x` |
| CssHint.UsercssDataMissingThrows | edit/codemirror-default.js:316 | for that request the hook marks the comment invalid, the written lookup throws, and the corrected helper offers an empty list |
| CssHint.WithColonsAsWritten | edit/codemirror-default.js:309-310 | the colon step as written throws exactly when `RX_CONSUME_PROP` does not match |
| CssHint.WithColonsCorrectsConsume | edit/codemirror-default.js:309-310 | the corrected colon step agrees with the written one where that does not throw, and otherwise leaves the range as it was |
| CssHint.MidLineClassified | edit/codemirror-default.js:303-307 | a property name completed mid-line in a block reaches the colon branch |
| CssHint.ConsumeMidLineThrows | edit/codemirror-default.js:307-310 | for `a { colo }` with the fallback offering `color`, line 310 as written throws, and the corrected helper offers `color: ` over the same range |
| EditorCommands.Decimal | edit/codemirror-default.js:213 | the prefilled `cur.line + 1` is a non-empty run of digits without a leading zero |
| EditorCommands.BlankEnd | edit/codemirror-default.js:209 | `\s*` ends at the first non-blank |
| EditorCommands.DigitEnd | edit/codemirror-default.js:209 | `\d+` ends at the first non-digit |
| EditorCommands.ParseJump | edit/codemirror-default.js:209 | an accepted answer consists of blanks, digits and a colon only, and an all-blank answer is rejected |
| EditorCommands.ParseRest | edit/codemirror-default.js:209 | after the line number, the answer ends, or has a colon and a column; the column is given exactly when the answer does not end there |
| EditorCommands.ParseColumn | edit/codemirror-default.js:209 | an accepted column part has a digit and nothing but blanks and digits |
| EditorCommands.ParseLineOnly | edit/codemirror-default.js:209 | a number surrounded by blanks parses as that line, with no column |
| EditorCommands.ParseLineAndColumn | edit/codemirror-default.js:209 | `line : column`, blanks allowed around each part, parses as both numbers |
| EditorCommands.ParseShape | edit/codemirror-default.js:209 | conversely, every accepted answer has one of those two shapes, with the numbers it denotes |
| EditorCommands.ColumnShape | edit/codemirror-default.js:209 | an accepted column part is blanks, digits, blanks |
| EditorCommands.JumpCursor | edit/codemirror-default.js:210-211 | an accepted answer moves the cursor to line `n - 1`, and to column `m - 1` when a column `m` is given, keeping the column otherwise; a rejected answer leaves the cursor |
| EditorCommands.DecimalValue | edit/codemirror-default.js:213 | the digits of a number denote that number |
| EditorCommands.PrefillRoundTrip | edit/codemirror-default.js:211-213 | accepting the prefilled answer parses back to `cur.line + 1` and leaves the cursor where it was |
| EditorCommands.IsBlank | edit/codemirror-default.js:151-161 | the document is blank exactly when every line trims to empty, that is, consists of white space only |
| KeyMaps.FirstAbsent | edit/codemirror-default.js:94-100 | the chosen target is not bound and every target before it is bound, so it is the first free one; there is none exactly when all are bound |
| KeyMaps.RemapKey | edit/codemirror-default.js:89-100 | a truthy binding moves to the first free target; no other key changes, no binding is overwritten, the number of bindings is kept, and with every target bound nothing changes |
| KeyMaps.RemapKeyIdempotent | edit/codemirror-default.js:88-100 | applying a remap twice equals applying it once, so a keymap listed under two names is remapped as once |
| KeyMaps.RemapKeyKeepsValues | edit/codemirror-default.js:96-98 | a remap keeps the set of bound commands |
| KeyMaps.RemapKeyMap | edit/codemirror-default.js:89-100 | deleting and adding keys in place gives the specified remap |
| KeyMaps.RemapTables | edit/codemirror-default.js:88-102 | each keymap gets the remap exactly once and the set of keymaps is kept |
| KeyMaps.RemapsForWellFormed | edit/codemirror-default.js:82-86 | no remap targets its own source key |
| KeyMaps.RemapsOverWellFormed | edit/codemirror-default.js:81-86 | the same holds for all six remaps in sequence |
| KeyMaps.ApplyRemapsFrame | edit/codemirror-default.js:81-104 | across all remaps the number of bindings is kept, every key no remap moves keeps its binding, and only target keys can appear |
| KeyMaps.ApplyRemapsStep | edit/codemirror-default.js:86-102 | the remaps apply one after the other |
| KeyMaps.ApplyRemapsAppend | edit/codemirror-default.js:81-104 | remapping character by character composes |
| KeyMaps.ApplyRemapsFull | edit/codemirror-default.js:94-100 | a keymap in which every target is bound is left unchanged |
| KeyMaps.ApplyRemaps | edit/codemirror-default.js:86-102 | applying remaps in sequence keeps the number of bindings |
| KeyMaps.RemapAll | edit/codemirror-default.js:80-104 | the Windows remap keeps the number of bindings, keeps every key it does not move away, and adds only target keys |
| KeyMaps.RemappedSources | edit/codemirror-default.js:81-87 | the keys the remap may move away are exactly `Ctrl-` and `Shift-Ctrl-` with N, T or W |
| KeyMaps.RemapKeyMoves | edit/codemirror-default.js:94-100 | a truthy binding whose first free target is `newKey` leaves its old key, lands on `newKey`, and adds no other key |
| KeyMaps.FirstAbsentSecond | edit/codemirror-default.js:94-100 | with the first target bound and the second free, the second is chosen |
| KeyMaps.ApplyTwoRemaps | edit/codemirror-default.js:82-86 | the two remaps of a character apply `Ctrl-` first, then `Shift-Ctrl-` |
| KeyMaps.SharedTargetGoesFirst | edit/codemirror-default.js:82-100 | when both bindings need `Ctrl-Alt-`, the `Ctrl-` one takes it and the `Shift-Ctrl-` one moves to `Shift-Ctrl-Alt-` |
| KeyMaps.ShiftCtrlYieldsToCtrl | edit/codemirror-default.js:82-100 | that order for every character: `Ctrl-x` to `Ctrl-Alt-x` and `Shift-Ctrl-x` to `Shift-Ctrl-Alt-x` when `Alt-x` is taken |
| KeyMaps.ExtraKeysCommands | edit/codemirror-default.js:45-48 | the gate set is exactly the command names among the `extraKeys` values |
| KeyMaps.DefaultBindingsGated | edit/codemirror-default.js:49-78 | every default binding is added only when `extraKeys` does not name its command (`blockComment` for comment selection), only to the four default keymaps, and the find and replace keys only on Windows to `pcDefault` |
| KeyMaps.InDefaultBindings | edit/codemirror-default.js:49-78 | the default bindings are exactly those of the four groups, the Windows group only on Windows |
| KeyMaps.DefaultBindingsOffered | edit/codemirror-default.js:49-78 | conversely, each group's binding is added exactly when its command is not in `extraKeys` (and, for `Ctrl-R`, on Windows) |
| KeyMaps.FindBindingsOffered | edit/codemirror-default.js:68-75 | `F3` gets `findNext` and `Shift-F3` gets `findPrev` exactly on Windows when `extraKeys` does not already name the command |
| KeyMaps.DefaultBindings | edit/codemirror-default.js:49-78 | at most 8 bindings are added, 11 on Windows, and all of them when `extraKeys` names no command |
| KeyMaps.GroupsTargetDefaultKeyMaps | edit/codemirror-default.js:50-77 | every group writes only into `sublime`, `emacsy`, `pcDefault` and `macDefault` |
| KeyMaps.Assign | edit/codemirror-default.js:50-77 | assigning keys never adds or removes a keymap |
| KeyMaps.AssignAppend | edit/codemirror-default.js:49-78 | assigning one group after another equals assigning them together |
| KeyMaps.KeyMapRegistry.constructor | edit/codemirror-default.js:88 | the registry holds the keymaps under their distinct names |
| KeyMaps.KeyMapRegistry.Bind | edit/codemirror-default.js:50 | one key assignment writes that key of that keymap |
| KeyMaps.KeyMapRegistry.AddJumpToLine | edit/codemirror-default.js:49-54 | the `jumpToLine` group is assigned in place |
| KeyMaps.KeyMapRegistry.AddAutocomplete | edit/codemirror-default.js:55-63 | the `autocomplete` group is assigned in place |
| KeyMaps.KeyMapRegistry.AddCommentSelection | edit/codemirror-default.js:64-66 | the comment-selection binding is assigned in place |
| KeyMaps.KeyMapRegistry.AddWindowsFind | edit/codemirror-default.js:70-78 | each of `F3`, `Shift-F3`, `Ctrl-R` is assigned unless its command is in `extraKeys` |
| KeyMaps.KeyMapRegistry.BindUnlessOffered | edit/codemirror-default.js:70-72 | one gated assignment |
| KeyMaps.KeyMapRegistry.AddDefaultBindings | edit/codemirror-default.js:44-78 | the whole block leaves the keymaps equal to the gated default bindings applied in source order |
| KeyMaps.KeyMapRegistry.RemapEveryKeyMap | edit/codemirror-default.js:87-102 | one remap is applied to every keymap |
| KeyMaps.KeyMapRegistry.RemapCharacter | edit/codemirror-default.js:82-103 | both remaps of a character are applied to every keymap, `Ctrl-` first |
| KeyMaps.KeyMapRegistry.RemapHotkeys | edit/codemirror-default.js:80-104 | every keymap ends as the six remaps for N, T and W applied in order |
| KeyMaps.KeyMapRegistry.Configure | edit/codemirror-default.js:44-105 | the gated default bindings are assigned, and then, only on Windows, every keymap is remapped; off Windows the keymaps end with the bindings alone |

## Left out

- Preference and option glue (lines 7-41), the CSS keyword tables (lines 107-117) and
  `setPreprocessor` (lines 119-149): they configure CodeMirror and carry no logic of
  their own.
- Command forwarding (lines 164-166), `commentSelection` (lines 216-218) and the
  bookmark gutter (lines 168-188): they are thin calls into CodeMirror.
- The dialog, focus and timer code around `jumpToLine` (lines 197-208, 220-227) is left
  out; only the answer's parse and the cursor it sets are modelled.
- `registerHelper` and the hook installation (lines 325-330) are left out: registration
  only.
- CodeMirror's tokenizer, `getStyleAtPos`, `getTokenAt` and the fallback CSS hint are
  calls into code outside this file: their results are inputs.
- The search cursor is modelled by its behaviour: line by line, leftmost match,
  resuming at the end of the previous match. Its internals are not part of this model.
- Characters outside the Basic Multilingual Plane count as one character here, whereas
  JavaScript counts two UTF-16 code units.
- Patterns.CssVarPattern: the typed text is taken literally, whereas the source splices
  it unescaped into the regular expression; a typed text with regex metacharacters is
  not modelled.
- CssHint.Classify: an undeclared global `editor` raises a ReferenceError at line 303 in
  the source; the model treats it as absent (`NoEditor`), as line 344's `typeof`
  guard does.
- CssHint.HintObject: the result's `from` and `to` may alias the cursor object in the
  source. The model keeps positions as values.
- EditorCommands.JumpCursor: numbers beyond 2^53 lose precision in JavaScript; the model
  uses exact integers.
- Keymap values that are functions or nested keymaps are modelled as truthy or falsy
  bindings only (`KeyMaps.Binding`).
- `CodeMirror.keyMap.default` is the same object as `pcDefault`. The registry keeps
  keymaps as values per name, so that aliasing is not modelled; `KeyMaps.RemapKeyIdempotent`
  shows that visiting one keymap twice gives the same result as once.
- CssHint.Helper: where lines 310 and 316 throw in the source, the helper returns the
  corrected completion of the two Findings rows instead; the throwing behaviour is
  modelled separately by the Findings members.
- KeyMaps.KeyMapRegistry.AddDefaultBindings requires the four default keymaps to exist,
  as the source assumes by writing into them.
- testAt's `!rx` test is never false for `RX_VAR_KEYWORD` and is not modelled.
- EditorCommands.IsBlank: the loop tests `line.text` for emptiness before trimming, as
  the source does. An empty line also trims to empty, so the two tests together amount
  to the trim test; the method's contract states the document's blankness by the trim
  test alone.

## Findings

| source | as written | input that shows it | evidently intended | confidence | as-written member | corrected member |
|---|---|---|---|---|---|---|
| edit/codemirror-default.js:316 | `editor.getStyle().usercssData.vars` dereferences `usercssData` unguarded, so the helper throws for a style without usercss data | the comment `/*[[x]]*/` with the cursor at 5 in an editor whose style has no `usercssData`; the hook marks it invalid (line 344 guards with `\|\| {}`), so the helper reaches line 316 | the same guard as line 344: no variables, an empty list | not executed | CssHint.UsercssDataMissingThrows | CssHint.StyleVarsCorrectsLookup |
| edit/codemirror-default.js:310 | `RX_CONSUME_PROP.exec(text)[0]` assumes the sticky match always succeeds, but its `$` branch matches only at the end of the line, so mid-line without a colon `exec` returns null and the helper throws | `a { colo }` with the cursor at 8, parser state `block`, the fallback offering `color` up to 8 | consume nothing and keep the end: offer `color: ` over the typed range | not executed | CssHint.ConsumeMidLineThrows | CssHint.WithColonsCorrectsConsume |
