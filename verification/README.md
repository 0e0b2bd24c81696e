# Cutter settings manager, modelled in Dafny

This project models the core of Cutter's `Configuration` class, in
`src/utils/Configuration.cpp`. That class keeps the GUI's persistent settings
and keeps them in step with the reverse-engineering engine's own
configuration namespace.

The state is one immutable record, `Store.Config`:

- `store`: the persisted settings (the QSettings object `s`), key to value.
- `engine`: the engine's configuration namespace, key to value.
- `commands`: the log of commands sent to the engine with `cmd`.
- `logoFile`: the logo the current theme selects.

Values stand in for QVariant. `Values.Value` is a bool, an int, a string or an
RGB colour. The conversions toBool, toInt, toString and value<QColor> are
written out in module `Values`.

The modules follow the parts of the class:

- `Text`: the string helpers these conversions rely on. They are the
  substring test of QString::contains, decimal rendering and parsing, and
  hexadecimal colour names.
- `Store`: the record and the helpers that write into it. It also holds the
  colour accessors (setColor, getColor with its "colors.other" fallback) and
  the projects-directory accessors.
- `OptionSync`: the registry of 24 `asm.*` options with typed defaults. It
  models setConfig, getConfigVar and its three typed readers,
  resetToDefaultAsmOptions and applySavedAsmOptions.
- `Themes`: the three palettes selected by the integer theme id.
  - Each loader is a batch of colour writes in source order. A recursive
    function performs the batch.
  - Lemmas relate each batch to an independent palette table.
  - setDarkTheme dispatches on the id.
  - setColorTheme sends the scheme command and copies the engine's graph
    colours into the store.
- `Lifecycle`: loadInitial (theme id, then colour scheme, then saved
  options), and resetAll as clear-then-loadInitial.

Two kinds of iteration have an order no caller can rely on: iteration over
the registry QHash and over the engine's colour table. Each is a loop that
picks an arbitrary remaining key. Its result is stated as a map equation
that holds for every order.

Some inputs come from code this model does not include. They become
parameters:

- the theme id and scheme name that the header getters return;
- the colour table the engine reports (`cmdj("ecj")`);
- the engine configuration after `e-` and `setSettings`.

The default theme writes 15 colour keys (src/utils/Configuration.cpp:100-117).
Each dark theme writes the same 15 keys: nine from loadBaseDark
(src/utils/Configuration.cpp:147-156) and six of its own
(src/utils/Configuration.cpp:162-171, 177-186).

## Model

| member | source | states |
|---|---|---|
| OptionSync.OptionsAreAsmKeys | src/utils/Configuration.cpp:13-38 | every registered option key begins with "asm." |
| OptionSync.OptionKinds | src/utils/Configuration.cpp:13-38 | only asm.nbytes and asm.tabs have integer defaults, only asm.syntax has a text default, and every other default is a bool |
| OptionSync.OptionKeysAreNotThemeKeys | src/utils/Configuration.cpp:13-38 | no option key is a colour key, "dark", "theme" or "dir.projects" |
| OptionSync.SetConfig | src/utils/Configuration.cpp:310-317 | the engine receives the value for any key; the store receives it exactly when the key is registered and is unchanged otherwise; no other key changes in either map |
| OptionSync.GetConfigVar | src/utils/Configuration.cpp:278-292 | null exactly for an unregistered key; otherwise a value of the default's kind (bool, int or text), which is the engine's own value when that already has the kind |
| OptionSync.GetConfigBool | src/utils/Configuration.cpp:295-298 | false for an unregistered key; for a registered bool option whose engine value is a bool, that bool |
| OptionSync.GetConfigInt | src/utils/Configuration.cpp:300-303 | 0 for an unregistered key; for a registered integer option whose engine value is an int, that int |
| OptionSync.GetConfigString | src/utils/Configuration.cpp:305-308 | the empty string for an unregistered key; for a registered text option whose engine value is a string, that string |
| OptionSync.SetConfigThenGet | src/utils/Configuration.cpp:278-317 | a registered option set to a value of its kind reads back as that value through the reader of its kind |
| OptionSync.SetUnregisteredConfig | src/utils/Configuration.cpp:278-317 | setting an unregistered key leaves the store unchanged, and the key still reads back as null |
| OptionSync.SavedOptionsAgree | src/utils/Configuration.cpp:271-276 | two stores that agree on every registered key push the same values to the engine |
| OptionSync.ResetToDefaultAsmOptions | src/utils/Configuration.cpp:264-269 | for any visiting order, the store and the engine are overwritten with every registered default and nothing else changes |
| OptionSync.ApplySavedAsmOptions | src/utils/Configuration.cpp:271-276 | for any visiting order, the engine is overwritten with the saved-or-default value of every option; the store, the log and the logo are unchanged |
| OptionSync.ResetThenApplyKeepsDefaults | src/utils/Configuration.cpp:264-276 | after a reset to defaults, applying the saved options changes nothing; every option holds its default in both the store and the engine |
| Values.TextConversionRoundTrip | src/utils/Configuration.cpp:295-308 | a bool, or an int in the 32-bit range, rendered as text converts back to itself |
| OptionSync.TextEngineReadsBack | src/utils/Configuration.cpp:295-303 | a registered bool option, or an integer option with a 32-bit value, that the engine holds as its text rendering reads back as that value through getConfigBool or getConfigInt |
| Text.ContainsIffOccurs | src/utils/Configuration.cpp:256 | the left-to-right substring scan succeeds exactly when the substring occurs at some position |
| Text.DecimalRoundTrip | src/utils/Configuration.cpp:300-303 | parsing the decimal rendering of any integer gives the integer back |
| Store.Put | src/utils/Configuration.cpp:312-314 | the store holds the value under the key, and no other key, engine entry or log entry changes |
| Store.EngineSet | src/utils/Configuration.cpp:316 | the engine holds the value under the key, and nothing else changes |
| Store.Command | src/utils/Configuration.cpp:243-247 | the command is appended to the engine log, and nothing else changes |
| Store.SetColor | src/utils/Configuration.cpp:227-230 | the key "colors."+name holds the colour, and no other key, engine entry or log entry changes |
| Store.GetColor | src/utils/Configuration.cpp:232-239 | a colour is returned only if it is the one stored under the name's key, or if that key is absent and it is the one stored under "colors.other"; conversely, a colour stored under the name's key is returned, and when that key is absent a colour stored under "colors.other" is returned |
| Store.SetColorThenGetColor | src/utils/Configuration.cpp:227-239 | a colour just set is the one getColor returns for that name |
| Store.SetColorKeepsOtherColors | src/utils/Configuration.cpp:227-239 | setting one colour does not change getColor for any other name, unless the name set is the fallback "other" |
| Store.GetColorFallsBackToOther | src/utils/Configuration.cpp:232-239 | a name without a key of its own reads as "other" reads |
| Store.NoFallbackNoColor | src/utils/Configuration.cpp:232-239 | without a "colors.other" entry, every name without a key reads as the invalid colour |
| Store.SetDirProjects | src/utils/Configuration.cpp:72-75 | "dir.projects" holds the directory, and nothing else changes |
| Store.GetDirProjects | src/utils/Configuration.cpp:61-70 | a non-empty stored directory is returned with the state unchanged; an empty one is replaced by the engine's "dir.projects", which is persisted and returned; only that key can change |
| Store.GetDirProjectsIsStable | src/utils/Configuration.cpp:61-70 | asking a second time returns the same directory and state as the first time |
| Store.SetThenGetDirProjects | src/utils/Configuration.cpp:61-75 | a non-empty directory that was set reads back unchanged, with no seeding |
| Themes.ThemeDispatch | src/utils/Configuration.cpp:203-213 | the Dark theme is selected exactly for 1, DarkGrey exactly for 2, and Default for every other integer |
| Themes.FromNameIsName | src/utils/Configuration.cpp:90-187 | the fifteen theme colour names are recognised exactly, and each is read back as its own colour |
| Themes.PaletteEntries | src/utils/Configuration.cpp:90-187 | the entries a palette writes are exactly the fifteen theme colour keys, each holding the palette's colour |
| Themes.DarkVariantsDifferInOverrides | src/utils/Configuration.cpp:159-187 | Dark and DarkGrey give different colours exactly for border, background, alt_background, disass_selected, highlight and highlightWord |
| Themes.PalettesAreDistinct | src/utils/Configuration.cpp:90-187 | any two of the three palettes differ in some colour |
| Themes.SetThemeColors | src/utils/Configuration.cpp:227-230 | after a batch of setColor calls, each theme colour holds its last written value or keeps its old one, and no other key changes |
| Themes.LastWriteAt | src/utils/Configuration.cpp:227-230 | a write that no later write to the same colour follows decides that colour |
| Themes.LastWriteUnwritten | src/utils/Configuration.cpp:227-230 | a colour the batch never writes keeps its value |
| Themes.DefaultWritesArePalette | src/utils/Configuration.cpp:90-118 | loadDefaultTheme's writes give every one of the fifteen colours its Default palette value |
| Themes.BaseDarkWritesAreShared | src/utils/Configuration.cpp:120-157 | loadBaseDark writes exactly the nine colours the two dark palettes share, with the shared values |
| Themes.DarkOverrideWrites | src/utils/Configuration.cpp:159-187 | each dark theme's own writes cover exactly the six overridden colours, with that theme's values |
| Themes.LoadDefaultTheme | src/utils/Configuration.cpp:90-118 | the plain logo and the Default palette on all fifteen theme colours; no other key changes |
| Themes.LoadBaseDark | src/utils/Configuration.cpp:120-157 | the white logo and the shared dark colours; the six overridden colours and all other keys are unchanged |
| Themes.LoadDarkTheme | src/utils/Configuration.cpp:159-172 | the white logo and the Dark palette on all fifteen theme colours; no other key changes |
| Themes.LoadDarkGreyTheme | src/utils/Configuration.cpp:174-187 | the white logo and the DarkGrey palette on all fifteen theme colours; no other key changes |
| Themes.LoadTheme | src/utils/Configuration.cpp:203-213 | the loader a theme id selects leaves that id's palette and logo; no other key changes |
| Themes.SetDarkTheme | src/utils/Configuration.cpp:201-215 | "dark" holds the id, all fifteen theme colours hold the palette the id selects, the logo is the palette's, and no other key changes |
| Themes.SetDarkThemeStore | src/utils/Configuration.cpp:201-215 | the resulting store is the old one with "dark" written and then the palette's fifteen entries |
| Themes.SetDarkThemeShowsPaletteIff | src/utils/Configuration.cpp:201-215 | the colours after setDarkTheme are a given palette's exactly when the id selects that palette |
| Themes.ThemeColorsAreNotGraphColors | src/utils/Configuration.cpp:256 | no theme colour name contains "graph", so the scheme sync never overwrites a theme colour |
| Themes.OtherColorIsPlain | src/utils/Configuration.cpp:232-239 | the "other" fallback is neither a theme colour nor a graph colour, so no loader writes it |
| Themes.SchemeCommand | src/utils/Configuration.cpp:243-249 | the command is "ecd" exactly for the name "default", and "eco " followed by the name otherwise |
| Themes.GraphEntries | src/utils/Configuration.cpp:252-260 | one entry "colors."+k for each table key k that contains "graph", holding the table's colour, and nothing else |
| Themes.GraphStep | src/utils/Configuration.cpp:255-260 | visiting one more table key adds its mirrored entry if it contains "graph", and changes nothing otherwise |
| Themes.MirrorGraphColors | src/utils/Configuration.cpp:252-260 | for any visiting order, the store gains exactly the mirrored graph entries; the engine, the log and the logo are unchanged |
| Themes.SetColorTheme | src/utils/Configuration.cpp:241-262 | exactly one command is logged, "ecd" exactly for "default" and "eco <name>" otherwise; the store is the old one with "theme" set and the graph entries mirrored |
| Themes.SchemeStoreReads | src/utils/Configuration.cpp:241-262 | after setColorTheme, "theme" holds the name, every graph colour of the table is mirrored, and every other key is as before |
| Lifecycle.LoadedStoreReads | src/utils/Configuration.cpp:54-59 | after loadInitial, "dark" holds the id and "theme" the scheme; the id's palette and the engine's graph colours are in place; every key loadInitial does not write is unchanged |
| Lifecycle.OptionsAreNotWrittenByLoad | src/utils/Configuration.cpp:54-59 | loadInitial's store writes never touch an asm option |
| Lifecycle.LoadKeepsSavedOptions | src/utils/Configuration.cpp:54-59 | the theme writes do not change the saved option values that applySavedAsmOptions pushes |
| Lifecycle.LoadInitial | src/utils/Configuration.cpp:54-59 | the store becomes the old one with the theme id, the palette, the scheme name and the graph colours written; the engine receives the options saved before the call; one scheme command is logged; the logo is the palette's |
| Lifecycle.LoadedFromEmpty | src/utils/Configuration.cpp:77-88 | after loadInitial on a cleared store, the store holds exactly the keys loadInitial writes, and no "colors.other" |
| Lifecycle.EngineAfterReset | src/utils/Configuration.cpp:77-88 | on a cleared store, every option reaches the engine as its default, and every other engine key is as the engine left it |
| Lifecycle.ResetAll | src/utils/Configuration.cpp:77-88 | the store holds exactly the keys loadInitial writes, and no asm option; every option is at its default in the engine, and every other engine key is as the engine left it after "e-"; every name without its own colour reads as the invalid colour; "e-" and then the scheme command are logged |

## Left out

- Stylesheets are not modelled. The style sheet loading, `qApp->setStyleSheet` and the macOS appendix in loadBaseDark are file and GUI I/O. Only the colour writes and the logo path are modelled.
- Signals (`colorsUpdated`, `fontsUpdated`) are UI notifications with no effect on the state.
- Fonts are not modelled. getFont and setFont need QFont. Only the default ("Inconsolata", 12) is recorded, as constants in `Store`.
- The `instance()` singleton and the constructor, which only calls loadInitial, are not modelled.
- getLogoFile is the `logoFile` field, read directly.
- The file deletion in resetAll is modelled as clearing the store.
- The engine is abstracted:
  - `cmd` calls are appended to the command log;
  - `setConfig` writes the engine map;
  - `getConfigb`, `getConfigi` and `getConfig` are the QVariant conversions of the engine's value;
  - what `e-` and `setSettings` do is the `engineAfterReset` parameter of `Lifecycle.ResetAll`.
- getDarkTheme and getCurrentTheme are defined in Configuration.h, which is not part of this model. Their results are the `dark` and `theme` parameters.
- The JSON parsing of `cmdj("ecj")` is not modelled. The colour table is a parameter mapping names to RGB triples with channels 0-255. A channel that the JSON gives outside that range, or not as an int, is not modelled.
- QVariant conversions cover only bool, int, string and colour:
  - toInt of a string accepts an optional sign and decimal digits within the 32-bit range;
  - the whitespace trimming and other bases of QString::toInt are not modelled;
  - a string is never converted to a colour (value<QColor> of a string is treated as invalid).
- Values.Value: an `Int` holds an unbounded integer and reads back unchanged, however large. Only text is range-checked: toInt of a string outside the 32-bit range gives 0.
- OptionSync.OptionsAreAsmKeys: the registry is the 24-entry map literal from the source, but no lemma states that it has 24 entries.
- GetColor's fallback reads "colors.other", but nothing in this file writes that key. `Themes.OtherColorIsPlain` and `Lifecycle.ResetAll` show that after a reset every unset name reads as the invalid colour.
