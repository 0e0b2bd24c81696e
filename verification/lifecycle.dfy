/**
 * Start-up and full reset: loadInitial applies the saved theme id, the
 * saved colour scheme and the saved asm options; resetAll clears the store
 * first, so that every option falls back to its registry default.
 */
module Lifecycle {
  import opened Wrappers
  import opened Values
  import opened Store
  import opened OptionSync
  import opened Themes

  /** The keys loadInitial writes: "dark", "theme", the theme colours and the mirrored graph colours. */
  predicate WrittenByLoad(key: string, table: map<string, Rgb>)
  {
    key == DarkKey || key == ThemeKey || IsThemeColorKey(key) || Mirrors(key, table)
  }

  /**
   * The store loadInitial leaves behind, starting from `base`, in the order
   * the writes happen: "dark", the palette of the id, "theme", and the
   * mirrored graph colours of the engine's table.
   */
  function LoadedStore(base: map<string, Value>, dark: int, theme: string, table: map<string, Rgb>): map<string, Value>
  {
    (base[DarkKey := Int(dark)] + PaletteEntries(ThemeOf(dark)))[ThemeKey := Str(theme)] + GraphEntries(table, table.Keys)
  }

  /** loadInitial writes no asm option. */
  lemma OptionsAreNotWrittenByLoad(table: map<string, Rgb>)
    ensures forall k :: k in AsmOptions ==> !WrittenByLoad(k, table)
  {
    OptionKeysAreNotThemeKeys();
  }

  /**
   * Reading a loaded store: the theme id and scheme name are recorded, the
   * palette of the id and the engine's graph colours are in place, and every
   * other setting is as in `base`.
   */
  lemma LoadedStoreReads(store: map<string, Value>, base: map<string, Value>, dark: int, theme: string, table: map<string, Rgb>)
    requires store == LoadedStore(base, dark, theme, table)
    ensures Lookup(store, DarkKey) == Some(Int(dark))
    ensures Lookup(store, ThemeKey) == Some(Str(theme))
    ensures forall n: ColorName :: Lookup(store, ThemeColorKey(n)) == Some(Color(Palette(ThemeOf(dark), n)))
    ensures forall k :: k in table && IsGraphColor(k) ==> Lookup(store, ColorKey(k)) == Some(Color(table[k]))
    ensures forall key {:trigger Lookup(store, key)} :: !WrittenByLoad(key, table) ==> Lookup(store, key) == Lookup(base, key)
  {
    PlainKeysAreNotColorKeys();
    var graph := GraphEntries(table, table.Keys);
    forall n: ColorName
      ensures Lookup(store, ThemeColorKey(n)) == Some(Color(Palette(ThemeOf(dark), n)))
    {
      ThemeColorsAreNotGraphColors(n);
      assert ThemeColorKey(n) !in graph;
    }
  }

  /** A store that differs from `base` only in keys loadInitial writes has the same saved asm options. */
  lemma LoadKeepsSavedOptions(store: map<string, Value>, base: map<string, Value>, table: map<string, Rgb>)
    requires forall key {:trigger Lookup(store, key)} :: !WrittenByLoad(key, table) ==> Lookup(store, key) == Lookup(base, key)
    ensures SavedOptions(store) == SavedOptions(base)
  {
    OptionsAreNotWrittenByLoad(table);
    SavedOptionsAgree(store, base);
  }

  /** A store loaded on an empty one holds exactly the keys loadInitial writes, and no fallback colour. */
  lemma LoadedFromEmpty(store: map<string, Value>, dark: int, theme: string, table: map<string, Rgb>)
    requires store == LoadedStore(map[], dark, theme, table)
    ensures forall key :: key in store <==> WrittenByLoad(key, table)
    ensures ColorKey(OtherColor) !in store
  {
    LoadedStoreReads(store, map[], dark, theme, table);
    forall key | WrittenByLoad(key, table)
      ensures key in store
    {
      if IsThemeColorKey(key) {
        ThemeColorKeyOf(key);
      } else if Mirrors(key, table) {
        ColorKeyOfName(key);
      }
    }
    forall key | !WrittenByLoad(key, table)
      ensures key !in store
    {
      assert Lookup(store, key) == Lookup(map[], key);
    }
    OtherColorIsPlain();
  }

  /**
   * loadInitial, given what getDarkTheme and getCurrentTheme return (`dark`,
   * `theme`) and the colour table the engine reports after the scheme
   * command (`table`).
   */
  method LoadInitial(c: Config, dark: int, theme: string, table: map<string, Rgb>) returns (r: Config)
    ensures r.store == LoadedStore(c.store, dark, theme, table)
    ensures r.engine == c.engine + SavedOptions(c.store)
    ensures r.commands == c.commands + [SchemeCommand(theme)]
    ensures r.logoFile == Logo(ThemeOf(dark))
  {
    var themed := SetDarkTheme(c, dark);
    SetDarkThemeStore(c, dark);
    var schemed := SetColorTheme(themed, theme, table);
    AppendedOne(c.commands, schemed.commands, SchemeCommand(theme));
    LoadedStoreReads(schemed.store, c.store, dark, theme, table);
    LoadKeepsSavedOptions(schemed.store, c.store, table);
    r := ApplySavedAsmOptions(schemed);
  }

  /** After the reset the engine holds every option's default, and the engine's own values elsewhere. */
  lemma EngineAfterReset(engine: map<string, Value>, engineAfterReset: map<string, Value>)
    requires engine == engineAfterReset + SavedOptions(map[])
    ensures forall k :: k in AsmOptions ==> Lookup(engine, k) == Some(AsmOptions[k])
    ensures forall k {:trigger Lookup(engine, k)} :: k !in AsmOptions ==> Lookup(engine, k) == Lookup(engineAfterReset, k)
  {
  }

  /**
   * resetAll: send "e-", clear the store, then loadInitial. `engineAfterReset`
   * is the engine's configuration once "e-" and the engine's own settings
   * have been applied; `dark`, `theme` and `table` are as for LoadInitial.
   */
  method ResetAll(c: Config, engineAfterReset: map<string, Value>, dark: int, theme: string, table: map<string, Rgb>)
    returns (r: Config)
    ensures r.store == LoadedStore(map[], dark, theme, table)
    ensures forall key :: key in r.store <==> WrittenByLoad(key, table)
    ensures forall k :: k in AsmOptions ==> k !in r.store
    ensures forall k :: k in AsmOptions ==> Lookup(r.engine, k) == Some(AsmOptions[k])
    ensures forall k {:trigger Lookup(r.engine, k)} :: k !in AsmOptions ==> Lookup(r.engine, k) == Lookup(engineAfterReset, k)
    ensures forall name :: ColorKey(name) !in r.store ==> GetColor(r, name).None?
    ensures r.commands == c.commands + ["e-"] + [SchemeCommand(theme)]
  {
    var cleared := Command(c, "e-");
    AppendedOne(c.commands, cleared.commands, "e-");
    cleared := cleared.(engine := engineAfterReset, store := map[]);
    r := LoadInitial(cleared, dark, theme, table);
    LoadedFromEmpty(r.store, dark, theme, table);
    OptionsAreNotWrittenByLoad(table);
    EngineAfterReset(r.engine, engineAfterReset);
    NoFallbackNoColor(r);
  }
}
