/**
 * Option sync: the fixed registry of `asm.*` options with their typed
 * defaults, kept both in the settings store and in the engine's
 * configuration namespace.
 */
module OptionSync {
  import opened Wrappers
  import opened Values
  import opened Store

  /** Every asm.* option saved as a setting, with its default value. */
  const AsmOptions: map<string, Value> := map[
    "asm.esil" := Bool(false),
    "asm.pseudo" := Bool(false),
    "asm.offset" := Bool(true),
    "asm.describe" := Bool(false),
    "asm.stackptr" := Bool(false),
    "asm.slow" := Bool(true),
    "asm.lines" := Bool(true),
    "asm.lines.fcn" := Bool(true),
    "asm.flags.offset" := Bool(false),
    "asm.emu" := Bool(false),
    "asm.cmt.right" := Bool(true),
    "asm.var.summary" := Bool(false),
    "asm.bytes" := Bool(false),
    "asm.size" := Bool(false),
    "asm.bytespace" := Bool(false),
    "asm.lbytes" := Bool(true),
    "asm.nbytes" := Int(10),
    "asm.syntax" := Str("intel"),
    "asm.ucase" := Bool(false),
    "asm.bbline" := Bool(false),
    "asm.capitalize" := Bool(false),
    "asm.var.sub" := Bool(true),
    "asm.var.subonly" := Bool(true),
    "asm.tabs" := Int(5)
  ]

  /** Which typed engine query reads an option back. */
  datatype Kind = BoolKind | IntKind | TextKind

  /** The query is chosen by the type of the option's default; anything but bool and int reads as text. */
  function KindOf(v: Value): Kind
  {
    match v
    case Bool(_) => BoolKind
    case Int(_) => IntKind
    case _ => TextKind
  }

  /** Every option is named "asm.*". */
  lemma OptionsAreAsmKeys()
    ensures forall k :: k in AsmOptions ==> |k| > 4 && k[..4] == "asm."
  {
  }

  /** Two options are integers and one is text; the rest are flags. */
  lemma OptionKinds()
    ensures forall k :: k in AsmOptions && KindOf(AsmOptions[k]) == IntKind ==> k == "asm.nbytes" || k == "asm.tabs"
    ensures forall k :: k in AsmOptions && KindOf(AsmOptions[k]) == TextKind ==> k == "asm.syntax"
  {
  }

  /** No option shares a key with the theme settings or with any colour. */
  lemma OptionKeysAreNotThemeKeys()
    ensures forall k :: k in AsmOptions ==> !IsColorKey(k) && k != DarkKey && k != ThemeKey && k != DirProjectsKey
  {
    OptionsAreAsmKeys();
    forall k | k in AsmOptions
      ensures !IsColorKey(k) && k != DarkKey && k != ThemeKey && k != DirProjectsKey
    {
      assert k[0] == k[..4][0] == 'a';
      NotColorKeyByFirstLetter(k);
    }
  }

  /**
   * setConfig: a registered key is persisted in the store; the value is
   * forwarded to the engine whether or not the key is registered.
   */
  function SetConfig(c: Config, key: string, value: Value): (r: Config)
    ensures Lookup(r.engine, key) == Some(value)
    ensures key in AsmOptions ==> Lookup(r.store, key) == Some(value)
    ensures key !in AsmOptions ==> r.store == c.store
    ensures forall k {:trigger Lookup(r.store, k)} :: k != key ==> Lookup(r.store, k) == Lookup(c.store, k)
    ensures forall k {:trigger Lookup(r.engine, k)} :: k != key ==> Lookup(r.engine, k) == Lookup(c.engine, k)
    ensures r.commands == c.commands && r.logoFile == c.logoFile
  {
    var persisted := if key in AsmOptions then Put(c, key, value) else c;
    EngineSet(persisted, key, value)
  }

  /**
   * getConfigVar: null for an unregistered key; otherwise the engine is
   * queried as bool, int or string according to the type of the default,
   * and a value the engine holds with that type is returned as it is.
   */
  function GetConfigVar(c: Config, key: string): (r: Option<Value>)
    ensures r.None? <==> key !in AsmOptions
    ensures r.Some? ==> KindOf(r.value) == KindOf(AsmOptions[key]) && !r.value.Color?
    ensures key in AsmOptions && key in c.engine && !c.engine[key].Color? && KindOf(c.engine[key]) == KindOf(AsmOptions[key])
      ==> r == Some(c.engine[key])
  {
    if key in AsmOptions then
      match KindOf(AsmOptions[key])
      case BoolKind => Some(Bool(ToBool(Lookup(c.engine, key))))
      case IntKind => Some(Int(ToInt(Lookup(c.engine, key))))
      case TextKind => Some(Str(ToText(Lookup(c.engine, key))))
    else
      None
  }

  /** getConfigBool: false for an unregistered key. */
  function GetConfigBool(c: Config, key: string): (r: bool)
    ensures key !in AsmOptions ==> !r
    ensures key in AsmOptions && KindOf(AsmOptions[key]) == BoolKind && key in c.engine && c.engine[key].Bool?
      ==> r == c.engine[key].b
  {
    ToBool(GetConfigVar(c, key))
  }

  /** getConfigInt: 0 for an unregistered key. */
  function GetConfigInt(c: Config, key: string): (r: int)
    ensures key !in AsmOptions ==> r == 0
    ensures key in AsmOptions && KindOf(AsmOptions[key]) == IntKind && key in c.engine && c.engine[key].Int?
      ==> r == c.engine[key].i
  {
    ToInt(GetConfigVar(c, key))
  }

  /** getConfigString: the empty string for an unregistered key. */
  function GetConfigString(c: Config, key: string): (r: string)
    ensures key !in AsmOptions ==> r == ""
    ensures key in AsmOptions && KindOf(AsmOptions[key]) == TextKind && key in c.engine && c.engine[key].Str?
      ==> r == c.engine[key].s
  {
    ToText(GetConfigVar(c, key))
  }

  /** Setting a registered option and reading it back with the accessor of its kind returns what was set. */
  lemma SetConfigThenGet(c: Config, key: string, b: bool, i: int, s: string)
    requires key in AsmOptions
    ensures KindOf(AsmOptions[key]) == BoolKind ==> GetConfigBool(SetConfig(c, key, Bool(b)), key) == b
    ensures KindOf(AsmOptions[key]) == IntKind ==> GetConfigInt(SetConfig(c, key, Int(i)), key) == i
    ensures KindOf(AsmOptions[key]) == TextKind ==> GetConfigString(SetConfig(c, key, Str(s)), key) == s
  {
  }

  /** Setting an unregistered key persists nothing and it still reads back as null. */
  lemma SetUnregisteredConfig(c: Config, key: string, v: Value)
    requires key !in AsmOptions
    ensures SetConfig(c, key, v).store == c.store
    ensures GetConfigVar(SetConfig(c, key, v), key) == None
  {
  }

  /**
   * An engine that keeps a flag or an in-range integer as its text
   * rendering still reads back as the value through the reader of the
   * option's kind.
   */
  lemma TextEngineReadsBack(c: Config, key: string, b: bool, i: int)
    requires key in AsmOptions && IntMin <= i <= IntMax
    ensures KindOf(AsmOptions[key]) == BoolKind ==>
      GetConfigBool(c.(engine := c.engine[key := Str(ToText(Some(Bool(b))))]), key) == b
    ensures KindOf(AsmOptions[key]) == IntKind ==>
      GetConfigInt(c.(engine := c.engine[key := Str(ToText(Some(Int(i))))]), key) == i
  {
    TextConversionRoundTrip(b, i);
  }

  /** The value applySavedAsmOptions pushes for each option: the saved one, or the default. */
  function SavedOptions(store: map<string, Value>): (r: map<string, Value>)
    ensures r.Keys == AsmOptions.Keys
    ensures forall k :: k in AsmOptions ==> r[k] == ValueOr(store, k, AsmOptions[k])
  {
    map k | k in AsmOptions :: ValueOr(store, k, AsmOptions[k])
  }

  /** Stores that agree on every option give the same saved options. */
  lemma SavedOptionsAgree(m: map<string, Value>, n: map<string, Value>)
    requires forall k :: k in AsmOptions ==> Lookup(m, k) == Lookup(n, k)
    ensures SavedOptions(m) == SavedOptions(n)
  {
    assert forall k :: k in AsmOptions ==> SavedOptions(m)[k] == SavedOptions(n)[k];
  }

  /** Writing one more entry of `entries` into a map that holds the others already. */
  lemma UnionStep(base: map<string, Value>, entries: map<string, Value>, todo: set<string>, key: string)
    requires key in todo && key in entries
    ensures (base + (entries - todo))[key := entries[key]] == base + (entries - (todo - {key}))
  {
    MapsEqualByLookup((base + (entries - todo))[key := entries[key]], base + (entries - (todo - {key})));
  }

  /**
   * resetToDefaultAsmOptions: every registered option is set to its default,
   * in the store and in the engine; nothing else changes. The registry is
   * visited in an unspecified order.
   */
  method ResetToDefaultAsmOptions(c: Config) returns (r: Config)
    ensures r == c.(store := c.store + AsmOptions, engine := c.engine + AsmOptions)
  {
    r := c;
    var todo := AsmOptions.Keys;
    assert AsmOptions - todo == map[];
    while todo != {}
      invariant todo <= AsmOptions.Keys
      invariant r == c.(store := c.store + (AsmOptions - todo), engine := c.engine + (AsmOptions - todo))
      decreases todo
    {
      var key :| key in todo;
      UnionStep(c.store, AsmOptions, todo, key);
      UnionStep(c.engine, AsmOptions, todo, key);
      r := SetConfig(r, key, AsmOptions[key]);
      todo := todo - {key};
    }
    assert AsmOptions - todo == AsmOptions;
  }

  /**
   * applySavedAsmOptions: the engine receives, for every registered option,
   * the stored value or else the default; the store is not changed.
   */
  method ApplySavedAsmOptions(c: Config) returns (r: Config)
    ensures r == c.(engine := c.engine + SavedOptions(c.store))
  {
    r := c;
    var saved := SavedOptions(c.store);
    var todo := AsmOptions.Keys;
    assert saved - todo == map[];
    while todo != {}
      invariant todo <= AsmOptions.Keys
      invariant r == c.(engine := c.engine + (saved - todo))
      decreases todo
    {
      var key :| key in todo;
      UnionStep(c.engine, saved, todo, key);
      r := EngineSet(r, key, ValueOr(c.store, key, AsmOptions[key]));
      todo := todo - {key};
    }
    assert saved - todo == saved;
  }

  /**
   * Resetting to defaults and then applying the saved options leaves every
   * registered option at its default in both the store and the engine; the
   * second step changes nothing.
   */
  lemma ResetThenApplyKeepsDefaults(c: Config)
    ensures var reset := c.(store := c.store + AsmOptions, engine := c.engine + AsmOptions);
      && reset.(engine := reset.engine + SavedOptions(reset.store)) == reset
      && forall k :: k in AsmOptions ==> reset.store[k] == AsmOptions[k] && reset.engine[k] == AsmOptions[k]
  {
    var reset := c.(store := c.store + AsmOptions, engine := c.engine + AsmOptions);
    assert SavedOptions(reset.store) == AsmOptions;
    assert reset.engine + SavedOptions(reset.store) == reset.engine;
  }
}
