/**
 * Theme resolver: the three hard-coded palettes selected by the integer
 * theme id, and the colour-scheme sync that copies the engine's graph
 * colours into the settings store.
 */
module Themes {
  import opened Wrappers
  import opened Values
  import opened Store
  import Text

  datatype ThemeId = Default | Dark | DarkGrey

  /** setDarkTheme's dispatch: 1 is Dark, 2 is DarkGrey, every other integer is Default. */
  function ThemeOf(theme: int): ThemeId
  {
    if theme == 1 then Dark else if theme == 2 then DarkGrey else Default
  }

  const PlainLogo := ":/img/cutter_plain.svg"
  const WhiteLogo := ":/img/cutter_white_plain.svg"

  /** The fifteen colours every theme defines. */
  datatype ColorName = Cflow | DataOffset | Border | Highlight | HighlightWord | Background | DisassSelected
    | AltBackground | Imports | MainColor | NavbarErr | NavbarCode | NavbarStr | NavbarSym | NavbarEmpty

  /** The name a theme colour is stored under; distinct colours have distinct names. */
  function Name(n: ColorName): (s: string)
    ensures FromName(s) == Some(n)
  {
    match n
    case Cflow => "gui.cflow"
    case DataOffset => "gui.dataoffset"
    case Border => "gui.border"
    case Highlight => "highlight"
    case HighlightWord => "highlightWord"
    case Background => "gui.background"
    case DisassSelected => "gui.disass_selected"
    case AltBackground => "gui.alt_background"
    case Imports => "gui.imports"
    case MainColor => "gui.main"
    case NavbarErr => "gui.navbar.err"
    case NavbarCode => "gui.navbar.code"
    case NavbarStr => "gui.navbar.str"
    case NavbarSym => "gui.navbar.sym"
    case NavbarEmpty => "gui.navbar.empty"
  }

  /** The theme colour a name denotes, if any. */
  function FromName(s: string): Option<ColorName>
  {
    if s == "gui.cflow" then Some(Cflow)
    else if s == "gui.dataoffset" then Some(DataOffset)
    else if s == "gui.border" then Some(Border)
    else if s == "highlight" then Some(Highlight)
    else if s == "highlightWord" then Some(HighlightWord)
    else if s == "gui.background" then Some(Background)
    else if s == "gui.disass_selected" then Some(DisassSelected)
    else if s == "gui.alt_background" then Some(AltBackground)
    else if s == "gui.imports" then Some(Imports)
    else if s == "gui.main" then Some(MainColor)
    else if s == "gui.navbar.err" then Some(NavbarErr)
    else if s == "gui.navbar.code" then Some(NavbarCode)
    else if s == "gui.navbar.str" then Some(NavbarStr)
    else if s == "gui.navbar.sym" then Some(NavbarSym)
    else if s == "gui.navbar.empty" then Some(NavbarEmpty)
    else None
  }

  /** FromName recognises exactly the fifteen names. */
  lemma FromNameIsName(s: string)
    ensures FromName(s).Some? ==> Name(FromName(s).value) == s
  {
  }

  /** The colours Dark and DarkGrey set on top of the shared dark base. */
  predicate IsDarkOverride(n: ColorName)
  {
    n in {Border, Background, AltBackground, DisassSelected, Highlight, HighlightWord}
  }

  function DefaultColor(n: ColorName): Rgb
  {
    match n
    case Cflow => Rgb(0, 0, 0)
    case DataOffset => Rgb(0, 0, 0)
    case Border => Rgb(0, 0, 0)
    case Highlight => Rgb(210, 210, 255)
    case HighlightWord => Rgb(210, 210, 255)
    case Background => Rgb(255, 255, 255)
    case DisassSelected => Rgb(255, 255, 255)
    case AltBackground => Rgb(245, 250, 255)
    case Imports => Rgb(50, 140, 255)
    case MainColor => Rgb(0, 128, 0)
    case NavbarErr => Rgb(255, 0, 0)
    case NavbarCode => Rgb(104, 229, 69)
    case NavbarStr => Rgb(69, 104, 229)
    case NavbarSym => Rgb(229, 150, 69)
    case NavbarEmpty => Rgb(100, 100, 100)
  }

  function DarkColor(n: ColorName): Rgb
  {
    match n
    case Cflow => Rgb(255, 255, 255)
    case DataOffset => Rgb(255, 255, 255)
    case Border => Rgb(255, 255, 255)
    case Highlight => Rgb(64, 115, 115)
    case HighlightWord => Rgb(64, 115, 115)
    case Background => Rgb(36, 66, 79)
    case DisassSelected => Rgb(36, 66, 79)
    case AltBackground => Rgb(58, 100, 128)
    case Imports => Rgb(50, 140, 255)
    case MainColor => Rgb(0, 128, 0)
    case NavbarErr => Rgb(255, 0, 0)
    case NavbarCode => Rgb(104, 229, 69)
    case NavbarStr => Rgb(69, 104, 229)
    case NavbarSym => Rgb(229, 150, 69)
    case NavbarEmpty => Rgb(100, 100, 100)
  }

  function DarkGreyColor(n: ColorName): Rgb
  {
    match n
    case Cflow => Rgb(255, 255, 255)
    case DataOffset => Rgb(255, 255, 255)
    case Border => Rgb(100, 100, 100)
    case Highlight => Rgb(21, 29, 29)
    case HighlightWord => Rgb(100, 100, 100)
    case Background => Rgb(37, 40, 43)
    case DisassSelected => Rgb(44, 53, 54)
    case AltBackground => Rgb(28, 31, 36)
    case Imports => Rgb(50, 140, 255)
    case MainColor => Rgb(0, 128, 0)
    case NavbarErr => Rgb(255, 0, 0)
    case NavbarCode => Rgb(104, 229, 69)
    case NavbarStr => Rgb(69, 104, 229)
    case NavbarSym => Rgb(229, 150, 69)
    case NavbarEmpty => Rgb(100, 100, 100)
  }

  /** The palette of a theme: a colour for each of the fifteen names. */
  function Palette(id: ThemeId, n: ColorName): Rgb
  {
    match id
    case Default => DefaultColor(n)
    case Dark => DarkColor(n)
    case DarkGrey => DarkGreyColor(n)
  }

  function Logo(id: ThemeId): string
  {
    if id == Default then PlainLogo else WhiteLogo
  }

  /** A store key holding one of the fifteen theme colours. */
  predicate IsThemeColorKey(key: string)
  {
    IsColorKey(key) && FromName(ColorNameOf(key)).Some?
  }

  /** Store key of a theme colour. */
  function ThemeColorKey(n: ColorName): (key: string)
    ensures IsThemeColorKey(key) && FromName(ColorNameOf(key)) == Some(n)
  {
    ColorKey(Name(n))
  }

  /** Every theme colour key is the key of the colour its name denotes. */
  lemma ThemeColorKeyOf(key: string)
    requires IsThemeColorKey(key)
    ensures key == ThemeColorKey(FromName(ColorNameOf(key)).value)
  {
    FromNameIsName(ColorNameOf(key));
    ColorKeyOfName(key);
  }

  /** The fifteen store entries a theme's palette gives, keyed by the theme colour keys. */
  function PaletteEntries(id: ThemeId): (m: map<string, Value>)
    ensures forall n: ColorName :: Lookup(m, ThemeColorKey(n)) == Some(Color(Palette(id, n)))
    ensures forall key :: key in m ==> IsThemeColorKey(key)
  {
    var keys := set n: ColorName :: ThemeColorKey(n);
    map key | key in keys :: Color(Palette(id, FromName(ColorNameOf(key)).value))
  }

  /** Dark and DarkGrey differ exactly in the six overridden colours. */
  lemma DarkVariantsDifferInOverrides(n: ColorName)
    ensures DarkColor(n) != DarkGreyColor(n) <==> IsDarkOverride(n)
  {
  }

  /** Each palette differs from the other two, so the colours shown identify the theme. */
  lemma PalettesAreDistinct(a: ThemeId, b: ThemeId)
    requires a != b
    ensures exists n: ColorName :: Palette(a, n) != Palette(b, n)
  {
    if {a, b} == {Dark, DarkGrey} {
      assert Palette(a, Border) != Palette(b, Border);
    } else {
      assert Palette(a, Cflow) != Palette(b, Cflow);
    }
  }

  /** One setColor call of a theme loader. */
  type ColorWrite = (ColorName, Rgb)

  /** loadDefaultTheme's colour writes, in order. */
  const DefaultWrites: seq<ColorWrite> := [
    (Cflow, Rgb(0, 0, 0)),
    (DataOffset, Rgb(0, 0, 0)),
    (Border, Rgb(0, 0, 0)),
    (Highlight, Rgb(210, 210, 255)),
    (HighlightWord, Rgb(210, 210, 255)),
    (Background, Rgb(255, 255, 255)),
    (DisassSelected, Rgb(255, 255, 255)),
    (AltBackground, Rgb(245, 250, 255)),
    (Imports, Rgb(50, 140, 255)),
    (MainColor, Rgb(0, 128, 0)),
    (NavbarErr, Rgb(255, 0, 0)),
    (NavbarCode, Rgb(104, 229, 69)),
    (NavbarStr, Rgb(69, 104, 229)),
    (NavbarSym, Rgb(229, 150, 69)),
    (NavbarEmpty, Rgb(100, 100, 100))
  ]

  /** loadBaseDark's colour writes, in order. */
  const BaseDarkWrites: seq<ColorWrite> := [
    (Cflow, Rgb(255, 255, 255)),
    (DataOffset, Rgb(255, 255, 255)),
    (Imports, Rgb(50, 140, 255)),
    (MainColor, Rgb(0, 128, 0)),
    (NavbarErr, Rgb(255, 0, 0)),
    (NavbarCode, Rgb(104, 229, 69)),
    (NavbarStr, Rgb(69, 104, 229)),
    (NavbarSym, Rgb(229, 150, 69)),
    (NavbarEmpty, Rgb(100, 100, 100))
  ]

  /** loadDarkTheme's writes after the dark base, in order. */
  const DarkWrites: seq<ColorWrite> := [
    (Border, Rgb(255, 255, 255)),
    (Background, Rgb(36, 66, 79)),
    (AltBackground, Rgb(58, 100, 128)),
    (DisassSelected, Rgb(36, 66, 79)),
    (Highlight, Rgb(64, 115, 115)),
    (HighlightWord, Rgb(64, 115, 115))
  ]

  /** loadDarkGreyTheme's writes after the dark base, in order. */
  const DarkGreyWrites: seq<ColorWrite> := [
    (Border, Rgb(100, 100, 100)),
    (Background, Rgb(37, 40, 43)),
    (AltBackground, Rgb(28, 31, 36)),
    (DisassSelected, Rgb(44, 53, 54)),
    (Highlight, Rgb(21, 29, 29)),
    (HighlightWord, Rgb(100, 100, 100))
  ]

  /** The colour the last write to `n` in `w` gives it, if `w` writes `n` at all. */
  function LastWrite(w: seq<ColorWrite>, n: ColorName): Option<Rgb>
    decreases |w|
  {
    if |w| == 0 then None
    else if w[|w| - 1].0 == n then Some(w[|w| - 1].1)
    else LastWrite(w[..|w| - 1], n)
  }

  /**
   * Perform a batch of setColor calls in order: each theme colour ends up
   * with its last written value, or keeps its old one when not written, and
   * no other setting changes.
   */
  function SetThemeColors(c: Config, w: seq<ColorWrite>): (r: Config)
    ensures forall n: ColorName ::
      Lookup(r.store, ThemeColorKey(n)) == (if LastWrite(w, n).Some? then Some(Color(LastWrite(w, n).value)) else Lookup(c.store, ThemeColorKey(n)))
    ensures forall key {:trigger Lookup(r.store, key)} :: !IsThemeColorKey(key) ==> Lookup(r.store, key) == Lookup(c.store, key)
    ensures r.engine == c.engine && r.commands == c.commands && r.logoFile == c.logoFile
    decreases |w|
  {
    if |w| == 0 then c
    else SetColor(SetThemeColors(c, w[..|w| - 1]), Name(w[|w| - 1].0), w[|w| - 1].1)
  }

  /** The write at index `i` decides the colour when no later write touches the same name. */
  lemma {:induction false} LastWriteAt(w: seq<ColorWrite>, i: nat)
    requires i < |w|
    requires forall j :: i < j < |w| ==> w[j].0 != w[i].0
    ensures LastWrite(w, w[i].0) == Some(w[i].1)
    decreases |w|
  {
    if i != |w| - 1 {
      LastWriteAt(w[..|w| - 1], i);
    }
  }

  /** A name the batch never writes keeps its colour. */
  lemma {:induction false} LastWriteUnwritten(w: seq<ColorWrite>, n: ColorName)
    requires forall j :: 0 <= j < |w| ==> w[j].0 != n
    ensures LastWrite(w, n) == None
    decreases |w|
  {
    if |w| > 0 {
      LastWriteUnwritten(w[..|w| - 1], n);
    }
  }

  /** Position of each colour in loadDefaultTheme's batch. */
  function DefaultIndex(n: ColorName): nat
  {
    match n
    case Cflow => 0
    case DataOffset => 1
    case Border => 2
    case Highlight => 3
    case HighlightWord => 4
    case Background => 5
    case DisassSelected => 6
    case AltBackground => 7
    case Imports => 8
    case MainColor => 9
    case NavbarErr => 10
    case NavbarCode => 11
    case NavbarStr => 12
    case NavbarSym => 13
    case NavbarEmpty => 14
  }

  /** Position of each shared colour in loadBaseDark's batch. */
  function BaseDarkIndex(n: ColorName): nat
    requires !IsDarkOverride(n)
  {
    match n
    case Cflow => 0
    case DataOffset => 1
    case Imports => 2
    case MainColor => 3
    case NavbarErr => 4
    case NavbarCode => 5
    case NavbarStr => 6
    case NavbarSym => 7
    case NavbarEmpty => 8
  }

  /** Position of each overridden colour in the two dark variants' batches. */
  function OverrideIndex(n: ColorName): nat
    requires IsDarkOverride(n)
  {
    match n
    case Border => 0
    case Background => 1
    case AltBackground => 2
    case DisassSelected => 3
    case Highlight => 4
    case HighlightWord => 5
  }

  /** The default batch writes every colour once with its Default palette value. */
  lemma DefaultWritesArePalette(n: ColorName)
    ensures LastWrite(DefaultWrites, n) == Some(DefaultColor(n))
  {
    var i := DefaultIndex(n);
    assert i < |DefaultWrites| && DefaultWrites[i] == (n, DefaultColor(n));
    LastWriteAt(DefaultWrites, i);
  }

  /** The dark base writes exactly the colours the two dark themes share, with their shared values. */
  lemma BaseDarkWritesAreShared(n: ColorName)
    ensures LastWrite(BaseDarkWrites, n) == if IsDarkOverride(n) then None else Some(DarkColor(n))
    ensures !IsDarkOverride(n) ==> DarkColor(n) == DarkGreyColor(n)
  {
    if IsDarkOverride(n) {
      LastWriteUnwritten(BaseDarkWrites, n);
    } else {
      var i := BaseDarkIndex(n);
      assert i < |BaseDarkWrites| && BaseDarkWrites[i] == (n, DarkColor(n));
      LastWriteAt(BaseDarkWrites, i);
    }
  }

  /** Each dark variant's own batch writes exactly the six overridden colours. */
  lemma DarkOverrideWrites(n: ColorName)
    ensures LastWrite(DarkWrites, n) == if IsDarkOverride(n) then Some(DarkColor(n)) else None
    ensures LastWrite(DarkGreyWrites, n) == if IsDarkOverride(n) then Some(DarkGreyColor(n)) else None
  {
    if IsDarkOverride(n) {
      var i := OverrideIndex(n);
      assert i < |DarkWrites| && DarkWrites[i] == (n, DarkColor(n));
      assert i < |DarkGreyWrites| && DarkGreyWrites[i] == (n, DarkGreyColor(n));
      LastWriteAt(DarkWrites, i);
      LastWriteAt(DarkGreyWrites, i);
    } else {
      LastWriteUnwritten(DarkWrites, n);
      LastWriteUnwritten(DarkGreyWrites, n);
    }
  }

  /** loadDefaultTheme (colour writes and logo; the stylesheet reset is outside this model). */
  function LoadDefaultTheme(c: Config): (r: Config)
    ensures r.logoFile == PlainLogo
    ensures forall n: ColorName :: Lookup(r.store, ThemeColorKey(n)) == Some(Color(DefaultColor(n)))
    ensures forall key {:trigger Lookup(r.store, key)} :: !IsThemeColorKey(key) ==> Lookup(r.store, key) == Lookup(c.store, key)
    ensures r.engine == c.engine && r.commands == c.commands
  {
    forall n: ColorName ensures LastWrite(DefaultWrites, n) == Some(DefaultColor(n)) {
      DefaultWritesArePalette(n);
    }
    SetThemeColors(c.(logoFile := PlainLogo), DefaultWrites)
  }

  /** loadBaseDark: the logo and the colours both dark themes share (the stylesheet is outside this model). */
  function LoadBaseDark(c: Config): (r: Config)
    ensures r.logoFile == WhiteLogo
    ensures forall n: ColorName :: !IsDarkOverride(n) ==>
      Lookup(r.store, ThemeColorKey(n)) == Some(Color(DarkColor(n))) &&
      Lookup(r.store, ThemeColorKey(n)) == Some(Color(DarkGreyColor(n)))
    ensures forall n: ColorName :: IsDarkOverride(n) ==> Lookup(r.store, ThemeColorKey(n)) == Lookup(c.store, ThemeColorKey(n))
    ensures forall key {:trigger Lookup(r.store, key)} :: !IsThemeColorKey(key) ==> Lookup(r.store, key) == Lookup(c.store, key)
    ensures r.engine == c.engine && r.commands == c.commands
  {
    forall n: ColorName
      ensures LastWrite(BaseDarkWrites, n) == if IsDarkOverride(n) then None else Some(DarkColor(n))
      ensures !IsDarkOverride(n) ==> DarkColor(n) == DarkGreyColor(n)
    {
      BaseDarkWritesAreShared(n);
    }
    SetThemeColors(c.(logoFile := WhiteLogo), BaseDarkWrites)
  }

  /** loadDarkTheme: the dark base, then the six Dark overrides. */
  function LoadDarkTheme(c: Config): (r: Config)
    ensures r.logoFile == WhiteLogo
    ensures forall n: ColorName :: Lookup(r.store, ThemeColorKey(n)) == Some(Color(DarkColor(n)))
    ensures forall key {:trigger Lookup(r.store, key)} :: !IsThemeColorKey(key) ==> Lookup(r.store, key) == Lookup(c.store, key)
    ensures r.engine == c.engine && r.commands == c.commands
  {
    forall n: ColorName
      ensures LastWrite(DarkWrites, n) == if IsDarkOverride(n) then Some(DarkColor(n)) else None
    {
      DarkOverrideWrites(n);
    }
    SetThemeColors(LoadBaseDark(c), DarkWrites)
  }

  /** loadDarkGreyTheme: the dark base, then the six DarkGrey overrides. */
  function LoadDarkGreyTheme(c: Config): (r: Config)
    ensures r.logoFile == WhiteLogo
    ensures forall n: ColorName :: Lookup(r.store, ThemeColorKey(n)) == Some(Color(DarkGreyColor(n)))
    ensures forall key {:trigger Lookup(r.store, key)} :: !IsThemeColorKey(key) ==> Lookup(r.store, key) == Lookup(c.store, key)
    ensures r.engine == c.engine && r.commands == c.commands
  {
    forall n: ColorName
      ensures LastWrite(DarkGreyWrites, n) == if IsDarkOverride(n) then Some(DarkGreyColor(n)) else None
    {
      DarkOverrideWrites(n);
    }
    SetThemeColors(LoadBaseDark(c), DarkGreyWrites)
  }

  /** The loader for a theme id. */
  function LoadTheme(c: Config, id: ThemeId): (r: Config)
    ensures forall n: ColorName :: Lookup(r.store, ThemeColorKey(n)) == Some(Color(Palette(id, n)))
    ensures forall key {:trigger Lookup(r.store, key)} :: !IsThemeColorKey(key) ==> Lookup(r.store, key) == Lookup(c.store, key)
    ensures r.logoFile == Logo(id)
    ensures r.engine == c.engine && r.commands == c.commands
  {
    match id
    case Dark => LoadDarkTheme(c)
    case DarkGrey => LoadDarkGreyTheme(c)
    case Default => LoadDefaultTheme(c)
  }

  /**
   * setDarkTheme: persist the id under "dark" and apply the palette it
   * selects (1 Dark, 2 DarkGrey, anything else Default); only the fifteen
   * theme colours and "dark" change in the store.
   */
  function SetDarkTheme(c: Config, theme: int): (r: Config)
    ensures Lookup(r.store, DarkKey) == Some(Int(theme))
    ensures forall n: ColorName :: Lookup(r.store, ThemeColorKey(n)) == Some(Color(Palette(ThemeOf(theme), n)))
    ensures forall key {:trigger Lookup(r.store, key)} :: key != DarkKey && !IsThemeColorKey(key) ==> Lookup(r.store, key) == Lookup(c.store, key)
    ensures r.logoFile == Logo(ThemeOf(theme))
    ensures r.engine == c.engine && r.commands == c.commands
  {
    PlainKeysAreNotColorKeys();
    LoadTheme(Put(c, DarkKey, Int(theme)), ThemeOf(theme))
  }

  /** setDarkTheme's store, as one map: "dark" written, then the palette entries over it. */
  lemma SetDarkThemeStore(c: Config, theme: int)
    ensures SetDarkTheme(c, theme).store == c.store[DarkKey := Int(theme)] + PaletteEntries(ThemeOf(theme))
  {
    var lhs := SetDarkTheme(c, theme).store;
    var rhs := c.store[DarkKey := Int(theme)] + PaletteEntries(ThemeOf(theme));
    PlainKeysAreNotColorKeys();
    forall key
      ensures Lookup(lhs, key) == Lookup(rhs, key)
    {
      if IsThemeColorKey(key) {
        ThemeColorKeyOf(key);
      }
    }
    MapsEqualByLookup(lhs, rhs);
  }

  /** The colours setDarkTheme leaves are those of palette `id` exactly when the id selects `id`. */
  lemma SetDarkThemeShowsPaletteIff(c: Config, theme: int, id: ThemeId)
    ensures (forall n: ColorName :: Lookup(SetDarkTheme(c, theme).store, ThemeColorKey(n)) == Some(Color(Palette(id, n))))
      <==> ThemeOf(theme) == id
  {
    var r := SetDarkTheme(c, theme);
    if ThemeOf(theme) != id {
      PalettesAreDistinct(ThemeOf(theme), id);
      var n: ColorName :| Palette(ThemeOf(theme), n) != Palette(id, n);
      assert Lookup(r.store, ThemeColorKey(n)) != Some(Color(Palette(id, n)));
    }
  }

  /** The dispatch: Dark exactly for 1, DarkGrey exactly for 2, Default for every other id. */
  lemma ThemeDispatch(theme: int)
    ensures ThemeOf(theme) == Dark <==> theme == 1
    ensures ThemeOf(theme) == DarkGrey <==> theme == 2
    ensures ThemeOf(theme) == Default <==> theme != 1 && theme != 2
  {
  }

  const GraphMarker := "graph"

  /** An engine colour the GUI mirrors: its name contains "graph". */
  predicate IsGraphColor(name: string)
  {
    Text.Contains(name, GraphMarker)
  }

  /** `key` is the store key of a graph colour of the engine's table. */
  predicate Mirrors(key: string, table: map<string, Rgb>)
  {
    IsColorKey(key) && ColorNameOf(key) in table && IsGraphColor(ColorNameOf(key))
  }

  /** A name without the letter `ch` of "graph" is not a graph colour. */
  lemma LacksGraphLetter(name: string, ch: char)
    requires ch in GraphMarker && ch !in name
    ensures !IsGraphColor(name)
  {
    Text.AbsentCharNotContained(name, GraphMarker, ch);
  }

  /** A letter of "graph" that the name of `n` lacks. */
  lemma MissingGraphLetter(n: ColorName) returns (ch: char)
    ensures ch in GraphMarker && ch !in Name(n)
  {
    if n == Imports || n == NavbarEmpty {
      ch := 'h';
    } else {
      ch := 'p';
    }
  }

  /** No theme colour is a graph colour, and neither is the "other" fallback. */
  lemma ThemeColorsAreNotGraphColors(n: ColorName)
    ensures !IsGraphColor(Name(n))
  {
    var ch := MissingGraphLetter(n);
    LacksGraphLetter(Name(n), ch);
  }

  /** The "other" fallback colour is neither a theme colour nor a graph colour. */
  lemma OtherColorIsPlain()
    ensures !IsThemeColorKey(ColorKey(OtherColor)) && !IsGraphColor(OtherColor)
  {
    LacksGraphLetter(OtherColor, 'g');
    assert FromName(OtherColor) == None;
  }

  /** The engine command setColorTheme issues: "ecd" resets to the default scheme, "eco <name>" loads one. */
  function SchemeCommand(name: string): (cmd: string)
    ensures cmd == "ecd" <==> name == "default"
    ensures name != "default" ==> |cmd| == |name| + 4 && cmd[..4] == "eco " && cmd[4..] == name
  {
    if name == "default" then "ecd" else "eco " + name
  }

  /** The store entries mirroring those graph colours of `table` whose names are in `names`. */
  function GraphEntries(table: map<string, Rgb>, names: set<string>): (m: map<string, Value>)
    ensures forall k :: k in table && k in names && IsGraphColor(k) ==> Lookup(m, ColorKey(k)) == Some(Color(table[k]))
    ensures forall key :: key in m ==> Mirrors(key, table) && ColorNameOf(key) in names
  {
    map k | k in table && k in names && IsGraphColor(k) :: ColorKey(k) := Color(table[k])
  }

  /** Mirroring one more name of the table on top of those already mirrored. */
  lemma GraphStep(base: map<string, Value>, table: map<string, Rgb>, done: set<string>, k: string)
    requires k in table
    ensures IsGraphColor(k) ==> base + GraphEntries(table, done + {k}) == (base + GraphEntries(table, done))[ColorKey(k) := Color(table[k])]
    ensures !IsGraphColor(k) ==> base + GraphEntries(table, done + {k}) == base + GraphEntries(table, done)
  {
    var before := base + GraphEntries(table, done);
    var after := base + GraphEntries(table, done + {k});
    if IsGraphColor(k) {
      var step := before[ColorKey(k) := Color(table[k])];
      forall key
        ensures Lookup(after, key) == Lookup(step, key)
      {
        if key in GraphEntries(table, done + {k}) && key != ColorKey(k) {
          ColorKeyOfName(key);
        }
      }
      MapsEqualByLookup(after, step);
    } else {
      forall key
        ensures Lookup(after, key) == Lookup(before, key)
      {
        if key in GraphEntries(table, done + {k}) {
          ColorKeyOfName(key);
        }
      }
      MapsEqualByLookup(after, before);
    }
  }

  /**
   * The loop of setColorTheme: every entry of the engine's colour table
   * whose key contains "graph" is copied into the store as a colour; every
   * other setting is left as it was. The table is visited in an unspecified
   * order.
   */
  method MirrorGraphColors(c: Config, table: map<string, Rgb>) returns (r: Config)
    ensures r == c.(store := c.store + GraphEntries(table, table.Keys))
  {
    r := c;
    var todo := table.Keys;
    assert GraphEntries(table, table.Keys - todo) == map[];
    while todo != {}
      invariant todo <= table.Keys
      invariant r == c.(store := c.store + GraphEntries(table, table.Keys - todo))
      decreases todo
    {
      var k :| k in todo;
      GraphStep(c.store, table, table.Keys - todo, k);
      assert (table.Keys - todo) + {k} == table.Keys - (todo - {k});
      if IsGraphColor(k) {
        r := SetColor(r, k, table[k]);
      }
      todo := todo - {k};
    }
    assert table.Keys - todo == table.Keys;
  }

  /**
   * Reading the store setColorTheme leaves: the scheme name is recorded,
   * every graph colour of the table is mirrored, and every other key is as
   * before.
   */
  lemma SchemeStoreReads(store: map<string, Value>, before: map<string, Value>, name: string, table: map<string, Rgb>)
    requires store == before[ThemeKey := Str(name)] + GraphEntries(table, table.Keys)
    ensures Lookup(store, ThemeKey) == Some(Str(name))
    ensures forall k :: k in table && IsGraphColor(k) ==> Lookup(store, ColorKey(k)) == Some(Color(table[k]))
    ensures forall key {:trigger Lookup(store, key)} :: key != ThemeKey && !Mirrors(key, table) ==> Lookup(store, key) == Lookup(before, key)
  {
    PlainKeysAreNotColorKeys();
  }

  /**
   * setColorTheme: send "ecd" for "default" and "eco <name>" otherwise,
   * record the name under "theme", then mirror the graph colours of the
   * colour table the engine reports afterwards (`table`).
   */
  method SetColorTheme(c: Config, name: string, table: map<string, Rgb>) returns (r: Config)
    ensures |r.commands| == |c.commands| + 1 && r.commands[..|c.commands|] == c.commands
    ensures r.commands[|c.commands|] == "ecd" <==> name == "default"
    ensures name != "default" ==> r.commands[|c.commands|] == "eco " + name
    ensures r.store == c.store[ThemeKey := Str(name)] + GraphEntries(table, table.Keys)
    ensures r.engine == c.engine && r.logoFile == c.logoFile
  {
    PlainKeysAreNotColorKeys();
    if name == "default" {
      r := Command(c, "ecd");
      r := Put(r, ThemeKey, Str("default"));
    } else {
      r := Command(c, "eco " + name);
      r := Put(r, ThemeKey, Str(name));
    }
    r := MirrorGraphColors(r, table);
  }
}
