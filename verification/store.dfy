/**
 * The settings store of Configuration (the QSettings member `s`), the
 * engine's configuration namespace and the log of commands sent to the
 * engine, threaded through the operations as one immutable record; plus
 * the colour accessors and the projects-directory accessor.
 */
module Store {
  import opened Wrappers
  import opened Values

  /**
   * store     the persisted settings, key to value
   * engine    the engine's configuration namespace, key to value
   * commands  the commands sent to the engine with `cmd`, oldest first
   * logoFile  the logo resource the current theme selected
   */
  datatype Config = Config(store: map<string, Value>, engine: map<string, Value>, commands: seq<string>, logoFile: string)

  const DarkKey := "dark"
  const ThemeKey := "theme"
  const DirProjectsKey := "dir.projects"
  const ColorPrefix := "colors."
  /** The colour name getColor falls back to. */
  const OtherColor := "other"

  /** The font getFont returns when none is stored. */
  const DefaultFontFamily := "Inconsolata"
  const DefaultFontSize := 12

  /** The value stored under `k`, or None (the null variant) when there is none. */
  function Lookup(m: map<string, Value>, k: string): Option<Value>
  {
    if k in m then Some(m[k]) else None
  }

  /** Two maps that agree on every lookup are equal. */
  lemma MapsEqualByLookup(m: map<string, Value>, n: map<string, Value>)
    requires forall k :: Lookup(m, k) == Lookup(n, k)
    ensures m == n
  {
    forall k | k in m
      ensures k in n && m[k] == n[k]
    {
      assert Lookup(m, k) == Lookup(n, k);
    }
    forall k | k in n
      ensures k in m
    {
      assert Lookup(m, k) == Lookup(n, k);
    }
  }

  /** QSettings::value(key, default). */
  function ValueOr(m: map<string, Value>, k: string, default: Value): (r: Value)
    ensures Lookup(m, k).Some? ==> Lookup(m, k) == Some(r)
    ensures Lookup(m, k).None? ==> r == default
  {
    if k in m then m[k] else default
  }

  predicate IsColorKey(key: string)
  {
    |ColorPrefix| <= |key| && key[..|ColorPrefix|] == ColorPrefix
  }

  /** The colour name a colour key stores. */
  function ColorNameOf(key: string): string
    requires IsColorKey(key)
  {
    key[|ColorPrefix|..]
  }

  /** The store key of colour `name`; the name can be read back from it, so distinct names never share a key. */
  function ColorKey(name: string): (key: string)
    ensures IsColorKey(key) && ColorNameOf(key) == name
  {
    ColorPrefix + name
  }

  /** A colour key is the key of the name it stores. */
  lemma ColorKeyOfName(key: string)
    requires IsColorKey(key)
    ensures ColorKey(ColorNameOf(key)) == key
  {
    assert key == key[..|ColorPrefix|] + key[|ColorPrefix|..];
  }

  lemma ColorKeyInjective(a: string, b: string)
    ensures ColorKey(a) == ColorKey(b) <==> a == b
  {
  }

  /** The fixed keys "dark", "theme" and "dir.projects" are not colour keys. */
  lemma PlainKeysAreNotColorKeys()
    ensures !IsColorKey(DarkKey) && !IsColorKey(ThemeKey) && !IsColorKey(DirProjectsKey)
  {
    assert DirProjectsKey[..|ColorPrefix|] != ColorPrefix by {
      assert DirProjectsKey[0] != ColorPrefix[0];
    }
  }

  /** A key that does not start with 'c' is not a colour key. */
  lemma NotColorKeyByFirstLetter(key: string)
    requires |key| > 0 && key[0] != ColorPrefix[0]
    ensures !IsColorKey(key)
  {
    if |ColorPrefix| <= |key| {
      assert key[..|ColorPrefix|][0] == key[0];
    }
  }

  /** Store a value under `key`, leaving every other setting as it was. */
  function Put(c: Config, key: string, v: Value): (r: Config)
    ensures Lookup(r.store, key) == Some(v)
    ensures forall k {:trigger Lookup(r.store, k)} :: k != key ==> Lookup(r.store, k) == Lookup(c.store, k)
    ensures r.engine == c.engine && r.commands == c.commands && r.logoFile == c.logoFile
  {
    c.(store := c.store[key := v])
  }

  /** The engine's setConfig: the engine namespace maps `key` to `v` and nothing else changes. */
  function EngineSet(c: Config, key: string, v: Value): (r: Config)
    ensures Lookup(r.engine, key) == Some(v)
    ensures forall k {:trigger Lookup(r.engine, k)} :: k != key ==> Lookup(r.engine, k) == Lookup(c.engine, k)
    ensures r.store == c.store && r.commands == c.commands && r.logoFile == c.logoFile
  {
    c.(engine := c.engine[key := v])
  }

  /** Send one command to the engine: it is appended to the log and nothing else changes. */
  function Command(c: Config, cmd: string): (r: Config)
    ensures |r.commands| == |c.commands| + 1
    ensures r.commands[..|c.commands|] == c.commands && r.commands[|c.commands|] == cmd
    ensures r.store == c.store && r.engine == c.engine && r.logoFile == c.logoFile
  {
    c.(commands := c.commands + [cmd])
  }

  /** A log that grew by exactly `cmd` is the old log with `cmd` appended. */
  lemma AppendedOne(before: seq<string>, after: seq<string>, cmd: string)
    requires |after| == |before| + 1 && after[..|before|] == before && after[|before|] == cmd
    ensures after == before + [cmd]
  {
    assert after == after[..|before|] + [after[|before|]];
  }

  /** setColor: only the key "colors." + name changes, and it now holds the colour. */
  function SetColor(c: Config, name: string, color: Rgb): (r: Config)
    ensures Lookup(r.store, ColorKey(name)) == Some(Color(color))
    ensures forall k {:trigger Lookup(r.store, k)} :: k != ColorKey(name) ==> Lookup(r.store, k) == Lookup(c.store, k)
    ensures r.engine == c.engine && r.commands == c.commands && r.logoFile == c.logoFile
  {
    Put(c, ColorKey(name), Color(color))
  }

  /**
   * getColor: the colour stored for `name` when its key is present, and
   * otherwise the one stored for "other"; None is the invalid colour.
   */
  function GetColor(c: Config, name: string): (r: Option<Rgb>)
    ensures r.Some? ==>
      Lookup(c.store, ColorKey(name)) == Some(Color(r.value)) ||
      (ColorKey(name) !in c.store && Lookup(c.store, ColorKey(OtherColor)) == Some(Color(r.value)))
    ensures ColorKey(name) in c.store && c.store[ColorKey(name)].Color? ==> r == Some(c.store[ColorKey(name)].rgb)
    ensures ColorKey(name) !in c.store && ColorKey(OtherColor) in c.store && c.store[ColorKey(OtherColor)].Color?
      ==> r == Some(c.store[ColorKey(OtherColor)].rgb)
  {
    if ColorKey(name) in c.store then ToColor(Some(c.store[ColorKey(name)]))
    else ToColor(Lookup(c.store, ColorKey(OtherColor)))
  }

  /** A colour set under a name is the one getColor returns for that name. */
  lemma SetColorThenGetColor(c: Config, name: string, color: Rgb)
    ensures GetColor(SetColor(c, name, color), name) == Some(color)
  {
  }

  /** Setting one colour does not change what getColor returns for another name, unless it is the fallback. */
  lemma SetColorKeepsOtherColors(c: Config, name: string, other: string, color: Rgb)
    requires other != name && name != OtherColor
    ensures GetColor(SetColor(c, name, color), other) == GetColor(c, other)
  {
    ColorKeyInjective(name, other);
    ColorKeyInjective(name, OtherColor);
  }

  /** A name with no colour of its own reads as the "other" colour. */
  lemma GetColorFallsBackToOther(c: Config, name: string)
    requires ColorKey(name) !in c.store
    ensures GetColor(c, name) == GetColor(c, OtherColor)
  {
    if name != OtherColor {
      ColorKeyInjective(name, OtherColor);
    }
  }

  /** Without an "other" colour, every name without a colour of its own reads as the invalid colour. */
  lemma NoFallbackNoColor(c: Config)
    requires ColorKey(OtherColor) !in c.store
    ensures forall name :: ColorKey(name) !in c.store ==> GetColor(c, name).None?
  {
    forall name | ColorKey(name) !in c.store
      ensures GetColor(c, name).None?
    {
      GetColorFallsBackToOther(c, name);
    }
  }

  /** setDirProjects: the store holds `dir` under "dir.projects" and nothing else changes. */
  function SetDirProjects(c: Config, dir: string): (r: Config)
    ensures Lookup(r.store, DirProjectsKey) == Some(Str(dir))
    ensures forall k {:trigger Lookup(r.store, k)} :: k != DirProjectsKey ==> Lookup(r.store, k) == Lookup(c.store, k)
    ensures r.engine == c.engine && r.commands == c.commands && r.logoFile == c.logoFile
  {
    Put(c, DirProjectsKey, Str(dir))
  }

  /**
   * getDirProjects: the stored directory (read as text) unless it is empty;
   * then the engine's own "dir.projects" is read, persisted and returned.
   * Returns the directory and the configuration afterwards.
   */
  function GetDirProjects(c: Config): (r: (string, Config))
    ensures ToText(Lookup(c.store, DirProjectsKey)) != "" ==> r == (ToText(Lookup(c.store, DirProjectsKey)), c)
    ensures ToText(Lookup(c.store, DirProjectsKey)) == "" ==>
      r.0 == ToText(Lookup(c.engine, DirProjectsKey)) && Lookup(r.1.store, DirProjectsKey) == Some(Str(r.0))
    ensures forall k {:trigger Lookup(r.1.store, k)} :: k != DirProjectsKey ==> Lookup(r.1.store, k) == Lookup(c.store, k)
    ensures r.1.engine == c.engine && r.1.commands == c.commands && r.1.logoFile == c.logoFile
  {
    var projectsDir := ToText(Lookup(c.store, DirProjectsKey));
    if projectsDir == "" then
      var seeded := ToText(Lookup(c.engine, DirProjectsKey));
      (seeded, SetDirProjects(c, seeded))
    else
      (projectsDir, c)
  }

  /** Seeding happens at most once: asking again returns the same directory and changes nothing. */
  lemma GetDirProjectsIsStable(c: Config)
    ensures GetDirProjects(GetDirProjects(c).1) == GetDirProjects(c)
  {
    var (dir, c1) := GetDirProjects(c);
    if ToText(Lookup(c.store, DirProjectsKey)) == "" && dir == "" {
      assert c1.store == c1.store[DirProjectsKey := Str("")];
    }
  }

  /** A non-empty directory that was set is the one read back, with no seeding. */
  lemma SetThenGetDirProjects(c: Config, dir: string)
    requires dir != ""
    ensures GetDirProjects(SetDirProjects(c, dir)) == (dir, SetDirProjects(c, dir))
  {
  }
}
