/**
 * The configuration store: the properties loaded from application.properties,
 * overwritten line by line from a `.env` file, and the typed getters that fall
 * back to a default when a key is missing or its value does not parse.
 */
module Settings {
  import opened Wrappers
  import opened JavaText

  // ---------------------------------------------------------------- .env lines

  /** The key and value one `.env` line sets, or None when the line is skipped:
      a line that is blank or a `#` comment once trimmed, or one without `=`. */
  function ParseEnvLine(line: string): (r: Option<(string, string)>)
    ensures r.None? <==> var t := Trim(line); t == [] || t[0] == '#' || '=' !in t
    ensures r.Some? ==> '=' !in r.value.0
    ensures r.Some? ==> Trim(r.value.0) == r.value.0 && Trim(r.value.1) == r.value.1
  {
    var t := Trim(line);
    if t == [] || t[0] == '#' then None
    else
      var parts := SplitOnFirst(t, '=');
      if |parts| == 2 then
        TrimIdempotent(parts[0]);
        TrimIdempotent(parts[1]);
        Some((Trim(parts[0]), Trim(parts[1])))
      else None
  }

  /** An accepted line is cut at its first `=`: the key is the trimmed text before it,
      the value the trimmed text after it, which may itself contain `=` or be empty. */
  lemma EnvLineSplitsAtFirstEquals(line: string, key: string, value: string)
    requires Trim(line) == key + "=" + value
    requires '=' !in key
    requires (key + "=" + value)[0] != '#'
    ensures ParseEnvLine(line) == Some((Trim(key), Trim(value)))
  {
    SplitOnFirstUnique(Trim(line), '=', key, value);
  }

  /** A line `key=` with nothing after the `=` stores the empty string. */
  lemma EmptyValueStored(line: string, key: string)
    requires Trim(line) == key + "="
    requires '=' !in key
    requires (key + "=")[0] != '#'
    ensures ParseEnvLine(line) == Some((Trim(key), ""))
  {
    assert key + "=" == key + "=" + "";
    EnvLineSplitsAtFirstEquals(line, key, "");
    TrimPadded([], [], []);
  }

  /** What the `.env` lines set, line by line; None for a skipped line. */
  function Entries(lines: seq<string>): (es: seq<Option<(string, string)>>)
    ensures |es| == |lines|
    ensures forall i :: 0 <= i < |lines| ==> es[i] == ParseEnvLine(lines[i])
  {
    seq(|lines|, i requires 0 <= i < |lines| => ParseEnvLine(lines[i]))
  }

  /** The properties after one entry. */
  function Put(props: map<string, string>, entry: Option<(string, string)>): map<string, string> {
    match entry
    case None => props
    case Some((k, v)) => props[k := v]
  }

  /** The properties after the entries, applied first to last. */
  function PutAll(props: map<string, string>, entries: seq<Option<(string, string)>>): (r: map<string, string>)
    ensures props.Keys <= r.Keys
    ensures forall k :: k in r && k !in props ==> exists i :: 0 <= i < |entries| && Sets(entries[i], k)
  {
    if entries == [] then props
    else Put(PutAll(props, entries[..|entries| - 1]), entries[|entries| - 1])
  }

  /** The properties after the `.env` lines, applied first to last. */
  function ApplyLines(props: map<string, string>, lines: seq<string>): (r: map<string, string>)
    ensures props.Keys <= r.Keys
    ensures forall k :: k in r && k !in props ==> exists i :: 0 <= i < |lines| && Sets(ParseEnvLine(lines[i]), k)
  {
    PutAll(props, Entries(lines))
  }

  /** Whether an entry sets the given key. */
  predicate Sets(entry: Option<(string, string)>, key: string) {
    entry.Some? && entry.value.0 == key
  }

  /** The last entry for a key decides its value. */
  lemma {:induction false} LastEntryWins(props: map<string, string>, entries: seq<Option<(string, string)>>, j: nat, key: string, value: string)
    requires j < |entries| && entries[j] == Some((key, value))
    requires forall i :: j < i < |entries| ==> !Sets(entries[i], key)
    ensures key in PutAll(props, entries) && PutAll(props, entries)[key] == value
  {
    var prefix := entries[..|entries| - 1];
    if j < |entries| - 1 {
      assert forall i :: j <= i < |prefix| ==> prefix[i] == entries[i];
      LastEntryWins(props, prefix, j, key, value);
    }
  }

  /** A key no entry sets keeps its value, or stays absent. */
  lemma {:induction false} UnsetKeyUnchanged(props: map<string, string>, entries: seq<Option<(string, string)>>, key: string)
    requires forall i :: 0 <= i < |entries| ==> !Sets(entries[i], key)
    ensures key in PutAll(props, entries) <==> key in props
    ensures key in props ==> PutAll(props, entries)[key] == props[key]
  {
    if entries != [] {
      var prefix := entries[..|entries| - 1];
      assert forall i :: 0 <= i < |prefix| ==> prefix[i] == entries[i];
      UnsetKeyUnchanged(props, prefix, key);
    }
  }

  /** The last line that sets a key decides its value: later lines override earlier
      ones, and every line overrides what application.properties held. */
  lemma LastLineWins(props: map<string, string>, lines: seq<string>, j: nat, key: string, value: string)
    requires j < |lines| && ParseEnvLine(lines[j]) == Some((key, value))
    requires forall i :: j < i < |lines| ==> !Sets(ParseEnvLine(lines[i]), key)
    ensures key in ApplyLines(props, lines) && ApplyLines(props, lines)[key] == value
  {
    LastEntryWins(props, Entries(lines), j, key, value);
  }

  /** A key no `.env` line sets keeps what application.properties gave it, present or
      absent. */
  lemma UnsetKeyKept(props: map<string, string>, lines: seq<string>, key: string)
    requires forall i :: 0 <= i < |lines| ==> !Sets(ParseEnvLine(lines[i]), key)
    ensures key in ApplyLines(props, lines) <==> key in props
    ensures key in props ==> ApplyLines(props, lines)[key] == props[key]
  {
    UnsetKeyUnchanged(props, Entries(lines), key);
  }

  /** Applying one more line is one more Put: the lines are applied in order. */
  lemma ApplyNextLine(props: map<string, string>, lines: seq<string>, line: string)
    ensures ApplyLines(props, lines + [line]) == Put(ApplyLines(props, lines), ParseEnvLine(line))
  {
    var es := Entries(lines + [line]);
    assert es[..|lines|] == Entries(lines);
  }

  /** An entry that sets nothing can be removed from anywhere in the entries. */
  lemma {:induction false} SkippedEntryRemovable(props: map<string, string>, before: seq<Option<(string, string)>>, after: seq<Option<(string, string)>>)
    ensures PutAll(props, before + [None] + after) == PutAll(props, before + after)
  {
    if after == [] {
      var s := before + [None] + after;
      assert s == before + [None];
      assert s[..|s| - 1] == before;
      assert before + after == before;
    } else {
      var rest := after[..|after| - 1];
      var last := after[|after| - 1];
      SkippedEntryRemovable(props, before, rest);
      assert (before + [None] + after)[..|before| + |after|] == before + [None] + rest;
      assert (before + after)[..|before| + |after| - 1] == before + rest;
    }
  }

  /** Entries line by line: the entries of two runs of lines are the two runs' entries. */
  lemma EntriesAppend(a: seq<string>, b: seq<string>)
    ensures Entries(a + b) == Entries(a) + Entries(b)
  {
    var ab := a + b;
    assert forall i :: 0 <= i < |a| ==> ab[i] == a[i];
    assert forall i :: |a| <= i < |ab| ==> ab[i] == b[i - |a|];
  }

  /** Skipped lines (blank, comment, no `=`) can be dropped anywhere without effect. */
  lemma SkippedLinesIgnored(props: map<string, string>, before: seq<string>, line: string, after: seq<string>)
    requires ParseEnvLine(line).None?
    ensures ApplyLines(props, before + [line] + after) == ApplyLines(props, before + after)
  {
    EntriesAppend(before, [line]);
    EntriesAppend(before + [line], after);
    EntriesAppend(before, after);
    assert Entries([line]) == [None];
    SkippedEntryRemovable(props, Entries(before), Entries(after));
  }

  // ---------------------------------------------------------------- the store

  /** The static Properties object of the Config class. */
  class Config {
    var properties: map<string, string>

    /** Class initialisation: application.properties, then the `.env` file (None when
        there is no such file) on top of it. */
    constructor (fileProperties: map<string, string>, envFile: Option<seq<string>>)
      ensures properties == if envFile.Some? then ApplyLines(fileProperties, envFile.value) else fileProperties
    {
      properties := fileProperties;
      new;
      LoadEnvFile(envFile);
    }

    /** Reads the `.env` lines in order, skipping blank and comment lines and lines
        without `=`, and sets each remaining key to its value. */
    method LoadEnvFile(envFile: Option<seq<string>>)
      modifies this
      ensures properties == if envFile.Some? then ApplyLines(old(properties), envFile.value) else old(properties)
    {
      if envFile.None? {
        return;
      }
      var lines := envFile.value;
      var i := 0;
      while i < |lines|
        invariant 0 <= i <= |lines|
        invariant properties == ApplyLines(old(properties), lines[..i])
      {
        var line := Trim(lines[i]);
        ApplyNextLine(old(properties), lines[..i], lines[i]);
        assert lines[..i + 1] == lines[..i] + [lines[i]];
        i := i + 1;
        if line == [] || line[0] == '#' {
          continue;
        }
        var parts := SplitOnFirst(line, '=');
        if |parts| == 2 {
          properties := properties[Trim(parts[0]) := Trim(parts[1])];
        }
      }
      assert lines[..i] == lines;
    }

    /** Properties.getProperty: the stored value, or None. */
    function GetProperty(key: string): (r: Option<string>)
      reads this
      ensures r.Some? <==> key in properties
      ensures r.Some? ==> r.value == properties[key]
    {
      if key in properties then Some(properties[key]) else None
    }

    /** getIntProperty(key): the value as a Java int when it parses, else None (the
        NumberFormatException is logged, never raised). */
    function GetIntProperty(key: string): (r: Option<int>)
      reads this
      ensures key !in properties ==> r.None?
      ensures key in properties ==> r == ParseInt(properties[key])
      ensures r.Some? ==> InInt32(r.value)
    {
      match GetProperty(key)
      case None => None
      case Some(value) => ParseInt(value)
    }

    /** getIntProperty(key, default). */
    function GetIntPropertyOr(key: string, default: int): (r: int)
      reads this
      ensures key !in properties ==> r == default
      ensures key in properties && ParseInt(properties[key]).None? ==> r == default
      ensures key in properties && ParseInt(properties[key]).Some? ==> r == ParseInt(properties[key]).value
    {
      match GetIntProperty(key)
      case None => default
      case Some(n) => n
    }

    /** getBooleanProperty(key): present values parse with Boolean.parseBoolean. */
    function GetBooleanProperty(key: string): (r: Option<bool>)
      reads this
      ensures r.Some? <==> key in properties
      ensures r.Some? ==> (r.value <==> ToLower(properties[key]) == "true")
    {
      match GetProperty(key)
      case None => None
      case Some(value) => Some(ParseBoolean(value))
    }

    /** getBooleanProperty(key, default): the default only for a missing key; any
        present value other than "true" (in any case) gives false. */
    function GetBooleanPropertyOr(key: string, default: bool): (r: bool)
      reads this
      ensures key !in properties ==> r == default
      ensures key in properties ==> (r <==> ToLower(properties[key]) == "true")
    {
      match GetBooleanProperty(key)
      case None => default
      case Some(b) => b
    }

    /** Config.browser(). */
    function Browser(): (name: Option<string>)
      reads this
      ensures name.Some? <==> "browser" in properties
      ensures name.Some? ==> name.value == properties["browser"]
    {
      GetProperty("browser")
    }

    /** Pause after interactions in milliseconds; 500 unless slow.mo holds an int. */
    function SlowMoMs(): (ms: int)
      reads this
      ensures "slow.mo" !in properties || ParseInt(properties["slow.mo"]).None? ==> ms == 500
      ensures "slow.mo" in properties && ParseInt(properties["slow.mo"]).Some? ==> ms == ParseInt(properties["slow.mo"]).value
    {
      GetIntPropertyOr("slow.mo", 500)
    }

    /** Whether browsers start headless; false unless headless.mode is set. */
    function HeadlessMode(): (headless: bool)
      reads this
      ensures "headless.mode" !in properties ==> !headless
      ensures "headless.mode" in properties ==> (headless <==> ToLower(properties["headless.mode"]) == "true")
    {
      GetBooleanPropertyOr("headless.mode", false)
    }

    /** Element wait timeout in seconds; 10 unless default.timeout holds an int. */
    function DefaultTimeout(): (seconds: int)
      reads this
      ensures "default.timeout" !in properties || ParseInt(properties["default.timeout"]).None? ==> seconds == 10
      ensures "default.timeout" in properties && ParseInt(properties["default.timeout"]).Some? ==> seconds == ParseInt(properties["default.timeout"]).value
    {
      GetIntPropertyOr("default.timeout", 10)
    }

    /** Page-load timeout in seconds; 30 unless long.timeout holds an int. */
    function LongTimeout(): (seconds: int)
      reads this
      ensures "long.timeout" !in properties || ParseInt(properties["long.timeout"]).None? ==> seconds == 30
      ensures "long.timeout" in properties && ParseInt(properties["long.timeout"]).Some? ==> seconds == ParseInt(properties["long.timeout"]).value
    {
      GetIntPropertyOr("long.timeout", 30)
    }
  }

  /** A stored value printed from an int reads back as that int. */
  lemma IntPropertyRoundTrip(c: Config, key: string, n: int)
    requires InInt32(n)
    requires key in c.properties && c.properties[key] == IntToString(n)
    ensures c.GetIntProperty(key) == Some(n)
    ensures forall d :: c.GetIntPropertyOr(key, d) == n
  {
    ParseIntToString(n);
  }
}
