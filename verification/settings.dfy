/** Settings read from the environment (backend/config/settings.py): the `.env` loader, the
    DEBUG flag and the comma-separated lists of API keys and CORS origins. The environment is
    a map from variable to value. */
module Settings {

  import opened Wrappers
  import opened Text
  import opened Seqs

  type Env = map<string, string>

  // ---------------------------------------------------------------------------------------
  // .env lines

  /** The line boundaries of Python's `str.splitlines`. Every one is whitespace, so splitting
      "\r\n" as two boundaries only adds an empty piece, which the loader skips anyway. */
  predicate IsLineBreak(c: char) {
    c == '\n' || c == '\r' || c == '\U{B}' || c == '\U{C}' || ('\U{1C}' <= c <= '\U{1E}')
    || c == '\U{85}' || c == '\U{2028}' || c == '\U{2029}'
  }

  /** The pieces of `text` between line boundaries. */
  function Lines(text: string): (r: seq<string>)
    ensures |r| >= 1
    ensures forall i, k :: 0 <= i < |r| && 0 <= k < |r[i]| ==> !IsLineBreak(r[i][k])
    decreases |text|
  {
    if text == [] then [""]
    else
      var rest := Lines(text[1..]);
      if IsLineBreak(text[0]) then [""] + rest
      else [[text[0]] + rest[0]] + rest[1..]
  }

  /** One stripped line of a `.env` file: comments and lines without "=" give nothing;
      otherwise the stripped key before the first "=" and the value after it, stripped of
      whitespace, then of every outer `"`, then of every outer `'`. */
  function ParseStripped(line: string): (r: Option<(string, string)>)
    ensures r.None? <==> line == "" || line[0] == '#' || '=' !in line
    ensures r.Some? ==> IsStripped(r.value.0)
    ensures r.Some? ==> exists before, after :: line == before + "=" + after && '=' !in before
                          && r.value.0 == Strip(before)
                          && r.value.1 == StripChar(StripChar(Strip(after), '"'), '\'')
  {
    if line == "" || line[0] == '#' then None
    else
      match SplitOnce(line, '=')
      case None => None
      case Some((key, value)) =>
        StripStripped(Strip(key));
        assert line == key + "=" + value;
        Some((Strip(key), StripChar(StripChar(Strip(value), '"'), '\'')))
  }

  /** One raw line: blank lines give nothing, the rest is parsed once stripped. */
  function ParseLine(raw: string): (r: Option<(string, string)>)
    ensures Strip(raw) == "" ==> r.None?
  {
    ParseStripped(Strip(raw))
  }

  /** The variables the parsed lines define. */
  function Defined(entries: seq<Option<(string, string)>>): (r: set<string>)
    ensures forall k :: k in r <==> exists i :: 0 <= i < |entries| && entries[i].Some? && entries[i].value.0 == k
    decreases |entries|
  {
    if entries == [] then {}
    else
      var rest := Defined(entries[1..]);
      assert forall i :: 1 <= i < |entries| ==> entries[i] == entries[1..][i - 1];
      (if entries[0].Some? then {entries[0].value.0} else {}) + rest
  }

  /** What `os.environ` accepts on a POSIX host: `putenv` refuses an empty name and a NUL
      character in the name or the value with `ValueError`. A `.env` key never holds "=". */
  predicate LegalKey(k: string) {
    k != "" && '\0' !in k
  }

  predicate LegalValue(v: string) {
    '\0' !in v
  }

  /** `os.environ.setdefault` for one parsed line: None when it raises, which it does only
      when the variable is unset and the name or value is illegal. */
  function SetDefault(env: Env, entry: Option<(string, string)>): (r: Option<Env>)
    ensures entry.None? ==> r == Some(env)
    ensures entry.Some? && entry.value.0 in env ==> r == Some(env)
    ensures entry.Some? && entry.value.0 !in env ==>
              (r.None? <==> !LegalKey(entry.value.0) || !LegalValue(entry.value.1))
    ensures entry.Some? && r.Some? ==> r.value == env[entry.value.0 := if entry.value.0 in env then env[entry.value.0] else entry.value.1]
  {
    match entry
    case None => Some(env)
    case Some((key, value)) =>
      if key in env then Some(env)
      else if !LegalKey(key) || !LegalValue(value) then None
      else Some(env[key := value])
  }

  /** `os.environ.setdefault` for each parsed line in order; None when one of them raises. */
  function SetDefaults(env: Env, entries: seq<Option<(string, string)>>): (r: Option<Env>)
    ensures r.Some? ==> r.value.Keys == env.Keys + Defined(entries)
    ensures r.Some? ==> forall k :: k in env ==> r.value[k] == env[k]
    ensures r.Some? ==> forall k :: k in Defined(entries) && k !in env ==> LegalKey(k)
    ensures (forall i :: 0 <= i < |entries| && entries[i].Some? ==> LegalKey(entries[i].value.0) && LegalValue(entries[i].value.1))
            ==> r.Some?
    decreases |entries|
  {
    if entries == [] then Some(env)
    else
      match SetDefault(env, entries[0])
      case None => None
      case Some(next) =>
        var rest := SetDefaults(next, entries[1..]);
        assert forall i :: 1 <= i < |entries| ==> entries[i] == entries[1..][i - 1];
        rest
  }

  /** `load_dotenv`: nothing changes when the file is missing (`content` is None); otherwise
      each line sets its variable unless the environment already has it. None is the
      `ValueError` a line with an empty or NUL-holding name, or a NUL-holding value, raises
      when its variable is unset; it stops the settings from loading. */
  function LoadDotenv(env: Env, content: Option<string>): (r: Option<Env>)
    ensures content.None? ==> r == Some(env)
    ensures content.Some? && r.Some? ==> r.value.Keys == env.Keys + Defined(Map(Lines(content.value), ParseLine))
    ensures r.Some? ==> forall k :: k in env ==> r.value[k] == env[k]
    ensures content.Some? && "" !in env && "" in Defined(Map(Lines(content.value), ParseLine)) ==> r.None?
  {
    if content.None? then Some(env) else SetDefaults(env, Map(Lines(content.value), ParseLine))
  }

  /** The first line defining a variable the environment lacks decides its value: later lines
      for it change nothing. */
  lemma {:induction false} FirstDefinitionWins(env: Env, entries: seq<Option<(string, string)>>, i: nat)
    requires i < |entries| && entries[i].Some? && entries[i].value.0 !in env
    requires forall j :: 0 <= j < i && entries[j].Some? ==> entries[j].value.0 != entries[i].value.0
    ensures SetDefaults(env, entries).Some? ==> SetDefaults(env, entries).value[entries[i].value.0] == entries[i].value.1
    decreases i
  {
    match SetDefault(env, entries[0])
    case None =>
    case Some(next) =>
      assert SetDefaults(env, entries) == SetDefaults(next, entries[1..]);
      if i == 0 {
        assert next[entries[0].value.0] == entries[0].value.1;
      } else {
        assert entries[1..][i - 1] == entries[i];
        forall j | 0 <= j < i - 1 && entries[1..][j].Some?
          ensures entries[1..][j].value.0 != entries[i].value.0
        {
          assert entries[1..][j] == entries[j + 1];
        }
        FirstDefinitionWins(next, entries[1..], i - 1);
      }
  }

  // ---------------------------------------------------------------------------------------
  // Values

  /** `os.getenv(name, default)`. */
  function GetEnv(env: Env, name: string, default: string): string {
    if name in env then env[name] else default
  }

  /** `DEBUG`: `DJANGO_DEBUG`, lower-cased, is "true"; unset means true. */
  function Debug(env: Env): (r: bool)
    ensures "DJANGO_DEBUG" !in env ==> r
    ensures r ==> |GetEnv(env, "DJANGO_DEBUG", "true")| == 4
  {
    Lower(GetEnv(env, "DJANGO_DEBUG", "true")) == "true"
  }

  /** Any capitalisation of "true" turns DEBUG on, and nothing else does. */
  lemma DebugIgnoresCase(env: Env)
    requires "DJANGO_DEBUG" in env
    ensures Debug(env) <==> |env["DJANGO_DEBUG"]| == 4 && forall i :: 0 <= i < 4 ==> LowerChar(env["DJANGO_DEBUG"][i]) == "true"[i]
  {
    var v := env["DJANGO_DEBUG"];
    if |v| == 4 && forall i :: 0 <= i < 4 ==> LowerChar(v[i]) == "true"[i] {
      assert Lower(v) == "true";
    }
  }

  function NonEmpty(s: string): bool {
    s != ""
  }

  /** A comma-separated setting: the stripped items, empty ones dropped. */
  function CommaList(value: string): (r: seq<string>)
    ensures forall i :: 0 <= i < |r| ==> r[i] != "" && IsStripped(r[i]) && ',' !in r[i]
  {
    var parts := Split(value, ',');
    var stripped := Map(parts, Strip);
    forall i | 0 <= i < |stripped| ensures IsStripped(stripped[i]) && ',' !in stripped[i] {
      StripStripped(stripped[i]);
      forall k | 0 <= k < |stripped[i]| ensures stripped[i][k] != ',' {
        assert stripped[i][k] == parts[i][LeadingSpaces(parts[i]) + k];
      }
    }
    Filter(stripped, NonEmpty)
  }

  /** Splitting joined comma-free parts gives the parts back. */
  lemma {:induction false} SplitJoin(parts: seq<string>, sep: char)
    requires |parts| >= 1 && forall i :: 0 <= i < |parts| ==> sep !in parts[i]
    ensures Split(Join(parts, sep), sep) == parts
    decreases |parts|, |parts[0]|
  {
    var s := Join(parts, sep);
    if |parts| == 1 {
      SplitNoSep(parts[0], sep);
    } else if parts[0] == [] {
      assert s == [sep] + Join(parts[1..], sep);
      assert s[1..] == Join(parts[1..], sep);
      SplitJoin(parts[1..], sep);
      assert parts == [""] + parts[1..];
    } else {
      var shorter := [parts[0][1..]] + parts[1..];
      assert shorter[1..] == parts[1..];
      assert s == [parts[0][0]] + Join(shorter, sep);
      assert s[1..] == Join(shorter, sep);
      SplitJoin(shorter, sep);
      assert parts[0] == [parts[0][0]] + parts[0][1..];
    }
  }

  /** A text without the separator splits into itself. */
  lemma {:induction false} SplitNoSep(s: string, sep: char)
    requires sep !in s
    ensures Split(s, sep) == [s]
    decreases |s|
  {
    if s != [] {
      SplitNoSep(s[1..], sep);
      assert s == [s[0]] + s[1..];
    }
  }

  /** Listing non-empty, stripped, comma-free items with commas and reading the setting back
      gives the same items. */
  lemma CommaListRoundTrip(items: seq<string>)
    requires |items| >= 1
    requires forall i :: 0 <= i < |items| ==> items[i] != "" && IsStripped(items[i]) && ',' !in items[i]
    ensures CommaList(Join(items, ',')) == items
  {
    SplitJoin(items, ',');
    forall i | 0 <= i < |items| ensures Strip(items[i]) == items[i] {
      StripStripped(items[i]);
    }
    assert Map(items, Strip) == items;
    FilterAll(items, NonEmpty);
  }

  /** `COOKOPS_API_KEYS`: the keys accepted by the API key check. */
  function ApiKeys(env: Env): (r: seq<string>)
    ensures forall i :: 0 <= i < |r| ==> r[i] != "" && IsStripped(r[i])
  {
    CommaList(GetEnv(env, "COOKOPS_API_KEYS", "dev-api-key"))
  }

  /** Without `COOKOPS_API_KEYS` the single development key is accepted. */
  lemma ApiKeysDefault(env: Env)
    requires "COOKOPS_API_KEYS" !in env
    ensures ApiKeys(env) == ["dev-api-key"]
  {
    CommaListRoundTrip(["dev-api-key"]);
    assert Join(["dev-api-key"], ',') == "dev-api-key";
  }

  const LocalOrigin := "http://localhost:5173"
  const LoopbackOrigin := "http://127.0.0.1:5173"

  /** `CORS_ALLOWED_ORIGINS`: the origins the CORS middleware shares responses with. */
  function CorsAllowedOrigins(env: Env): (r: seq<string>)
    ensures forall i :: 0 <= i < |r| ==> r[i] != "" && IsStripped(r[i])
  {
    CommaList(GetEnv(env, "CORS_ALLOWED_ORIGINS", LocalOrigin + "," + LoopbackOrigin))
  }

  /** Without `CORS_ALLOWED_ORIGINS` the two local development origins are allowed. */
  lemma CorsAllowedOriginsDefault(env: Env)
    requires "CORS_ALLOWED_ORIGINS" !in env
    ensures CorsAllowedOrigins(env) == [LocalOrigin, LoopbackOrigin]
  {
    assert ',' !in LocalOrigin by {
      forall k | 0 <= k < |LocalOrigin| ensures LocalOrigin[k] != ',' { }
    }
    assert ',' !in LoopbackOrigin by {
      forall k | 0 <= k < |LoopbackOrigin| ensures LoopbackOrigin[k] != ',' { }
    }
    assert Join([LocalOrigin, LoopbackOrigin], ',') == LocalOrigin + "," + LoopbackOrigin;
    CommaListRoundTrip([LocalOrigin, LoopbackOrigin]);
  }
}
