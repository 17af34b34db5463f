/**
 * The mapping from the configuration strings `Database:ConnectionString:Mode`
 * and `Database:ConnectionString:Cache` to Microsoft.Data.Sqlite's open and
 * cache modes (GetSqliteOpenMode and GetSqliteCacheMode in DatabaseHelper.cs).
 */
module SqliteConfig {

  datatype SqliteOpenMode = ReadWriteCreate | ReadWrite | ReadOnly | Memory
  datatype SqliteCacheMode = Default | Private | Shared

  /** `char.ToLower` restricted to ASCII: A..Z map to a..z, every other character is kept. */
  function LowerChar(c: char): (d: char)
    ensures 'A' <= c <= 'Z' ==> d as int == c as int + 32
    ensures !('A' <= c <= 'Z') ==> d == c
    ensures !('A' <= d <= 'Z')
  {
    if 'A' <= c <= 'Z' then (c as int + 32) as char else c
  }

  /** `string.ToLower`, character by character. */
  function ToLower(s: string): (r: string)
    ensures |r| == |s|
    ensures forall i :: 0 <= i < |s| ==> r[i] == LowerChar(s[i])
  {
    if s == [] then [] else [LowerChar(s[0])] + ToLower(s[1..])
  }

  /** Two strings that differ at most in the case of ASCII letters. */
  predicate EqualIgnoringCase(s: string, t: string)
  {
    |s| == |t| && forall i :: 0 <= i < |s| ==> LowerChar(s[i]) == LowerChar(t[i])
  }

  /** The open mode named by `mode`, compared case-insensitively; an unrecognised name means ReadWriteCreate. */
  function GetSqliteOpenMode(mode: string): (m: SqliteOpenMode)
    ensures m == ReadOnly <==> ToLower(mode) == "readonly"
    ensures m == ReadWrite <==> ToLower(mode) == "readwrite"
    ensures m == Memory <==> ToLower(mode) == "memory"
    ensures m == ReadWriteCreate <==> ToLower(mode) !in {"readonly", "readwrite", "memory"}
  {
    var lower := ToLower(mode);
    if lower == "readonly" then ReadOnly
    else if lower == "readwrite" then ReadWrite
    else if lower == "readwritecreate" then ReadWriteCreate
    else if lower == "memory" then Memory
    else ReadWriteCreate
  }

  /** The cache mode named by `cache`, compared case-insensitively; an unrecognised name means Default. */
  function GetSqliteCacheMode(cache: string): (m: SqliteCacheMode)
    ensures m == Private <==> ToLower(cache) == "private"
    ensures m == Shared <==> ToLower(cache) == "shared"
    ensures m == Default <==> ToLower(cache) !in {"private", "shared"}
  {
    var lower := ToLower(cache);
    if lower == "default" then Default
    else if lower == "private" then Private
    else if lower == "shared" then Shared
    else Default
  }

  /** The name `ToString` gives each open mode. */
  function OpenModeName(m: SqliteOpenMode): string
  {
    match m
    case ReadWriteCreate => "ReadWriteCreate"
    case ReadWrite => "ReadWrite"
    case ReadOnly => "ReadOnly"
    case Memory => "Memory"
  }

  /** The name `ToString` gives each cache mode. */
  function CacheModeName(m: SqliteCacheMode): string
  {
    match m
    case Default => "Default"
    case Private => "Private"
    case Shared => "Shared"
  }

  /** Strings equal up to letter case have equal lower-case forms. */
  lemma ToLowerIgnoresCase(s: string, t: string)
    requires EqualIgnoringCase(s, t)
    ensures ToLower(s) == ToLower(t)
  {
    assert forall i :: 0 <= i < |s| ==> ToLower(s)[i] == ToLower(t)[i];
  }

  /** Both mappings are case-insensitive: "ReadOnly", "READONLY" and "readonly" select the same mode. */
  lemma ModesIgnoreCase(s: string, t: string)
    requires EqualIgnoringCase(s, t)
    ensures GetSqliteOpenMode(s) == GetSqliteOpenMode(t)
    ensures GetSqliteCacheMode(s) == GetSqliteCacheMode(t)
  {
    ToLowerIgnoresCase(s, t);
  }

  /** ToLower is the identity on a string in which each character already is its own lower case. */
  lemma LowerOfSpelledOut(s: string, t: string)
    requires |s| == |t| && forall i :: 0 <= i < |s| ==> LowerChar(s[i]) == t[i]
    ensures ToLower(s) == t
  {
  }

  /** Writing an open mode's own name in the configuration selects that mode. */
  lemma OpenModeNameRoundTrip(m: SqliteOpenMode)
    ensures GetSqliteOpenMode(OpenModeName(m)) == m
  {
    match m
    case ReadWriteCreate => LowerOfSpelledOut("ReadWriteCreate", "readwritecreate");
    case ReadWrite => LowerOfSpelledOut("ReadWrite", "readwrite");
    case ReadOnly => LowerOfSpelledOut("ReadOnly", "readonly");
    case Memory => LowerOfSpelledOut("Memory", "memory");
  }

  /** Writing a cache mode's own name in the configuration selects that mode. */
  lemma CacheModeNameRoundTrip(m: SqliteCacheMode)
    ensures GetSqliteCacheMode(CacheModeName(m)) == m
  {
    match m
    case Default => LowerOfSpelledOut("Default", "default");
    case Private => LowerOfSpelledOut("Private", "private");
    case Shared => LowerOfSpelledOut("Shared", "shared");
  }

  /** The empty string, like any unrecognised value, falls back to ReadWriteCreate and Default. */
  lemma EmptyConfigurationFallsBack()
    ensures GetSqliteOpenMode("") == ReadWriteCreate
    ensures GetSqliteCacheMode("") == Default
  {
  }
}
