/**
 * The configuration lookups the settings classes rely on, as an abstract tree of values.
 * A scalar keeps its text and, where the configuration library would accept it, its
 * reading as a duration (in ticks of 100 ns), an integer or a boolean; parsing those
 * readings from the text is the library's business and is not modelled.
 *
 * Also the two .NET string helpers the settings apply to configured text.
 */
module Hocon {
  import opened Wrappers

  /** Ticks (100 ns) in one second, the unit of every duration here. */
  const TicksPerSecond: int := 10_000_000

  datatype Value =
    | Scalar(text: string, duration: Option<int>, number: Option<int>, flag: Option<bool>)
    | StringList(items: seq<string>)
    | Object(fields: map<string, Value>)

  /** A configuration object: its fields by key. */
  type Config = map<string, Value>

  datatype ConfigError =
    /** The configuration (or the required section) is missing or empty. */
    | NullOrEmptyConfig
    /** The value at `key` cannot be read as the type asked for. */
    | BadValue(key: string)
    /** A string was dereferenced where the configuration held none. */
    | MissingString(key: string)

  predicate IsEmpty(c: Config) {
    c == map[]
  }

  /** The object at a dotted path (given as its elements), or the empty config. */
  function GetConfig(c: Config, path: seq<string>): (sub: Config)
    ensures path == [] ==> sub == c
    ensures |path| == 1 && path[0] in c && c[path[0]].Object? ==> sub == c[path[0]].fields
    decreases |path|
  {
    if path == [] then c
    else if path[0] in c && c[path[0]].Object? then GetConfig(c[path[0]].fields, path[1..])
    else map[]
  }

  /** The text at `key`, or `default` when there is none. */
  function GetString(c: Config, key: string, default: Option<string>): Option<string> {
    if key in c && c[key].Scalar? then Some(c[key].text) else default
  }

  /** A duration in ticks: zero when absent, an error when not a duration. */
  function GetTimeSpan(c: Config, key: string): Result<int, ConfigError> {
    if key !in c then Success(0)
    else if c[key].Scalar? && c[key].duration.Some? then Success(c[key].duration.value)
    else Failure(BadValue(key))
  }

  /** An integer: zero when absent, an error when not an integer. */
  function GetInt(c: Config, key: string): Result<int, ConfigError> {
    if key !in c then Success(0)
    else if c[key].Scalar? && c[key].number.Some? then Success(c[key].number.value)
    else Failure(BadValue(key))
  }

  /** A boolean: false when absent, an error when not a boolean. */
  function GetBoolean(c: Config, key: string): Result<bool, ConfigError> {
    if key !in c then Success(false)
    else if c[key].Scalar? && c[key].flag.Some? then Success(c[key].flag.value)
    else Failure(BadValue(key))
  }

  /** A list of strings: `default` when absent, an error when not a list. */
  function GetStringList(c: Config, key: string, default: seq<string>): Result<seq<string>, ConfigError> {
    if key !in c then Success(default)
    else if c[key].StringList? then Success(c[key].items)
    else Failure(BadValue(key))
  }

  // ----------------------------------------------------------------------------------
  // String helpers

  function ToLowerChar(ch: char): char {
    if 'A' <= ch <= 'Z' then (ch as int + 32) as char else ch
  }

  /** Culture-invariant lower-casing (only the ASCII letters are mapped here). */
  function ToLowerInvariant(s: string): (r: string)
    ensures |r| == |s|
    ensures forall i :: 0 <= i < |s| ==> r[i] == ToLowerChar(s[i])
    decreases |s|
  {
    if s == [] then [] else ToLowerInvariant(s[..|s| - 1]) + [ToLowerChar(s[|s| - 1])]
  }

  /** A text without upper-case ASCII letters is its own lower-casing. */
  lemma LowerCaseUnchanged(s: string)
    requires forall i :: 0 <= i < |s| ==> !('A' <= s[i] <= 'Z')
    ensures ToLowerInvariant(s) == s
  {
    assert forall i :: 0 <= i < |s| ==> ToLowerInvariant(s)[i] == s[i];
  }

  /** Lower-casing is idempotent, and leaves no upper-case ASCII letter behind. */
  lemma ToLowerInvariantIdempotent(s: string)
    ensures ToLowerInvariant(ToLowerInvariant(s)) == ToLowerInvariant(s)
    ensures forall i :: 0 <= i < |s| ==> !('A' <= ToLowerInvariant(s)[i] <= 'Z')
  {
  }

  /**
   * The characters `char.IsWhiteSpace` accepts: tab through carriage return, U+0085, and
   * the space, line and paragraph separators of Unicode.
   */
  const WhiteSpace: set<char> := {
    '\U{9}', '\U{A}', '\U{B}', '\U{C}', '\U{D}', ' ', '\U{85}', '\U{A0}', '\U{1680}',
    '\U{2000}', '\U{2001}', '\U{2002}', '\U{2003}', '\U{2004}', '\U{2005}', '\U{2006}',
    '\U{2007}', '\U{2008}', '\U{2009}', '\U{200A}', '\U{2028}', '\U{2029}', '\U{202F}',
    '\U{205F}', '\U{3000}'
  }

  predicate IsWhiteSpace(ch: char) {
    ch in WhiteSpace
  }

  function TrimStart(s: string): (r: string)
    ensures |r| <= |s| && r == s[|s| - |r|..]
    ensures forall i :: 0 <= i < |s| - |r| ==> IsWhiteSpace(s[i])
    ensures r != [] ==> !IsWhiteSpace(r[0])
    decreases |s|
  {
    if s != [] && IsWhiteSpace(s[0]) then TrimStart(s[1..]) else s
  }

  function TrimEnd(s: string): (r: string)
    ensures |r| <= |s| && r == s[..|r|]
    ensures forall i :: |r| <= i < |s| ==> IsWhiteSpace(s[i])
    ensures r != [] ==> !IsWhiteSpace(r[|r| - 1])
    decreases |s|
  {
    if s != [] && IsWhiteSpace(s[|s| - 1]) then TrimEnd(s[..|s| - 1]) else s
  }

  /** Removes leading and trailing white space, as `string.Trim()` does. */
  function Trim(s: string): (r: string)
  {
    TrimEnd(TrimStart(s))
  }

  /** A trimmed text neither starts nor ends with white space. */
  lemma TrimEndsNotBlank(s: string)
    ensures Trim(s) != [] ==> !IsWhiteSpace(Trim(s)[0]) && !IsWhiteSpace(Trim(s)[|Trim(s)| - 1])
  {
    var t := TrimStart(s);
    if Trim(s) != [] {
      assert Trim(s)[0] == t[0];
    }
  }

  /** Where the trimmed text starts in `s`: after the leading white space. */
  function TrimFrom(s: string): (i: nat)
    ensures i <= |s| && forall k :: 0 <= k < i ==> IsWhiteSpace(s[k])
  {
    |s| - |TrimStart(s)|
  }

  /** The trimmed text is the slice of `s` from `TrimFrom(s)` on, of its own length. */
  lemma TrimSlice(s: string)
    ensures TrimFrom(s) + |Trim(s)| <= |s|
    ensures Trim(s) == s[TrimFrom(s)..TrimFrom(s) + |Trim(s)|]
  {
    var t := TrimStart(s);
    assert t == s[TrimFrom(s)..];
    assert Trim(s) == t[..|Trim(s)|];
  }

  /** White space at the end of a suffix of `s` is white space at the end of `s`. */
  lemma BlankTailOfSuffix(s: string, i: nat, m: nat)
    requires i <= |s| && m <= |s| - i
    requires forall k :: m <= k < |s[i..]| ==> IsWhiteSpace(s[i..][k])
    ensures forall k :: i + m <= k < |s| ==> IsWhiteSpace(s[k])
  {
    forall k | i + m <= k < |s|
      ensures IsWhiteSpace(s[k])
    {
      assert s[k] == s[i..][k - i];
    }
  }

  /** Everything after the trimmed text is white space. */
  lemma TrimDropsTrailingBlank(s: string)
    requires TrimFrom(s) + |Trim(s)| <= |s|
    ensures forall k :: TrimFrom(s) + |Trim(s)| <= k < |s| ==> IsWhiteSpace(s[k])
  {
    BlankTailOfSuffix(s, TrimFrom(s), |Trim(s)|);
  }

  /**
   * Trimming keeps a contiguous slice of the text and drops only white space around it,
   * leaving a result that neither starts nor ends with white space.
   */
  lemma TrimIsSlice(s: string)
    ensures exists i, j ::
      && 0 <= i <= j <= |s| && Trim(s) == s[i..j]
      && (forall k :: 0 <= k < i ==> IsWhiteSpace(s[k]))
      && (forall k :: j <= k < |s| ==> IsWhiteSpace(s[k]))
    ensures Trim(s) != [] ==> !IsWhiteSpace(Trim(s)[0]) && !IsWhiteSpace(Trim(s)[|Trim(s)| - 1])
  {
    TrimSlice(s);
    TrimDropsTrailingBlank(s);
    TrimEndsNotBlank(s);
    var i := TrimFrom(s);
    var j := i + |Trim(s)|;
    assert 0 <= i <= j <= |s| && Trim(s) == s[i..j];
  }

  /** Exactly a text of white space only (the empty text included) trims to nothing. */
  lemma TrimEmptyIffBlank(s: string)
    ensures (forall k :: 0 <= k < |s| ==> IsWhiteSpace(s[k])) <==> Trim(s) == []
  {
    var t := TrimStart(s);
    var r := TrimEnd(t);
    if r != [] {
      assert r[0] == t[0] == s[|s| - |t|];
    }
  }
}
