/** The SQL function `like` that internal/db.py registers on every SQLite connection. */
module LikeFunction {
  import opened Wrappers
  import opened LikeSemantics
  import opened LikeRegex

  const CACHE_LIMIT := 512

  /** What the cache holds for a pattern: the Python value False, or a compiled expression. */
  datatype Compiled = NeverMatches | Program(regex: Regex) {
    predicate Matches(value: string) {
      Program? && FullMatch(regex, value)
    }
  }

  /** `char == escape` holds only for a one-character escape string. */
  function EscapeChar(escape: Option<string>): Option<char> {
    if escape.Some? && |escape.value| == 1 then Some(escape.value[0]) else None
  }

  function Compile(pattern: string, escape: Option<string>): Compiled {
    match Segments(pattern, EscapeChar(escape), false)
    case None => NeverMatches
    case Some(segments) => Program(ToRegex(segments))
  }

  /** For every pattern, escape and value the compiled form answers as the plain LIKE does. */
  lemma CompileIsExact(pattern: string, escape: Option<string>, value: string)
    ensures Compile(pattern, escape).Matches(value) <==> Like(pattern, EscapeChar(escape), value)
  {
    SegmentsMeanLike(pattern, EscapeChar(escape), value, 0);
    assert value[0..] == value;
    var segments := Segments(pattern, EscapeChar(escape), false);
    if segments.Some? {
      RegexIsExact(segments.value, value);
    }
  }

  /** Segments already read, continued by the segments of what is still to be read. */
  ghost function Continue(read: seq<Segment>, rest: seq<Segment>): seq<Segment>
    requires |read| > 0 && |rest| > 0
  {
    read[..|read| - 1] + [read[|read| - 1] + rest[0]] + rest[1..]
  }

  lemma ContinueNothing(meaning: seq<Segment>)
    requires |meaning| > 0
    ensures Continue([[]], meaning) == meaning
  {
    var empty: Segment := [];
    assert empty + meaning[0] == meaning[0];
  }

  lemma ContinueSplit(read: seq<Segment>, rest: seq<Segment>)
    requires |read| > 0 && |rest| > 0
    ensures Continue(read + [[]], rest) == Continue(read, [[]] + rest)
  {
    var empty: Segment := [];
    assert read[|read| - 1] + empty == read[|read| - 1] && empty + rest[0] == rest[0];
    assert (read + [[]])[..|read|] == read;
  }

  lemma ContinueAtom(read: seq<Segment>, atom: Atom, rest: seq<Segment>)
    requires |read| > 0 && |rest| > 0
    ensures Continue(read[|read| - 1 := read[|read| - 1] + [atom]], rest)
         == Continue(read, [[atom] + rest[0]] + rest[1..])
  {
    var last := |read| - 1;
    assert read[last] + [atom] + rest[0] == read[last] + ([atom] + rest[0]);
  }

  /** Reading `rest` after the segments `read` gives the segments `meaning`. */
  ghost predicate Means(read: seq<Segment>, rest: Option<seq<Segment>>, meaning: Option<seq<Segment>>)
    requires |read| > 0
    requires rest.Some? ==> |rest.value| > 0
  {
    rest.Some? == meaning.Some? && (rest.Some? ==> Continue(read, rest.value) == meaning.value)
  }

  lemma MeansSplit(read: seq<Segment>, pattern: string, escape: Option<char>, meaning: Option<seq<Segment>>)
    requires |read| > 0 && pattern != "" && pattern[0] == '%' && escape != Some('%')
    requires Means(read, Segments(pattern, escape, false), meaning)
    ensures Means(read + [[]], Segments(pattern[1..], escape, false), meaning)
  {
    var rest := Segments(pattern[1..], escape, false);
    if rest.Some? {
      ContinueSplit(read, rest.value);
    }
  }

  lemma MeansAtom(read: seq<Segment>, pattern: string, escape: Option<char>, escaped: bool,
                  meaning: Option<seq<Segment>>)
    requires |read| > 0 && pattern != "" && (escaped || (pattern[0] != '%' && escape != Some(pattern[0])))
    requires Means(read, Segments(pattern, escape, escaped), meaning)
    ensures Means(read[|read| - 1 := read[|read| - 1] + [AtomOf(pattern[0], escaped)]],
                  Segments(pattern[1..], escape, false), meaning)
  {
    var rest := Segments(pattern[1..], escape, false);
    if rest.Some? {
      ContinueAtom(read, AtomOf(pattern[0], escaped), rest.value);
    }
  }

  lemma MeansNothing(meaning: Option<seq<Segment>>)
    requires meaning.Some? ==> |meaning.value| > 0
    ensures Means([[]], meaning, meaning)
  {
    if meaning.Some? {
      ContinueNothing(meaning.value);
    }
  }

  lemma MeansDone(read: seq<Segment>, meaning: Option<seq<Segment>>)
    requires |read| > 0 && Means(read, Some([[]]), meaning)
    ensures meaning == Some(read)
  {
    var empty: Segment := [];
    assert read[|read| - 1] + empty == read[|read| - 1];
    assert Continue(read, [[]]) == read;
  }

  /** The parsing loop of the source: one pass with a flag for a pending escape. */
  method ParsePattern(pattern: string, escape: Option<string>) returns (segments: seq<Segment>, escaped: bool)
    ensures |segments| > 0
    ensures escaped <==> Segments(pattern, EscapeChar(escape), false).None?
    ensures !escaped ==> Segments(pattern, EscapeChar(escape), false) == Some(segments)
  {
    ghost var meaning := Segments(pattern, EscapeChar(escape), false);
    segments := [[]];
    escaped := false;
    MeansNothing(meaning);
    assert pattern[0..] == pattern;
    for i := 0 to |pattern|
      invariant |segments| > 0
      invariant Means(segments, Segments(pattern[i..], EscapeChar(escape), escaped), meaning)
    {
      var c := pattern[i];
      assert pattern[i..][1..] == pattern[i + 1..];
      if escape.Some? && !escaped && [c] == escape.value {
        escaped := true;
        continue;
      }
      if !escaped && c == '%' {
        MeansSplit(segments, pattern[i..], EscapeChar(escape), meaning);
        segments := segments + [[]];
      } else {
        MeansAtom(segments, pattern[i..], EscapeChar(escape), escaped, meaning);
        var last := |segments| - 1;
        segments := segments[last := segments[last] + [if !escaped && c == '_' then AnyChar else Exactly(c)]];
      }
      escaped := false;
    }
    if !escaped {
      MeansDone(segments, meaning);
    }
  }

  class SqliteLike {
    /** `str.lower`: any function from strings to strings. */
    const lower: string -> string
    var compiledPatterns: map<(string, Option<string>), Compiled>

    ghost predicate Valid()
      reads this
    {
      |compiledPatterns| <= CACHE_LIMIT &&
      forall key :: key in compiledPatterns ==> compiledPatterns[key] == Compile(key.0, key.1)
    }

    constructor (lower: string -> string)
      ensures Valid() && this.lower == lower && compiledPatterns == map[]
    {
      this.lower := lower;
      compiledPatterns := map[];
    }

    method Store(key: (string, Option<string>), compiled: Compiled)
      requires Valid() && compiled == Compile(key.0, key.1)
      modifies this
      ensures Valid() && key in compiledPatterns
    {
      if |compiledPatterns| >= CACHE_LIMIT {
        compiledPatterns := map[];
      }
      var grown := compiledPatterns[key := compiled];
      assert grown.Keys == compiledPatterns.Keys + {key};
      compiledPatterns := grown;
    }

    /** Whatever the cache holds, the answer is LIKE's on the lower-cased strings; NULL in, NULL out. */
    method Call(pattern: Option<string>, value: Option<string>, escape: Option<string>) returns (result: Option<bool>)
      requires Valid()
      modifies this
      ensures Valid()
      ensures result.None? <==> pattern.None? || value.None?
      ensures result.Some? ==>
                result.value == Like(lower(pattern.value), EscapeChar(Lowered(escape)), lower(value.value))
    {
      if pattern.None? || value.None? {
        return None;
      }
      var key := (lower(pattern.value), Lowered(escape));
      var compiled: Compiled;
      if key in compiledPatterns {
        compiled := compiledPatterns[key];
      } else {
        var segments, dangling := ParsePattern(key.0, key.1);
        compiled := if dangling then NeverMatches else Program(ToRegex(segments));
        Store(key, compiled);
      }
      CompileIsExact(key.0, key.1, lower(value.value));
      return Some(compiled.Matches(lower(value.value)));
    }

    function Lowered(escape: Option<string>): Option<string> {
      if escape.Some? then Some(lower(escape.value)) else None
    }
  }
}
