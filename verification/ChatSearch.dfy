/** The literal title search of models/analytics_sessions.py, run through the `like` function. */
module ChatSearch {
  import opened Wrappers
  import opened LikeSemantics
  import opened LikeFunction

  /** `str.replace` of a one-character needle. */
  function Replace(s: string, needle: char, replacement: string): string {
    if s == "" then ""
    else (if s[0] == needle then replacement else [s[0]]) + Replace(s[1..], needle, replacement)
  }

  function EscapeTerm(query: string): string {
    Replace(Replace(Replace(query, '\\', "\\\\"), '%', "\\%"), '_', "\\_")
  }

  function LikeTerm(query: string): string {
    "%" + EscapeTerm(query) + "%"
  }

  function StripLeft(s: string, isSpace: char -> bool): string {
    if s != "" && isSpace(s[0]) then StripLeft(s[1..], isSpace) else s
  }

  function StripRight(s: string, isSpace: char -> bool): string {
    if s != "" && isSpace(s[|s| - 1]) then StripRight(s[..|s| - 1], isSpace) else s
  }

  /** The LIKE term of a search, or None when the stripped query is empty and no filter is added. */
  function SearchTerm(query: string, isSpace: char -> bool): Option<string> {
    if Stripped(query, isSpace) == "" then None else Some(LikeTerm(Stripped(query, isSpace)))
  }

  /** `query.strip()`. */
  function Stripped(query: string, isSpace: char -> bool): string {
    StripRight(StripLeft(query, isSpace), isSpace)
  }

  ghost predicate Contains(value: string, needle: string) {
    exists i: nat :: StartsAt(value, needle, i)
  }

  predicate StartsAt(value: string, needle: string, i: nat) {
    i + |needle| <= |value| && value[i..i + |needle|] == needle
  }

  predicate IsMeta(c: char) {
    c == '\\' || c == '%' || c == '_'
  }

  lemma {:induction false} ReplaceAppend(s: string, t: string, needle: char, replacement: string)
    ensures Replace(s + t, needle, replacement) == Replace(s, needle, replacement) + Replace(t, needle, replacement)
  {
    if s == "" {
      assert s + t == t;
    } else {
      var tail := s[1..];
      ReplaceAppend(tail, t, needle, replacement);
      assert (s + t)[1..] == tail + t && (s + t)[0] == s[0];
      var head := if s[0] == needle then replacement else [s[0]];
      Regroup(head, Replace(tail, needle, replacement), Replace(t, needle, replacement));
    }
  }

  lemma Regroup(a: string, b: string, c: string)
    ensures a + (b + c) == a + b + c
  {
  }

  /** The three passes do not disturb each other: each character is escaped on its own. */
  lemma EscapeTermCons(c: char, rest: string)
    ensures EscapeTerm([c] + rest) == (if IsMeta(c) then ['\\', c] else [c]) + EscapeTerm(rest)
  {
    var s := [c] + rest;
    assert s[1..] == rest;
    var head := if c == '\\' then "\\\\" else [c];
    var once := Replace(rest, '\\', "\\\\");
    ReplaceAppend(head, once, '%', "\\%");
    var twice := Replace(once, '%', "\\%");
    var head2 := Replace(head, '%', "\\%");
    ReplaceAppend(head2, twice, '_', "\\_");
    assert "\\\\"[1..] == "\\" && "\\"[1..] == "" && "\\%"[1..] == "%" && "%"[1..] == "" && "_"[1..] == "";
    assert head2 == if c == '%' then "\\%" else head;
    assert Replace(head2, '_', "\\_") == if IsMeta(c) then ['\\', c] else [c] by {
      if c != '\\' && c != '%' {
        assert [c][1..] == "";
      }
    }
  }

  /** An escaped needle followed by '%' matches exactly the values that start with the needle. */
  lemma {:induction false} EscapedPrefix(needle: string, value: string)
    ensures Like(EscapeTerm(needle) + "%", Some('\\'), value) <==> StartsAt(value, needle, 0)
  {
    if needle == "" {
      assert EscapeTerm(needle) + "%" == "%";
      PercentMatchesAll(value);
      assert value[0..0] == "";
    } else {
      var c, rest := needle[0], needle[1..];
      assert needle == [c] + rest;
      EscapeTermCons(c, rest);
      var pattern := EscapeTerm(needle) + "%";
      var tail := EscapeTerm(rest) + "%";
      if IsMeta(c) {
        assert pattern == ['\\', c] + tail;
        assert pattern[2..] == tail;
      } else {
        assert pattern == [c] + tail;
        assert pattern[1..] == tail;
      }
      if value != "" {
        EscapedPrefix(rest, value[1..]);
        if |needle| <= |value| {
          assert value[0..|needle|] == [value[0]] + value[1..][0..|rest|];
          assert StartsAt(value, needle, 0) <==> value[0] == c && StartsAt(value[1..], rest, 0);
        }
      }
    }
  }

  lemma {:induction false} PercentMatchesAll(value: string)
    ensures Like("%", Some('\\'), value)
    decreases |value|
  {
    assert "%"[1..] == "";
    if value != "" {
      PercentMatchesAll(value[1..]);
    }
  }

  ghost predicate LikesSomeSuffix(pattern: string, value: string) {
    exists i: nat :: i <= |value| && Like(pattern, Some('\\'), value[i..])
  }

  lemma {:induction false} LeadingPercent(pattern: string, value: string)
    ensures Like("%" + pattern, Some('\\'), value) <==> LikesSomeSuffix(pattern, value)
    decreases |value|
  {
    var whole := "%" + pattern;
    assert whole[1..] == pattern;
    assert value[0..] == value;
    if value != "" {
      var rest := value[1..];
      LeadingPercent(pattern, rest);
      if i: nat :| i <= |rest| && Like(pattern, Some('\\'), rest[i..]) {
        assert value[i + 1..] == rest[i..];
      }
      if i: nat :| i <= |value| && Like(pattern, Some('\\'), value[i..]) {
        assert i > 0 ==> value[i..] == rest[i - 1..];
      }
    }
  }

  /** The escaped and wrapped term means literal containment. */
  lemma LikeTermIsContainment(needle: string, value: string)
    ensures Like(LikeTerm(needle), Some('\\'), value) <==> Contains(value, needle)
  {
    var pattern := EscapeTerm(needle) + "%";
    assert LikeTerm(needle) == "%" + pattern;
    LeadingPercent(pattern, value);
    forall i: nat | i <= |value|
      ensures Like(pattern, Some('\\'), value[i..]) <==> StartsAt(value, needle, i)
    {
      EscapedPrefix(needle, value[i..]);
      if i + |needle| <= |value| {
        assert value[i..][0..|needle|] == value[i..i + |needle|];
      }
    }
  }

  /** Lower-casing acts inside the escapes: it keeps the three metacharacters and makes no new ones. */
  ghost predicate LowersAroundEscapes(lower: string -> string) {
    lower("\\") == "\\" &&
    forall query :: lower(LikeTerm(query)) == LikeTerm(lower(query))
  }

  /** What the registered function answers for a search term: literal, case-blind containment. */
  lemma SearchFindsLiteralText(lower: string -> string, needle: string, value: string)
    requires LowersAroundEscapes(lower)
    ensures Like(lower(LikeTerm(needle)), EscapeChar(Some(lower("\\"))), lower(value))
       <==> Contains(lower(value), lower(needle))
  {
    LikeTermIsContainment(lower(needle), lower(value));
  }

  predicate AllSpace(s: string, isSpace: char -> bool) {
    forall i :: 0 <= i < |s| ==> isSpace(s[i])
  }

  /** `needle` is `query` without its leading and trailing spaces. */
  predicate IsStripped(query: string, isSpace: char -> bool, needle: string) {
    exists i: nat, j: nat :: i <= j <= |query| && needle == query[i..j] && TrimmedAt(query, isSpace, i, j)
  }

  predicate TrimmedAt(query: string, isSpace: char -> bool, i: nat, j: nat)
    requires i <= j <= |query|
  {
    && AllSpace(query[..i], isSpace) && AllSpace(query[j..], isSpace)
    && (i < j ==> !isSpace(query[i]) && !isSpace(query[j - 1]))
  }

  lemma {:induction false} StripLeftIs(s: string, isSpace: char -> bool) returns (i: nat)
    ensures i <= |s| && StripLeft(s, isSpace) == s[i..] && AllSpace(s[..i], isSpace)
    ensures i < |s| ==> !isSpace(s[i])
  {
    i := 0;
    if s != "" && isSpace(s[0]) {
      var k := StripLeftIs(s[1..], isSpace);
      i := k + 1;
      assert s[1..][k..] == s[i..] && s[..i] == [s[0]] + s[1..][..k];
    }
  }

  lemma {:induction false} StripRightIs(s: string, isSpace: char -> bool) returns (j: nat)
    ensures j <= |s| && StripRight(s, isSpace) == s[..j] && AllSpace(s[j..], isSpace)
    ensures j > 0 ==> !isSpace(s[j - 1])
  {
    j := |s|;
    if s != "" && isSpace(s[|s| - 1]) {
      var init := s[..|s| - 1];
      j := StripRightIs(init, isSpace);
      assert init[..j] == s[..j] && s[j..] == init[j..] + [s[|s| - 1]];
    }
  }

  /** Stripping takes the spaces off both ends and nothing else; nothing is left exactly of all spaces. */
  lemma StripIs(query: string, isSpace: char -> bool)
    ensures IsStripped(query, isSpace, Stripped(query, isSpace))
    ensures Stripped(query, isSpace) == "" <==> AllSpace(query, isSpace)
  {
    var i := StripLeftIs(query, isSpace);
    var rest := query[i..];
    var k := StripRightIs(rest, isSpace);
    var j := i + k;
    assert rest[..k] == query[i..j] && rest[k..] == query[j..];
    assert k > 0 ==> rest[0] == query[i] && rest[k - 1] == query[j - 1];
    assert TrimmedAt(query, isSpace, i, j);
    if k == 0 {
      assert query == query[..i] + query[i..];
    }
  }

  /** The whole search: no filter exactly for a query of spaces; otherwise the registered function accepts
      exactly the values that contain the stripped query literally, both lower-cased. */
  lemma SearchIsLiteral(lower: string -> string, isSpace: char -> bool, query: string, value: string)
    requires LowersAroundEscapes(lower)
    ensures SearchTerm(query, isSpace).None? <==> AllSpace(query, isSpace)
    ensures IsStripped(query, isSpace, Stripped(query, isSpace))
    ensures var term := SearchTerm(query, isSpace);
            term.Some? ==>
              (Like(lower(term.value), EscapeChar(Some(lower("\\"))), lower(value)) <==>
               Contains(lower(value), lower(Stripped(query, isSpace))))
  {
    StripIs(query, isSpace);
    SearchFindsLiteralText(lower, Stripped(query, isSpace), value);
  }

  /** Any character-wise lower-casing that fixes the metacharacters and produces none qualifies. */
  lemma CharacterwiseLoweringQualifies(lowerChar: char -> string)
    requires forall c :: if IsMeta(c) then lowerChar(c) == [c] else forall x :: x in lowerChar(c) ==> !IsMeta(x)
    ensures LowersAroundEscapes((s: string) => LowerEach(lowerChar, s))
  {
    LowerEachAppend(lowerChar, "\\", "");
    assert "\\"[1..] == "";
    forall query ensures LowerEach(lowerChar, LikeTerm(query)) == LikeTerm(LowerEach(lowerChar, query)) {
      LowerEachAppend(lowerChar, "%" + EscapeTerm(query), "%");
      LowerEachAppend(lowerChar, "%", EscapeTerm(query));
      assert "%"[1..] == "" && LowerEach(lowerChar, "%") == "%";
      LowerCommutesWithEscape(lowerChar, query);
    }
  }

  function LowerEach(lowerChar: char -> string, s: string): string {
    if s == "" then "" else lowerChar(s[0]) + LowerEach(lowerChar, s[1..])
  }

  lemma {:induction false} LowerEachAppend(lowerChar: char -> string, s: string, t: string)
    ensures LowerEach(lowerChar, s + t) == LowerEach(lowerChar, s) + LowerEach(lowerChar, t)
  {
    if s == "" {
      assert s + t == t;
    } else {
      var head, tail := lowerChar(s[0]), s[1..];
      LowerEachAppend(lowerChar, tail, t);
      assert (s + t)[1..] == tail + t;
      Regroup(head, LowerEach(lowerChar, tail), LowerEach(lowerChar, t));
    }
  }

  lemma {:induction false} LowerCommutesWithEscape(lowerChar: char -> string, query: string)
    requires forall c :: if IsMeta(c) then lowerChar(c) == [c] else forall x :: x in lowerChar(c) ==> !IsMeta(x)
    ensures LowerEach(lowerChar, EscapeTerm(query)) == EscapeTerm(LowerEach(lowerChar, query))
  {
    if query != "" {
      var c, rest := query[0], query[1..];
      assert query == [c] + rest;
      LowerCommutesWithEscape(lowerChar, rest);
      EscapeTermCons(c, rest);
      if IsMeta(c) {
        LowerEachAppend(lowerChar, ['\\', c], EscapeTerm(rest));
        assert ['\\', c][1..] == [c] && [c][1..] == "";
        assert LowerEach(lowerChar, [c]) == [c];
        EscapeTermCons(c, LowerEach(lowerChar, rest));
      } else {
        LowerEachAppend(lowerChar, [c], EscapeTerm(rest));
        assert [c][1..] == "";
        EscapePlain(lowerChar(c), LowerEach(lowerChar, rest));
      }
    }
  }

  lemma {:induction false} EscapePlain(plain: string, rest: string)
    requires forall x :: x in plain ==> !IsMeta(x)
    ensures EscapeTerm(plain + rest) == plain + EscapeTerm(rest)
  {
    if plain == "" {
      assert plain + rest == rest;
    } else {
      EscapePlain(plain[1..], rest);
      EscapeTermCons(plain[0], plain[1..] + rest);
      assert plain + rest == [plain[0]] + (plain[1..] + rest);
      assert plain == [plain[0]] + plain[1..];
    }
  }
}
