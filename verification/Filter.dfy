/**
 * Event routing: the Rust filter of the SQLite broadcast and the SQL predicate of
 * the Postgres broadcast, with a model of LIKE (section 9.7.1 of the PostgreSQL manual).
 */
module Filter {
  import opened Common

  predicate StartsWith(s: string, prefix: string) {
    |prefix| <= |s| && s[..|prefix|] == prefix
  }

  predicate EndsWith(s: string, suffix: string) {
    |suffix| <= |s| && s[|s| - |suffix|..] == suffix
  }

  // ---- The Rust side ----

  predicate RustPattern(eventType: string, pattern: string) {
    pattern == "*"
    || (if EndsWith(pattern, ".*")
        then var prefix := pattern[..|pattern| - 2];
             eventType == prefix || StartsWith(eventType, prefix + ".")
        else eventType == pattern)
  }

  predicate RustMatches(eventType: string, filter: Option<seq<string>>) {
    match filter
    case None => true
    case Some(patterns) => exists i :: 0 <= i < |patterns| && RustPattern(eventType, patterns[i])
  }

  /** The documented meaning of filters: without one everything, with an empty one nothing, otherwise what some pattern matches. */
  lemma FilterMeans(eventType: string, filter: Option<seq<string>>)
    ensures RustMatches(eventType, filter)
       <==> filter.None? || exists pattern :: pattern in filter.value && RustPattern(eventType, pattern)
  {
    if filter.Some? {
      if i :| 0 <= i < |filter.value| && RustPattern(eventType, filter.value[i]) {
        assert filter.value[i] in filter.value;
      }
    }
  }

  /** Does the pattern end in a dot and a star? */
  predicate EndsInDotStar(pattern: string) {
    |pattern| >= 2 && pattern[|pattern| - 2] == '.' && pattern[|pattern| - 1] == '*'
  }

  lemma DotStarSuffix(pattern: string)
    ensures EndsWith(pattern, ".*") <==> EndsInDotStar(pattern)
  {
    if |pattern| >= 2 {
      assert pattern[|pattern| - 2..] == [pattern[|pattern| - 2], pattern[|pattern| - 1]];
    }
  }

  /** The documented meaning of patterns that are a name: exactly it; of a star: everything. */
  lemma NameMeans(eventType: string, name: string)
    ensures RustPattern(eventType, "*")
    ensures name != "*" && !EndsInDotStar(name) ==> (RustPattern(eventType, name) <==> eventType == name)
  {
    DotStarSuffix(name);
  }

  /** The documented meaning of a prefix pattern: the name before the dot, and whatever begins with it and a dot. */
  lemma PrefixMeans(eventType: string, name: string)
    ensures RustPattern(eventType, name + ".*")
       <==> eventType == name || (|eventType| > |name| && eventType[..|name|] == name && eventType[|name|] == '.')
  {
    var pattern := name + ".*";
    DotStarSuffix(pattern);
    assert pattern[..|pattern| - 2] == name && pattern != "*";
    if |eventType| > |name| {
      assert eventType[..|name| + 1] == eventType[..|name|] + [eventType[|name|]];
      assert |name + "."| == |name| + 1 && (name + ".")[..|name|] == name && (name + ".")[|name|] == '.';
      if StartsWith(eventType, name + ".") {
        assert eventType[..|name|] == eventType[..|name| + 1][..|name|];
      }
    }
  }

  // ---- The SQL side ----

  /** `s LIKE pattern` with the default escape character. */
  predicate Like(s: string, pattern: string)
    decreases |s| + |pattern|
  {
    if pattern == "" then s == ""
    else if pattern[0] == '%' then Like(s, pattern[1..]) || (s != "" && Like(s[1..], pattern))
    else if pattern[0] == '_' then s != "" && Like(s[1..], pattern[1..])
    else if pattern[0] == '\\' then
      |pattern| > 1 && s != "" && s[0] == pattern[1] && Like(s[1..], pattern[2..])
    else s != "" && s[0] == pattern[0] && Like(s[1..], pattern[1..])
  }

  /** SQL's LEFT: a negative count drops that many characters from the end. */
  function Left(s: string, count: int): string {
    if count >= |s| then s
    else if count >= 0 then s[..count]
    else if -count <= |s| then s[..|s| + count]
    else ""
  }

  predicate SqlPrefixPattern(eventType: string, pattern: string) {
    && Like(pattern, "%.*")
    && (eventType == Left(pattern, |pattern| - 2) || Like(eventType, Left(pattern, |pattern| - 2) + ".%"))
  }

  predicate SqlMatches(eventType: string, filter: Option<seq<string>>) {
    match filter
    case None => true
    case Some(patterns) =>
      "*" in patterns || eventType in patterns
      || exists i :: 0 <= i < |patterns| && SqlPrefixPattern(eventType, patterns[i])
  }

  // ---- LIKE on patterns without metacharacters ----

  predicate Special(c: char) {
    c == '%' || c == '_' || c == '\\'
  }

  predicate Plain(s: string) {
    forall i :: 0 <= i < |s| ==> !Special(s[i])
  }

  lemma {:induction false} LikeLiteral(s: string, literal: string)
    requires Plain(literal)
    ensures Like(s, literal) <==> s == literal
  {
    if literal != "" && s != "" {
      LikeLiteral(s[1..], literal[1..]);
      assert s == [s[0]] + s[1..] && literal == [literal[0]] + literal[1..];
    }
  }

  lemma {:induction false} LikeSuffix(s: string, literal: string)
    requires Plain(literal)
    ensures Like(s, "%" + literal) <==> EndsWith(s, literal)
  {
    var pattern := "%" + literal;
    assert pattern[1..] == literal;
    LikeLiteral(s, literal);
    if s != "" {
      LikeSuffix(s[1..], literal);
      if |literal| <= |s| - 1 {
        assert s[1..][|s| - 1 - |literal|..] == s[|s| - |literal|..];
      } else if EndsWith(s, literal) {
        assert s[0..] == s;
      }
    } else if literal == "" {
      assert EndsWith(s, literal);
    }
  }

  lemma {:induction false} LikeAnything(s: string)
    ensures Like(s, "%")
  {
    assert "%" + "" == "%" && EndsWith(s, "");
    LikeSuffix(s, "");
  }

  lemma {:induction false} LikePrefix(s: string, prefix: string)
    requires Plain(prefix)
    ensures Like(s, prefix + "%") <==> StartsWith(s, prefix)
  {
    if prefix == "" {
      assert prefix + "%" == "%";
      LikeAnything(s);
    } else {
      assert (prefix + "%")[1..] == prefix[1..] + "%";
      if s != "" {
        LikePrefix(s[1..], prefix[1..]);
        if |prefix| <= |s| {
          assert s[..|prefix|] == [s[0]] + s[1..][..|prefix| - 1];
          assert prefix == [prefix[0]] + prefix[1..];
        }
      }
    }
  }

  /** A pattern without escapes matches its own text followed by anything. */
  lemma {:induction false} LikeItself(prefix: string, rest: string)
    requires '\\' !in prefix
    ensures Like(prefix + rest, prefix + "%")
  {
    if prefix == "" {
      assert prefix + "%" == "%" && prefix + rest == rest;
      LikeAnything(rest);
    } else {
      var s, pattern := prefix + rest, prefix + "%";
      assert s[1..] == prefix[1..] + rest && pattern[1..] == prefix[1..] + "%";
      LikeItself(prefix[1..], rest);
      if prefix[0] == '%' {
        LikePercentSkips(s[1..], pattern[1..]);
      }
    }
  }

  lemma {:induction false} LikePercentSkips(s: string, pattern: string)
    requires Like(s, pattern)
    ensures Like(s, "%" + pattern)
  {
    assert ("%" + pattern)[1..] == pattern;
  }

  // ---- One pattern: when the two sides agree ----

  /** What one pattern contributes to the SQL predicate. */
  predicate SqlPattern(eventType: string, pattern: string) {
    pattern == "*" || eventType == pattern || SqlPrefixPattern(eventType, pattern)
  }

  lemma WildcardTest(pattern: string)
    ensures Like(pattern, "%.*") <==> EndsWith(pattern, ".*")
    ensures EndsWith(pattern, ".*") ==> Left(pattern, |pattern| - 2) == pattern[..|pattern| - 2]
  {
    LikeSuffix(pattern, ".*");
    assert "%" + ".*" == "%.*";
  }

  lemma PlainPatternAgrees(eventType: string, pattern: string)
    requires EndsWith(pattern, ".*") ==> Plain(pattern[..|pattern| - 2])
    ensures RustPattern(eventType, pattern) <==> SqlPattern(eventType, pattern)
  {
    WildcardTest(pattern);
    if EndsWith(pattern, ".*") {
      var prefix := pattern[..|pattern| - 2];
      LikePrefix(eventType, prefix + ".");
      assert prefix + "." + "%" == prefix + ".%";
      assert pattern == prefix + ".*";
      assert (prefix + ".*")[..|prefix| + 1] == prefix + ".";
    }
  }

  /** No escape character is left without a character to escape. */
  predicate Closed(pattern: string) {
    if pattern == "" then true
    else if pattern[0] == '\\' then |pattern| > 1 && Closed(pattern[2..])
    else Closed(pattern[1..])
  }

  /** A text matched by the pattern: nothing for '%', an 'x' for '_', the escaped character itself. */
  function Instance(pattern: string): string
    requires Closed(pattern)
  {
    if pattern == "" then ""
    else if pattern[0] == '%' then Instance(pattern[1..])
    else if pattern[0] == '_' then "x" + Instance(pattern[1..])
    else if pattern[0] == '\\' then [pattern[1]] + Instance(pattern[2..])
    else [pattern[0]] + Instance(pattern[1..])
  }

  lemma {:induction false} DotCloses(prefix: string)
    ensures Closed(prefix + ".")
    decreases |prefix|
  {
    if prefix != "" {
      var pattern := prefix + ".";
      if prefix[0] == '\\' && |prefix| > 1 {
        assert pattern[2..] == prefix[2..] + ".";
        DotCloses(prefix[2..]);
      } else if prefix[0] == '\\' {
        assert pattern[2..] == "";
      } else {
        assert pattern[1..] == prefix[1..] + ".";
        DotCloses(prefix[1..]);
      }
    }
  }

  lemma {:induction false} InstanceMatches(pattern: string, rest: string)
    requires Closed(pattern)
    ensures Like(Instance(pattern) + rest, pattern + "%")
    decreases |pattern|
  {
    var s, whole := Instance(pattern) + rest, pattern + "%";
    if pattern == "" {
      assert whole == "%" && s == rest;
      LikeAnything(rest);
    } else if pattern[0] == '\\' {
      InstanceMatches(pattern[2..], rest);
      assert whole[2..] == pattern[2..] + "%" && s[1..] == Instance(pattern[2..]) + rest;
    } else {
      InstanceMatches(pattern[1..], rest);
      assert whole[1..] == pattern[1..] + "%";
      if pattern[0] != '%' {
        assert s[1..] == Instance(pattern[1..]) + rest;
      }
    }
  }

  lemma {:induction false} InstanceShape(pattern: string)
    requires Closed(pattern)
    ensures |Instance(pattern)| <= |pattern|
    ensures '%' in pattern || '\\' in pattern ==> |Instance(pattern)| < |pattern|
    ensures '_' in pattern ==> Instance(pattern) != pattern
    decreases |pattern|
  {
    if pattern != "" {
      if pattern[0] == '\\' {
        InstanceShape(pattern[2..]);
      } else {
        InstanceShape(pattern[1..]);
        assert pattern == [pattern[0]] + pattern[1..];
      }
    }
  }

  /** The SQL side accepts an event type the Rust side rejects. */
  lemma {:induction false} SpecialPatternDiffers(pattern: string) returns (eventType: string)
    requires EndsWith(pattern, ".*") && !Plain(pattern[..|pattern| - 2])
    ensures SqlPattern(eventType, pattern) && !RustPattern(eventType, pattern)
  {
    WildcardTest(pattern);
    var prefix := pattern[..|pattern| - 2];
    var dotted := prefix + ".";
    DotCloses(prefix);
    InstanceShape(dotted);
    var special :| 0 <= special < |prefix| && Special(prefix[special]);
    assert dotted[special] == prefix[special];
    var rest := if Instance(dotted) == prefix then "x" else "";
    InstanceMatches(dotted, rest);
    assert dotted + "%" == prefix + ".%";
    eventType := Instance(dotted) + rest;
    if rest == "x" {
      assert eventType[|prefix|] == 'x' && dotted[|prefix|] == '.';
    }
  }

  /**
   * One pattern routes every event type the same way on both backends exactly when
   * it is not a prefix pattern or its prefix has no LIKE metacharacter.
   */
  lemma PatternAgreesExactly(pattern: string)
    ensures (forall eventType :: RustPattern(eventType, pattern) <==> SqlPattern(eventType, pattern))
       <==> (EndsWith(pattern, ".*") ==> Plain(pattern[..|pattern| - 2]))
  {
    if EndsWith(pattern, ".*") && !Plain(pattern[..|pattern| - 2]) {
      var eventType := SpecialPatternDiffers(pattern);
    } else {
      forall eventType ensures RustPattern(eventType, pattern) <==> SqlPattern(eventType, pattern) {
        PlainPatternAgrees(eventType, pattern);
      }
    }
  }

  // ---- One pattern: when the SQL side loses nothing ----

  /** What matches a pattern that ends in '%' still does when something is appended. */
  lemma {:induction false} LikeExtends(s: string, pattern: string, rest: string)
    requires Closed(pattern) && Like(s, pattern + "%")
    ensures Like(s + rest, pattern + "%")
    decreases |s| + |pattern|
  {
    var whole, longer := pattern + "%", s + rest;
    if pattern == "" {
      assert whole == "%";
      LikeAnything(longer);
    } else if pattern[0] == '%' {
      assert whole[1..] == pattern[1..] + "%";
      if Like(s, whole[1..]) {
        LikeExtends(s, pattern[1..], rest);
      } else {
        LikeExtends(s[1..], pattern, rest);
        assert longer[1..] == s[1..] + rest;
      }
    } else if pattern[0] == '\\' {
      assert whole[2..] == pattern[2..] + "%" && longer[1..] == s[1..] + rest;
      LikeExtends(s[1..], pattern[2..], rest);
    } else {
      assert whole[1..] == pattern[1..] + "%" && longer[1..] == s[1..] + rest;
      LikeExtends(s[1..], pattern[1..], rest);
    }
  }

  /** If it is a prefix pattern, its prefix with the dot, read as a LIKE pattern, matches itself. */
  predicate MatchesItself(pattern: string) {
    EndsWith(pattern, ".*") ==> Like(pattern[..|pattern| - 1], pattern[..|pattern| - 1] + "%")
  }

  lemma DottedPrefix(pattern: string)
    requires EndsWith(pattern, ".*")
    ensures pattern[..|pattern| - 1] == pattern[..|pattern| - 2] + "."
    ensures pattern[..|pattern| - 1] + "%" == pattern[..|pattern| - 2] + ".%"
    ensures Closed(pattern[..|pattern| - 1])
  {
    assert pattern == pattern[..|pattern| - 2] + ".*";
    assert (pattern[..|pattern| - 2] + ".*")[..|pattern| - 1] == pattern[..|pattern| - 2] + ".";
    DotCloses(pattern[..|pattern| - 2]);
  }

  lemma SelfMatchingLosesNothing(eventType: string, pattern: string)
    requires MatchesItself(pattern) && RustPattern(eventType, pattern)
    ensures SqlPattern(eventType, pattern)
  {
    WildcardTest(pattern);
    if EndsWith(pattern, ".*") && eventType != pattern[..|pattern| - 2] {
      DottedPrefix(pattern);
      var dotted := pattern[..|pattern| - 1];
      LikeExtends(dotted, dotted, eventType[|dotted|..]);
      assert dotted + eventType[|dotted|..] == eventType;
    }
  }

  /** The event type that is just the prefix and its dot is the first one lost. */
  lemma OthersLoseTheDottedPrefix(pattern: string)
    requires !MatchesItself(pattern)
    ensures RustPattern(pattern[..|pattern| - 1], pattern) && !SqlPattern(pattern[..|pattern| - 1], pattern)
  {
    WildcardTest(pattern);
    DottedPrefix(pattern);
  }

  /**
   * On the SQL side a pattern loses no event the Rust side would route exactly when it
   * is not a prefix pattern or its prefix matches itself.
   */
  lemma PatternLosesNothingExactly(pattern: string)
    ensures (forall eventType :: RustPattern(eventType, pattern) ==> SqlPattern(eventType, pattern))
       <==> MatchesItself(pattern)
  {
    if MatchesItself(pattern) {
      forall eventType | RustPattern(eventType, pattern) ensures SqlPattern(eventType, pattern) {
        SelfMatchingLosesNothing(eventType, pattern);
      }
    } else {
      OthersLoseTheDottedPrefix(pattern);
    }
  }

  /** A pattern without an escape character matches itself, but so do some with one. */
  lemma EscapeFreeMatchesItself(pattern: string)
    requires '\\' !in pattern
    ensures MatchesItself(pattern)
  {
    if EndsWith(pattern, ".*") {
      var dotted := pattern[..|pattern| - 1];
      LikeItself(dotted, "");
      assert dotted + "" == dotted;
    }
  }

  lemma EscapeMayMatchItself()
    ensures '\\' in "%\\b.*" && MatchesItself("%\\b.*")
  {
    var pattern := "%\\b.*";
    assert pattern[..|pattern| - 1] == "%\\b.";
    var like := "%\\b." + "%";
    assert like == "%\\b.%" && like[1..] == "\\b.%" && like[1..][2..] == ".%" && like[1..][2..][1..] == "%";
    assert "%\\b."[1..] == "\\b." && "\\b."[1..] == "b." && "b."[1..] == "." && "."[1..] == "";
    assert Like("", "%");
    assert Like(".", ".%");
    assert Like("b.", "\\b.%");
    assert Like("b.", like);
    assert Like("\\b.", like);
  }

  // ---- Whole filters ----

  lemma SqlMatchesSomePattern(eventType: string, patterns: seq<string>)
    ensures SqlMatches(eventType, Some(patterns))
       <==> exists i :: 0 <= i < |patterns| && SqlPattern(eventType, patterns[i])
  {
    if i :| 0 <= i < |patterns| && SqlPattern(eventType, patterns[i]) {
      assert patterns[i] in patterns;
    }
    if "*" in patterns {
      var i :| 0 <= i < |patterns| && patterns[i] == "*";
      assert SqlPattern(eventType, patterns[i]);
    } else if eventType in patterns {
      var i :| 0 <= i < |patterns| && patterns[i] == eventType;
      assert SqlPattern(eventType, patterns[i]);
    } else if i :| 0 <= i < |patterns| && SqlPrefixPattern(eventType, patterns[i]) {
      assert SqlPattern(eventType, patterns[i]);
    }
  }

  /** No prefix pattern of the filter has a LIKE metacharacter in its prefix. */
  predicate Portable(filter: Option<seq<string>>) {
    filter.Some? ==>
      forall i :: 0 <= i < |filter.value| && EndsWith(filter.value[i], ".*") ==>
        Plain(filter.value[i][..|filter.value[i]| - 2])
  }

  /** Both backends send the same broadcasts to an endpoint whose filter is portable. */
  lemma FiltersAgree(eventType: string, filter: Option<seq<string>>)
    requires Portable(filter)
    ensures RustMatches(eventType, filter) <==> SqlMatches(eventType, filter)
  {
    if filter.Some? {
      var patterns := filter.value;
      SqlMatchesSomePattern(eventType, patterns);
      forall i | 0 <= i < |patterns|
        ensures RustPattern(eventType, patterns[i]) <==> SqlPattern(eventType, patterns[i])
      {
        PlainPatternAgrees(eventType, patterns[i]);
      }
    }
  }

  /** If all patterns match themselves the SQL side never loses an event the Rust side would route. */
  lemma RustImpliesSql(eventType: string, filter: Option<seq<string>>)
    requires filter.Some? ==> forall i :: 0 <= i < |filter.value| ==> MatchesItself(filter.value[i])
    requires RustMatches(eventType, filter)
    ensures SqlMatches(eventType, filter)
  {
    if filter.Some? {
      var patterns := filter.value;
      var i :| 0 <= i < |patterns| && RustPattern(eventType, patterns[i]);
      SelfMatchingLosesNothing(eventType, patterns[i]);
      SqlMatchesSomePattern(eventType, patterns);
    }
  }

  /** An escape character can make the SQL side lose an event. */
  lemma EscapeLosesEvent()
    ensures RustMatches("a\\b.c", Some(["a\\b.*"])) && !SqlMatches("a\\b.c", Some(["a\\b.*"]))
  {
    var pattern, eventType := "a\\b.*", "a\\b.c";
    assert EndsWith(pattern, ".*") && pattern[..|pattern| - 2] == "a\\b";
    assert StartsWith(eventType, "a\\b" + ".");
    assert RustPattern(eventType, [pattern][0]);
    WildcardTest(pattern);
    var like := "a\\b" + ".%";
    assert like[1..] == "\\b.%" && eventType[1..] == "\\b.c";
    assert !Like("\\b.c", "\\b.%");
    assert !Like(eventType, like);
  }
}
