/**
 * The phrase filter: a remote list of raw phrases is split into literal
 * phrases and compiled regular expressions, and a text is a bad word when it
 * equals a literal phrase or when some pattern finds a match in it.
 *
 * Python's regular-expression engine is not modelled: an `Engine` value
 * supplies whether a pattern source compiles and whether a compiled pattern
 * finds a match in a text (`re.compile`, `Pattern.search`).
 */
module Phrases {
  import opened Wrappers

  /** A compiled regular expression, identified by its source text. */
  datatype Pattern = Pattern(source: string)

  /** The regular-expression engine, left uninterpreted. */
  datatype Engine = Engine(compiles: string -> bool, search: (string, string) -> bool)

  /** The cached pair returned by `get_phrases`: literal phrases and patterns. */
  datatype PhraseLists = PhraseLists(literals: seq<string>, patterns: seq<Pattern>)

  // Whether the shape test of `is_regex` (the anchored pattern slash, any
  // characters, slash) finds a match in `t`: a `/`, characters other than a
  // newline, a closing `/`, at the very end or just before a final newline
  // (where Python's `$` also matches).
  predicate SlashShaped(t: string) {
    var body := if |t| > 0 && t[|t| - 1] == '\n' then t[..|t| - 1] else t;
    |body| >= 2 && body[0] == '/' && body[|body| - 1] == '/' && '\n' !in body
  }

  /** `is_regex`: the compiled interior of a slash-shaped phrase, when it compiles. */
  function IsRegex(t: string, engine: Engine): (r: Option<Pattern>)
    ensures r.Some? ==> SlashShaped(t) && engine.compiles(r.value.source)
    ensures r.Some? && '\n' !in t ==> t == "/" + r.value.source + "/"
    ensures SlashShaped(t) && r.None? ==> !engine.compiles(t[1..|t| - 1])
  {
    if SlashShaped(t) && engine.compiles(t[1..|t| - 1]) then Some(Pattern(t[1..|t| - 1])) else None
  }

  /** For a phrase without newlines the shape test is "starts and ends with `/`". */
  lemma SlashShapedWithoutNewline(t: string)
    requires '\n' !in t
    ensures SlashShaped(t) <==> |t| >= 2 && t[0] == '/' && t[|t| - 1] == '/'
  {
    if |t| > 0 {
      assert t[|t| - 1] in t;
    }
  }

  /**
   * A phrase written as a source between two slashes is recognised as that
   * source, compiled, exactly when the source compiles.
   */
  lemma WrappedPatternRoundTrip(source: string, engine: Engine)
    requires '\n' !in source
    ensures IsRegex("/" + source + "/", engine)
         == (if engine.compiles(source) then Some(Pattern(source)) else None)
  {
    var t := "/" + source + "/";
    assert t[1..|t| - 1] == source;
    assert '\n' !in t by {
      forall i | 0 <= i < |t| ensures t[i] != '\n' {
        if 0 < i < |t| - 1 {
          assert t[i] == source[i - 1];
          assert source[i - 1] in source;
        }
      }
    }
    SlashShapedWithoutNewline(t);
  }

  /** The phrases that stay literal, in input order. */
  function Literals(data: seq<string>, engine: Engine): seq<string> {
    if data == [] then []
    else (if IsRegex(data[0], engine).None? then [data[0]] else []) + Literals(data[1..], engine)
  }

  /** The raw phrases that become patterns, in input order. */
  function PatternEntries(data: seq<string>, engine: Engine): seq<string> {
    if data == [] then []
    else (if IsRegex(data[0], engine).Some? then [data[0]] else []) + PatternEntries(data[1..], engine)
  }

  /** The compiled patterns, in input order. */
  function Patterns(data: seq<string>, engine: Engine): seq<Pattern> {
    if data == [] then []
    else
      (match IsRegex(data[0], engine) case Some(p) => [p] case None => [])
      + Patterns(data[1..], engine)
  }

  function Classify(data: seq<string>, engine: Engine): PhraseLists {
    PhraseLists(Literals(data, engine), Patterns(data, engine))
  }

  /** Classification works phrase by phrase, so each list keeps the input order. */
  lemma {:induction false} LiteralsAppend(a: seq<string>, b: seq<string>, engine: Engine)
    ensures Literals(a + b, engine) == Literals(a, engine) + Literals(b, engine)
  {
    if a == [] {
      assert a + b == b;
    } else {
      assert (a + b)[0] == a[0];
      assert (a + b)[1..] == a[1..] + b;
      LiteralsAppend(a[1..], b, engine);
    }
  }

  lemma {:induction false} PatternsAppend(a: seq<string>, b: seq<string>, engine: Engine)
    ensures Patterns(a + b, engine) == Patterns(a, engine) + Patterns(b, engine)
  {
    if a == [] {
      assert a + b == b;
    } else {
      assert (a + b)[0] == a[0];
      assert (a + b)[1..] == a[1..] + b;
      PatternsAppend(a[1..], b, engine);
    }
  }

  /**
   * The classification loop of `get_phrases`: each phrase is appended to the
   * pattern list when `is_regex` compiles it, and to the literal list otherwise.
   */
  method ClassifyPhrases(data: seq<string>, engine: Engine) returns (lists: PhraseLists)
    ensures lists == Classify(data, engine)
  {
    var literals: seq<string> := [];
    var patterns: seq<Pattern> := [];
    for i := 0 to |data|
      invariant literals == Literals(data[..i], engine)
      invariant patterns == Patterns(data[..i], engine)
    {
      LiteralsAppend(data[..i], [data[i]], engine);
      PatternsAppend(data[..i], [data[i]], engine);
      assert data[..i + 1] == data[..i] + [data[i]];
      var regex := IsRegex(data[i], engine);
      if regex.Some? {
        patterns := patterns + [regex.value];
      } else {
        literals := literals + [data[i]];
      }
    }
    assert data[..|data|] == data;
    lists := PhraseLists(literals, patterns);
  }

  /**
   * Every phrase is kept exactly once: the literals and the entries that
   * became patterns together are the input.
   */
  lemma {:induction false} ClassificationPartition(data: seq<string>, engine: Engine)
    ensures multiset(Literals(data, engine)) + multiset(PatternEntries(data, engine)) == multiset(data)
  {
    if data != [] {
      var head, tail := data[0], data[1..];
      ClassificationPartition(tail, engine);
      assert data == [head] + tail;
      if IsRegex(head, engine).None? {
        assert Literals(data, engine) == [head] + Literals(tail, engine);
        assert PatternEntries(data, engine) == PatternEntries(tail, engine);
      } else {
        assert Literals(data, engine) == Literals(tail, engine);
        assert PatternEntries(data, engine) == [head] + PatternEntries(tail, engine);
      }
    }
  }

  /** The k-th pattern is the compiled k-th phrase that became a pattern. */
  lemma {:induction false} PatternsCompileEntries(data: seq<string>, engine: Engine)
    ensures |Patterns(data, engine)| == |PatternEntries(data, engine)|
    ensures forall k :: 0 <= k < |Patterns(data, engine)| ==>
              IsRegex(PatternEntries(data, engine)[k], engine) == Some(Patterns(data, engine)[k])
  {
    if data != [] {
      var head, tail := data[0], data[1..];
      PatternsCompileEntries(tail, engine);
      match IsRegex(head, engine)
      case None =>
        assert PatternEntries(data, engine) == PatternEntries(tail, engine);
        assert Patterns(data, engine) == Patterns(tail, engine);
      case Some(p) =>
        assert PatternEntries(data, engine) == [head] + PatternEntries(tail, engine);
        assert Patterns(data, engine) == [p] + Patterns(tail, engine);
    }
  }

  /** A phrase is literal iff it occurs in the input and `is_regex` rejects it. */
  lemma {:induction false} LiteralMembership(data: seq<string>, engine: Engine, x: string)
    ensures x in Literals(data, engine) <==> x in data && IsRegex(x, engine).None?
  {
    if data != [] {
      LiteralMembership(data[1..], engine, x);
      assert data == [data[0]] + data[1..];
    }
  }

  /** A pattern is in the list iff some input phrase compiles to it. */
  lemma {:induction false} PatternMembership(data: seq<string>, engine: Engine, p: Pattern)
    ensures p in Patterns(data, engine) <==> exists x :: x in data && IsRegex(x, engine) == Some(p)
  {
    if data != [] {
      PatternMembership(data[1..], engine, p);
      assert data == [data[0]] + data[1..];
      if p in Patterns(data, engine) && IsRegex(data[0], engine) != Some(p) {
        var x :| x in data[1..] && IsRegex(x, engine) == Some(p);
        assert x in data;
      }
    }
  }

  /** A slash-wrapped phrase whose interior does not compile is kept as a literal. */
  lemma InvalidPatternStaysLiteral(data: seq<string>, engine: Engine, x: string)
    requires x in data && SlashShaped(x) && !engine.compiles(x[1..|x| - 1])
    ensures x in Literals(data, engine)
  {
    LiteralMembership(data, engine, x);
  }

  /** `any(regex.search(text) for regex in patterns)`. */
  function AnySearch(patterns: seq<Pattern>, text: string, engine: Engine): (r: bool)
    ensures r <==> exists p :: p in patterns && engine.search(p.source, text)
  {
    if patterns == [] then false
    else engine.search(patterns[0].source, text) || AnySearch(patterns[1..], text, engine)
  }

  /**
   * `check_for_bad_word` once the phrase lists are at hand. A missing text
   * (`None`) equals no literal phrase, and `regex.search(None)` raises, so
   * the answer is `False` when there is no pattern and a `TypeError` otherwise.
   */
  function IsBadWord(text: Option<string>, lists: PhraseLists, engine: Engine): (r: Result<bool, Exception>)
    ensures text.Some? ==>
      r == Ok(text.value in lists.literals
              || exists p :: p in lists.patterns && engine.search(p.source, text.value))
    ensures text.None? ==> (r.Err? <==> lists.patterns != []) && (r.Ok? ==> r == Ok(false))
    ensures r.Err? ==> r.error == TypeError
  {
    match text
    case Some(t) => Ok(t in lists.literals || AnySearch(lists.patterns, t, engine))
    case None => if lists.patterns == [] then Ok(false) else Err(TypeError)
  }

  /** A compiled pattern that finds a match comes from some phrase that compiled. */
  lemma PhraseHitFromPattern(data: seq<string>, engine: Engine, t: string)
    ensures (exists p :: p in Patterns(data, engine) && engine.search(p.source, t)) ==>
              exists x :: x in data && IsRegex(x, engine).Some? && engine.search(IsRegex(x, engine).value.source, t)
  {
    if p :| p in Patterns(data, engine) && engine.search(p.source, t) {
      PatternMembership(data, engine, p);
      var x :| x in data && IsRegex(x, engine) == Some(p);
    }
  }

  /** A phrase that compiled to a pattern finding a match puts that pattern in the list. */
  lemma PatternHitFromPhrase(data: seq<string>, engine: Engine, t: string)
    ensures (exists x :: x in data && IsRegex(x, engine).Some? && engine.search(IsRegex(x, engine).value.source, t)) ==>
              exists p :: p in Patterns(data, engine) && engine.search(p.source, t)
  {
    if x :| x in data && IsRegex(x, engine).Some? && engine.search(IsRegex(x, engine).value.source, t) {
      var p := IsRegex(x, engine).value;
      PatternMembership(data, engine, p);
      assert p in Patterns(data, engine);
    }
  }

  /**
   * Against the raw phrase list: a text is a bad word iff it is one of the
   * phrases that stayed literal, or some phrase that compiled finds a match in it.
   * In particular every literal phrase tests true.
   */
  lemma BadWordOfPhrases(data: seq<string>, engine: Engine, t: string)
    ensures IsBadWord(Some(t), Classify(data, engine), engine)
         == Ok((t in data && IsRegex(t, engine).None?)
               || exists x :: x in data && IsRegex(x, engine).Some?
                              && engine.search(IsRegex(x, engine).value.source, t))
  {
    LiteralMembership(data, engine, t);
    PatternHitFromPhrase(data, engine, t);
    PhraseHitFromPattern(data, engine, t);
  }
}
