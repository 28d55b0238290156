/**
 The first word of a SQL text, past any comments before it. Text is characters; the scan of a
 block comment by bytes is the same, since its marks are single bytes that no other character has.
 */
module Guard {
  import opened Wrappers

  /** White space, as trimming takes it away. */
  predicate Space(c: char) {
    || '\t' <= c <= '\r'
    || c in {' ', '\U{85}', '\U{a0}', '\U{1680}', '\U{2028}', '\U{2029}', '\U{202f}', '\U{205f}', '\U{3000}'}
    || '\U{2000}' <= c <= '\U{200a}'
  }

  predicate Letter(c: char) {
    'a' <= c <= 'z' || 'A' <= c <= 'Z'
  }

  function Upper(c: char): char {
    if 'a' <= c <= 'z' then c - 'a' + 'A' else c
  }

  function Trim(s: string): (r: string)
    ensures |r| <= |s|
  {
    if s != "" && Space(s[0]) then Trim(s[1..]) else s
  }

  function Word(s: string): string {
    if s == "" || !Letter(s[0]) then "" else [Upper(s[0])] + Word(s[1..])
  }

  /** The characters Unicode gives the property White_Space. */
  ghost const WHITE_SPACE: set<char> := {
    '\U{9}', '\U{a}', '\U{b}', '\U{c}', '\U{d}', '\U{20}', '\U{85}', '\U{a0}', '\U{1680}', '\U{2000}', '\U{2001}',
    '\U{2002}', '\U{2003}', '\U{2004}', '\U{2005}', '\U{2006}', '\U{2007}', '\U{2008}', '\U{2009}', '\U{200a}',
    '\U{2028}', '\U{2029}', '\U{202f}', '\U{205f}', '\U{3000}'}

  ghost predicate Blank(s: string) {
    forall i :: 0 <= i < |s| ==> s[i] in WHITE_SPACE
  }

  ghost predicate Filled(s: string) {
    s == "" || s[0] !in WHITE_SPACE
  }

  predicate Starts(s: string, mark: string) {
    mark <= s
  }

  /** What follows the line. */
  function AfterLine(s: string): (r: string)
    ensures |r| <= |s|
  {
    if s == "" then "" else if s[0] == '\n' then s[1..] else AfterLine(s[1..])
  }

  /** What follows the comments open, `depth` of them, each inside another; nothing when they do not
      all close. */
  function AfterComment(s: string, depth: nat): (r: string)
    ensures |r| <= |s|
    decreases |s|
  {
    if depth == 0 || s == "" then s
    else if Starts(s, "/*") then AfterComment(s[2..], depth + 1)
    else if Starts(s, "*/") then AfterComment(s[2..], depth - 1)
    else AfterComment(s[1..], depth)
  }

  /** The first word past white space, line comments and nested block comments, in any run of them. */
  function FirstKeyword(s: string): string
    decreases |s|
  {
    var t := Trim(s);
    if Starts(t, "--") then FirstKeyword(AfterLine(t[2..]))
    else if Starts(t, "/*") then FirstKeyword(AfterComment(t[2..], 1))
    else Word(t)
  }

  // ── the scanner ─────────────────────────────────────────────────────────────

  method TrimStart(s: string) returns (r: string)
    ensures r == Trim(s)
  {
    r := s;
    while r != "" && Space(r[0])
      invariant Trim(r) == Trim(s)
      decreases |r|
    {
      r := r[1..];
    }
  }

  method SkipLine(s: string) returns (r: string)
    ensures r == AfterLine(s)
  {
    var i := 0;
    while i < |s| && s[i] != '\n'
      invariant i <= |s| && AfterLine(s[i..]) == AfterLine(s)
    {
      assert s[i..][1..] == s[i + 1..];
      i := i + 1;
    }
    if i < |s| {
      r := s[i + 1..];
      assert s[i..][1..] == r;
    } else {
      r := "";
    }
  }

  method SkipComment(s: string) returns (r: string)
    ensures r == AfterComment(s, 1)
  {
    var depth, i := 1, 0;
    while i < |s| && depth > 0
      invariant 0 <= depth && 0 <= i <= |s| && AfterComment(s[i..], depth) == AfterComment(s, 1)
      decreases |s| - i
    {
      if Starts(s[i..], "/*") {
        assert s[i..][2..] == s[i + 2..];
        depth, i := depth + 1, i + 2;
      } else if Starts(s[i..], "*/") {
        assert s[i..][2..] == s[i + 2..];
        depth, i := depth - 1, i + 2;
      } else {
        assert s[i..][1..] == s[i + 1..];
        i := i + 1;
      }
    }
    r := s[i..];
  }

  method ScanFirstKeyword(sql: string) returns (word: string)
    ensures word == FirstKeyword(sql)
  {
    var rest := TrimStart(sql);
    TrimTwice(sql);
    while true
      invariant FirstKeyword(rest) == FirstKeyword(sql) && Trim(rest) == rest
      decreases |rest|
    {
      if Starts(rest, "--") {
        var line := SkipLine(rest[2..]);
        TrimTwice(line);
        rest := TrimStart(line);
      } else if Starts(rest, "/*") {
        var after := SkipComment(rest[2..]);
        TrimTwice(after);
        rest := TrimStart(after);
      } else {
        break;
      }
    }
    word := "";
    var i := 0;
    while i < |rest| && Letter(rest[i])
      invariant i <= |rest| && word + Word(rest[i..]) == Word(rest)
    {
      assert rest[i..][1..] == rest[i + 1..];
      word := word + [Upper(rest[i])];
      i := i + 1;
    }
    assert Word(rest[i..]) == "";
  }

  lemma {:induction false} TrimTwice(s: string)
    ensures Trim(Trim(s)) == Trim(s) && FirstKeyword(Trim(s)) == FirstKeyword(s)
  {
    if s != "" && Space(s[0]) {
      TrimTwice(s[1..]);
    }
  }

  // ── the word ────────────────────────────────────────────────────────────────

  /** `upper` is `word`, all of it letters, with each small one made capital. */
  ghost predicate Capitals(word: string, upper: string) {
    |upper| == |word|
    && forall i :: 0 <= i < |word| ==>
         if 'a' <= word[i] <= 'z' then upper[i] as int == word[i] as int - 32
         else 'A' <= word[i] <= 'Z' && upper[i] == word[i]
  }

  lemma {:induction false} WordIs(word: string, rest: string)
    requires forall i :: 0 <= i < |word| ==> Letter(word[i])
    requires rest == "" || !Letter(rest[0])
    ensures Capitals(word, Word(word + rest))
  {
    if word == "" {
      assert word + rest == rest;
    } else {
      assert (word + rest)[1..] == word[1..] + rest && (word + rest)[0] == word[0];
      WordIs(word[1..], rest);
      var upper := Word(word + rest);
      forall i | 1 <= i < |word|
        ensures if 'a' <= word[i] <= 'z' then upper[i] as int == word[i] as int - 32
                else 'A' <= word[i] <= 'Z' && upper[i] == word[i]
      {
        assert word[1..][i - 1] == word[i] && upper[i] == Word(word[1..] + rest)[i - 1];
      }
    }
  }

  lemma SpaceIs(c: char)
    ensures Space(c) <==> c in WHITE_SPACE
  {
  }

  lemma {:induction false} BlankTrimmed(blank: string, sql: string)
    requires Blank(blank)
    ensures Trim(blank + sql) == Trim(sql)
  {
    if blank == "" {
      assert blank + sql == sql;
    } else {
      assert (blank + sql)[1..] == blank[1..] + sql && (blank + sql)[0] == blank[0];
      SpaceIs(blank[0]);
      BlankTrimmed(blank[1..], sql);
    }
  }

  /** White space in front of a text changes nothing. */
  lemma BlankIgnored(blank: string, sql: string)
    requires Blank(blank)
    ensures FirstKeyword(blank + sql) == FirstKeyword(sql)
  {
    BlankTrimmed(blank, sql);
    TrimTwice(blank + sql);
    TrimTwice(sql);
  }

  lemma LetterFirst(t: string)
    requires t != "" && Letter(t[0])
    ensures Filled(t) && !("--" <= t) && !("/*" <= t)
  {
    SpaceIs(t[0]);
  }

  lemma NoComment(s: string)
    requires Filled(s) && !("--" <= s) && !("/*" <= s)
    ensures FirstKeyword(s) == Word(s)
  {
    if s != "" {
      SpaceIs(s[0]);
    }
  }

  /** Letters, and something else or nothing after them. */
  ghost predicate Letters(word: string, rest: string) {
    && (forall i :: 0 <= i < |word| ==> 'a' <= word[i] <= 'z' || 'A' <= word[i] <= 'Z')
    && (rest == "" || !('a' <= rest[0] <= 'z' || 'A' <= rest[0] <= 'Z'))
  }

  lemma WordStarts(word: string, rest: string)
    requires Letters(word, rest)
    requires word == "" ==> Filled(rest) && !("--" <= rest) && !("/*" <= rest)
    ensures Filled(word + rest) && !("--" <= word + rest) && !("/*" <= word + rest)
  {
    var t := word + rest;
    if word != "" {
      assert t[0] == word[0];
      LetterFirst(t);
    } else {
      assert t == rest;
    }
  }

  /** A text's first word, where neither white space nor a comment comes before it: its letters, capital.
      There is none where it begins with something else. */
  lemma KeywordIs(s: string, word: string, rest: string)
    requires s == word + rest && Letters(word, rest)
    requires word == "" ==> Filled(rest) && !("--" <= rest) && !("/*" <= rest)
    ensures Capitals(word, FirstKeyword(s))
  {
    WordStarts(word, rest);
    NoComment(s);
    WordIs(word, rest);
  }

  // ── comments change nothing ─────────────────────────────────────────────────

  /** A body whose marks close `depth` comments just at its end, read from the left as the scan
      reads it. */
  predicate Closes(body: string, depth: nat)
    decreases |body|
  {
    if depth == 0 then body == ""
    else if body == "" then false
    else if Starts(body, "/*") then Closes(body[2..], depth + 1)
    else if Starts(body, "*/") then Closes(body[2..], depth - 1)
    else Closes(body[1..], depth)
  }

  /** The text after closed comments is what follows them. */
  lemma {:induction false} ClosedComment(body: string, depth: nat, rest: string)
    requires Closes(body, depth)
    ensures AfterComment(body + rest, depth) == rest
    decreases |body|
  {
    if depth == 0 {
      assert body + rest == rest;
    } else if Starts(body, "/*") {
      assert (body + rest)[2..] == body[2..] + rest;
      ClosedComment(body[2..], depth + 1, rest);
    } else if Starts(body, "*/") {
      assert (body + rest)[2..] == body[2..] + rest;
      ClosedComment(body[2..], depth - 1, rest);
    } else {
      assert |body| > 1 by {
        LastIsMark(body, depth);
      }
      assert (body + rest)[..2] == body[..2];
      assert (body + rest)[1..] == body[1..] + rest;
      ClosedComment(body[1..], depth, rest);
    }
  }

  lemma {:induction false} LastIsMark(body: string, depth: nat)
    requires Closes(body, depth) && depth > 0
    ensures |body| >= 2
    decreases |body|
  {
    if !Starts(body, "/*") && !Starts(body, "*/") {
      LastIsMark(body[1..], depth);
    }
  }

  /** A closed block comment in front of a text, whatever comments are nested in it, leaves the first
      word as it was. */
  lemma BlockCommentIgnored(body: string, sql: string)
    requires Closes(body, 1)
    ensures FirstKeyword("/*" + body + sql) == FirstKeyword(sql)
  {
    var s := "/*" + body + sql;
    assert s[0] == '/' && Trim(s) == s;
    assert s[..2] == "/*" && s[2..] == body + sql;
    ClosedComment(body, 1, sql);
  }

  /** So does a line comment. */
  lemma LineCommentIgnored(body: string, sql: string)
    requires '\n' !in body
    ensures FirstKeyword("--" + body + "\n" + sql) == FirstKeyword(sql)
  {
    var s := "--" + body + "\n" + sql;
    assert s[0] == '-' && Trim(s) == s;
    assert s[..2] == "--" && s[2..] == body + "\n" + sql;
    LineEnds(body, sql);
  }

  /** And nothing is read after a line comment whose line is the last. */
  lemma LastLineIgnored(body: string)
    requires '\n' !in body
    ensures FirstKeyword("--" + body) == ""
  {
    var s := "--" + body;
    assert s[0] == '-' && Trim(s) == s;
    assert s[..2] == "--" && s[2..] == body;
    LineNeverEnds(body);
    assert Word("") == "";
    assert FirstKeyword("") == "";
  }

  lemma {:induction false} LineNeverEnds(body: string)
    requires '\n' !in body
    ensures AfterLine(body) == ""
  {
    if body != "" {
      LineNeverEnds(body[1..]);
    }
  }

  lemma {:induction false} LineEnds(body: string, rest: string)
    requires '\n' !in body
    ensures AfterLine(body + "\n" + rest) == rest
  {
    var s := body + "\n" + rest;
    if body == "" {
      assert s[0] == '\n' && s[1..] == rest;
    } else {
      assert s[0] == body[0] && s[1..] == body[1..] + "\n" + rest;
      LineEnds(body[1..], rest);
    }
  }

  /** A comment never closed leaves no word: nothing after it is read as one. */
  lemma {:induction false} OpenComment(body: string, depth: nat)
    requires depth > 0 && forall i :: 0 <= i <= |body| ==> !Closes(body[..i], depth)
    ensures AfterComment(body, depth) == ""
    decreases |body|
  {
    if body != "" {
      if Starts(body, "/*") {
        forall i | 0 <= i <= |body| - 2
          ensures !Closes(body[2..][..i], depth + 1)
        {
          assert body[..i + 2][2..] == body[2..][..i] && body[..i + 2][..2] == "/*";
        }
        OpenComment(body[2..], depth + 1);
      } else if Starts(body, "*/") {
        assert body[..2] == "*/" && body[..2][2..] == "";
        assert depth > 1;
        forall i | 0 <= i <= |body| - 2
          ensures !Closes(body[2..][..i], depth - 1)
        {
          assert body[..i + 2][2..] == body[2..][..i] && body[..i + 2][..2] == "*/";
        }
        OpenComment(body[2..], depth - 1);
      } else {
        forall i | 0 <= i <= |body| - 1
          ensures !Closes(body[1..][..i], depth)
        {
          var part := body[..i + 1];
          assert part[1..] == body[1..][..i];
          assert |part| >= 2 ==> part[..2] == body[..2];
        }
        OpenComment(body[1..], depth);
      }
    }
  }
}
