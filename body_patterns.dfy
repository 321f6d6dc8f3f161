/** The three fixed regular expressions of bodystructure.py, written out as
    predicates over the response text: the BODY envelope gate
    (BODYSTRUCTURE_RE), a quoted top-level content type (CONTENT_TYPE_RE)
    and a quoted multipart subtype (MULTIPART_SUBTYPE_RE). */
module BodyPatterns {
  import opened Text

  /** The multipart subtypes the lister recognises (SUBTYPES). */
  const Subtypes: seq<string> := ["MIXED", "MESSAGE", "DIGEST", "ALTERNATIVE", "RELATED",
                                   "REPORT", "SIGNED", "ENCRYPTED", "FORM DATA"]

  /** `u in names` for a list, compared element by element. */
  function Member(u: string, names: seq<string>): bool {
    names != [] && (names[0] == u || Member(u, names[1..]))
  }

  lemma {:induction false} MemberMeaning(u: string, names: seq<string>)
    ensures Member(u, names) <==> u in names
  {
    if names != [] {
      assert names == [names[0]] + names[1..];
      MemberMeaning(u, names[1..]);
    }
  }

  /** The top-level content types that make a group a leaf part. */
  const ContentTypes: seq<string> := ["TEXT", "APPLICATION", "IMAGE", "VIDEO", "AUDIO"]

  predicate NoEmptyKeyword(keywords: seq<string>) {
    forall k :: k in keywords ==> k != []
  }

  // ---------------------------------------------------------------------
  // \s*"(K1|K2|...)" with re.I, anchored at the start (re.match)

  /** The first index at or after `i` that does not hold whitespace. */
  function SkipSpaces(s: string, i: nat): (j: nat)
    requires i <= |s|
    ensures i <= j <= |s| && (j < |s| ==> !IsSpace(s[j]))
    ensures forall k :: i <= k < j ==> IsSpace(s[k])
    decreases |s| - i
  {
    if i < |s| && IsSpace(s[i]) then SkipSpaces(s, i + 1) else i
  }

  /** What it means for `\s*"(K1|...|Kn)"` to match at the start of `s`
      ignoring ASCII case: whitespace up to `j`, a double quote, `n`
      characters that upper-case to one of the keywords, a double quote. */
  predicate KeywordMatch(s: string, keywords: seq<string>, j: int, n: int) {
    0 <= j && 0 <= n && j + 1 + n < |s|
    && (forall i :: 0 <= i < j ==> IsSpace(s[i])) && s[j] == '"'
    && Upper(s[j + 1..j + 1 + n]) in keywords
    && s[j + 1 + n] == '"'
  }

  /** The keyword `k` (compared upper-cased) followed by a double quote at `i`. */
  predicate KeywordAt(s: string, i: nat, k: string) {
    i + |k| < |s| && Upper(s[i..i + |k|]) == k && s[i + |k|] == '"'
  }

  /** Regex alternation: the text of the first keyword, in list order, that
      occurs at `i` followed by a double quote, in its original case. */
  function Alternatives(s: string, i: nat, keywords: seq<string>): string {
    if keywords == [] then []
    else if KeywordAt(s, i, keywords[0]) then s[i..i + |keywords[0]|]
    else Alternatives(s, i, keywords[1..])
  }

  lemma {:induction false} AlternativesMeaning(s: string, i: nat, keywords: seq<string>)
    requires NoEmptyKeyword(keywords)
    ensures var r := Alternatives(s, i, keywords);
      && (r != [] ==> i + |r| < |s| && r == s[i..i + |r|] && Upper(r) in keywords && s[i + |r|] == '"')
      && (r == [] ==> forall k :: k in keywords ==> !KeywordAt(s, i, k))
  {
    if keywords != [] {
      var k0 := keywords[0];
      assert keywords == [k0] + keywords[1..];
      if KeywordAt(s, i, k0) {
        assert Alternatives(s, i, keywords) == s[i..i + |k0|];
        assert k0 in keywords;
      } else {
        assert forall k :: k in keywords[1..] ==> k in keywords;
        AlternativesMeaning(s, i, keywords[1..]);
        assert Alternatives(s, i, keywords) == Alternatives(s, i, keywords[1..]);
      }
    }
  }

  /** `group(1)` of `\s*"(K1|...|Kn)"` matched at the start of `s` with
      re.I, or the empty string when it does not match. */
  function QuotedKeyword(s: string, keywords: seq<string>): string {
    var j := SkipSpaces(s, 0);
    if j < |s| && s[j] == '"' then Alternatives(s, j + 1, keywords) else []
  }

  /** QuotedKeyword returns a non-empty text exactly when the pattern
      matches, and then the keyword between the quotes as written. */
  lemma QuotedKeywordMeaning(s: string, keywords: seq<string>)
    requires NoEmptyKeyword(keywords)
    ensures var r := QuotedKeyword(s, keywords);
      && (r != [] ==> KeywordMatch(s, keywords, SkipSpaces(s, 0), |r|) && r == s[SkipSpaces(s, 0) + 1..SkipSpaces(s, 0) + 1 + |r|])
      && (r == [] ==> forall j, n :: !KeywordMatch(s, keywords, j, n))
  {
    var j := SkipSpaces(s, 0);
    if j < |s| && s[j] == '"' {
      AlternativesMeaning(s, j + 1, keywords);
      var r := Alternatives(s, j + 1, keywords);
      if r != [] {
        MatchOfKeyword(s, keywords, j, r);
      }
    }
    forall j', n | KeywordMatch(s, keywords, j', n) ensures QuotedKeyword(s, keywords) != [] {
      MatchFindsKeyword(s, keywords, j', n);
    }
  }

  /** A keyword found between quotes after the leading whitespace is a
      match of the pattern. */
  lemma MatchOfKeyword(s: string, keywords: seq<string>, j: nat, r: string)
    requires j == SkipSpaces(s, 0) && j < |s| && s[j] == '"'
    requires j + 1 + |r| < |s| && r == s[j + 1..j + 1 + |r|] && Upper(r) in keywords && s[j + 1 + |r|] == '"'
    ensures KeywordMatch(s, keywords, j, |r|)
  {
  }

  /** A match of the pattern starts its keyword right after the first
      non-whitespace character, where alternation then finds one. */
  lemma MatchFindsKeyword(s: string, keywords: seq<string>, j: int, n: int)
    requires NoEmptyKeyword(keywords)
    requires KeywordMatch(s, keywords, j, n)
    ensures j == SkipSpaces(s, 0) && Alternatives(s, j + 1, keywords) != []
  {
    OnlyQuoteAfterSpaces(s, SkipSpaces(s, 0), j);
    KeywordAtMatch(s, keywords, j, n);
    AlternativesFinds(s, j + 1, keywords, Upper(s[j + 1..j + 1 + n]));
  }

  /** When no keyword occurs at `i` followed by a double quote, the
      alternation matches nothing there. */
  lemma {:induction false} AlternativesNone(s: string, i: nat, keywords: seq<string>)
    requires forall k :: k in keywords ==> !KeywordAt(s, i, k)
    ensures Alternatives(s, i, keywords) == []
  {
    if keywords != [] {
      assert keywords[0] in keywords;
      assert forall k :: k in keywords[1..] ==> k in keywords;
      AlternativesNone(s, i, keywords[1..]);
    }
  }

  /** Alternation finds something when one of the keywords occurs. */
  lemma {:induction false} AlternativesFinds(s: string, i: nat, keywords: seq<string>, k: string)
    requires NoEmptyKeyword(keywords) && k in keywords && KeywordAt(s, i, k)
    ensures Alternatives(s, i, keywords) != []
  {
    assert keywords[0] in keywords;
    if !KeywordAt(s, i, keywords[0]) {
      assert k in keywords[1..];
      assert forall k' :: k' in keywords[1..] ==> k' in keywords;
      AlternativesFinds(s, i, keywords[1..], k);
    }
  }

  /** A match puts its keyword right after the opening quote. */
  lemma KeywordAtMatch(s: string, keywords: seq<string>, j: nat, n: nat)
    requires KeywordMatch(s, keywords, j, n)
    ensures KeywordAt(s, j + 1, Upper(s[j + 1..j + 1 + n]))
  {
    var k := Upper(s[j + 1..j + 1 + n]);
    assert |k| == n;
  }

  /** A double quote preceded only by whitespace sits at the first
      non-whitespace index. */
  lemma OnlyQuoteAfterSpaces(s: string, j: nat, j': nat)
    requires j == SkipSpaces(s, 0)
    requires j' < |s| && (forall i :: 0 <= i < j' ==> IsSpace(s[i])) && s[j'] == '"'
    ensures j' == j
  {
  }

  /** MULTIPART_SUBTYPE_RE.match(rest).group(1), or '' when it does not
      match. */
  function MultipartSubtype(rest: string): string {
    QuotedKeyword(rest, Subtypes)
  }

  /** The subtype after a ")" is non-empty exactly when optional
      whitespace and a quoted member of SUBTYPES (in any case) follow; it
      is then that member as the text writes it. */
  lemma MultipartSubtypeMeaning(rest: string)
    ensures var r := MultipartSubtype(rest);
      && (r != [] <==> exists j, n :: KeywordMatch(rest, Subtypes, j, n))
      && (r != [] ==> Upper(r) in Subtypes)
      && (r != [] ==> exists j :: KeywordMatch(rest, Subtypes, j, |r|) && r == rest[j + 1..j + 1 + |r|])
  {
    SubtypesNonEmpty();
    QuotedKeywordFound(rest, Subtypes);
  }

  lemma SubtypesNonEmpty()
    ensures NoEmptyKeyword(Subtypes)
  {
  }

  /** QuotedKeywordMeaning with the position of the match left open. */
  lemma QuotedKeywordFound(s: string, keywords: seq<string>)
    requires NoEmptyKeyword(keywords)
    ensures var r := QuotedKeyword(s, keywords);
      && (r != [] <==> exists j, n :: KeywordMatch(s, keywords, j, n))
      && (r != [] ==> Upper(r) in keywords)
      && (r != [] ==> exists j :: KeywordMatch(s, keywords, j, |r|) && r == s[j + 1..j + 1 + |r|])
  {
    QuotedKeywordMeaning(s, keywords);
    var r := QuotedKeyword(s, keywords);
    if r != [] {
      var j := SkipSpaces(s, 0);
      assert KeywordMatch(s, keywords, j, |r|);
    }
  }

  /** CONTENT_TYPE_RE.match(text). */
  function IsContentType(text: string): bool {
    QuotedKeyword(text, ContentTypes) != []
  }

  /** A leaf's text starts with optional whitespace and a quoted top-level
      content type, in any case. */
  lemma ContentTypeMeaning(text: string)
    ensures IsContentType(text) <==> exists j, n :: KeywordMatch(text, ContentTypes, j, n)
  {
    assert NoEmptyKeyword(ContentTypes);
    QuotedKeywordMeaning(text, ContentTypes);
  }

  // ---------------------------------------------------------------------
  // BODYSTRUCTURE_RE = '.*\(BODY\w{0,9} (.*)\)' searched anywhere

  /** What a match of the envelope pattern is: "(BODY" at `a`, `c` word
      characters with `c <= 9`, one space, and a ")" at `e` with no newline
      in between (`.` does not match a newline). */
  predicate EnvelopeMatchAt(s: string, a: int, c: int, e: int) {
    0 <= a && 0 <= c <= 9 && a + 6 + c <= e < |s|
    && s[a..a + 5] == "(BODY"
    && (forall i :: a + 5 <= i < a + 5 + c ==> IsWordChar(s[i]))
    && s[a + 5 + c] == ' '
    && s[e] == ')'
    && (forall i :: a + 6 + c <= i < e ==> s[i] != '\n')
  }

  /** Length of the run of word characters starting at `i`. */
  function WordRun(s: string, i: nat): (n: nat)
    requires i <= |s|
    ensures i + n <= |s|
    ensures forall k :: i <= k < i + n ==> IsWordChar(s[k])
    ensures i + n < |s| ==> !IsWordChar(s[i + n])
    decreases |s| - i
  {
    if i < |s| && IsWordChar(s[i]) then 1 + WordRun(s, i + 1) else 0
  }

  /** A ")" occurs at or after `i` before any newline. */
  function CloseBeforeNewline(s: string, i: nat): (b: bool)
    requires i <= |s|
    ensures b <==> exists e :: i <= e < |s| && s[e] == ')' && forall k :: i <= k < e ==> s[k] != '\n'
    decreases |s| - i
  {
    if i == |s| || s[i] == '\n' then false
    else if s[i] == ')' then true
    else
      var b := CloseBeforeNewline(s, i + 1);
      assert b ==> exists e :: i <= e < |s| && s[e] == ')' && forall k :: i <= k < e ==> s[k] != '\n' by {
        if b {
          var e :| i + 1 <= e < |s| && s[e] == ')' && forall k :: i + 1 <= k < e ==> s[k] != '\n';
          assert forall k :: i <= k < e ==> s[k] != '\n';
        }
      }
      b
  }

  /** The envelope pattern matches with its "(BODY" at `a`. */
  function EnvelopeAt(s: string, a: nat): (b: bool)
    requires a <= |s|
    ensures b <==> exists c, e :: EnvelopeMatchAt(s, a, c, e)
  {
    if a + 5 <= |s| && s[a..a + 5] == "(BODY" then
      var c := WordRun(s, a + 5);
      var b := c <= 9 && a + 5 + c < |s| && s[a + 5 + c] == ' ' && CloseBeforeNewline(s, a + 6 + c);
      assert b ==> exists e :: EnvelopeMatchAt(s, a, c, e) by {
        if b {
          var e :| a + 6 + c <= e < |s| && s[e] == ')' && forall k :: a + 6 + c <= k < e ==> s[k] != '\n';
          assert EnvelopeMatchAt(s, a, c, e);
        }
      }
      assert (exists c', e :: EnvelopeMatchAt(s, a, c', e)) ==> b by {
        if c', e :| EnvelopeMatchAt(s, a, c', e) {
          assert c' == c;
        }
      }
      b
    else
      false
  }

  /** The envelope pattern matches at or after `a`. */
  function EnvelopeFrom(s: string, a: nat): (b: bool)
    requires a <= |s|
    ensures b <==> exists a', c, e :: a <= a' && EnvelopeMatchAt(s, a', c, e)
    decreases |s| - a
  {
    if a == |s| then false
    else if EnvelopeAt(s, a) then true
    else
      var b := EnvelopeFrom(s, a + 1);
      assert (exists a', c, e :: a <= a' && EnvelopeMatchAt(s, a', c, e)) ==> b by {
        if a', c, e :| a <= a' && EnvelopeMatchAt(s, a', c, e) {
          assert a' != a;
        }
      }
      b
  }

  /** BODYSTRUCTURE_RE.search(s) succeeds. */
  function EnvelopeMatches(s: string): bool {
    EnvelopeFrom(s, 0)
  }

  /** The envelope gate holds exactly when the pattern matches somewhere. */
  lemma EnvelopeMatchesMeaning(s: string)
    ensures EnvelopeMatches(s) <==> exists a, c, e :: EnvelopeMatchAt(s, a, c, e)
  {
  }
}
