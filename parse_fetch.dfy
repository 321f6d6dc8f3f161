/** The FETCH response parsers of parse_fetch.py: header fields, the
    message number, RFC822.SIZE, attachment names, and the delegation of
    BODY / BODYSTRUCTURE responses to the part lister. */
module ParseFetch {
  import opened Results
  import opened Text
  import BodyStructure

  // ---------------------------------------------------------------------
  // parse_fields

  /** The lines of a FETCH (BODY[HEADER.FIELDS (...)]) response:
      `data.strip().split('\r\n')`. */
  function FieldLines(data: string): (lines: seq<string>)
    ensures |lines| >= 1
  {
    SplitOn(Strip(data), "\r\n")
  }

  /** `[j.strip() for j in line.split(':', 1)]`: one element when the line
      has no colon, otherwise the stripped text before and after the first
      colon. */
  function FieldPair(line: string): (pair: seq<string>)
    ensures ':' !in line ==> pair == [Strip(line)]
    ensures ':' in line ==> |pair| == 2
  {
    var pieces := SplitFirst(line, ':');
    if |pieces| == 1 then [Strip(pieces[0])] else [Strip(pieces[0]), Strip(pieces[1])]
  }

  /** `dict(pairs)`: the pairs are stored left to right, a later key
      replacing an earlier one; an element that is not a pair raises
      ValueError. */
  function DictOf(pairs: seq<seq<string>>): Result<map<string, string>>
  {
    if pairs == [] then Ok(map[])
    else
      match DictOf(pairs[..|pairs| - 1])
      case Err(e) => Err(e)
      case Ok(m) =>
        var last := pairs[|pairs| - 1];
        if |last| != 2 then Err(ValueError) else Ok(m[last[0] := last[1]])
  }

  /** parse_fields. */
  function ParseFields(data: string): Result<map<string, string>>
  {
    DictOf(FieldPairs(FieldLines(data)))
  }

  /** The header name of a line: the stripped text before its first colon. */
  function FieldName(line: string): string {
    Strip(SplitFirst(line, ':')[0])
  }

  /** The header value of a line: the stripped text after its first colon. */
  function FieldValue(line: string): string
    requires ':' in line
  {
    Strip(SplitFirst(line, ':')[1])
  }

  /** Of the pairs, the result fails exactly when one of them is not a
      pair; otherwise every name is a key, every key comes from a pair, and
      each key holds the value of its last pair. */
  lemma {:induction false} DictOfMeaning(pairs: seq<seq<string>>)
    ensures DictOf(pairs).Err? <==> exists i :: 0 <= i < |pairs| && |pairs[i]| != 2
    ensures DictOf(pairs).Ok? ==>
      && (forall k :: k in DictOf(pairs).value <==> exists i :: 0 <= i < |pairs| && pairs[i][0] == k)
      && (forall i :: 0 <= i < |pairs| && (forall j :: i < j < |pairs| ==> pairs[j][0] != pairs[i][0]) ==>
            DictOf(pairs).value[pairs[i][0]] == pairs[i][1])
  {
    if pairs != [] {
      var n := |pairs| - 1;
      var front := pairs[..n];
      DictOfMeaning(front);
      assert forall i :: 0 <= i < n ==> front[i] == pairs[i];
      if DictOf(front).Ok? && |pairs[n]| == 2 {
        var m := DictOf(front).value;
        forall k | k in DictOf(pairs).value
          ensures exists i :: 0 <= i < |pairs| && pairs[i][0] == k
        {
          if k != pairs[n][0] {
            var i :| 0 <= i < n && front[i][0] == k;
            assert pairs[i][0] == k;
          }
        }
      }
    }
  }

  /** The pairs parse_fields builds, one per line. */
  function FieldPairs(lines: seq<string>): (pairs: seq<seq<string>>)
    ensures |pairs| == |lines|
    ensures forall i :: 0 <= i < |lines| ==> pairs[i] == FieldPair(lines[i])
  {
    seq(|lines|, i requires 0 <= i < |lines| => FieldPair(lines[i]))
  }

  /** parse_fields fails, with ValueError, exactly when a line of the
      stripped input has no colon. */
  lemma ParseFieldsFails(data: string)
    ensures ParseFields(data).Err? <==> exists i :: 0 <= i < |FieldLines(data)| && ':' !in FieldLines(data)[i]
    ensures ParseFields(data).Err? ==> ParseFields(data).error == ValueError
  {
    var lines := FieldLines(data);
    var pairs := FieldPairs(lines);
    assert ParseFields(data) == DictOf(pairs);
    DictOfMeaning(pairs);
    DictOfError(pairs);
    if DictOf(pairs).Err? {
      var i :| 0 <= i < |pairs| && |pairs[i]| != 2;
      FieldPairParts(lines[i]);
    } else {
      forall i | 0 <= i < |lines| ensures ':' in lines[i] {
        FieldPairParts(lines[i]);
      }
    }
  }

  /** The keys of parse_fields' dictionary are exactly the header names of
      the lines. */
  lemma ParseFieldsKeys(data: string)
    ensures ParseFields(data).Ok? ==>
      forall k :: k in ParseFields(data).value <==> exists i :: 0 <= i < |FieldLines(data)| && FieldName(FieldLines(data)[i]) == k
  {
    var lines := FieldLines(data);
    var pairs := FieldPairs(lines);
    assert ParseFields(data) == DictOf(pairs);
    if DictOf(pairs).Ok? {
      var m := DictOf(pairs).value;
      DictOfMeaning(pairs);
      forall k ensures k in m <==> exists i :: 0 <= i < |lines| && FieldName(lines[i]) == k {
        if k in m {
          var i :| 0 <= i < |pairs| && pairs[i][0] == k;
          FieldPairParts(lines[i]);
        }
        if exists i :: 0 <= i < |lines| && FieldName(lines[i]) == k {
          var i :| 0 <= i < |lines| && FieldName(lines[i]) == k;
          FieldPairParts(lines[i]);
          assert pairs[i][0] == k;
        }
      }
    }
  }

  /** A line's value, stripped and with any colon after the first one,
      sits under its header name unless a later line repeats the name. */
  lemma ParseFieldsLastWins(data: string, i: int)
    requires ParseFields(data).Ok? && 0 <= i < |FieldLines(data)|
    requires forall j :: i < j < |FieldLines(data)| ==> FieldName(FieldLines(data)[j]) != FieldName(FieldLines(data)[i])
    ensures ':' in FieldLines(data)[i]
    ensures FieldName(FieldLines(data)[i]) in ParseFields(data).value
    ensures ParseFields(data).value[FieldName(FieldLines(data)[i])] == FieldValue(FieldLines(data)[i])
  {
    var lines := FieldLines(data);
    var pairs := FieldPairs(lines);
    assert ParseFields(data) == DictOf(pairs);
    DictOfMeaning(pairs);
    forall j | i < j < |pairs| ensures pairs[j][0] != pairs[i][0] {
      FieldPairParts(lines[j]);
      FieldPairParts(lines[i]);
    }
    DictOfLast(pairs, i);
    FieldPairParts(lines[i]);
  }

  lemma DictOfLast(pairs: seq<seq<string>>, i: int)
    requires DictOf(pairs).Ok? && 0 <= i < |pairs|
    requires forall j :: 0 <= j < |pairs| ==> |pairs[j]| == 2
    requires forall j :: i < j < |pairs| ==> pairs[j][0] != pairs[i][0]
    ensures pairs[i][0] in DictOf(pairs).value
    ensures DictOf(pairs).value[pairs[i][0]] == pairs[i][1]
  {
    DictOfMeaning(pairs);
  }

  lemma FieldPairParts(line: string)
    ensures FieldPair(line)[0] == FieldName(line)
    ensures |FieldPair(line)| == 2 <==> ':' in line
    ensures ':' in line ==> FieldPair(line)[1] == FieldValue(line)
  {
  }

  lemma {:induction false} DictOfError(pairs: seq<seq<string>>)
    ensures DictOf(pairs).Err? ==> DictOf(pairs).error == ValueError
  {
    if pairs != [] {
      DictOfError(pairs[..|pairs| - 1]);
    }
  }

  /** A header line splits at its first colon only: the value of
      `name: rest` is the stripped `rest`, colons included, when the name
      has no colon. */
  lemma FieldValueKeepsColons(name: string, rest: string)
    requires ':' !in name
    ensures FieldName(name + ":" + rest) == Strip(name)
    ensures FieldValue(name + ":" + rest) == Strip(rest)
  {
    SplitFirstAt(name, rest, ':');
  }

  // ---------------------------------------------------------------------
  // int() of a byte string

  /** Python's `int(s)` for a string: optional surrounding whitespace, an
      optional sign, and at least one decimal digit; ValueError otherwise. */
  function PyInt(s: string): (r: Result<int>)
  {
    var t := Strip(s);
    if t != [] && (t[0] == '+' || t[0] == '-') then
      var digits := t[1..];
      if digits != [] && AllDigits(digits) then
        var v: int := DigitsValue(digits);
        Ok(if t[0] == '-' then -v else v)
      else Err(ValueError)
    else if t != [] && AllDigits(t) then Ok(DigitsValue(t))
    else Err(ValueError)
  }

  /** `int(str(n))` is `n`. */
  lemma PyIntDecimal(n: nat)
    ensures PyInt(DecimalString(n)) == Ok(n)
  {
    DecimalStringValue(n);
    PyIntDigits(DecimalString(n));
  }

  /** `int('-' + str(n))` is `-n`. */
  lemma PyIntNegative(n: nat)
    ensures PyInt("-" + DecimalString(n)) == Ok(-(n as int))
  {
    DecimalStringValue(n);
    PyIntNegativeDigits(DecimalString(n));
  }

  /** `int()` of a run of digits is the number it denotes. */
  lemma PyIntDigits(d: string)
    requires d != [] && AllDigits(d)
    ensures PyInt(d) == Ok(DigitsValue(d))
  {
    assert IsDigit(d[0]) && IsDigit(d[|d| - 1]);
    StripKeeps(d);
  }

  /** `int()` of a minus sign and a run of digits is the negated number. */
  lemma PyIntNegativeDigits(d: string)
    requires d != [] && AllDigits(d)
    ensures PyInt("-" + d) == Ok(-(DigitsValue(d) as int))
  {
    var m := "-" + d;
    assert m[1..] == d;
    assert m[0] == '-' && m[|m| - 1] == d[|d| - 1] && IsDigit(d[|d| - 1]);
    StripKeeps(m);
  }

  /** A text that neither starts nor ends with whitespace is its own strip. */
  lemma StripKeeps(s: string)
    requires s != [] && !IsSpace(s[0]) && !IsSpace(s[|s| - 1])
    ensures Strip(s) == s
  {
  }

  // ---------------------------------------------------------------------
  // parse_message_id

  /** parse_message_id: `int()` of the text before the first space. */
  function ParseMessageId(data: string): Result<int> {
    PyInt(SplitFirst(data, ' ')[0])
  }

  /** The message number is read from the text before the first space, and
      what follows that space does not matter. */
  lemma MessageIdFirstToken(token: string, rest: string)
    requires ' ' !in token
    ensures ParseMessageId(token + " " + rest) == PyInt(token)
    ensures ParseMessageId(token) == PyInt(token)
  {
    SplitFirstAt(token, rest, ' ');
  }

  /** A response `n (FETCH ...)` yields the message number `n`. */
  lemma MessageIdRoundTrip(n: nat, rest: string)
    ensures ParseMessageId(DecimalString(n) + " " + rest) == Ok(n)
  {
    var d := DecimalString(n);
    assert forall i :: 0 <= i < |d| ==> d[i] != ' ';
    MessageIdFirstToken(d, rest);
    PyIntDecimal(n);
  }

  // ---------------------------------------------------------------------
  // parse_rfc822_size: SIZE_RE = 'RFC822.SIZE (\d+)' searched

  /** SIZE_RE matches at `a`: "RFC822", any character but a newline (the
      dot is not escaped), "SIZE " and at least one digit. */
  predicate SizeMatchAt(s: string, a: int) {
    0 <= a && a + 13 <= |s|
    && s[a..a + 6] == "RFC822" && s[a + 6] != '\n' && s[a + 7..a + 12] == "SIZE "
    && IsDigit(s[a + 12])
  }

  /** The leftmost match of SIZE_RE at or after `a`. */
  function FirstSizeMatch(s: string, a: nat): (r: Option<nat>)
    requires a <= |s|
    ensures r.Some? ==> a <= r.value && SizeMatchAt(s, r.value)
    ensures forall b :: a <= b && (r.None? || b < r.value) ==> !SizeMatchAt(s, b)
    decreases |s| - a
  {
    if a == |s| then None
    else if SizeMatchAt(s, a) then Some(a)
    else FirstSizeMatch(s, a + 1)
  }

  /** parse_rfc822_size: `int()` of the digits SIZE_RE captures; when it
      finds nothing, `.group` is called on None. */
  function ParseRfc822Size(data: string): Result<nat> {
    match FirstSizeMatch(data, 0)
    case None => Err(AttributeError)
    case Some(a) => Ok(DigitsValue(data[a + 12..a + 12 + DigitRun(data, a + 12)]))
  }

  /** A response fails exactly when no "RFC822?SIZE <digits>" occurs in it. */
  lemma Rfc822SizeFails(data: string)
    ensures ParseRfc822Size(data).Err? <==> forall a :: !SizeMatchAt(data, a)
    ensures ParseRfc822Size(data).Err? ==> ParseRfc822Size(data).error == AttributeError
  {
  }

  /** The size item `RFC822.SIZE n` reads back as `n` exactly when no match
      starts before it, and no digit follows it. */
  lemma Rfc822SizeRoundTrip(pre: string, n: nat, post: string)
    requires forall b :: 0 <= b < |pre| ==> !SizeMatchAt(pre + "RFC822.SIZE " + DecimalString(n) + post, b)
    requires post == [] || !IsDigit(post[0])
    ensures ParseRfc822Size(pre + "RFC822.SIZE " + DecimalString(n) + post) == Ok(n)
  {
    DecimalStringValue(n);
    SizeDigitsRead(pre, DecimalString(n), post);
  }

  /** The digits after the first "RFC822.SIZE " are read whole. */
  lemma SizeDigitsRead(pre: string, d: string, post: string)
    requires forall b :: 0 <= b < |pre| ==> !SizeMatchAt(pre + "RFC822.SIZE " + d + post, b)
    requires d != [] && AllDigits(d)
    requires post == [] || !IsDigit(post[0])
    ensures ParseRfc822Size(pre + "RFC822.SIZE " + d + post) == Ok(DigitsValue(d))
  {
    var p := pre + "RFC822.SIZE ";
    var s := p + d + post;
    var a := |pre|;
    assert s[..|p|] == p;
    assert s[a..a + 6] == "RFC822" && s[a + 7..a + 12] == "SIZE ";
    RunAt(s, p, d, post);
    assert SizeMatchAt(s, a);
    assert FirstSizeMatch(s, 0) == Some(a);
    assert |p| + |d| < |s| ==> s[|p| + |d|] == post[0];
    DigitRunUnique(s, a + 12, |d|);
    SizeAt(s, a);
  }

  /** No match can start inside a prefix without an "R". */
  lemma NoSizeMatchBefore(pre: string, rest: string)
    requires 'R' !in pre
    ensures forall b :: 0 <= b < |pre| ==> !SizeMatchAt(pre + rest, b)
  {
    forall b | 0 <= b < |pre| ensures !SizeMatchAt(pre + rest, b) {
      assert (pre + rest)[b] == pre[b];
    }
  }

  /** In particular the size reads back when no "R" comes before the
      item. */
  lemma Rfc822SizeAfterPlainText(pre: string, n: nat, post: string)
    requires 'R' !in pre
    requires post == [] || !IsDigit(post[0])
    ensures ParseRfc822Size(pre + "RFC822.SIZE " + DecimalString(n) + post) == Ok(n)
  {
    NoSizeMatchBefore(pre, "RFC822.SIZE " + DecimalString(n) + post);
    assert pre + ("RFC822.SIZE " + DecimalString(n) + post) == pre + "RFC822.SIZE " + DecimalString(n) + post;
    Rfc822SizeRoundTrip(pre, n, post);
  }

  lemma SizeAt(s: string, a: nat)
    requires FirstSizeMatch(s, 0) == Some(a)
    ensures ParseRfc822Size(s) == Ok(DigitsValue(s[a + 12..a + 12 + DigitRun(s, a + 12)]))
  {
  }

  // ---------------------------------------------------------------------
  // get_attachment_names: ATTACHMENTS_RE = '(?<="name"\s").+?(?=")', findall

  /** The look-behind holds at `i`: the eight characters before it are
      `"name"`, one whitespace character and a double quote. */
  predicate NamePrefixAt(s: string, i: int) {
    8 <= i <= |s|
    && s[i - 8..i - 2] == "\"name\"" && IsSpace(s[i - 2]) && s[i - 1] == '"'
  }

  /** ATTACHMENTS_RE matches exactly `s[i..e]`: the look-behind holds, the
      run is non-empty and newline-free, and `e` is the first double quote
      after `i` (the lazy `.+?` stops at the first one the look-ahead
      accepts). */
  predicate NameMatch(s: string, i: int, e: int) {
    NamePrefixAt(s, i) && i < e < |s| && s[e] == '"'
    && (forall k :: i <= k < e ==> s[k] != '\n')
    && (forall k :: i < k < e ==> s[k] != '"')
  }

  /** The end of the match starting at `i`: the first double quote after
      `i`, provided no newline comes first; -1 when there is none. */
  function NameEndFrom(s: string, i: nat, k: nat): (e: int)
    requires i < k <= |s|
    requires forall j :: i <= j < k ==> s[j] != '\n'
    requires forall j :: i < j < k ==> s[j] != '"'
    ensures e == -1 || (k <= e < |s| && s[e] == '"'
      && (forall j :: i <= j < e ==> s[j] != '\n') && (forall j :: i < j < e ==> s[j] != '"'))
    ensures e == -1 ==> forall e' :: k <= e' < |s| && s[e'] == '"' ==> exists j :: k <= j < e' && s[j] == '\n'
    decreases |s| - k
  {
    if k == |s| then -1
    else if s[k] == '"' then k
    else if s[k] == '\n' then -1
    else NameEndFrom(s, i, k + 1)
  }

  /** The end of the match of ATTACHMENTS_RE starting at `i`, or -1. */
  function NameEnd(s: string, i: nat): (e: int)
    requires i <= |s|
    ensures e != -1 ==> NameMatch(s, i, e)
    ensures e == -1 ==> forall e' :: !NameMatch(s, i, e')
  {
    if NamePrefixAt(s, i) && i < |s| && s[i] != '\n' then
      NameEndFrom(s, i, i + 1)
    else -1
  }

  /** The spans findall reports, scanning from `from`: a match at the
      cursor is taken and the scan resumes at its end; otherwise the cursor
      moves on by one. */
  function NameSpans(s: string, from: nat): seq<(nat, nat)>
    requires from <= |s|
    decreases |s| - from
  {
    if from == |s| then []
    else
      var e := NameEnd(s, from);
      if e != -1 then [(from, e as nat)] + NameSpans(s, e) else NameSpans(s, from + 1)
  }

  /** get_attachment_names. */
  function GetAttachmentNames(data: string): seq<string> {
    var spans := NameSpans(data, 0);
    seq(|spans|, j requires 0 <= j < |spans| => if spans[j].0 <= spans[j].1 <= |data| then data[spans[j].0..spans[j].1] else [])
  }

  /** A position strictly inside one of the spans. */
  predicate Covered(spans: seq<(nat, nat)>, p: int) {
    exists j :: 0 <= j < |spans| && spans[j].0 < p < spans[j].1
  }

  /** What findall reports from `from` on: matches in left-to-right order
      that do not overlap. */
  lemma {:induction false} NameSpansSound(s: string, from: nat)
    requires from <= |s|
    ensures forall j :: 0 <= j < |NameSpans(s, from)| ==>
      from <= NameSpans(s, from)[j].0 && NameMatch(s, NameSpans(s, from)[j].0, NameSpans(s, from)[j].1)
    ensures forall j :: 0 <= j < |NameSpans(s, from)| - 1 ==> NameSpans(s, from)[j].1 <= NameSpans(s, from)[j + 1].0
    decreases |s| - from
  {
    if from < |s| {
      var e := NameEnd(s, from);
      if e != -1 {
        NameSpansSound(s, e);
        var rest := NameSpans(s, e);
        var spans := [(from, e as nat)] + rest;
        assert NameSpans(s, from) == spans;
        assert forall j :: 0 < j < |spans| ==> spans[j] == rest[j - 1];
        assert forall j :: 0 <= j < |rest| ==> e <= rest[j].0;
      } else {
        NameSpansSound(s, from + 1);
        assert NameSpans(s, from) == NameSpans(s, from + 1);
      }
    }
  }

  /** findall misses no match: a match starts at every position the scan
      from `from` does not skip over inside an earlier match. */
  lemma {:induction false} NameSpansComplete(s: string, from: nat)
    requires from <= |s|
    ensures var spans := NameSpans(s, from);
      forall p, e :: from <= p && NameMatch(s, p, e) && !Covered(spans, p) ==>
        exists j :: 0 <= j < |spans| && spans[j] == (p, e)
    decreases |s| - from
  {
    if from < |s| {
      var e := NameEnd(s, from);
      if e != -1 {
        var rest := NameSpans(s, e);
        NameSpansComplete(s, e);
        var spans := [(from, e as nat)] + rest;
        assert NameSpans(s, from) == spans;
        forall p, e' | from <= p && NameMatch(s, p, e') && !Covered(spans, p)
          ensures exists j :: 0 <= j < |spans| && spans[j] == (p, e')
        {
          NameSpanStep(s, from, e, rest, spans, p, e');
        }
      } else {
        NameSpansComplete(s, from + 1);
      }
    }
  }

  lemma NameSpanStep(s: string, from: nat, e: nat, rest: seq<(nat, nat)>, spans: seq<(nat, nat)>, p: int, e': int)
    requires from < e && NameMatch(s, from, e)
    requires forall q, f :: e <= q && NameMatch(s, q, f) && !Covered(rest, q) ==>
      exists j :: 0 <= j < |rest| && rest[j] == (q, f)
    requires spans == [(from, e)] + rest
    requires from <= p && NameMatch(s, p, e') && !Covered(spans, p)
    ensures exists j :: 0 <= j < |spans| && spans[j] == (p, e')
  {
    assert spans[0] == (from, e);
    if p == from {
      NameMatchUnique(s, p, e, e');
      assert spans[0] == (p, e');
    } else {
      forall j | 0 <= j < |rest| ensures !(rest[j].0 < p < rest[j].1) {
        assert spans[j + 1] == rest[j];
      }
      assert !Covered(rest, p);
      var j :| 0 <= j < |rest| && rest[j] == (p, e');
      assert spans[j + 1] == (p, e');
    }
  }

  /** A match that starts at `p` has only one end. */
  lemma NameMatchUnique(s: string, p: int, e: int, e': int)
    ensures NameMatch(s, p, e) && NameMatch(s, p, e') ==> e == e'
  {
  }

  /** get_attachment_names: each name is the text of a match, the names
      come in order without overlap, and every match the scan does not
      skip over yields its name. */
  lemma AttachmentNamesMeaning(data: string)
    ensures var spans := NameSpans(data, 0);
      && |GetAttachmentNames(data)| == |spans|
      && (forall j :: 0 <= j < |spans| ==>
            NameMatch(data, spans[j].0, spans[j].1) && GetAttachmentNames(data)[j] == data[spans[j].0..spans[j].1])
      && (forall j :: 0 <= j < |spans| - 1 ==> spans[j].1 <= spans[j + 1].0)
      && (forall p, e :: NameMatch(data, p, e) && !Covered(spans, p) ==>
            exists j :: 0 <= j < |spans| && GetAttachmentNames(data)[j] == data[p..e])
  {
    var spans := NameSpans(data, 0);
    NameSpansSound(data, 0);
    NameSpansComplete(data, 0);
    var names := GetAttachmentNames(data);
    forall p, e | NameMatch(data, p, e) && !Covered(spans, p)
      ensures exists j :: 0 <= j < |spans| && names[j] == data[p..e]
    {
      var j :| 0 <= j < |spans| && spans[j] == (p, e);
      assert names[j] == data[p..e];
    }
  }

  /** A name element `("name" "x")` of a body structure yields `x`. */
  lemma OneAttachmentName(x: string)
    requires x != [] && '"' !in x && '\n' !in x
    ensures GetAttachmentNames("(\"name\" \"" + x + "\")") == [x]
  {
    var s := "(\"name\" \"" + x + "\")";
    var i := 9;
    var e := 9 + |x|;
    NameItemMatch(x);
    NameSpansSound(s, 0);
    NameSpansComplete(s, 0);
    var spans := NameSpans(s, 0);
    forall j | 0 <= j < |spans| ensures spans[j] == (i, e) {
      NameItemOnlyMatch(x, spans[j].0, spans[j].1);
    }
    assert !Covered(spans, i);
    SingleSpan(spans, i, e);
    assert s[i..e] == x;
  }

  /** The name element has a match right after its opening quote. */
  lemma NameItemMatch(x: string)
    requires x != [] && '"' !in x && '\n' !in x
    ensures NameMatch("(\"name\" \"" + x + "\")", 9, 9 + |x|)
  {
    var s := "(\"name\" \"" + x + "\")";
    assert s[1..7] == "\"name\"";
    assert forall k :: 9 <= k < 9 + |x| ==> s[k] == x[k - 9];
  }

  /** ... and no match anywhere else. */
  lemma NameItemOnlyMatch(x: string, p: int, e': int)
    requires x != [] && '"' !in x && '\n' !in x
    requires NameMatch("(\"name\" \"" + x + "\")", p, e')
    ensures p == 9 && e' == 9 + |x|
  {
    var s := "(\"name\" \"" + x + "\")";
    NameItemQuotes(x, p - 1);
    NameItemMatch(x);
    NameMatchUnique(s, 9, 9 + |x|, e');
  }

  /** Where the name element holds double quotes. */
  lemma NameItemQuotes(x: string, k: int)
    requires '"' !in x
    requires 0 <= k < |x| + 11 && ("(\"name\" \"" + x + "\")")[k] == '"'
    ensures k == 1 || k == 6 || k == 8 || k == 9 + |x|
  {
    var s := "(\"name\" \"" + x + "\")";
    assert forall k' :: 9 <= k' < 9 + |x| ==> s[k'] == x[k' - 9];
  }

  /** Ordered spans that are all the same non-empty span are one span. */
  lemma SingleSpan(spans: seq<(nat, nat)>, i: nat, e: nat)
    requires |spans| >= 1 && i < e
    requires forall j :: 0 <= j < |spans| ==> spans[j] == (i, e)
    requires forall j :: 0 <= j < |spans| - 1 ==> spans[j].1 <= spans[j + 1].0
    ensures |spans| == 1
  {
    OrderedFirstTwo(spans);
  }

  lemma OrderedFirstTwo(spans: seq<(nat, nat)>)
    requires forall j :: 0 <= j < |spans| - 1 ==> spans[j].1 <= spans[j + 1].0
    ensures |spans| >= 2 ==> spans[0].1 <= spans[1].0
  {
  }

  // ---------------------------------------------------------------------
  // parse_bodystructure

  /** parse_bodystructure of parse_fetch.py hands the response to the part
      lister unchanged. */
  method ParseBodystructure(data: string) returns (r: Result<Option<seq<string>>>)
    ensures r == BodyStructure.BodyStructureListing(data)
  {
    r := BodyStructure.ParseBodystructure(data);
  }
}
